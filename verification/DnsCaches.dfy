/** The resolver's cache: a map with expiry, bounded by dropping the least recently used key. */
module DnsCaches {
  import opened Octets
  import opened DnsNames

  type Key = (bytes, int)

  datatype Entry = Entry(values: seq<bytes>, expires: int, negative: bool, source: string)

  /** `order` runs from the least to the most recently used key. */
  datatype Cache = Cache(entries: map<Key, Entry>, order: seq<Key>)

  // ---------------------------------------------------------------- lists of keys

  predicate Distinct(order: seq<Key>) {
    forall i, j :: 0 <= i < j < |order| ==> order[i] != order[j]
  }

  function Members(order: seq<Key>): set<Key> {
    set k | k in order
  }

  /** `order.remove(key)` when the key is there. */
  function Remove(order: seq<Key>, key: Key): seq<Key> {
    if order == [] then []
    else if order[0] == key then order[1..]
    else [order[0]] + Remove(order[1..], key)
  }

  lemma MembersCons(order: seq<Key>)
    requires order != []
    ensures Members(order) == {order[0]} + Members(order[1..])
    ensures Distinct(order) ==> order[0] !in Members(order[1..]) && Distinct(order[1..])
  {
    assert order == [order[0]] + order[1..];
  }

  lemma MembersJoin(a: seq<Key>, b: seq<Key>)
    ensures Members(a + b) == Members(a) + Members(b)
  {
  }

  lemma {:induction false} RemoveDistinct(order: seq<Key>, key: Key)
    requires Distinct(order)
    ensures Distinct(Remove(order, key)) && Members(Remove(order, key)) == Members(order) - {key}
    ensures |Remove(order, key)| == |order| - if key in order then 1 else 0
  {
    if order != [] {
      MembersCons(order);
      if order[0] != key {
        RemoveDistinct(order[1..], key);
        var rest := Remove(order[1..], key);
        assert order[0] !in Members(rest);
        MembersJoin([order[0]], rest);
        assert Members([order[0]]) == {order[0]};
      }
    }
  }

  lemma {:induction false} DistinctCount(order: seq<Key>)
    requires Distinct(order)
    ensures |Members(order)| == |order|
  {
    if order != [] {
      DistinctCount(order[1..]);
      MembersCons(order);
    }
  }

  // ---------------------------------------------------------------- one cache

  /** The order lists the keys exactly once each and the bound is kept. */
  predicate Good(c: Cache, maxEntries: nat) {
    Distinct(c.order) && Members(c.order) == c.entries.Keys && |c.entries| <= maxEntries
  }

  /** What the cache answers for a key at a time. */
  function Lookup(c: Cache, key: Key, now: int): Option<Entry> {
    if key in c.entries && c.entries[key].expires > now then Some(c.entries[key]) else None
  }

  function Dropped(c: Cache, key: Key): Cache {
    Cache(c.entries - {key}, Remove(c.order, key))
  }

  function Touched(c: Cache, key: Key): Cache {
    c.(order := Remove(c.order, key) + [key])
  }

  function AfterGet(c: Cache, key: Key, now: int): Cache {
    if key !in c.entries then c
    else if c.entries[key].expires <= now then Dropped(c, key)
    else Touched(c, key)
  }

  /** Room for a key: the least recently used one goes if the key is new and the cache full. */
  function MadeRoom(c: Cache, key: Key, maxEntries: nat): Cache {
    if key in c.entries then c.(order := Remove(c.order, key))
    else if |c.entries| >= maxEntries && c.order != [] then Cache(c.entries - {c.order[0]}, c.order[1..])
    else c
  }

  function AfterPut(c: Cache, key: Key, entry: Entry, maxEntries: nat): Cache {
    var room := MadeRoom(c, key, maxEntries);
    Cache(room.entries[key := entry], room.order + [key])
  }

  lemma DroppedGood(c: Cache, key: Key, maxEntries: nat)
    requires Good(c, maxEntries)
    ensures Good(Dropped(c, key), maxEntries)
  {
    RemoveDistinct(c.order, key);
    SmallerMap(c.entries, key);
  }

  lemma SmallerMap(entries: map<Key, Entry>, key: Key)
    ensures |entries - {key}| == |entries| - if key in entries then 1 else 0
    ensures (entries - {key}).Keys == entries.Keys - {key}
  {
    var smaller := entries - {key};
    assert smaller.Keys == entries.Keys - {key};
    assert |smaller| == |smaller.Keys| && |entries| == |entries.Keys|;
  }

  lemma LargerMap(entries: map<Key, Entry>, key: Key, entry: Entry)
    ensures |entries[key := entry]| == |entries| + if key in entries then 0 else 1
    ensures entries[key := entry].Keys == entries.Keys + {key}
  {
    var larger := entries[key := entry];
    assert larger.Keys == entries.Keys + {key};
    assert |larger| == |larger.Keys| && |entries| == |entries.Keys|;
  }

  lemma Appended(order: seq<Key>, key: Key)
    requires Distinct(order) && key !in Members(order)
    ensures Distinct(order + [key]) && Members(order + [key]) == Members(order) + {key}
  {
  }

  lemma GetGood(c: Cache, key: Key, now: int, maxEntries: nat)
    requires Good(c, maxEntries)
    ensures Good(AfterGet(c, key, now), maxEntries)
  {
    DroppedGood(c, key, maxEntries);
    RemoveDistinct(c.order, key);
    Appended(Remove(c.order, key), key);
  }

  lemma PutGood(c: Cache, key: Key, entry: Entry, maxEntries: nat)
    requires Good(c, maxEntries) && maxEntries > 0
    ensures Good(AfterPut(c, key, entry, maxEntries), maxEntries)
  {
    hide Distinct, Members;
    RoomGood(c, key, maxEntries);
    var room := MadeRoom(c, key, maxEntries);
    Appended(room.order, key);
    LargerMap(room.entries, key, entry);
  }

  lemma RoomGood(c: Cache, key: Key, maxEntries: nat)
    requires Good(c, maxEntries) && maxEntries > 0
    ensures var room := MadeRoom(c, key, maxEntries);
            && Distinct(room.order) && Members(room.order) == room.entries.Keys - {key}
            && |room.entries| <= maxEntries - if key in c.entries then 0 else 1
  {
    hide Distinct, Members;
    if key in c.entries {
      RemoveDistinct(c.order, key);
    } else if |c.entries| >= maxEntries {
      DistinctCount(c.order);
      assert |c.entries| == |c.entries.Keys|;
      MembersCons(c.order);
      SmallerMap(c.entries, c.order[0]);
    }
  }

  // ---------------------------------------------------------------- a map with expiry

  /** A get answers from the map and changes no answer at any later time. */
  lemma GetRefines(c: Cache, key: Key, now: int, other: Key, later: int)
    requires later >= now
    ensures Lookup(AfterGet(c, key, now), other, later) == Lookup(c, other, later)
  {
  }

  /** A put sets its key's answer and changes no other answer, but for the one key that is
      least recently used when a new key meets a full cache. */
  lemma PutRefines(c: Cache, key: Key, entry: Entry, maxEntries: nat, other: Key, now: int)
    requires Good(c, maxEntries)
    ensures var c2 := AfterPut(c, key, entry, maxEntries);
            var evicts := key !in c.entries && |c.entries| >= maxEntries && c.order != [];
            && Lookup(c2, key, now) == (if entry.expires > now then Some(entry) else None)
            && (other != key ==>
                 Lookup(c2, other, now) == if evicts && other == c.order[0] then None else Lookup(c, other, now))
  {
  }

  // ---------------------------------------------------------------- least recently used

  datatype Op = Get(key: Key, now: int) | Put(key: Key, entry: Entry)

  function Do(c: Cache, op: Op, maxEntries: nat): Cache {
    match op
    case Get(key, now) => AfterGet(c, key, now)
    case Put(key, entry) => AfterPut(c, key, entry, maxEntries)
  }

  function DoAll(c: Cache, ops: seq<Op>, maxEntries: nat): Cache
    decreases |ops|
  {
    if ops == [] then c else DoAll(Do(c, ops[0], maxEntries), ops[1..], maxEntries)
  }

  /** The calls that make a key the most recently used: every put, and a get that answers. */
  predicate Touches(c: Cache, op: Op) {
    op.Put? || Lookup(c, op.key, op.now).Some?
  }

  /** The other keys touched since the last touch of `key`, `since` being those so far. */
  function SinceThen(c: Cache, op: Op, key: Key, since: set<Key>): set<Key> {
    if !Touches(c, op) then since else if op.key == key then {} else since + {op.key}
  }

  /** Through all of `ops` the key is not put again nor asked for too late, and at every moment
      fewer than `maxEntries` different other keys have been touched since its own last touch. */
  predicate Undisturbed(c: Cache, key: Key, entry: Entry, since: set<Key>, ops: seq<Op>, maxEntries: nat)
    decreases |ops|
  {
    ops == [] ||
    var op := ops[0];
    && (op.key == key ==> op.Get? && op.now < entry.expires)
    && |SinceThen(c, op, key, since)| < maxEntries
    && Undisturbed(Do(c, op, maxEntries), key, entry, SinceThen(c, op, key, since), ops[1..], maxEntries)
  }

  /** Everything used after `key` is among the keys touched since. */
  predicate Behind(c: Cache, key: Key, since: set<Key>) {
    exists k :: 0 <= k < |c.order| && c.order[k] == key && Members(c.order[k + 1..]) <= since
  }

  lemma {:induction false} RemoveAt(order: seq<Key>, key: Key, k: nat)
    requires Distinct(order) && k < |order| && order[k] == key
    ensures Remove(order, key) == order[..k] + order[k + 1..]
  {
    if k > 0 {
      assert order[0] != key;
      RemoveAt(order[1..], key, k - 1);
      assert order == [order[0]] + order[1..];
      assert order[1..][k - 1 + 1..] == order[k + 1..];
      assert order[..k] == [order[0]] + order[1..][..k - 1];
    } else {
      assert order[..0] == [] && [] + order[1..] == order[1..];
    }
  }

  lemma TailCut(order: seq<Key>, k: nat, j: nat)
    requires k < j < |order|
    ensures var rest := order[..j] + order[j + 1..];
            rest[k] == order[k] && Members(rest[k + 1..]) <= Members(order[k + 1..])
  {
    hide Members;
    var rest := order[..j] + order[j + 1..];
    var before, after := order[k + 1..j], order[j + 1..];
    assert rest[k + 1..] == before + after;
    assert order[k + 1..] == before + ([order[j]] + after);
    MembersJoin(before, after);
    MembersJoin([order[j]], after);
    MembersJoin(before, [order[j]] + after);
  }

  lemma HeadCut(order: seq<Key>, k: nat, j: nat)
    requires j < k < |order|
    ensures var rest := order[..j] + order[j + 1..];
            rest[k - 1] == order[k] && rest[k - 1 + 1..] == order[k + 1..]
  {
  }

  /** Removing another key keeps `key` where it is among the others. */
  lemma BehindRemove(c: Cache, key: Key, since: set<Key>, other: Key)
    requires Distinct(c.order) && Behind(c, key, since) && other != key
    ensures Behind(c.(order := Remove(c.order, other)), key, since)
  {
    hide Distinct, Members, Remove;
    var k :| 0 <= k < |c.order| && c.order[k] == key && Members(c.order[k + 1..]) <= since;
    if other in c.order {
      var j :| 0 <= j < |c.order| && c.order[j] == other;
      RemoveAt(c.order, other, j);
      var rest := c.order[..j] + c.order[j + 1..];
      if j < k {
        HeadCut(c.order, k, j);
        assert rest[k - 1] == key;
      } else {
        TailCut(c.order, k, j);
        assert rest[k] == key;
      }
    } else {
      RemoveAbsent(c.order, other);
    }
  }

  lemma {:induction false} RemoveAbsent(order: seq<Key>, key: Key)
    requires key !in order
    ensures Remove(order, key) == order
  {
    if order != [] {
      RemoveAbsent(order[1..], key);
    }
  }

  lemma BehindAppend(c: Cache, key: Key, since: set<Key>, other: Key)
    requires Behind(c, key, since)
    ensures Behind(c.(order := c.order + [other]), key, since + {other})
  {
    var k :| 0 <= k < |c.order| && c.order[k] == key && Members(c.order[k + 1..]) <= since;
    var longer := c.order + [other];
    assert longer[k] == key && longer[k + 1..] == c.order[k + 1..] + [other];
  }

  lemma BehindLast(c: Cache, order: seq<Key>, key: Key)
    ensures Behind(c.(order := order + [key]), key, {})
  {
    var longer := order + [key];
    assert longer[|order|] == key && longer[|order| + 1..] == [];
  }

  /** A key with fewer than `maxEntries` others behind it survives the making of room. */
  lemma RoomSpares(c: Cache, key: Key, since: set<Key>, other: Key, maxEntries: nat)
    requires Good(c, maxEntries) && key in c.entries && other != key
    requires Behind(c, key, since) && |since + {other}| < maxEntries
    ensures var room := MadeRoom(c, other, maxEntries);
            key in room.entries && room.entries[key] == c.entries[key] && Behind(room, key, since)
  {
    hide Members, Remove;
    if other in c.entries {
      BehindRemove(c, key, since, other);
    } else if |c.entries| >= maxEntries {
      var k :| 0 <= k < |c.order| && c.order[k] == key && Members(c.order[k + 1..]) <= since;
      DistinctCount(c.order);
      assert |c.entries| == |c.entries.Keys|;
      if k == 0 {
        MembersCons(c.order);
        TooMany(c, key, since, other, maxEntries);
      }
      assert c.order[1..][k - 1] == key && c.order[1..][k - 1 + 1..] == c.order[k + 1..];
      MembersCons(c.order);
    }
  }

  lemma TooMany(c: Cache, key: Key, since: set<Key>, other: Key, maxEntries: nat)
    requires |c.entries.Keys| >= maxEntries && c.entries.Keys - {key} <= since && key in c.entries
             && other !in c.entries
    ensures |since + {other}| >= maxEntries
  {
    var others := c.entries.Keys - {key} + {other};
    assert |c.entries.Keys - {key}| == |c.entries.Keys| - 1;
    assert |others| == |c.entries.Keys|;
    SubsetSize(others, since + {other});
  }

  lemma {:induction false} SubsetSize(a: set<Key>, b: set<Key>)
    requires a <= b
    ensures |a| <= |b|
  {
    assert b == a + (b - a);
    assert |a + (b - a)| == |a| + |b - a|;
  }

  /** One call that does not disturb the key leaves its entry in place. */
  lemma DoKeeps(c: Cache, op: Op, key: Key, since: set<Key>, maxEntries: nat)
    requires Good(c, maxEntries) && maxEntries > 0 && key in c.entries && Behind(c, key, since)
    requires op.key == key ==> op.Get? && op.now < c.entries[key].expires
    requires |SinceThen(c, op, key, since)| < maxEntries
    ensures var c2 := Do(c, op, maxEntries);
            && Good(c2, maxEntries) && key in c2.entries && c2.entries[key] == c.entries[key]
            && Behind(c2, key, SinceThen(c, op, key, since))
  {
    hide Distinct, Members, Remove, Behind;
    match op
    case Get(k, now) =>
      GetGood(c, k, now, maxEntries);
      if k == key {
        BehindLast(c, Remove(c.order, key), key);
      } else if k in c.entries {
        BehindRemove(c, key, since, k);
        if c.entries[k].expires > now {
          BehindAppend(c.(order := Remove(c.order, k)), key, since, k);
        } else {
          BehindSame(c.(order := Remove(c.order, k)), Dropped(c, k), key, since);
        }
      }
    case Put(k, entry) =>
      PutGood(c, k, entry, maxEntries);
      RoomSpares(c, key, since, k, maxEntries);
      var room := MadeRoom(c, k, maxEntries);
      BehindAppend(room, key, since, k);
      BehindSame(room.(order := room.order + [k]), AfterPut(c, k, entry, maxEntries), key, since + {k});
  }

  lemma BehindSame(c: Cache, d: Cache, key: Key, since: set<Key>)
    requires Behind(c, key, since) && d.order == c.order
    ensures Behind(d, key, since)
  {
  }

  lemma {:induction false} DoAllKeeps(c: Cache, key: Key, entry: Entry, since: set<Key>, ops: seq<Op>, maxEntries: nat)
    requires Good(c, maxEntries) && maxEntries > 0 && key in c.entries && c.entries[key] == entry
             && Behind(c, key, since)
    requires Undisturbed(c, key, entry, since, ops, maxEntries)
    ensures var c2 := DoAll(c, ops, maxEntries); key in c2.entries && c2.entries[key] == entry
    decreases |ops|
  {
    hide Good, Behind, Do, SinceThen;
    if ops != [] {
      DoKeeps(c, ops[0], key, since, maxEntries);
      DoAllKeeps(Do(c, ops[0], maxEntries), key, entry, SinceThen(c, ops[0], key, since), ops[1..], maxEntries);
    }
  }

  /** Least recently used. After a put, and then any calls during which the key is neither put
      again nor asked for after its time, and fewer than `maxEntries` other keys are touched
      between its own touches, asking for it in time answers with what was put. */
  lemma LeastRecentlyUsed(c: Cache, key: Key, entry: Entry, ops: seq<Op>, maxEntries: nat, now: int)
    requires Good(c, maxEntries) && maxEntries > 0 && now < entry.expires
    requires Undisturbed(AfterPut(c, key, entry, maxEntries), key, entry, {}, ops, maxEntries)
    ensures Lookup(DoAll(AfterPut(c, key, entry, maxEntries), ops, maxEntries), key, now) == Some(entry)
  {
    hide Good, Behind, Undisturbed, DoAll;
    PutGood(c, key, entry, maxEntries);
    var room := MadeRoom(c, key, maxEntries);
    BehindLast(c, room.order, key);
    BehindSame(c.(order := room.order + [key]), AfterPut(c, key, entry, maxEntries), key, {});
    DoAllKeeps(AfterPut(c, key, entry, maxEntries), key, entry, {}, ops, maxEntries);
  }

  // ---------------------------------------------------------------- the cache object

  /** Dropping the first key of the order that the map still has. */
  function OldestDropped(c: Cache): Cache
    decreases |c.order|
  {
    if c.order == [] then c
    else if c.order[0] in c.entries then Cache(c.entries - {c.order[0]}, c.order[1..])
    else OldestDropped(c.(order := c.order[1..]))
  }

  /** In a good cache that is simply the first. */
  lemma OldestIsFirst(c: Cache)
    requires Members(c.order) == c.entries.Keys && c.order != []
    ensures OldestDropped(c) == Cache(c.entries - {c.order[0]}, c.order[1..])
  {
    MembersCons(c.order);
    assert c.order[0] in Members(c.order);
  }

  datatype CacheLimits = CacheLimits(maxEntries: int, negativeTtl: int, minTtl: int, maxTtl: int)

  predicate ValidLimits(limits: CacheLimits) {
    limits.maxEntries > 0 && limits.negativeTtl > 0 && limits.minTtl >= 0 && limits.maxTtl >= limits.minTtl
  }

  class DnsCache {
    const limits: CacheLimits
    var entries: map<Key, Entry>
    var order: seq<Key>

    function View(): Cache
      reads this
    {
      Cache(entries, order)
    }

    ghost predicate Valid()
      reads this
    {
      ValidLimits(limits) && Good(View(), limits.maxEntries)
    }

    constructor (limits: CacheLimits)
      requires ValidLimits(limits)
      ensures Valid() && this.limits == limits && View() == Cache(map[], [])
    {
      this.limits := limits;
      entries, order := map[], [];
    }

    /** `order.remove(key)`. */
    method Forget(key: Key)
      requires Distinct(order)
      modifies this`order
      ensures order == Remove(old(order), key)
    {
      var k := 0;
      while k < |order| && order[k] != key
        invariant k <= |order| && order == old(order)
        invariant forall i :: 0 <= i < k ==> order[i] != key
      {
        k := k + 1;
      }
      if k < |order| {
        RemoveAt(order, key, k);
        order := order[..k] + order[k + 1..];
      } else {
        RemoveAbsent(order, key);
      }
    }

    method GetEntry(name: bytes, qtype: int, now: int) returns (r: Option<Entry>)
      requires Valid()
      modifies this
      ensures Valid() && View() == AfterGet(old(View()), (Canonical(name), qtype), now)
      ensures r == Lookup(old(View()), (Canonical(name), qtype), now)
    {
      hide Canonical;
      var key := (Canonical(name), qtype);
      GetGood(View(), key, now, limits.maxEntries);
      if key !in entries {
        return None;
      }
      var entry := entries[key];
      if entry.expires <= now {
        entries := entries - {key};
        Forget(key);
        return None;
      }
      Forget(key);
      order := order + [key];
      return Some(entry);
    }

    /** Pops keys until one is still in the map, and drops that one. */
    method DropOldest()
      modifies this`entries, this`order
      ensures View() == OldestDropped(old(View()))
    {
      while order != []
        invariant OldestDropped(View()) == OldestDropped(old(View()))
        decreases |order|
      {
        var oldest := order[0];
        order := order[1..];
        if oldest in entries {
          entries := entries - {oldest};
          return;
        }
      }
    }

    method PutEntry(name: bytes, qtype: int, values: seq<bytes>, ttl: int, now: int, negative: bool, source: string)
      returns (entry: Entry)
      requires Valid()
      modifies this
      ensures entry == Entry(values, entry.expires, negative, source)
      ensures negative ==> entry.expires == now + limits.negativeTtl
      ensures !negative ==> now + limits.minTtl <= entry.expires <= now + limits.maxTtl
      ensures !negative && limits.minTtl <= ttl <= limits.maxTtl ==> entry.expires == now + ttl
      ensures !negative && ttl < limits.minTtl ==> entry.expires == now + limits.minTtl
      ensures !negative && ttl > limits.maxTtl ==> entry.expires == now + limits.maxTtl
      ensures now < entry.expires || (!negative && limits.maxTtl == 0) || (!negative && limits.minTtl == 0 && ttl <= 0)
      ensures Valid() && View() == AfterPut(old(View()), (Canonical(name), qtype), entry, limits.maxEntries)
    {
      hide Canonical;
      var key := (Canonical(name), qtype);
      var lifetime := ttl;
      if negative {
        lifetime := limits.negativeTtl;
      } else {
        if lifetime < limits.minTtl {
          lifetime := limits.minTtl;
        }
        if lifetime > limits.maxTtl {
          lifetime := limits.maxTtl;
        }
      }
      entry := Entry(values, now + lifetime, negative, source);
      PutGood(View(), key, entry, limits.maxEntries);
      if key in entries {
        Forget(key);
      } else if |entries| >= limits.maxEntries {
        DistinctCount(order);
        assert |entries| == |entries.Keys|;
        OldestIsFirst(View());
        DropOldest();
      }
      order := order + [key];
      entries := entries[key := entry];
    }
  }
}
