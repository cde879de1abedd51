/** Domain names on the wire: encoding (RFC 1035 section 3.1) and decoding with message
    compression (section 4.1.4). */
module DnsNames {
  import opened Octets

  datatype DnsError = BadName | Truncated | BadCompression | BadLabel

  const DOT: byte := 46
  const HYPHEN: byte := 45
  const MAX_JUMPS := 32

  // ---------------------------------------------------------------- dotted text

  function FirstDot(s: bytes): (k: nat)
    ensures k <= |s| && (forall i :: 0 <= i < k ==> s[i] != DOT) && (k < |s| ==> s[k] == DOT)
  {
    if s == [] || s[0] == DOT then 0 else 1 + FirstDot(s[1..])
  }

  /** `s.split(".")`. */
  function SplitDots(s: bytes): (labels: seq<bytes>)
    ensures labels != []
    decreases |s|
  {
    var k := FirstDot(s);
    if k == |s| then [s] else [s[..k]] + SplitDots(s[k + 1..])
  }

  /** `".".join(labels)`. */
  function JoinDots(labels: seq<bytes>): bytes {
    if labels == [] then []
    else if |labels| == 1 then labels[0]
    else labels[0] + [DOT] + JoinDots(labels[1..])
  }

  lemma {:induction false} JoinSplit(s: bytes)
    ensures JoinDots(SplitDots(s)) == s
    decreases |s|
  {
    var k := FirstDot(s);
    if k < |s| {
      JoinSplit(s[k + 1..]);
      var labels := SplitDots(s);
      assert labels[1..] == SplitDots(s[k + 1..]);
      assert s == s[..k] + [DOT] + s[k + 1..];
    }
  }

  /** `s.rstrip(".")`. */
  function StripDots(s: bytes): bytes {
    if s != [] && s[|s| - 1] == DOT then StripDots(s[..|s| - 1]) else s
  }

  // ---------------------------------------------------------------- encoding

  predicate NameByte(b: byte) {
    48 <= b <= 57 || 65 <= b <= 90 || 97 <= b <= 122 || b == HYPHEN
  }

  predicate GoodLabel(raw: bytes) {
    && 0 < |raw| <= 63 && raw[0] != HYPHEN && raw[|raw| - 1] != HYPHEN
    && forall i :: 0 <= i < |raw| ==> NameByte(raw[i])
  }

  predicate GoodLabels(labels: seq<bytes>) {
    forall i :: 0 <= i < |labels| ==> GoodLabel(labels[i])
  }

  function LabelBytes(raw: bytes): bytes
    requires |raw| <= 63
  {
    [|raw|] + raw
  }

  function WireLabels(labels: seq<bytes>): bytes
    requires GoodLabels(labels)
  {
    if labels == [] then [] else LabelBytes(labels[0]) + WireLabels(labels[1..])
  }

  /** The lower-case name without trailing dots. */
  function Canonical(name: bytes): bytes {
    Lower(StripDots(name))
  }

  predicate GoodName(name: bytes) {
    var canonical := Canonical(name);
    0 < |canonical| <= 253 && GoodLabels(SplitDots(canonical))
  }

  function Wire(name: bytes): bytes
    requires GoodName(name)
  {
    WireLabels(SplitDots(Canonical(name))) + [0]
  }

  method CheckLabel(raw: bytes) returns (good: bool)
    ensures good == GoodLabel(raw)
  {
    if |raw| == 0 || |raw| > 63 {
      return false;
    }
    if raw[0] == HYPHEN || raw[|raw| - 1] == HYPHEN {
      return false;
    }
    for i := 0 to |raw|
      invariant forall j :: 0 <= j < i ==> NameByte(raw[j])
    {
      if !NameByte(raw[i]) {
        return false;
      }
    }
    return true;
  }

  lemma WireLabelsMore(labels: seq<bytes>, k: nat)
    requires k < |labels| && GoodLabels(labels[..k]) && GoodLabel(labels[k])
    ensures GoodLabels(labels[..k + 1])
    ensures WireLabels(labels[..k + 1]) == WireLabels(labels[..k]) + LabelBytes(labels[k])
  {
    assert labels[..k + 1] == labels[..k] + [labels[k]];
    WireLabelsAppend(labels[..k], labels[k]);
  }

  lemma {:induction false} WireLabelsAppend(labels: seq<bytes>, last: bytes)
    requires GoodLabels(labels) && GoodLabel(last)
    ensures GoodLabels(labels + [last]) && WireLabels(labels + [last]) == WireLabels(labels) + LabelBytes(last)
  {
    hide GoodLabel;
    if labels == [] {
      var one: seq<bytes> := [last];
      assert labels + one == one && one[1..] == [];
      GoodLength(last);
      assert WireLabels(one) == LabelBytes(last) + WireLabels(one[1..]);
    } else {
      assert (labels + [last])[1..] == labels[1..] + [last];
      WireLabelsAppend(labels[1..], last);
    }
  }

  /** Accepts exactly the names of 1 to 253 bytes whose labels are letters, digits and inner
      hyphens, at most 63 each; trailing dots and case do not matter. */
  method EncodeName(name: bytes) returns (r: Result<bytes, DnsError>)
    ensures r == if GoodName(name) then Ok(Wire(name)) else Err(BadName)
  {
    hide GoodLabel, SplitDots, LabelBytes, Lower, StripDots;
    var canonical := Canonical(name);
    if |canonical| == 0 || |canonical| > 253 {
      return Err(BadName);
    }
    var labels := SplitDots(canonical);
    var output: bytes := [];
    for k := 0 to |labels|
      invariant GoodLabels(labels[..k]) && output == WireLabels(labels[..k])
    {
      var good := CheckLabel(labels[k]);
      if !good {
        return Err(BadName);
      }
      WireLabelsMore(labels, k);
      GoodLength(labels[k]);
      output := output + LabelBytes(labels[k]);
    }
    assert labels[..|labels|] == labels;
    return Ok(output + [0]);
  }

  lemma GoodLength(raw: bytes)
    requires GoodLabel(raw)
    ensures 0 < |raw| <= 63
  {
  }

  lemma LowerTwice(s: bytes)
    ensures Lower(Lower(s)) == Lower(s)
  {
  }

  lemma {:induction false} StripLowered(s: bytes)
    ensures StripDots(Lower(s)) == Lower(StripDots(s))
    decreases |s|
  {
    if s != [] {
      var init := s[..|s| - 1];
      assert Lower(s)[..|s| - 1] == Lower(init);
      assert Lower(s)[|s| - 1] == DOT <==> s[|s| - 1] == DOT;
      StripLowered(init);
    }
  }

  /** Trailing dots and case do not matter to a name, and nothing else is changed. */
  lemma SameName(name: bytes)
    ensures Canonical(name + [DOT]) == Canonical(name) && Canonical(Lower(name)) == Canonical(name)
    ensures Lower(name) == name && (name != [] ==> name[|name| - 1] != DOT) ==> Canonical(name) == name
  {
    assert (name + [DOT])[..|name|] == name;
    StripLowered(name);
    LowerTwice(StripDots(name));
  }

  lemma {:induction false} WireLabelsLength(labels: seq<bytes>)
    requires GoodLabels(labels)
    ensures labels != [] ==> |WireLabels(labels)| == |JoinDots(labels)| + 1
  {
    if |labels| > 1 {
      WireLabelsLength(labels[1..]);
    } else if |labels| == 1 {
      assert labels[1..] == [];
    }
  }

  /** A name takes two bytes more on the wire than in text, and no more than 255. */
  lemma WireLength(name: bytes)
    requires GoodName(name)
    ensures |Wire(name)| == |Canonical(name)| + 2 <= 255
  {
    hide WireLabels, JoinDots, SplitDots, Canonical;
    JoinSplit(Canonical(name));
    WireLabelsLength(SplitDots(Canonical(name)));
  }

  // ---------------------------------------------------------------- what a compressed name is

  /** A reading of the bytes at an offset, by the rules of section 4.1.4. */
  datatype Reading = Root | Labelled(raw: bytes, rest: Reading) | Jump(target: nat, rest: Reading)

  function Target(high: byte, low: byte): nat {
    (high % 64) * 256 + low
  }

  /** The bytes of the message at `offset` read as `n`. */
  predicate Reads(data: bytes, offset: nat, n: Reading)
    decreases n
  {
    && offset < |data|
    && match n
       case Root => data[offset] == 0
       case Labelled(raw, rest) =>
         var end := offset + 1 + data[offset];
         0 < data[offset] < 64 && end <= |data| && raw == data[offset + 1..end] && Reads(data, end, rest)
       case Jump(target, rest) =>
         && data[offset] >= 192 && offset + 1 < |data| && target == Target(data[offset], data[offset + 1])
         && Reads(data, target, rest)
  }

  function Labels(n: Reading): seq<bytes> {
    match n
    case Root => []
    case Labelled(raw, rest) => [raw] + Labels(rest)
    case Jump(_, rest) => Labels(rest)
  }

  function Jumps(n: Reading): seq<nat> {
    match n
    case Root => []
    case Labelled(_, rest) => Jumps(rest)
    case Jump(target, rest) => [target] + Jumps(rest)
  }

  /** Where the message goes on: after the root label, or after the first pointer. */
  function After(offset: nat, n: Reading): nat
    decreases n
  {
    match n
    case Root => offset + 1
    case Labelled(raw, rest) => After(offset + 1 + |raw|, rest)
    case Jump(_, _) => offset + 2
  }

  /** A pointer, two set bits and fourteen bits of offset, reads as the name it was written for. */
  lemma PointerReads(data: bytes, at: nat, target: nat, n: Reading)
    requires at + 1 < |data| && target < 0x4000
    requires data[at] == 192 + target / 256 && data[at + 1] == target % 256
    ensures Reads(data, at, Jump(target, n)) <==> Reads(data, target, n)
    ensures forall other :: Reads(data, at, Jump(other, n)) ==> other == target
    ensures After(at, Jump(target, n)) == at + 2 && Labels(Jump(target, n)) == Labels(n)
  {
    assert Target(data[at], data[at + 1]) == target;
  }

  predicate Ascii(s: bytes) {
    forall i :: 0 <= i < |s| ==> s[i] < 128
  }

  predicate AllAscii(labels: seq<bytes>) {
    forall i :: 0 <= i < |labels| ==> Ascii(labels[i])
  }

  function LowerAll(labels: seq<bytes>): (r: seq<bytes>)
    ensures |r| == |labels| && forall i :: 0 <= i < |labels| ==> r[i] == Lower(labels[i])
  {
    seq(|labels|, i requires 0 <= i < |labels| => Lower(labels[i]))
  }

  /** Bytes can be read in one way at most. */
  lemma {:induction false} ReadingUnique(data: bytes, offset: nat, a: Reading, b: Reading)
    requires Reads(data, offset, a) && Reads(data, offset, b)
    ensures a == b
    decreases a
  {
    match a
    case Root =>
    case Labelled(raw, rest) => ReadingUnique(data, offset + 1 + data[offset], rest, b.rest);
    case Jump(target, rest) => ReadingUnique(data, target, rest, b.rest);
  }

  function Size(n: Reading): nat {
    match n
    case Root => 0
    case Labelled(_, rest) => 1 + Size(rest)
    case Jump(_, rest) => 1 + Size(rest)
  }

  /** Every pointer of a reading leads to a strictly smaller one. */
  lemma {:induction false} JumpReads(data: bytes, offset: nat, n: Reading, k: nat) returns (m: Reading)
    requires Reads(data, offset, n) && k < |Jumps(n)|
    ensures Reads(data, Jumps(n)[k], m) && Size(m) < Size(n)
    decreases n
  {
    match n
    case Labelled(raw, rest) => m := JumpReads(data, offset + 1 + data[offset], rest, k);
    case Jump(target, rest) =>
      if k == 0 {
        m := rest;
      } else {
        m := JumpReads(data, target, rest, k - 1);
      }
  }

  /** So no pointer target repeats: a message whose pointers loop has no reading at all. */
  lemma {:induction false} JumpsDistinct(data: bytes, offset: nat, n: Reading)
    requires Reads(data, offset, n)
    ensures forall i, j :: 0 <= i < j < |Jumps(n)| ==> Jumps(n)[i] != Jumps(n)[j]
    decreases n
  {
    match n
    case Root =>
    case Labelled(raw, rest) => JumpsDistinct(data, offset + 1 + data[offset], rest);
    case Jump(target, rest) =>
      JumpsDistinct(data, target, rest);
      forall j | 0 <= j < |Jumps(rest)| ensures Jumps(rest)[j] != target {
        var m := JumpReads(data, target, rest, j);
        if Jumps(rest)[j] == target {
          ReadingUnique(data, target, m, rest);
        }
      }
  }

  // ---------------------------------------------------------------- decoding

  type Decoded = Result<(seq<bytes>, nat), DnsError>

  /** The decoding loop from `cursor`, after the pointers in `visited`. */
  function DecodeFrom(data: bytes, cursor: nat, visited: seq<nat>): Decoded
    requires |visited| <= MAX_JUMPS
    decreases MAX_JUMPS - |visited|, |data| - cursor
  {
    if cursor >= |data| then Err(Truncated)
    else
      var length := data[cursor];
      if length >= 192 then
        if cursor + 1 >= |data| then Err(Truncated)
        else
          var pointer := Target(length, data[cursor + 1]);
          if pointer >= |data| || pointer in visited then Err(BadCompression)
          else if |visited| + 1 > MAX_JUMPS then Err(BadCompression)
          else
            match DecodeFrom(data, pointer, visited + [pointer])
            case Err(e) => Err(e)
            case Ok((labels, _)) => Ok((labels, cursor + 2))
      else if length >= 64 then Err(BadLabel)
      else if length == 0 then Ok(([], cursor + 1))
      else
        var end := cursor + 1 + length;
        if end > |data| then Err(Truncated)
        else if !Ascii(data[cursor + 1..end]) then Err(BadName)
        else
          match DecodeFrom(data, end, visited)
          case Err(e) => Err(e)
          case Ok((labels, next)) => Ok(([Lower(data[cursor + 1..end])] + labels, next))
  }

  /** `decode_name(data, offset)`. */
  function Decode(data: bytes, offset: nat): Result<(bytes, nat), DnsError> {
    match DecodeFrom(data, offset, [])
    case Err(e) => Err(e)
    case Ok((labels, next)) => Ok((JoinDots(labels), next))
  }

  /** What the loop has so far, in front of what it will still find. */
  function Prepended(labels: seq<bytes>, next: Option<nat>, rest: Decoded): Decoded {
    match rest
    case Err(e) => Err(e)
    case Ok((more, after)) => Ok((labels + more, if next.Some? then next.value else after))
  }

  lemma PrependedNothing(rest: Decoded)
    ensures Prepended([], None, rest) == rest
  {
    if rest.Ok? {
      assert [] + rest.value.0 == rest.value.0;
    }
  }

  lemma PrependedLabel(labels: seq<bytes>, next: Option<nat>, one: bytes, rest: Decoded)
    ensures Prepended(labels, next,
              match rest case Err(e) => Err(e) case Ok((more, after)) => Ok(([one] + more, after)))
            == Prepended(labels + [one], next, rest)
  {
    if rest.Ok? {
      assert labels + ([one] + rest.value.0) == labels + [one] + rest.value.0;
    }
  }

  method CheckAscii(raw: bytes) returns (ascii: bool)
    ensures ascii == Ascii(raw)
  {
    for i := 0 to |raw|
      invariant forall j :: 0 <= j < i ==> raw[j] < 128
    {
      if raw[i] >= 128 {
        return false;
      }
    }
    return true;
  }

  method DecodeName(data: bytes, offset: nat) returns (r: Result<(bytes, nat), DnsError>)
    ensures r == Decode(data, offset)
  {
    hide Lower, JoinDots, Ascii;
    var labels: seq<bytes> := [];
    var cursor: nat := offset;
    var next: Option<nat> := None;
    var visited: seq<nat> := [];
    PrependedNothing(DecodeFrom(data, offset, []));
    while true
      invariant |visited| <= MAX_JUMPS
      invariant DecodeFrom(data, offset, []) == Prepended(labels, next, DecodeFrom(data, cursor, visited))
      decreases MAX_JUMPS - |visited|, |data| - cursor
    {
      if cursor >= |data| {
        return Err(Truncated);
      }
      var length := data[cursor];
      if length >= 192 {
        if cursor + 1 >= |data| {
          return Err(Truncated);
        }
        var pointer := Target(length, data[cursor + 1]);
        if pointer >= |data| || pointer in visited {
          return Err(BadCompression);
        }
        if |visited| + 1 > MAX_JUMPS {
          return Err(BadCompression);
        }
        visited := visited + [pointer];
        if next.None? {
          next := Some(cursor + 2);
        }
        cursor := pointer;
      } else if length >= 64 {
        return Err(BadLabel);
      } else if length == 0 {
        cursor := cursor + 1;
        assert labels + [] == labels;
        return Ok((JoinDots(labels), if next.Some? then next.value else cursor));
      } else {
        var end := cursor + 1 + length;
        if end > |data| {
          return Err(Truncated);
        }
        var raw := data[cursor + 1..end];
        var ascii := CheckAscii(raw);
        if !ascii {
          return Err(BadName);
        }
        PrependedLabel(labels, next, Lower(raw), DecodeFrom(data, end, visited));
        labels := labels + [Lower(raw)];
        cursor := end;
      }
    }
  }

  // ---------------------------------------------------------------- decoding is reading

  predicate Fresh(n: Reading, visited: seq<nat>) {
    forall k :: 0 <= k < |Jumps(n)| ==> Jumps(n)[k] !in visited
  }

  /** What the decoder accepts is a reading, with these labels and this next offset. */
  lemma {:induction false} DecodedReads(data: bytes, cursor: nat, visited: seq<nat>) returns (n: Reading)
    requires |visited| <= MAX_JUMPS && DecodeFrom(data, cursor, visited).Ok?
    ensures Reads(data, cursor, n) && AllAscii(Labels(n)) && |visited| + |Jumps(n)| <= MAX_JUMPS
    ensures DecodeFrom(data, cursor, visited) == Ok((LowerAll(Labels(n)), After(cursor, n)))
    decreases MAX_JUMPS - |visited|, |data| - cursor
  {
    hide Lower, Ascii;
    var length := data[cursor];
    if length >= 192 {
      var pointer := Target(length, data[cursor + 1]);
      var rest := DecodedReads(data, pointer, visited + [pointer]);
      n := Jump(pointer, rest);
    } else if length == 0 {
      n := Root;
    } else {
      var end := cursor + 1 + length;
      var raw := data[cursor + 1..end];
      var rest := DecodedReads(data, end, visited);
      n := Labelled(raw, rest);
      assert LowerAll([raw] + Labels(rest)) == [Lower(raw)] + LowerAll(Labels(rest));
    }
  }

  /** And every reading within the limits is accepted. */
  lemma {:induction false} ReadsDecoded(data: bytes, cursor: nat, visited: seq<nat>, n: Reading)
    requires Reads(data, cursor, n) && AllAscii(Labels(n)) && |visited| + |Jumps(n)| <= MAX_JUMPS && Fresh(n, visited)
    ensures DecodeFrom(data, cursor, visited) == Ok((LowerAll(Labels(n)), After(cursor, n)))
    decreases n
  {
    hide Lower, Ascii, DecodeFrom, Reads, Fresh;
    match n
    case Root =>
      RootParts(data, cursor);
      DecodeRoot(data, cursor, visited);
    case Labelled(raw, rest) =>
      LabelledParts(data, cursor, visited, n);
      ReadsDecoded(data, cursor + 1 + data[cursor], visited, rest);
      assert LowerAll([raw] + Labels(rest)) == [Lower(raw)] + LowerAll(Labels(rest));
      DecodeLabelled(data, cursor, visited);
    case Jump(target, rest) =>
      JumpParts(data, cursor, n);
      FreshRest(data, cursor, visited, n);
      ReadsDecoded(data, target, visited + [target], rest);
      DecodeJump(data, cursor, visited);
  }

  lemma RootParts(data: bytes, cursor: nat)
    requires Reads(data, cursor, Root)
    ensures cursor < |data| && data[cursor] == 0
  {
  }

  lemma LabelledParts(data: bytes, cursor: nat, visited: seq<nat>, n: Reading)
    requires n.Labelled? && Reads(data, cursor, n) && AllAscii(Labels(n)) && Fresh(n, visited)
    ensures cursor < |data| && 0 < data[cursor] < 64 && cursor + 1 + data[cursor] <= |data|
    ensures n.raw == data[cursor + 1..cursor + 1 + data[cursor]] && Ascii(n.raw)
    ensures Reads(data, cursor + 1 + data[cursor], n.rest) && AllAscii(Labels(n.rest)) && Fresh(n.rest, visited)
  {
    hide Ascii;
    assert Jumps(n) == Jumps(n.rest);
    var labels := Labels(n);
    assert labels[0] == n.raw && forall i :: 0 <= i < |Labels(n.rest)| ==> labels[i + 1] == Labels(n.rest)[i];
  }

  lemma JumpParts(data: bytes, cursor: nat, n: Reading)
    requires n.Jump? && Reads(data, cursor, n)
    ensures cursor + 1 < |data| && data[cursor] >= 192 && n.target == Target(data[cursor], data[cursor + 1])
    ensures Reads(data, n.target, n.rest) && n.target < |data|
  {
  }

  lemma FreshRest(data: bytes, cursor: nat, visited: seq<nat>, n: Reading)
    requires n.Jump? && Reads(data, cursor, n) && Fresh(n, visited)
    ensures n.target !in visited && Fresh(n.rest, visited + [n.target])
  {
    hide Reads;
    JumpsDistinct(data, cursor, n);
    var jumps := Jumps(n);
    assert jumps[0] == n.target && forall i :: 0 <= i < |Jumps(n.rest)| ==> jumps[i + 1] == Jumps(n.rest)[i];
  }

  lemma DecodeRoot(data: bytes, cursor: nat, visited: seq<nat>)
    requires |visited| <= MAX_JUMPS && cursor < |data| && data[cursor] == 0
    ensures DecodeFrom(data, cursor, visited) == Ok(([], cursor + 1))
  {
  }

  lemma DecodeLabelled(data: bytes, cursor: nat, visited: seq<nat>)
    requires |visited| <= MAX_JUMPS && cursor < |data| && 0 < data[cursor] < 64 && cursor + 1 + data[cursor] <= |data|
    requires var end := cursor + 1 + data[cursor];
             Ascii(data[cursor + 1..end]) && DecodeFrom(data, end, visited).Ok?
    ensures var end := cursor + 1 + data[cursor]; var rest := DecodeFrom(data, end, visited).value;
            DecodeFrom(data, cursor, visited) == Ok(([Lower(data[cursor + 1..end])] + rest.0, rest.1))
  {
    hide Lower, Ascii;
  }

  lemma DecodeJump(data: bytes, cursor: nat, visited: seq<nat>)
    requires |visited| < MAX_JUMPS && cursor + 1 < |data| && data[cursor] >= 192
    requires var target := Target(data[cursor], data[cursor + 1]);
             target < |data| && target !in visited && DecodeFrom(data, target, visited + [target]).Ok?
    ensures var target := Target(data[cursor], data[cursor + 1]);
            DecodeFrom(data, cursor, visited) == Ok((DecodeFrom(data, target, visited + [target]).value.0, cursor + 2))
  {
    hide Target, Ascii, Lower;
  }

  predicate Readable(data: bytes, offset: nat, n: Reading) {
    Reads(data, offset, n) && AllAscii(Labels(n)) && |Jumps(n)| <= MAX_JUMPS
  }

  /** The decoder accepts exactly the offsets that read as a name of ASCII labels through at
      most 32 pointers, and returns that reading's labels in lower case, joined by dots, with
      the offset after it. */
  lemma DecodeExactly(data: bytes, offset: nat)
    ensures Decode(data, offset).Ok? <==> exists n :: Readable(data, offset, n)
    ensures forall n :: Readable(data, offset, n) ==>
              Decode(data, offset) == Ok((JoinDots(LowerAll(Labels(n))), After(offset, n)))
  {
    hide Lower, Ascii, JoinDots, Reads;
    forall n | Readable(data, offset, n)
      ensures Decode(data, offset) == Ok((JoinDots(LowerAll(Labels(n))), After(offset, n)))
    {
      ReadsDecoded(data, offset, [], n);
    }
    if Decode(data, offset).Ok? {
      var n := DecodedReads(data, offset, []);
      assert Readable(data, offset, n);
    }
  }

  // ---------------------------------------------------------------- decoding inverts encoding

  function Uncompressed(labels: seq<bytes>): Reading {
    if labels == [] then Root else Labelled(labels[0], Uncompressed(labels[1..]))
  }

  lemma {:induction false} WireReads(pre: bytes, labels: seq<bytes>, post: bytes)
    requires GoodLabels(labels)
    ensures var n := Uncompressed(labels); var data := pre + WireLabels(labels) + [0] + post;
            && Reads(data, |pre|, n) && Labels(n) == labels && Jumps(n) == []
            && After(|pre|, n) == |pre| + |WireLabels(labels)| + 1
    decreases |labels|
  {
    hide GoodLabel, Reads;
    var data := pre + WireLabels(labels) + [0] + post;
    if labels == [] {
      assert data == pre + [0] + post;
      RootReads(data, |pre|);
    } else {
      var raw := labels[0];
      assert GoodLabel(raw);
      GoodLength(raw);
      var first := pre + LabelBytes(raw);
      WireReads(first, labels[1..], post);
      var rest := WireLabels(labels[1..]) + [0] + post;
      assert data == first + WireLabels(labels[1..]) + [0] + post;
      assert data == pre + LabelBytes(raw) + rest;
      LabelReads(pre, raw, rest);
      OneMoreReads(data, |pre|, Uncompressed(labels[1..]));
    }
  }

  lemma RootReads(data: bytes, offset: nat)
    requires offset < |data| && data[offset] == 0
    ensures Reads(data, offset, Root)
  {
  }

  lemma OneMoreReads(data: bytes, offset: nat, rest: Reading)
    requires offset < |data| && 0 < data[offset] < 64 && offset + 1 + data[offset] <= |data|
    requires Reads(data, offset + 1 + data[offset], rest)
    ensures Reads(data, offset, Labelled(data[offset + 1..offset + 1 + data[offset]], rest))
  {
  }

  lemma LabelReads(pre: bytes, raw: bytes, rest: bytes)
    requires 0 < |raw| <= 63
    ensures var data := pre + LabelBytes(raw) + rest;
            && |pre| < |data| && data[|pre|] == |raw| && |pre| + 1 + |raw| <= |data|
            && data[|pre| + 1..|pre| + 1 + |raw|] == raw
  {
  }

  lemma CanonicalLabels(name: bytes)
    requires GoodName(name)
    ensures var labels := SplitDots(Canonical(name)); AllAscii(labels) && LowerAll(labels) == labels
  {
    hide SplitDots, StripDots;
    var canonical := Canonical(name);
    var labels := SplitDots(canonical);
    SplitLower(canonical);
    forall i | 0 <= i < |labels| ensures Ascii(labels[i]) && Lower(labels[i]) == labels[i] {
      assert GoodLabel(labels[i]);
      forall j | 0 <= j < |labels[i]| ensures labels[i][j] < 128 {
        assert NameByte(labels[i][j]);
      }
    }
  }

  predicate InLower(s: bytes) {
    forall i :: 0 <= i < |s| ==> LowerByte(s[i]) == s[i]
  }

  lemma {:induction false} SplitLower(s: bytes)
    requires InLower(s)
    ensures forall i :: 0 <= i < |SplitDots(s)| ==> InLower(SplitDots(s)[i])
    decreases |s|
  {
    var k := FirstDot(s);
    if k < |s| {
      SplitLower(s[k + 1..]);
    }
  }

  /** Decoding inverts encoding at any position inside any message. */
  lemma DecodeEncoded(pre: bytes, name: bytes, post: bytes)
    requires GoodName(name)
    ensures Decode(pre + Wire(name) + post, |pre|) == Ok((Canonical(name), |pre| + |Wire(name)|))
  {
    hide Lower, StripDots, SplitDots, JoinDots, Reads, DecodeFrom, GoodLabels;
    var labels := SplitDots(Canonical(name));
    JoinSplit(Canonical(name));
    WireReads(pre, labels, post);
    CanonicalLabels(name);
    assert pre + Wire(name) + post == pre + WireLabels(labels) + [0] + post;
    DecodeExactly(pre + Wire(name) + post, |pre|);
    assert Readable(pre + Wire(name) + post, |pre|, Uncompressed(labels));
  }
}
