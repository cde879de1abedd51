/** The chain that decides when the native TLS library may be unloaded: the provider's four
    counters, the contexts of certificate generations, the sessions of channels, and the
    registry's manager leases. Each locked region and each native call edge is one step. */
module TlsLifetime {
  import opened Octets

  // ---------------------------------------------------------------- state

  datatype Kind = ContextKind | SessionKind

  /** Between reserving a resource and publishing or cancelling it. */
  datatype CreateStage = Reserved | Calling | Created | Failing

  datatype Creation = Creation(kind: Kind, owner: nat, stage: CreateStage)

  /** Between publishing a resource and giving up its count. */
  datatype UseStage = Live | Marked | Freeing | Freed

  datatype Use = Use(owner: nat, stage: UseStage)

  /** `Opened` and `Discarding` hold a library that has not been published. */
  datatype Activation = Inactive | Checked | Opened(library: nat) | Discarding(library: nat)

  /** Libraries are numbered in the order they are opened. `handle` is the published one, the
      `unloading` ones have been taken under the lock and are about to be closed, and `closes`
      lists every close there has been. */
  datatype Library = Library(handle: Option<nat>, activation: Activation, opens: nat, closes: seq<nat>,
    unloading: set<nat>,
                             closeRequested: bool, closed: bool)

  datatype Generation = Generation(references: int, retired: bool, destroyed: bool, built: bool,
                                   holders: set<nat>, contexts: set<nat>)

  datatype ChannelStage = Holding | Creating | Open(session: nat) | Closing(left: Option<nat>) | Released

  datatype Channel = Channel(generation: nat, stage: ChannelStage)

  datatype Registry = Registry(leases: nat, closed: bool, closeStarted: bool, closing: bool, closeOnLast: bool)

  /** The counters are the program's; the maps and sets name what each of them counts. */
  datatype State = State(
    library: Library, pending: int, activeContexts: int, activeSessions: int, activeCalls: int,
    creating: map<nat, Creation>, contexts: map<nat, Use>, sessions: map<nat, Use>, calls: set<nat>,
    generations: map<nat, Generation>, channels: map<nat, Channel>, registry: Registry)

  function Initial(closeOnLast: bool): State {
    State(Library(None, Inactive, 0, [], {}, false, false), 0, 0, 0, 0, map[], map[], map[], {}, map[], map[],
          Registry(0, false, false, false, closeOnLast))
  }

  datatype Action =
    | ActivateBegin | OpenLibrary(ok: bool) | PublishLibrary(ok: bool) | DiscardLibrary | Unload(library: nat)
    | RequestClose | Lease | GiveUpLease | CloseRegistry
    | Reserve(token: nat, kind: Kind, owner: nat) | BeginCreate(token: nat) | EndCreate(token: nat, ok: bool)
    | CancelCreate(token: nat) | PublishCreate(token: nat)
    | BeginCall(token: nat) | EndCall(token: nat)
    | MarkFree(token: nat) | BeginFree(token: nat) | EndFree(token: nat) | EndUse(token: nat)
    | BuildBegin(id: nat) | BuildEnd(id: nat) | BuildFail(id: nat) | Retire(id: nat)
    | OpenChannel(channel: nat, id: nat) | AbandonChannel(channel: nat) | CloseChannel(channel: nat)
      | DropGeneration(channel: nat)

  // ---------------------------------------------------------------- steps

  function Sent(unloading: set<nat>, handedOut: Option<nat>): set<nat> {
    if handedOut.Some? then unloading + {handedOut.value} else unloading
  }

  /** `_take_library_to_close_locked`. */
  function Taken(s: State): State {
    var l := s.library;
    if !l.closeRequested || l.closed || s.activeContexts != 0 || s.activeSessions != 0 || s.pending != 0
      || s.activeCalls != 0
    then s
    else s.(library := l.(handle := None, closed := true, unloading := Sent(l.unloading, l.handle)))
  }

  predicate Fresh(s: State, t: nat) {
    t !in s.creating && t !in s.contexts && t !in s.sessions && t !in s.calls
  }

  function LibraryStep(s: State, a: Action): Option<State> {
    var l := s.library;
    match a
    case ActivateBegin =>
      if l.activation != Inactive || l.handle.Some? || l.closeRequested || l.closed then None
      else Some(s.(library := l.(activation := Checked)))
    case OpenLibrary(ok) =>
      if l.activation != Checked then None
      else Some(s.(library := if ok then l.(activation := Opened(l.opens), opens := l.opens + 1)
        else l.(activation := Inactive)))
    case PublishLibrary(ok) =>
      if !l.activation.Opened? then None
      else if ok && !l.closeRequested && !l.closed then
        Some(s.(library := l.(activation := Inactive, handle := Some(l.activation.library))))
      else Some(s.(library := l.(activation := Discarding(l.activation.library))))
    case DiscardLibrary =>
      if !l.activation.Discarding? then None
      else Some(s.(library := l.(activation := Inactive, closes := l.closes + [l.activation.library])))
    case Unload(library) =>
      if library !in l.unloading then None
      else Some(s.(library := l.(unloading := l.unloading - {library}, closes := l.closes + [library])))
    case RequestClose =>
      if !s.registry.closing then None
      else
        var t := s.(registry := s.registry.(closing := false));
        if l.closed || l.closeRequested then Some(t)
        else Some(Taken(t.(library := l.(closeRequested := true))))
    case _ => None
  }

  /** `_providers_to_close_locked` of a registry that owns its provider. */
  function ToClose(r: Registry): Registry {
    if r.closed && r.leases == 0 && !r.closeStarted then r.(closeStarted := true, closing := true) else r
  }

  function RegistryStep(s: State, a: Action): Option<State> {
    var r := s.registry;
    match a
    case Lease => if r.closed then None else Some(s.(registry := r.(leases := r.leases + 1)))
    case GiveUpLease =>
      if r.leases == 0 then None
      else
        var left := r.leases - 1;
        Some(s.(registry := ToClose(r.(leases := left, closed := r.closed || (r.closeOnLast && left == 0)))))
    case CloseRegistry => if r.closed then None else Some(s.(registry := ToClose(r.(closed := true))))
    case _ => None
  }

  predicate Building(s: State, id: nat) {
    id in s.generations && !s.generations[id].built && !s.generations[id].destroyed
  }

  predicate MayReserve(s: State, kind: Kind, owner: nat) {
    match kind
    case ContextKind => Building(s, owner)
    case SessionKind => owner in s.channels && s.channels[owner].stage == Holding
  }

  function CreateStep(s: State, a: Action): Option<State> {
    var l := s.library;
    match a
    case Reserve(t, kind, owner) =>
      if l.closeRequested || l.closed || !Fresh(s, t) || !MayReserve(s, kind, owner) then None
      else
        var s1 := s.(pending := s.pending + 1, creating := s.creating[t := Creation(kind, owner, Reserved)]);
        Some(if kind == ContextKind then s1
          else s1.(channels := s.channels[owner := s.channels[owner].(stage := Creating)]))
    case BeginCreate(t) =>
      if t !in s.creating || s.creating[t].stage != Reserved then None
      else if l.handle.None? || l.closed then Some(s.(creating := s.creating[t := s.creating[t].(stage := Failing)]))
      else Some(s.(creating := s.creating[t := s.creating[t].(stage := Calling)], calls := s.calls + {t},
        activeCalls := s.activeCalls + 1))
    case EndCreate(t, ok) =>
      if t !in s.creating || s.creating[t].stage != Calling then None
      else
        Some(Taken(s.(creating := s.creating[t := s.creating[t].(stage := if ok then Created else Failing)],
                      calls := s.calls - {t}, activeCalls := s.activeCalls - 1)))
    case CancelCreate(t) =>
      if t !in s.creating || s.creating[t].stage != Failing then None
      else
        var c := s.creating[t];
        var s1 := s.(pending := s.pending - 1, creating := s.creating - {t});
        if c.kind == ContextKind then Some(Taken(s1))
        else if c.owner !in s.channels then None
        else Some(Taken(s1.(channels := s.channels[c.owner := s.channels[c.owner].(stage := Closing(None))])))
    case PublishCreate(t) =>
      if t !in s.creating || s.creating[t].stage != Created then None
      else
        var c := s.creating[t];
        var s1 := s.(pending := s.pending - 1, creating := s.creating - {t});
        if c.kind == ContextKind then
          if c.owner !in s.generations then None
          else
            var g := s.generations[c.owner];
            Some(s1.(activeContexts := s.activeContexts + 1, contexts := s.contexts[t := Use(c.owner, Live)],
                     generations := s.generations[c.owner := g.(contexts := g.contexts + {t})]))
        else if c.owner !in s.channels then None
        else
          Some(s1.(activeSessions := s.activeSessions + 1, sessions := s.sessions[t := Use(c.owner, Live)],
                   channels := s.channels[c.owner := s.channels[c.owner].(stage := Open(t))]))
    case _ => None
  }

  function CallStep(s: State, a: Action): Option<State> {
    match a
    case BeginCall(t) =>
      if !Fresh(s, t) || s.library.handle.None? || s.library.closed then None
      else Some(s.(calls := s.calls + {t}, activeCalls := s.activeCalls + 1))
    case EndCall(t) =>
      if t !in s.calls || t in s.creating || t in s.contexts || t in s.sessions then None
      else Some(Taken(s.(calls := s.calls - {t}, activeCalls := s.activeCalls - 1)))
    case _ => None
  }

  /** Its owner has given a resource up: the generation is gone, or the channel is closing. */
  predicate GivenUp(s: State, t: nat) {
    if t in s.contexts then s.contexts[t].owner in s.generations && t !in s.generations[s.contexts[t].owner].contexts
    else
      t in s.sessions && s.sessions[t].owner in s.channels && s.channels[s.sessions[t].owner].stage == Closing(Some(t))
  }

  function Stage(s: State, t: nat): Option<UseStage> {
    if t in s.contexts then Some(s.contexts[t].stage) else if t in s.sessions then Some(s.sessions[t].stage) else None
  }

  function WithStage(s: State, t: nat, stage: UseStage): State
    requires t in s.contexts || t in s.sessions
  {
    if t in s.contexts then s.(contexts := s.contexts[t := s.contexts[t].(stage := stage)])
    else s.(sessions := s.sessions[t := s.sessions[t].(stage := stage)])
  }

  function FreeStep(s: State, a: Action): Option<State> {
    match a
    case MarkFree(t) => if Stage(s, t) == Some(Live) && GivenUp(s, t) then Some(WithStage(s, t, Marked)) else None
    case BeginFree(t) =>
      if Stage(s, t) != Some(Marked) then None
      else if s.library.handle.None? || s.library.closed then Some(WithStage(s, t, Freed))
      else Some(WithStage(s, t, Freeing).(calls := s.calls + {t}, activeCalls := s.activeCalls + 1))
    case EndFree(t) =>
      if Stage(s, t) != Some(Freeing) then None
      else Some(Taken(WithStage(s, t, Freed).(calls := s.calls - {t}, activeCalls := s.activeCalls - 1)))
    case EndUse(t) =>
      if Stage(s, t) != Some(Freed) then None
      else if t in s.contexts then
        Some(Taken(s.(contexts := s.contexts - {t}, activeContexts := s.activeContexts - 1)))
      else
        var c := s.sessions[t].owner;
        if c !in s.channels then None
        else
          Some(Taken(s.(sessions := s.sessions - {t}, activeSessions := s.activeSessions - 1,
                        channels := s.channels[c := s.channels[c].(stage := Closing(None))])))
    case _ => None
  }

  /** A reference is given up; the last one gives up the contexts. */
  function Dropped(g: Generation): Generation {
    var left := g.references - 1;
    if left == 0 then g.(references := 0, destroyed := true, contexts := {}) else g.(references := left)
  }

  predicate NoCreation(s: State, id: nat) {
    forall t <- s.creating :: s.creating[t].kind == ContextKind ==> s.creating[t].owner != id
  }

  function OwnerStep(s: State, a: Action): Option<State> {
    match a
    case BuildBegin(id) =>
      if id in s.generations then None
      else Some(s.(generations := s.generations[id := Generation(1, false, false, false, {}, {})]))
    case BuildEnd(id) =>
      if !Building(s, id) || s.generations[id].contexts == {} || !NoCreation(s, id) then None
      else Some(s.(generations := s.generations[id := s.generations[id].(built := true)]))
    case BuildFail(id) =>
      if !Building(s, id) || !NoCreation(s, id) then None
      else Some(s.(generations := s.generations[id := s.generations[id].(references := 0, retired := true,
        destroyed := true, contexts := {})]))
    case Retire(id) =>
      if id !in s.generations || !s.generations[id].built || s.generations[id].retired then None
      else Some(s.(generations := s.generations[id := Dropped(s.generations[id].(retired := true))]))
    case OpenChannel(c, id) =>
      if c in s.channels || id !in s.generations || !s.generations[id].built || s.generations[id].destroyed then None
      else
        var g := s.generations[id];
        Some(s.(generations := s.generations[id := g.(references := g.references + 1, holders := g.holders + {c})],
                channels := s.channels[c := Channel(id, Holding)]))
    case AbandonChannel(c) =>
      if c !in s.channels || s.channels[c].stage != Holding then None
      else Some(s.(channels := s.channels[c := s.channels[c].(stage := Closing(None))]))
    case CloseChannel(c) =>
      if c !in s.channels || !s.channels[c].stage.Open? then None
      else Some(s.(channels := s.channels[c := s.channels[c].(stage := Closing(Some(s.channels[c].stage.session)))]))
    case DropGeneration(c) =>
      if c !in s.channels || s.channels[c].stage != Closing(None) || s.channels[c].generation !in s.generations then
        None
      else
        var id := s.channels[c].generation;
        var g := s.generations[id];
        Some(s.(generations := s.generations[id := Dropped(g.(holders := g.holders - {c}))],
                channels := s.channels[c := s.channels[c].(stage := Released)]))
    case _ => None
  }

  function Act(s: State, a: Action): Option<State> {
    match a
    case ActivateBegin => LibraryStep(s, a)
    case OpenLibrary(_) => LibraryStep(s, a)
    case PublishLibrary(_) => LibraryStep(s, a)
    case DiscardLibrary => LibraryStep(s, a)
    case Unload(_) => LibraryStep(s, a)
    case RequestClose => LibraryStep(s, a)
    case Lease => RegistryStep(s, a)
    case GiveUpLease => RegistryStep(s, a)
    case CloseRegistry => RegistryStep(s, a)
    case Reserve(_, _, _) => CreateStep(s, a)
    case BeginCreate(_) => CreateStep(s, a)
    case EndCreate(_, _) => CreateStep(s, a)
    case CancelCreate(_) => CreateStep(s, a)
    case PublishCreate(_) => CreateStep(s, a)
    case BeginCall(_) => CallStep(s, a)
    case EndCall(_) => CallStep(s, a)
    case MarkFree(_) => FreeStep(s, a)
    case BeginFree(_) => FreeStep(s, a)
    case EndFree(_) => FreeStep(s, a)
    case EndUse(_) => FreeStep(s, a)
    case _ => OwnerStep(s, a)
  }

  // ---------------------------------------------------------------- the invariant

  /** Each counter counts what it should. */
  predicate Counted(s: State) {
    && s.pending == |s.creating| && s.activeContexts == |s.contexts|
    && s.activeSessions == |s.sessions| && s.activeCalls == |s.calls|
  }

  predicate Idle(s: State) {
    s.creating == map[] && s.contexts == map[] && s.sessions == map[] && s.calls == {}
  }

  /** The library is published, being published or on its way out. */
  predicate Held(l: Library, k: nat) {
    l.handle == Some(k) || l.activation == Opened(k) || l.activation == Discarding(k) || k in l.unloading
  }

  /** No library is closed twice. */
  predicate Distinct(closes: seq<nat>) {
    forall i, j :: 0 <= i < j < |closes| ==> closes[i] != closes[j]
  }

  /** Every library opened is either held, in one way, or has been closed, once. */
  ghost predicate Accounted(l: Library) {
    && (forall k: nat :: k < l.opens <==> Held(l, k) || k in l.closes)
    && (forall k: nat :: Held(l, k) ==> k !in l.closes)
    && Distinct(l.closes)
    && (forall k <- l.unloading :: l.handle != Some(k) && l.activation != Opened(k) && l.activation != Discarding(k))
    && (l.handle.Some? ==> l.activation == Inactive)
  }

  /** A library is on its way out only when nothing uses it. */
  ghost predicate LibraryOk(s: State) {
    var l := s.library;
    && Accounted(l)
    && (l.closed <==> l.closeRequested && Idle(s))
    && (l.closed ==> l.handle.None?)
    && (l.unloading != {} ==> l.closed)
  }

  /** Whatever counts as a use of the library has one. */
  predicate InUse(s: State) {
    && (forall t <- s.creating :: s.creating[t].stage in {Calling, Created} ==> s.library.handle.Some?)
    && (s.contexts != map[] ==> s.library.handle.Some?)
    && (s.sessions != map[] ==> s.library.handle.Some?)
    && (s.calls != {} ==> s.library.handle.Some?)
  }

  /** A token is one thing at a time, and is in a call exactly when its stage says so. */
  predicate TokensOk(s: State) {
    && (forall t <- s.creating :: t !in s.contexts && t !in s.sessions)
    && (forall t <- s.contexts :: t !in s.sessions)
    && (forall t <- s.creating :: t in s.calls <==> s.creating[t].stage == Calling)
    && (forall t <- s.contexts :: t in s.calls <==> s.contexts[t].stage == Freeing)
    && (forall t <- s.sessions :: t in s.calls <==> s.sessions[t].stage == Freeing)
  }

  ghost predicate GenerationOk(s: State, id: nat, g: Generation) {
    && g.references == |g.holders| + (if g.retired then 0 else 1)
    && (g.destroyed <==> g.references == 0)
    && (forall t <- g.contexts :: t in s.contexts && s.contexts[t] == Use(id, Live))
    && (g.built && !g.destroyed ==> g.contexts != {})
    && (g.destroyed ==> g.contexts == {})
    && (!g.built ==> g.holders == {})
    && (forall c :: c in g.holders <==>
         c in s.channels && s.channels[c].generation == id && s.channels[c].stage != Released)
  }

  ghost predicate GenerationsOk(s: State) {
    && (forall id <- s.generations :: GenerationOk(s, id, s.generations[id]))
    && (forall t <- s.contexts :: s.contexts[t].owner in s.generations)
    && (forall t <- s.creating :: s.creating[t].kind == ContextKind ==> Building(s, s.creating[t].owner))
  }

  predicate SameChannel(a: Creation, b: Creation) {
    a.kind == SessionKind && b.kind == SessionKind && a.owner == b.owner
  }

  predicate ChannelOk(s: State, c: nat, x: Channel) {
    && x.generation in s.generations
    && (match x.stage
        case Open(t) => t in s.sessions && s.sessions[t] == Use(c, Live)
        case Closing(Some(t)) => t in s.sessions && s.sessions[t].owner == c
        case _ => true)
  }

  ghost predicate ChannelsOk(s: State) {
    && (forall c <- s.channels :: ChannelOk(s, c, s.channels[c]))
    && (forall t <- s.sessions ::
          s.sessions[t].owner in s.channels && s.channels[s.sessions[t].owner].stage in {Open(t), Closing(Some(t))})
    && (forall t <- s.creating :: s.creating[t].kind == SessionKind ==>
          s.creating[t].owner in s.channels && s.channels[s.creating[t].owner].stage == Creating)
    && (forall t <- s.creating, u <- s.creating :: SameChannel(s.creating[t], s.creating[u]) ==> t == u)
  }

  /** The provider is asked to close once, after the registry closed and its last lease ended. */
  predicate RegistryOk(s: State) {
    var r := s.registry;
    && (r.closeStarted <==> r.closed && r.leases == 0)
    && (r.closeStarted <==> r.closing || s.library.closeRequested)
    && !(r.closing && s.library.closeRequested)
  }

  ghost predicate Invariant(s: State) {
    Counted(s) && LibraryOk(s) && InUse(s) && TokensOk(s) && GenerationsOk(s) && ChannelsOk(s) && RegistryOk(s)
  }

  lemma InitialInvariant(closeOnLast: bool)
    ensures Invariant(Initial(closeOnLast))
  {
  }

  // ---------------------------------------------------------------- taking the library

  /** The invariant before the program has looked whether the library can go. */
  ghost predicate Undecided(s: State) {
    var l := s.library;
    && Counted(s) && InUse(s) && TokensOk(s) && GenerationsOk(s) && ChannelsOk(s) && RegistryOk(s)
    && Accounted(l)
    && (l.closed ==> l.closeRequested && Idle(s) && l.handle.None?)
    && (l.unloading != {} ==> l.closed)
  }

  lemma NothingCounted(s: State)
    requires Counted(s)
    ensures s.activeContexts == 0 && s.activeSessions == 0 && s.pending == 0 && s.activeCalls == 0 <==> Idle(s)
  {
    EmptyMap(s.creating);
    EmptyMap(s.contexts);
    EmptyMap(s.sessions);
  }

  lemma EmptyMap<T>(m: map<nat, T>)
    ensures |m| == 0 <==> m == map[]
  {
    if |m| == 0 {
      assert |m.Keys| == 0;
      assert m.Keys == {};
    }
  }

  lemma TakenAccounted(s: State)
    requires Accounted(s.library)
    ensures Accounted(Taken(s).library)
  {
    var l := s.library;
    var m := Taken(s).library;
    if m != l {
      forall k: nat ensures Held(m, k) <==> Held(l, k) {
      }
    }
  }

  lemma LibraryAccounted(s: State, a: Action)
    requires Accounted(s.library) && LibraryStep(s, a).Some? && a != RequestClose
    ensures Accounted(LibraryStep(s, a).value.library)
  {
    hide Taken;
    var l := s.library;
    var m := LibraryStep(s, a).value.library;
    if m.closes != l.closes {
      ClosedOnce(l, m);
    } else if m.opens != l.opens {
      assert !Held(l, l.opens);
      forall k: nat ensures Held(m, k) <==> Held(l, k) || k == l.opens {
      }
    } else {
      SameLibraries(l, m);
    }
  }

  /** A library handed from one holder to another is still accounted for. */
  lemma SameLibraries(l: Library, m: Library)
    requires Accounted(l) && m.opens == l.opens && m.closes == l.closes && m.unloading == l.unloading
    requires || (m.handle == l.handle && m.activation == l.activation)
             || (m.handle == l.handle == None && !l.activation.Opened? && !l.activation.Discarding?
                  && !m.activation.Opened? && !m.activation.Discarding?)
             || (l.activation.Opened? && m.handle == Some(l.activation.library) && m.activation == Inactive)
             || (l.activation.Opened? && m.handle == l.handle && m.activation == Discarding(l.activation.library))
    ensures Accounted(m)
  {
    forall k: nat ensures Held(m, k) <==> Held(l, k) {
    }
  }

  /** A library that was held is closed and no longer held. */
  lemma ClosedOnce(l: Library, m: Library)
    requires Accounted(l) && m.opens == l.opens && m.handle == l.handle && |m.closes| == |l.closes| + 1
             && m.closes[..|l.closes|] == l.closes
    requires Held(l, m.closes[|l.closes|])
    requires || (l.activation == Discarding(m.closes[|l.closes|]) && m.activation == Inactive
               && m.unloading == l.unloading)
             || (m.closes[|l.closes|] in l.unloading && m.activation == l.activation
                  && m.unloading == l.unloading - {m.closes[|l.closes|]})
    ensures Accounted(m)
  {
    var x := m.closes[|l.closes|];
    assert m.closes == l.closes + [x];
    forall k: nat ensures Held(m, k) <==> Held(l, k) && k != x {
    }
    forall k: nat ensures k in m.closes <==> k in l.closes || k == x {
    }
    assert x !in l.closes;
  }

  /** The library is taken exactly when a close was requested and nothing is left. */
  lemma TakenKept(s: State)
    requires Undecided(s)
    ensures Invariant(Taken(s))
  {
    hide Counted, TokensOk, GenerationsOk, ChannelsOk, RegistryOk, Accounted;
    TakenAccounted(s);
    NothingCounted(s);
    CountedSame(s, Taken(s));
    TokensSame(s, Taken(s));
    OwnersSame(s, Taken(s));
    RegistrySame(s, Taken(s));
  }

  lemma RegistrySame(s: State, t: State)
    requires RegistryOk(s) && t.registry == s.registry && t.library.closeRequested == s.library.closeRequested
    ensures RegistryOk(t)
  {
  }

  lemma LibraryKept(s: State, a: Action)
    requires Invariant(s) && LibraryStep(s, a).Some?
    ensures Invariant(LibraryStep(s, a).value)
  {
    hide Counted, TokensOk, GenerationsOk, ChannelsOk, Accounted;
    var t := LibraryStep(s, a).value;
    if a == RequestClose {
      var u := s.(registry := s.registry.(closing := false));
      if !s.library.closed && !s.library.closeRequested {
        var v := u.(library := s.library.(closeRequested := true));
        SameLibraries(s.library, v.library);
        CountedSame(s, v);
        TokensSame(s, v);
        OwnersSame(s, v);
        TakenKept(v);
      }
    } else {
      LibraryAccounted(s, a);
      CountedSame(s, t);
      TokensSame(s, t);
      OwnersSame(s, t);
    }
  }

  lemma RegistryKept(s: State, a: Action)
    requires Invariant(s) && RegistryStep(s, a).Some?
    ensures Invariant(RegistryStep(s, a).value)
  {
    hide Counted, TokensOk, GenerationsOk, ChannelsOk;
    var t := RegistryStep(s, a).value;
    CountedSame(s, t);
    TokensSame(s, t);
    OwnersSame(s, t);
  }

  /** Only the library and the registry differ. */
  predicate OutsideSame(s: State, t: State) {
    t == s.(library := t.library, registry := t.registry)
  }

  lemma CountedSame(s: State, t: State)
    requires Counted(s) && OutsideSame(s, t)
    ensures Counted(t)
  {
  }

  lemma TokensSame(s: State, t: State)
    requires TokensOk(s) && OutsideSame(s, t)
    ensures TokensOk(t)
  {
  }

  lemma OwnersSame(s: State, t: State)
    requires GenerationsOk(s) && ChannelsOk(s) && OutsideSame(s, t)
    ensures GenerationsOk(t) && ChannelsOk(t)
  {
    forall id <- t.generations ensures GenerationOk(t, id, t.generations[id]) {
      assert GenerationOk(s, id, s.generations[id]);
    }
    forall c <- t.channels ensures ChannelOk(t, c, t.channels[c]) {
      assert ChannelOk(s, c, s.channels[c]);
    }
  }

  // ---------------------------------------------------------------- creating

  lemma MapGrows<T>(m: map<nat, T>, k: nat, v: T)
    ensures |m[k := v]| == |m| + (if k in m then 0 else 1)
  {
    assert m[k := v].Keys == m.Keys + {k};
    assert |m[k := v]| == |m[k := v].Keys| && |m| == |m.Keys|;
  }

  lemma MapShrinks<T>(m: map<nat, T>, k: nat)
    ensures |m - {k}| == |m| - (if k in m then 1 else 0)
  {
    assert (m - {k}).Keys == m.Keys - {k};
    assert |m - {k}| == |(m - {k}).Keys| && |m| == |m.Keys|;
  }

  /** Generations and channels with the same facts about them. */
  lemma GenerationsSame(s: State, t: State)
    requires GenerationsOk(s) && t.generations == s.generations
    requires forall x <- s.contexts ::
               x in t.contexts && (s.contexts[x].stage == Live ==> t.contexts[x] == s.contexts[x])
    requires forall x <- t.contexts :: x in s.contexts && t.contexts[x].owner == s.contexts[x].owner
    requires forall x <- t.creating :: t.creating[x].kind == ContextKind ==> Building(s, t.creating[x].owner)
    requires forall c: nat :: c in t.channels <==> c in s.channels
    requires forall c <- s.channels :: t.channels[c].generation == s.channels[c].generation
                                       && (t.channels[c].stage == Released <==> s.channels[c].stage == Released)
    ensures GenerationsOk(t)
  {
    forall id <- t.generations ensures GenerationOk(t, id, t.generations[id]) {
      assert GenerationOk(s, id, s.generations[id]);
    }
  }

  lemma ChannelsSame(s: State, t: State)
    requires ChannelsOk(s) && t.channels == s.channels
    requires forall x <- s.sessions :: x in t.sessions && t.sessions[x].owner == s.sessions[x].owner
                                       && (GivenUp(s, x) || t.sessions[x] == s.sessions[x])
    requires forall x <- t.sessions :: x in s.sessions
    requires forall id <- s.generations :: id in t.generations
    requires forall x <- t.creating ::
               x in s.creating && t.creating[x].kind == s.creating[x].kind && t.creating[x].owner == s.creating[x].owner
    requires forall x <- s.sessions :: x !in s.contexts
    ensures ChannelsOk(t)
  {
    forall c <- t.channels ensures ChannelOk(t, c, t.channels[c]) {
      assert ChannelOk(s, c, s.channels[c]);
    }
  }

  /** One channel moved; the others and what they own stay. */
  lemma ChannelMoved(s: State, t: State, c: nat)
    requires ChannelsOk(s) && c in s.channels && c in t.channels && t.channels == s.channels[c := t.channels[c]]
    requires ChannelOk(t, c, t.channels[c]) && t.generations.Keys == s.generations.Keys
    requires forall x <- s.sessions :: s.sessions[x].owner != c ==> x in t.sessions && t.sessions[x] == s.sessions[x]
    requires forall x <- t.sessions ::
               if t.sessions[x].owner == c then t.channels[c].stage in {Open(x), Closing(Some(x))}
               else x in s.sessions && s.sessions[x].owner != c
    requires forall x <- t.creating :: t.creating[x].kind == SessionKind ==>
               t.creating[x].owner != c && x in s.creating && t.creating[x] == s.creating[x]
    ensures ChannelsOk(t)
  {
    forall d <- t.channels ensures ChannelOk(t, d, t.channels[d]) {
      assert d in s.channels && ChannelOk(s, d, s.channels[d]);
    }
  }

  // One creation moves to another stage.

  function Staged(s: State, x: nat, stage: CreateStage): State
    requires x in s.creating
  {
    s.(creating := s.creating[x := s.creating[x].(stage := stage)],
       calls := if stage == Calling then s.calls + {x} else s.calls - {x},
       activeCalls := s.activeCalls
         + (if stage == Calling then (if x in s.calls then 0 else 1) else if x in s.calls then -1 else 0))
  }

  lemma StagedCounted(s: State, x: nat, stage: CreateStage)
    requires Counted(s) && x in s.creating
    ensures Counted(Staged(s, x, stage))
  {
    MapGrows(s.creating, x, s.creating[x].(stage := stage));
    if stage == Calling && x in s.calls {
      assert s.calls + {x} == s.calls;
    } else if stage != Calling && x !in s.calls {
      assert s.calls - {x} == s.calls;
    }
  }

  lemma StagedTokens(s: State, x: nat, stage: CreateStage)
    requires TokensOk(s) && x in s.creating
    ensures TokensOk(Staged(s, x, stage))
  {
  }

  lemma StagedInUse(s: State, x: nat, stage: CreateStage)
    requires InUse(s) && x in s.creating && (stage in {Calling, Created} ==> s.library.handle.Some?)
    ensures InUse(Staged(s, x, stage))
  {
  }

  lemma StagedOwners(s: State, x: nat, stage: CreateStage)
    requires GenerationsOk(s) && ChannelsOk(s) && TokensOk(s) && x in s.creating
    ensures GenerationsOk(Staged(s, x, stage)) && ChannelsOk(Staged(s, x, stage))
  {
    hide GenerationOk, ChannelOk;
    GenerationsSame(s, Staged(s, x, stage));
    ChannelsSame(s, Staged(s, x, stage));
  }

  lemma StagedKept(s: State, x: nat, stage: CreateStage)
    requires Invariant(s) && x in s.creating && (stage in {Calling, Created} ==> s.library.handle.Some?)
    ensures Undecided(Staged(s, x, stage)) && Invariant(Staged(s, x, stage))
  {
    hide Counted, TokensOk, InUse, GenerationsOk, ChannelsOk;
    StagedCounted(s, x, stage);
    StagedTokens(s, x, stage);
    StagedInUse(s, x, stage);
    StagedOwners(s, x, stage);
    RegistrySame(s, Staged(s, x, stage));
    assert x in Staged(s, x, stage).creating;
  }

  lemma StageOfCreation(s: State, x: nat)
    requires Invariant(s) && x in s.creating
    ensures x in s.calls <==> s.creating[x].stage == Calling
    ensures s.creating[x].stage in {Calling, Created} ==> s.library.handle.Some?
    ensures !s.library.closed
  {
  }

  lemma BeginCreateKept(s: State, a: Action)
    requires Invariant(s) && a.BeginCreate? && CreateStep(s, a).Some?
    ensures Invariant(CreateStep(s, a).value)
  {
    hide Invariant, Taken;
    var x := a.token;
    StageOfCreation(s, x);
    var stage := if s.library.handle.Some? then Calling else Failing;
    StagedKept(s, x, stage);
    assert s.calls - {x} == s.calls || stage == Calling;
    assert CreateStep(s, a).value == Staged(s, x, stage);
  }

  lemma EndCreateKept(s: State, a: Action)
    requires Invariant(s) && a.EndCreate? && CreateStep(s, a).Some?
    ensures Invariant(CreateStep(s, a).value)
  {
    hide Invariant, Taken, Undecided;
    var x := a.token;
    StageOfCreation(s, x);
    var stage := if a.ok then Created else Failing;
    StagedKept(s, x, stage);
    TakenKept(Staged(s, x, stage));
  }

  // One creation begins.

  lemma ReserveKept(s: State, a: Action)
    requires Invariant(s) && a.Reserve? && CreateStep(s, a).Some?
    ensures Invariant(CreateStep(s, a).value)
  {
    hide Counted, TokensOk, InUse, GenerationsOk, ChannelsOk;
    var t := CreateStep(s, a).value;
    ReservedCounted(s, a);
    ReservedTokens(s, a);
    ReservedGenerations(s, a);
    ReservedChannels(s, a);
    RegistrySame(s, t);
    assert a.token in t.creating;
  }

  lemma ReservedCounted(s: State, a: Action)
    requires Counted(s) && a.Reserve? && CreateStep(s, a).Some?
    ensures Counted(CreateStep(s, a).value)
  {
    MapGrows(s.creating, a.token, Creation(a.kind, a.owner, Reserved));
  }

  lemma ReservedTokens(s: State, a: Action)
    requires TokensOk(s) && InUse(s) && a.Reserve? && CreateStep(s, a).Some?
    ensures TokensOk(CreateStep(s, a).value) && InUse(CreateStep(s, a).value)
  {
  }

  lemma ReservedGenerations(s: State, a: Action)
    requires GenerationsOk(s) && a.Reserve? && CreateStep(s, a).Some?
    ensures GenerationsOk(CreateStep(s, a).value)
  {
    hide GenerationOk;
    GenerationsSame(s, CreateStep(s, a).value);
  }

  lemma ReservedChannels(s: State, a: Action)
    requires ChannelsOk(s) && a.Reserve? && CreateStep(s, a).Some?
    ensures ChannelsOk(CreateStep(s, a).value)
  {
    var t := CreateStep(s, a).value;
    if a.kind == SessionKind {
      assert forall u <- s.creating :: s.creating[u].kind == SessionKind ==> s.creating[u].owner != a.owner;
      assert forall u <- s.sessions :: s.sessions[u].owner != a.owner;
    }
    forall c <- t.channels ensures ChannelOk(t, c, t.channels[c]) {
      assert ChannelOk(s, c, s.channels[c]);
    }
  }

  // One creation is cancelled or becomes a resource.

  function CreationGone(s: State, x: nat): State {
    s.(pending := s.pending - 1, creating := s.creating - {x})
  }

  lemma GoneCounted(s: State, x: nat)
    requires Counted(s) && x in s.creating
    ensures Counted(CreationGone(s, x))
  {
    MapShrinks(s.creating, x);
  }

  /** The channel of an unfinished session has no other session. */
  lemma CreatingAlone(s: State, x: nat)
    requires ChannelsOk(s) && x in s.creating && s.creating[x].kind == SessionKind
    ensures s.creating[x].owner in s.channels && s.channels[s.creating[x].owner].stage == Creating
    ensures forall y <- s.sessions :: s.sessions[y].owner != s.creating[x].owner
    ensures forall y <- s.creating ::
              s.creating[y].kind == SessionKind && s.creating[y].owner == s.creating[x].owner ==> y == x
  {
  }

  function Cancelled(s: State, x: nat): State
    requires x in s.creating && (s.creating[x].kind == SessionKind ==> s.creating[x].owner in s.channels)
  {
    var c := s.creating[x];
    var u := CreationGone(s, x);
    if c.kind == ContextKind then u
      else u.(channels := s.channels[c.owner := s.channels[c.owner].(stage := Closing(None))])
  }

  lemma CancelledTokens(s: State, x: nat)
    requires TokensOk(s) && x in s.creating && s.creating[x].stage == Failing
    requires s.creating[x].kind == SessionKind ==> s.creating[x].owner in s.channels
    ensures TokensOk(Cancelled(s, x))
  {
  }

  lemma CancelledGenerations(s: State, x: nat)
    requires GenerationsOk(s) && ChannelsOk(s) && x in s.creating
    requires s.creating[x].kind == SessionKind ==> s.creating[x].owner in s.channels
    ensures GenerationsOk(Cancelled(s, x))
  {
    hide GenerationOk, ChannelOk;
    if s.creating[x].kind == SessionKind {
      CreatingAlone(s, x);
    }
    GenerationsSame(s, Cancelled(s, x));
  }

  lemma CancelledChannels(s: State, x: nat)
    requires ChannelsOk(s) && TokensOk(s) && x in s.creating
    requires s.creating[x].kind == SessionKind ==> s.creating[x].owner in s.channels
    ensures ChannelsOk(Cancelled(s, x))
  {
    var t := Cancelled(s, x);
    if s.creating[x].kind == SessionKind {
      var c := s.creating[x].owner;
      CreatingAlone(s, x);
      assert ChannelOk(s, c, s.channels[c]);
      hide ChannelsOk;
      ChannelMoved(s, t, c);
    } else {
      hide ChannelsOk, ChannelOk;
      ChannelsSame(s, t);
    }
  }

  lemma CancelCreateKept(s: State, a: Action)
    requires Invariant(s) && a.CancelCreate? && CreateStep(s, a).Some?
    ensures Invariant(CreateStep(s, a).value)
  {
    hide Counted, TokensOk, GenerationsOk, ChannelsOk, Taken;
    var x := a.token;
    if s.creating[x].kind == SessionKind {
      CreatingAlone(s, x);
    }
    GoneCounted(s, x);
    CancelledTokens(s, x);
    CancelledGenerations(s, x);
    CancelledChannels(s, x);
    var t := Cancelled(s, x);
    CountedOnly(CreationGone(s, x), t);
    RegistrySame(s, t);
    TakenKept(t);
  }

  lemma CountedOnly(s: State, t: State)
    requires Counted(s) && s.(channels := t.channels, generations := t.generations) == t
    ensures Counted(t)
  {
  }

  lemma PublishedCounted(s: State, a: Action)
    requires Counted(s) && TokensOk(s) && a.PublishCreate? && CreateStep(s, a).Some?
    ensures Counted(CreateStep(s, a).value)
  {
    var x := a.token;
    assert x in s.creating;
    MapShrinks(s.creating, x);
    MapGrows(s.contexts, x, Use(s.creating[x].owner, Live));
    MapGrows(s.sessions, x, Use(s.creating[x].owner, Live));
  }

  lemma PublishedTokens(s: State, a: Action)
    requires TokensOk(s) && InUse(s) && a.PublishCreate? && CreateStep(s, a).Some?
    ensures TokensOk(CreateStep(s, a).value) && InUse(CreateStep(s, a).value)
  {
    assert a.token in s.creating;
  }

  /** What a published session changes of its channel and of the sessions. */
  lemma PublishedSessionMoves(s: State, a: Action)
    requires ChannelsOk(s) && TokensOk(s) && a.PublishCreate? && CreateStep(s, a).Some?
    requires s.creating[a.token].kind == SessionKind
    ensures a.token in s.creating
    ensures var t, c := CreateStep(s, a).value, s.creating[a.token].owner;
            && c in s.channels && c in t.channels && t.channels == s.channels[c := t.channels[c]]
            && ChannelOk(t, c, t.channels[c]) && t.generations.Keys == s.generations.Keys
            && t.sessions.Keys == s.sessions.Keys + {a.token}
            && (forall x <- s.sessions :: t.sessions[x] == s.sessions[x] && s.sessions[x].owner != c)
            && t.sessions[a.token].owner == c && t.channels[c].stage in {Open(a.token), Closing(Some(a.token))}
            && t.creating == s.creating - {a.token}
  {
    var c := s.creating[a.token].owner;
    CreatingAlone(s, a.token);
    assert ChannelOk(s, c, s.channels[c]);
  }

  lemma PublishedSession(s: State, a: Action)
    requires GenerationsOk(s) && ChannelsOk(s) && TokensOk(s) && a.PublishCreate? && CreateStep(s, a).Some?
    requires s.creating[a.token].kind == SessionKind
    ensures ChannelsOk(CreateStep(s, a).value)
  {
    hide CreateStep, ChannelOk, ChannelsOk, GenerationsOk, TokensOk;
    PublishedSessionMoves(s, a);
    CreatingAlone(s, a.token);
    ChannelMoved(s, CreateStep(s, a).value, s.creating[a.token].owner);
  }

  lemma PublishedSessionGenerations(s: State, a: Action)
    requires GenerationsOk(s) && ChannelsOk(s) && a.PublishCreate? && CreateStep(s, a).Some?
    requires s.creating[a.token].kind == SessionKind
    ensures GenerationsOk(CreateStep(s, a).value)
  {
    hide GenerationOk, ChannelOk;
    CreatingAlone(s, a.token);
    GenerationsSame(s, CreateStep(s, a).value);
  }

  lemma PublishedContext(s: State, a: Action)
    requires GenerationsOk(s) && ChannelsOk(s) && TokensOk(s) && a.PublishCreate? && CreateStep(s, a).Some?
    requires s.creating[a.token].kind == ContextKind
    ensures ChannelsOk(CreateStep(s, a).value)
  {
    hide ChannelOk, ChannelsOk, GenerationOk;
    ChannelsSame(s, CreateStep(s, a).value);
  }

  lemma PublishedContextGenerations(s: State, a: Action)
    requires GenerationsOk(s) && TokensOk(s) && a.PublishCreate? && CreateStep(s, a).Some?
    requires s.creating[a.token].kind == ContextKind
    ensures GenerationsOk(CreateStep(s, a).value)
  {
    hide GenerationOk;
    var t := CreateStep(s, a).value;
    var o := s.creating[a.token].owner;
    assert Building(s, o);
    forall id <- t.generations ensures GenerationOk(t, id, t.generations[id]) {
      assert GenerationOk(s, id, s.generations[id]);
      OneMoreContext(s, t, a.token, o, id);
    }
  }

  lemma OneMoreContext(s: State, t: State, x: nat, o: nat, id: nat)
    requires o in s.generations && id in s.generations && GenerationOk(s, id, s.generations[id]) && x !in s.contexts
    requires !s.generations[o].destroyed && t.channels == s.channels && t.contexts == s.contexts[x := Use(o, Live)]
    requires t.generations == s.generations[o := s.generations[o].(contexts := s.generations[o].contexts + {x})]
    ensures GenerationOk(t, id, t.generations[id])
  {
  }

  lemma PublishKept(s: State, a: Action)
    requires Invariant(s) && a.PublishCreate? && CreateStep(s, a).Some?
    ensures Invariant(CreateStep(s, a).value)
  {
    hide Counted, TokensOk, InUse, GenerationsOk, ChannelsOk;
    var t := CreateStep(s, a).value;
    PublishedCounted(s, a);
    PublishedTokens(s, a);
    if s.creating[a.token].kind == ContextKind {
      PublishedContext(s, a);
      PublishedContextGenerations(s, a);
      assert a.token in t.contexts;
    } else {
      PublishedSession(s, a);
      PublishedSessionGenerations(s, a);
      assert a.token in t.sessions;
    }
    RegistrySame(s, t);
  }

  lemma CreateKept(s: State, a: Action)
    requires Invariant(s) && CreateStep(s, a).Some?
    ensures Invariant(CreateStep(s, a).value)
  {
    hide Invariant, Taken;
    match a
    case Reserve(_, _, _) => ReserveKept(s, a);
    case BeginCreate(_) => BeginCreateKept(s, a);
    case EndCreate(_, _) => EndCreateKept(s, a);
    case CancelCreate(_) => CancelCreateKept(s, a);
    case PublishCreate(_) => PublishKept(s, a);
  }

  // ---------------------------------------------------------------- calls

  /** A call comes or goes that is no part of a creation or a release. */
  lemma PlainCall(s: State, calls: set<nat>, count: int)
    requires Invariant(s) && s.library.handle.Some? && count == |calls|
    requires forall x: nat :: x in s.creating || x in s.contexts || x in s.sessions ==> (x in calls <==> x in s.calls)
    ensures Undecided(s.(calls := calls, activeCalls := count))
  {
    hide GenerationsOk, ChannelsOk;
    var t := s.(calls := calls, activeCalls := count);
    CallsOnly(s, t);
  }

  lemma CallsOnly(s: State, t: State)
    requires GenerationsOk(s) && ChannelsOk(s) && t == s.(calls := t.calls, activeCalls := t.activeCalls)
    ensures GenerationsOk(t) && ChannelsOk(t)
  {
    forall id <- t.generations ensures GenerationOk(t, id, t.generations[id]) {
      assert GenerationOk(s, id, s.generations[id]);
    }
    forall c <- t.channels ensures ChannelOk(t, c, t.channels[c]) {
      assert ChannelOk(s, c, s.channels[c]);
    }
  }

  lemma BeginCallKept(s: State, x: nat)
    requires Invariant(s) && CallStep(s, BeginCall(x)).Some?
    ensures Invariant(CallStep(s, BeginCall(x)).value)
  {
    hide TokensOk, GenerationsOk, ChannelsOk, RegistryOk, InUse;
    PlainCall(s, s.calls + {x}, s.activeCalls + 1);
    assert x in CallStep(s, BeginCall(x)).value.calls;
  }

  lemma EndCallKept(s: State, x: nat)
    requires Invariant(s) && CallStep(s, EndCall(x)).Some?
    ensures Invariant(CallStep(s, EndCall(x)).value)
  {
    hide TokensOk, GenerationsOk, ChannelsOk, RegistryOk, LibraryOk, Taken, Undecided;
    PlainCall(s, s.calls - {x}, s.activeCalls - 1);
    TakenKept(s.(calls := s.calls - {x}, activeCalls := s.activeCalls - 1));
  }

  lemma CallKept(s: State, a: Action)
    requires Invariant(s) && CallStep(s, a).Some?
    ensures Invariant(CallStep(s, a).value)
  {
    hide Invariant, Taken;
    match a
    case BeginCall(x) => BeginCallKept(s, x);
    case EndCall(x) => EndCallKept(s, x);
  }

  // ---------------------------------------------------------------- freeing

  function UseStaged(s: State, x: nat, stage: UseStage): State
    requires x in s.contexts || x in s.sessions
  {
    WithStage(s, x, stage).(
       calls := if stage == Freeing then s.calls + {x} else s.calls - {x},
       activeCalls := s.activeCalls
         + (if stage == Freeing then (if x in s.calls then 0 else 1) else if x in s.calls then -1 else 0))
  }

  lemma UseStagedCounted(s: State, x: nat, stage: UseStage)
    requires Counted(s) && TokensOk(s) && (x in s.contexts || x in s.sessions)
    ensures Counted(UseStaged(s, x, stage))
  {
    if x in s.contexts {
      MapGrows(s.contexts, x, s.contexts[x].(stage := stage));
    } else {
      MapGrows(s.sessions, x, s.sessions[x].(stage := stage));
    }
  }

  lemma UseStagedTokens(s: State, x: nat, stage: UseStage)
    requires TokensOk(s) && InUse(s) && (x in s.contexts || x in s.sessions)
    ensures TokensOk(UseStaged(s, x, stage)) && InUse(UseStaged(s, x, stage))
  {
    assert s.contexts != map[] || s.sessions != map[];
  }

  lemma UseStagedGenerations(s: State, x: nat, stage: UseStage)
    requires GenerationsOk(s) && TokensOk(s) && (x in s.contexts || x in s.sessions)
    requires x in s.contexts ==> GivenUp(s, x)
    ensures GenerationsOk(UseStaged(s, x, stage))
  {
    var t := UseStaged(s, x, stage);
    forall id <- t.generations ensures GenerationOk(t, id, t.generations[id]) {
      assert GenerationOk(s, id, s.generations[id]);
    }
  }

  lemma UseStagedChannels(s: State, x: nat, stage: UseStage)
    requires ChannelsOk(s) && TokensOk(s) && (x in s.contexts || x in s.sessions)
    requires x in s.sessions ==> GivenUp(s, x)
    ensures ChannelsOk(UseStaged(s, x, stage))
  {
    hide ChannelOk, ChannelsOk;
    ChannelsSame(s, UseStaged(s, x, stage));
  }

  /** What is being freed has been given up. */
  lemma FreeingGivenUp(s: State, x: nat)
    requires Invariant(s) && (x in s.contexts || x in s.sessions) && Stage(s, x) != Some(Live)
    ensures GivenUp(s, x)
  {
    hide Counted, LibraryOk, InUse, RegistryOk;
    if x in s.contexts {
      var o := s.contexts[x].owner;
      assert GenerationOk(s, o, s.generations[o]);
    } else {
      var c := s.sessions[x].owner;
      assert ChannelOk(s, c, s.channels[c]);
    }
  }

  lemma UseStagedKept(s: State, x: nat, stage: UseStage)
    requires Invariant(s) && (x in s.contexts || x in s.sessions) && GivenUp(s, x)
    ensures Undecided(UseStaged(s, x, stage)) && Invariant(UseStaged(s, x, stage))
  {
    hide Counted, TokensOk, InUse, GenerationsOk, ChannelsOk, GivenUp;
    UseStagedCounted(s, x, stage);
    UseStagedTokens(s, x, stage);
    UseStagedGenerations(s, x, stage);
    UseStagedChannels(s, x, stage);
    RegistrySame(s, UseStaged(s, x, stage));
    assert x in UseStaged(s, x, stage).contexts || x in UseStaged(s, x, stage).sessions;
  }

  lemma StageOfUse(s: State, x: nat)
    requires Invariant(s) && (x in s.contexts || x in s.sessions)
    ensures x in s.calls <==> Stage(s, x) == Some(Freeing)
    ensures s.library.handle.Some? && !s.library.closed
  {
  }

  lemma SameCalls(s: State, x: nat, stage: UseStage)
    requires x in s.contexts || x in s.sessions
    ensures x !in s.calls && stage != Freeing ==> UseStaged(s, x, stage) == WithStage(s, x, stage)
  {
    assert x !in s.calls ==> s.calls - {x} == s.calls;
  }

  lemma MarkKept(s: State, a: Action)
    requires Invariant(s) && (a.MarkFree? || a.BeginFree? || a.EndFree?) && FreeStep(s, a).Some?
    ensures Invariant(FreeStep(s, a).value)
  {
    hide Invariant, Taken, GivenUp, Undecided;
    var x := a.token;
    StageOfUse(s, x);
    if a.BeginFree? || a.EndFree? {
      FreeingGivenUp(s, x);
    }
    SameCalls(s, x, Marked);
    match a
    case MarkFree(_) => UseStagedKept(s, x, Marked);
    case BeginFree(_) => UseStagedKept(s, x, Freeing);
    case EndFree(_) =>
      UseStagedKept(s, x, Freed);
      TakenKept(UseStaged(s, x, Freed));
  }

  function ContextRemoved(s: State, x: nat): State {
    s.(contexts := s.contexts - {x}, activeContexts := s.activeContexts - 1)
  }

  lemma RemovedCounted(s: State, x: nat)
    requires Counted(s)
    ensures x in s.contexts ==> Counted(ContextRemoved(s, x))
    ensures x in s.sessions && s.sessions[x].owner in s.channels ==> Counted(SessionGone(s, x))
  {
    MapShrinks(s.contexts, x);
    MapShrinks(s.sessions, x);
  }

  lemma RemovedTokens(s: State, x: nat)
    requires TokensOk(s) && InUse(s)
    ensures x in s.contexts && s.contexts[x].stage == Freed ==>
              TokensOk(ContextRemoved(s, x)) && InUse(ContextRemoved(s, x))
    ensures x in s.sessions && s.sessions[x].owner in s.channels && s.sessions[x].stage == Freed ==>
              TokensOk(SessionGone(s, x)) && InUse(SessionGone(s, x))
  {
  }

  lemma EndContextKept(s: State, x: nat)
    requires x in s.contexts && s.contexts[x].stage == Freed
    requires Invariant(s)
    ensures FreeStep(s, EndUse(x)).Some? && Invariant(FreeStep(s, EndUse(x)).value)
  {
    hide Counted, TokensOk, InUse, GenerationsOk, ChannelsOk, RegistryOk, Taken, ChannelOk;
    var t := ContextRemoved(s, x);
    RemovedCounted(s, x);
    RemovedTokens(s, x);
    ContextGone(s, t, x);
    ContextGoneChannels(s, x);
    RegistrySame(s, t);
    TakenKept(t);
  }

  lemma ContextGoneChannels(s: State, x: nat)
    requires ChannelsOk(s) && TokensOk(s)
    ensures ChannelsOk(ContextRemoved(s, x))
  {
    hide ChannelsOk, ChannelOk;
    ChannelsSame(s, ContextRemoved(s, x));
  }

  lemma ContextGone(s: State, t: State, x: nat)
    requires GenerationsOk(s) && x in s.contexts && s.contexts[x].stage == Freed
    requires t == s.(contexts := s.contexts - {x}, activeContexts := t.activeContexts)
    ensures GenerationsOk(t)
  {
    forall id <- t.generations ensures GenerationOk(t, id, t.generations[id]) {
      assert GenerationOk(s, id, s.generations[id]);
    }
  }

  function SessionGone(s: State, x: nat): State
    requires x in s.sessions && s.sessions[x].owner in s.channels
  {
    var c := s.sessions[x].owner;
    s.(sessions := s.sessions - {x}, activeSessions := s.activeSessions - 1,
       channels := s.channels[c := s.channels[c].(stage := Closing(None))])
  }

  lemma SessionGoneOwners(s: State, x: nat)
    requires GenerationsOk(s) && ChannelsOk(s) && x in s.sessions && s.sessions[x].stage == Freed
    ensures s.sessions[x].owner in s.channels && GenerationsOk(SessionGone(s, x)) && ChannelsOk(SessionGone(s, x))
  {
    hide GenerationOk;
    var c := s.sessions[x].owner;
    var t := SessionGone(s, x);
    assert ChannelOk(s, c, s.channels[c]);
    GenerationsSame(s, t);
    assert forall y <- s.sessions :: s.sessions[y].owner == c ==> y == x;
    ChannelMoved(s, t, c);
  }

  lemma StillOpen(s: State, x: nat)
    requires LibraryOk(s) && (x in s.sessions || x in s.contexts)
    ensures !s.library.closed
  {
  }

  lemma SameLibrary(s: State, x: nat)
    requires x in s.sessions && s.sessions[x].owner in s.channels
    ensures SessionGone(s, x).library == s.library && SessionGone(s, x).registry == s.registry
  {
  }

  lemma EndSessionKept(s: State, x: nat)
    requires x in s.sessions && x !in s.contexts && s.sessions[x].stage == Freed && s.sessions[x].owner in s.channels
    requires Invariant(s)
    ensures FreeStep(s, EndUse(x)).Some? && Invariant(FreeStep(s, EndUse(x)).value)
  {
    hide Counted, LibraryOk, TokensOk, InUse, GenerationsOk, ChannelsOk, RegistryOk, Taken, FreeStep, Undecided,
         SessionGone;
    StillOpen(s, x);
    SessionGoneOwners(s, x);
    SameLibrary(s, x);
    var t := SessionGone(s, x);
    RemovedCounted(s, x);
    RemovedTokens(s, x);
    RegistrySame(s, t);
    UndecidedAgain(s, t);
    TakenKept(t);
    EndUseIs(s, x);
  }

  lemma EndUseIs(s: State, x: nat)
    requires x in s.sessions && x !in s.contexts && s.sessions[x].stage == Freed && s.sessions[x].owner in s.channels
    ensures FreeStep(s, EndUse(x)) == Some(Taken(SessionGone(s, x)))
  {
    hide Taken;
  }

  lemma UndecidedAgain(s: State, t: State)
    requires LibraryOk(s) && t.library == s.library && !s.library.closed
    requires Counted(t) && InUse(t) && TokensOk(t) && GenerationsOk(t) && ChannelsOk(t) && RegistryOk(t)
    ensures Undecided(t)
  {
    hide Counted, InUse, TokensOk, GenerationsOk, ChannelsOk, RegistryOk;
  }

  lemma FreeKept(s: State, a: Action)
    requires Invariant(s) && FreeStep(s, a).Some?
    ensures Invariant(FreeStep(s, a).value)
  {
    hide Invariant, Taken, GivenUp;
    match a
    case MarkFree(_) => MarkKept(s, a);
    case BeginFree(_) => MarkKept(s, a);
    case EndFree(_) => MarkKept(s, a);
    case EndUse(x) =>
      if x in s.contexts {
        EndContextKept(s, x);
      } else {
        EndSessionKept(s, x);
      }
  }

  // ---------------------------------------------------------------- owners

  /** Only generations and channels differ, and no new use of the library appears. */
  predicate OwnersOnly(s: State, t: State) {
    t == s.(generations := t.generations, channels := t.channels)
  }

  lemma OwnersOnlyKept(s: State, t: State)
    requires Invariant(s) && OwnersOnly(s, t) && GenerationsOk(t) && ChannelsOk(t)
    ensures Invariant(t)
  {
    hide GenerationsOk, ChannelsOk, RegistryOk;
    RegistrySame(s, t);
    SameTokens(s, t);
  }

  lemma SameTokens(s: State, t: State)
    requires OwnersOnly(s, t) && Counted(s) && LibraryOk(s) && InUse(s) && TokensOk(s)
    ensures Counted(t) && LibraryOk(t) && InUse(t) && TokensOk(t)
  {
  }

  /** One generation changed, its channels and contexts did not. */
  lemma GenerationMoved(s: State, t: State, id: nat)
    requires GenerationsOk(s) && OwnersOnly(s, t) && t.channels == s.channels && id in t.generations
    requires t.generations == s.generations[id := t.generations[id]] && GenerationOk(t, id, t.generations[id])
    requires Building(s, id) && !Building(t, id) ==> NoCreation(s, id)
    ensures GenerationsOk(t)
  {
    forall x <- t.generations ensures GenerationOk(t, x, t.generations[x]) {
      if x != id {
        assert GenerationOk(s, x, s.generations[x]);
      }
    }
  }

  lemma MoreGenerations(s: State, t: State)
    requires ChannelsOk(s) && OwnersOnly(s, t) && t.channels == s.channels
    requires forall id <- s.generations :: id in t.generations
    ensures ChannelsOk(t)
  {
    forall c <- t.channels ensures ChannelOk(t, c, t.channels[c]) {
      assert ChannelOk(s, c, s.channels[c]);
    }
  }

  lemma BuildKept(s: State, a: Action)
    requires Invariant(s) && (a.BuildBegin? || a.BuildEnd? || a.BuildFail? || a.Retire?) && OwnerStep(s, a).Some?
    ensures Invariant(OwnerStep(s, a).value)
  {
    hide Counted, LibraryOk, InUse, TokensOk, RegistryOk, ChannelsOk;
    var t := OwnerStep(s, a).value;
    if a.BuildBegin? {
      NobodyHolds(s, a.id);
    } else {
      assert GenerationOk(s, a.id, s.generations[a.id]);
    }
    GenerationMoved(s, t, a.id);
    MoreGenerations(s, t);
    OwnersOnlyKept(s, t);
  }

  lemma NobodyHolds(s: State, id: nat)
    requires ChannelsOk(s) && id !in s.generations
    ensures forall c <- s.channels :: s.channels[c].generation != id
  {
    forall c <- s.channels ensures s.channels[c].generation != id {
      assert ChannelOk(s, c, s.channels[c]);
    }
  }

  /** A channel takes or gives up its reference. */
  lemma HolderMoved(s: State, t: State, c: nat, id: nat)
    requires GenerationsOk(s) && OwnersOnly(s, t) && id in s.generations && id in t.generations && c in t.channels
    requires t.generations == s.generations[id := t.generations[id]] && GenerationOk(t, id, t.generations[id])
    requires t.channels == s.channels[c := t.channels[c]] && t.channels[c].generation == id
    requires c in s.channels ==> s.channels[c].generation == id
    requires t.generations[id].built && s.generations[id].built
    ensures GenerationsOk(t)
  {
    forall x <- t.generations ensures GenerationOk(t, x, t.generations[x]) {
      if x != id {
        assert GenerationOk(s, x, s.generations[x]);
      }
    }
  }

  lemma OpenedGenerations(s: State, a: Action)
    requires GenerationsOk(s) && ChannelsOk(s) && a.OpenChannel? && OwnerStep(s, a).Some?
    ensures GenerationsOk(OwnerStep(s, a).value)
  {
    assert GenerationOk(s, a.id, s.generations[a.id]);
    hide GenerationsOk, ChannelsOk;
    HolderMoved(s, OwnerStep(s, a).value, a.channel, a.id);
  }

  lemma OpenedChannels(s: State, a: Action)
    requires ChannelsOk(s) && a.OpenChannel? && OwnerStep(s, a).Some?
    ensures ChannelsOk(OwnerStep(s, a).value)
  {
    var t := OwnerStep(s, a).value;
    forall d <- t.channels ensures ChannelOk(t, d, t.channels[d]) {
      if d != a.channel {
        assert ChannelOk(s, d, s.channels[d]);
      }
    }
  }

  lemma OpenChannelKept(s: State, a: Action)
    requires Invariant(s) && a.OpenChannel? && OwnerStep(s, a).Some?
    ensures Invariant(OwnerStep(s, a).value)
  {
    hide Counted, LibraryOk, InUse, TokensOk, RegistryOk, GenerationsOk, ChannelsOk;
    OpenedGenerations(s, a);
    OpenedChannels(s, a);
    OwnersOnlyKept(s, OwnerStep(s, a).value);
  }

  lemma DroppedGenerations(s: State, a: Action)
    requires GenerationsOk(s) && ChannelsOk(s) && a.DropGeneration? && OwnerStep(s, a).Some?
    ensures GenerationsOk(OwnerStep(s, a).value)
  {
    var t := OwnerStep(s, a).value;
    var c := a.channel;
    var id := s.channels[c].generation;
    assert GenerationOk(s, id, s.generations[id]);
    assert c in s.generations[id].holders;
    hide GenerationsOk, ChannelsOk;
    HolderMoved(s, t, c, id);
  }

  lemma DroppedChannels(s: State, a: Action)
    requires ChannelsOk(s) && a.DropGeneration? && OwnerStep(s, a).Some?
    ensures ChannelsOk(OwnerStep(s, a).value)
  {
    var t := OwnerStep(s, a).value;
    var c := a.channel;
    assert ChannelOk(s, c, s.channels[c]);
    assert forall y <- s.sessions :: s.sessions[y].owner != c;
    assert forall y <- s.creating :: s.creating[y].kind == SessionKind ==> s.creating[y].owner != c;
    hide ChannelsOk;
    ChannelMoved(s, t, c);
  }

  lemma DropKept(s: State, a: Action)
    requires Invariant(s) && a.DropGeneration? && OwnerStep(s, a).Some?
    ensures Invariant(OwnerStep(s, a).value)
  {
    hide Counted, LibraryOk, InUse, TokensOk, RegistryOk, GenerationsOk, ChannelsOk;
    DroppedGenerations(s, a);
    DroppedChannels(s, a);
    OwnersOnlyKept(s, OwnerStep(s, a).value);
  }

  lemma CloseKept(s: State, a: Action)
    requires Invariant(s) && (a.AbandonChannel? || a.CloseChannel?) && OwnerStep(s, a).Some?
    ensures Invariant(OwnerStep(s, a).value)
  {
    hide Counted, LibraryOk, InUse, TokensOk, RegistryOk, GenerationOk;
    var t := OwnerStep(s, a).value;
    var c := a.channel;
    GenerationsSame(s, t);
    assert ChannelOk(s, c, s.channels[c]);
    assert forall y <- s.creating :: s.creating[y].kind == SessionKind ==> s.creating[y].owner != c;
    ChannelMoved(s, t, c);
    OwnersOnlyKept(s, t);
  }

  lemma OwnerKept(s: State, a: Action)
    requires Invariant(s) && OwnerStep(s, a).Some?
    ensures Invariant(OwnerStep(s, a).value)
  {
    hide Invariant, Dropped;
    match a
    case OpenChannel(_, _) => OpenChannelKept(s, a);
    case AbandonChannel(_) => CloseKept(s, a);
    case CloseChannel(_) => CloseKept(s, a);
    case DropGeneration(_) => DropKept(s, a);
    case _ => BuildKept(s, a);
  }

  // ---------------------------------------------------------------- every run

  lemma ActKept(s: State, a: Action)
    requires Invariant(s) && Act(s, a).Some?
    ensures Invariant(Act(s, a).value)
  {
    hide Invariant, LibraryStep, RegistryStep, CreateStep, CallStep, FreeStep, OwnerStep;
    match a
    case ActivateBegin => LibraryKept(s, a);
    case OpenLibrary(_) => LibraryKept(s, a);
    case PublishLibrary(_) => LibraryKept(s, a);
    case DiscardLibrary => LibraryKept(s, a);
    case Unload(_) => LibraryKept(s, a);
    case RequestClose => LibraryKept(s, a);
    case Lease => RegistryKept(s, a);
    case GiveUpLease => RegistryKept(s, a);
    case CloseRegistry => RegistryKept(s, a);
    case Reserve(_, _, _) => CreateKept(s, a);
    case BeginCreate(_) => CreateKept(s, a);
    case EndCreate(_, _) => CreateKept(s, a);
    case CancelCreate(_) => CreateKept(s, a);
    case PublishCreate(_) => CreateKept(s, a);
    case BeginCall(_) => CallKept(s, a);
    case EndCall(_) => CallKept(s, a);
    case MarkFree(_) => FreeKept(s, a);
    case BeginFree(_) => FreeKept(s, a);
    case EndFree(_) => FreeKept(s, a);
    case EndUse(_) => FreeKept(s, a);
    case _ => OwnerKept(s, a);
  }

  function Run(s: State, actions: seq<Action>): State
    decreases |actions|
  {
    if actions == [] then s
    else Run(match Act(s, actions[0]) case Some(t) => t case None => s, actions[1..])
  }

  lemma {:induction false} RunKept(s: State, actions: seq<Action>)
    requires Invariant(s)
    ensures Invariant(Run(s, actions))
    decreases |actions|
  {
    hide Invariant, Act;
    if actions != [] {
      if Act(s, actions[0]).Some? {
        ActKept(s, actions[0]);
        RunKept(Act(s, actions[0]).value, actions[1..]);
      } else {
        RunKept(s, actions[1..]);
      }
    }
  }

  /** A channel that still owns a session, or the reference it will give up. */
  predicate OpenSession(x: Channel) {
    x.stage.Open? || (x.stage.Closing? && x.stage.left.Some?)
  }

  predicate AllZero(s: State) {
    s.activeCalls == 0 && s.pending == 0 && s.activeContexts == 0 && s.activeSessions == 0
  }

  /** Every interleaving. Only opened libraries are closed, each at most once, and each one
      exactly once when none is held. What is called, created in or freed from is the published
      library, which has not been closed. Once it may be closed, or is, nothing is left that
      uses it: no call, no unfinished creation, no context, no session, no channel with a
      session and no built generation that is not destroyed. And a requested close with all
      four counters at zero has happened. */
  lemma LibraryLifetime(closeOnLast: bool, actions: seq<Action>)
    ensures var s := Run(Initial(closeOnLast), actions); var l := s.library;
            && Distinct(l.closes) && (forall k: nat :: k < l.opens <==> Held(l, k) || k in l.closes)
            && (forall k: nat :: Held(l, k) ==> k !in l.closes)
            && (s.calls != {} || s.contexts != map[] || s.sessions != map[] ==>
                  l.handle.Some? && l.handle.value !in l.closes && l.handle.value !in l.unloading)
            && (l.unloading != {} || l.closed ==>
                  && s.calls == {} && s.creating == map[] && s.contexts == map[] && s.sessions == map[]
                  && (forall c <- s.channels :: !OpenSession(s.channels[c]))
                  && (forall id <- s.generations :: s.generations[id].built ==> s.generations[id].destroyed))
            && (l.closeRequested && AllZero(s) ==> l.closed)
  {
    hide Run;
    InitialInvariant(closeOnLast);
    RunKept(Initial(closeOnLast), actions);
    var s := Run(Initial(closeOnLast), actions);
    NothingCounted(s);
    if s.library.closed {
      ClosedMeansUnused(s);
    }
  }

  lemma ClosedMeansUnused(s: State)
    requires Invariant(s) && s.library.closed
    ensures forall c <- s.channels :: !OpenSession(s.channels[c])
    ensures forall id <- s.generations :: s.generations[id].built ==> s.generations[id].destroyed
  {
    hide Counted, InUse, TokensOk, RegistryOk;
    forall c <- s.channels ensures !OpenSession(s.channels[c]) {
      assert ChannelOk(s, c, s.channels[c]);
    }
    forall id <- s.generations ensures s.generations[id].built ==> s.generations[id].destroyed {
      OneContext(s, id);
    }
  }

  lemma OneContext(s: State, id: nat)
    requires GenerationsOk(s) && id in s.generations
    ensures s.generations[id].built && !s.generations[id].destroyed ==> s.contexts != map[]
  {
    var g := s.generations[id];
    assert GenerationOk(s, id, g);
    if g.contexts != {} {
      var t :| t in g.contexts;
      assert t in s.contexts;
    }
  }

  lemma RegistryOf(s: State)
    requires Invariant(s)
    ensures RegistryOk(s)
  {
  }

  /** The registry asks the provider to close only after it is closed itself and its last
      lease has ended, and after that no lease can begin. */
  lemma ClosesAfterLastLease(closeOnLast: bool, actions: seq<Action>)
    ensures var s := Run(Initial(closeOnLast), actions);
            s.library.closeRequested ==> s.registry.closed && s.registry.leases == 0 && Act(s, Lease).None?
  {
    hide Run, Invariant;
    InitialInvariant(closeOnLast);
    RunKept(Initial(closeOnLast), actions);
    RegistryOf(Run(Initial(closeOnLast), actions));
  }
}
