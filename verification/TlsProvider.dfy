/** The native provider object: its locked regions, and the library they hand out to be closed. */
module TlsProviders {
  import opened Octets
  import TlsLifetime

  datatype ProviderError = NotActivated | Closing | Underflow

  /** The provider's accounting. */
  datatype Accounts = Accounts(
    library: Option<nat>, contexts: int, sessions: int, pending: int, calls: int, closeRequested: bool, closed: bool)

  predicate Unused(a: Accounts) {
    a.contexts == 0 && a.sessions == 0 && a.pending == 0 && a.calls == 0
  }

  /** A provider is closed exactly when a close was requested and nothing is counted. */
  predicate Settled(a: Accounts) {
    && a.contexts >= 0 && a.sessions >= 0 && a.pending >= 0 && a.calls >= 0
    && (a.closed <==> a.closeRequested && Unused(a)) && (a.closed ==> a.library == None)
  }

  /** What looking for a library to close does: the accounts after it and the library handed out. */
  function Looked(a: Accounts): (Accounts, Option<nat>) {
    if a.closeRequested && !a.closed && Unused(a) then (a.(library := None, closed := true), a.library) else (a, None)
  }

  /** Looking settles the accounts, and hands a library out only when nothing is counted. */
  lemma LookedSettles(a: Accounts)
    requires a.contexts >= 0 && a.sessions >= 0 && a.pending >= 0 && a.calls >= 0
    requires a.closed ==> a.closeRequested && Unused(a) && a.library == None
    ensures Settled(Looked(a).0)
            && (Looked(a).1.Some? ==> Unused(a) && a.closeRequested && !a.closed && Looked(a).0.library == None)
  {
  }

  /** The provider's locked regions. */
  datatype Region =
    | Publishing(candidate: nat) | StartingCall | EndingCall | Reserving | Keeping(session: bool) | Cancelling
    | Releasing(session: bool) | Requesting

  /** What a region does: the accounts after it, the library it hands out, and whether it did anything. */
  function Outcome(a: Accounts, region: Region): (Accounts, Option<nat>, bool) {
    match region
    case Publishing(candidate) => if a.closeRequested || a.closed then (a, None, false)
      else (a.(library := Some(candidate)), None, true)
    case StartingCall => if a.closed || a.library == None then (a, None, false)
      else (a.(calls := a.calls + 1), None, true)
    case EndingCall => if a.calls <= 0 then (a, None, false) else Looking(a.(calls := a.calls - 1))
    case Reserving => if a.closeRequested || a.closed then (a, None, false)
      else (a.(pending := a.pending + 1), None, true)
    case Keeping(session) =>
      if a.pending <= 0 then (a, None, false)
      else if session then (a.(pending := a.pending - 1, sessions := a.sessions + 1), None, true)
      else (a.(pending := a.pending - 1, contexts := a.contexts + 1), None, true)
    case Cancelling => if a.pending <= 0 then (a, None, false) else Looking(a.(pending := a.pending - 1))
    case Releasing(session) =>
      if (if session then a.sessions else a.contexts) <= 0 then (a, None, false)
      else Looking(if session then a.(sessions := a.sessions - 1) else a.(contexts := a.contexts - 1))
    case Requesting => if a.closed || a.closeRequested then (a, None, false) else Looking(a.(closeRequested := true))
  }

  function Looking(a: Accounts): (Accounts, Option<nat>, bool) {
    (Looked(a).0, Looked(a).1, true)
  }

  /** The provider's accounts in a state of the chain. */
  function Provider(s: TlsLifetime.State): Accounts {
    Accounts(s.library.handle, s.activeContexts, s.activeSessions, s.pending, s.activeCalls, s.library.closeRequested,
      s.library.closed)
  }

  /** The region a step of the chain enters, if any. */
  function RegionOf(s: TlsLifetime.State, a: TlsLifetime.Action): Option<Region> {
    match a
    case PublishLibrary(ok) => if ok && s.library.activation.Opened? then Some(Publishing(s.library.activation.library))
      else None
    case RequestClose => Some(Requesting)
    case Reserve(_, _, _) => Some(Reserving)
    case BeginCreate(_) => Some(StartingCall)
    case EndCreate(_, _) => Some(EndingCall)
    case CancelCreate(_) => Some(Cancelling)
    case PublishCreate(t) => if t in s.creating then Some(Keeping(s.creating[t].kind == TlsLifetime.SessionKind))
      else None
    case BeginCall(_) => Some(StartingCall)
    case EndCall(_) => Some(EndingCall)
    case BeginFree(_) => Some(StartingCall)
    case EndFree(_) => Some(EndingCall)
    case EndUse(t) => Some(Releasing(t !in s.contexts))
    case _ => None
  }

  /** The step changes the accounts as the region does, and sends off the library it hands out. */
  predicate Matches(s: TlsLifetime.State, t: TlsLifetime.State, region: Region) {
    && Provider(t) == Outcome(Provider(s), region).0
    && t.library.unloading == TlsLifetime.Sent(s.library.unloading, Outcome(Provider(s), region).1)
  }

  lemma TakenLooks(s: TlsLifetime.State, u: TlsLifetime.State, region: Region)
    requires u.library.unloading == s.library.unloading && Outcome(Provider(s), region) == Looking(Provider(u))
    ensures Matches(s, TlsLifetime.Taken(u), region)
  {
  }

  lemma NonEmpty<T>(m: map<nat, T>, t: nat)
    requires t in m
    ensures |m| > 0
  {
    assert t in m.Keys;
  }

  predicate Counts(s: TlsLifetime.State, region: Region) {
    match region
    case EndingCall => s.activeCalls > 0
    case Keeping(_) => s.pending > 0
    case Cancelling => s.pending > 0
    case Releasing(session) => if session then s.activeSessions > 0 else s.activeContexts > 0
    case _ => true
  }

  /** What a step gives up has been counted. */
  lemma CountedBefore(s: TlsLifetime.State, a: TlsLifetime.Action)
    requires TlsLifetime.Counted(s) && TlsLifetime.TokensOk(s) && TlsLifetime.Act(s, a).Some? && RegionOf(s, a).Some?
    ensures Counts(s, RegionOf(s, a).value)
  {
    hide TlsLifetime.Taken, TlsLifetime.GivenUp, TlsLifetime.MayReserve, TlsLifetime.Fresh, TlsLifetime.OwnerStep,
         TlsLifetime.LibraryStep;
    match a
    case EndCreate(t, _) => assert t in s.calls;
    case EndCall(t) => assert t in s.calls;
    case EndFree(t) => assert t in s.calls;
    case CancelCreate(t) => NonEmpty(s.creating, t);
    case PublishCreate(t) => NonEmpty(s.creating, t);
    case EndUse(t) =>
      if t in s.contexts {
        NonEmpty(s.contexts, t);
      } else {
        NonEmpty(s.sessions, t);
      }
    case _ =>
  }

  lemma CreationRegions(s: TlsLifetime.State, a: TlsLifetime.Action)
    requires TlsLifetime.CreateStep(s, a).Some? && (RegionOf(s, a).Some? ==> Counts(s, RegionOf(s, a).value))
    ensures RegionOf(s, a).Some? && Matches(s, TlsLifetime.CreateStep(s, a).value, RegionOf(s, a).value)
  {
    hide TlsLifetime.Taken, Looked, TlsLifetime.MayReserve, TlsLifetime.Fresh;
    match a
    case EndCreate(t, ok) =>
      hide Matches;
      var c := s.creating[t].(stage := if ok then TlsLifetime.Created else TlsLifetime.Failing);
      TakenLooks(s, s.(creating := s.creating[t := c], calls := s.calls - {t}, activeCalls := s.activeCalls - 1),
        EndingCall);
    case CancelCreate(t) =>
      hide Matches;
      var c := s.creating[t];
      var u := s.(pending := s.pending - 1, creating := s.creating - {t});
      if c.kind == TlsLifetime.ContextKind {
        TakenLooks(s, u, Cancelling);
      } else {
        var closing := s.channels[c.owner].(stage := TlsLifetime.ChannelStage.Closing(None));
        TakenLooks(s, u.(channels := s.channels[c.owner := closing]), Cancelling);
      }
    case _ =>
  }

  lemma CallRegions(s: TlsLifetime.State, a: TlsLifetime.Action)
    requires TlsLifetime.CallStep(s, a).Some? && RegionOf(s, a).Some? && Counts(s, RegionOf(s, a).value)
    ensures Matches(s, TlsLifetime.CallStep(s, a).value, RegionOf(s, a).value)
  {
    hide TlsLifetime.Taken, Looked, TlsLifetime.Fresh;
    if a.EndCall? {
      TakenLooks(s, s.(calls := s.calls - {a.token}, activeCalls := s.activeCalls - 1), EndingCall);
    }
  }

  lemma FreeRegions(s: TlsLifetime.State, a: TlsLifetime.Action)
    requires TlsLifetime.FreeStep(s, a).Some? && RegionOf(s, a).Some? && Counts(s, RegionOf(s, a).value)
    ensures Matches(s, TlsLifetime.FreeStep(s, a).value, RegionOf(s, a).value)
  {
    hide TlsLifetime.Taken, Looked, TlsLifetime.GivenUp;
    match a
    case EndFree(t) =>
      hide Matches;
      TakenLooks(s, TlsLifetime.WithStage(s, t, TlsLifetime.Freed).(calls := s.calls - {t},
        activeCalls := s.activeCalls - 1), EndingCall);
    case EndUse(t) =>
      hide Matches;
      if t in s.contexts {
        TakenLooks(s, s.(contexts := s.contexts - {t}, activeContexts := s.activeContexts - 1), Releasing(false));
      } else {
        var c := s.sessions[t].owner;
        TakenLooks(s, s.(sessions := s.sessions - {t}, activeSessions := s.activeSessions - 1,
                         channels := s.channels[c := s.channels[c].(stage := TlsLifetime.ChannelStage.Closing(None))]),
                           Releasing(true));
      }
    case _ =>
  }

  lemma LibraryRegions(s: TlsLifetime.State, a: TlsLifetime.Action)
    requires TlsLifetime.LibraryStep(s, a).Some?
    ensures RegionOf(s, a).Some? ==> Matches(s, TlsLifetime.LibraryStep(s, a).value, RegionOf(s, a).value)
    ensures RegionOf(s, a).None? ==> Outside(s, TlsLifetime.LibraryStep(s, a).value)
  {
    hide TlsLifetime.Taken, Looked;
    if a.RequestClose? {
      hide Matches;
      var u := s.(registry := s.registry.(closing := false));
      if s.library.closed || s.library.closeRequested {
        SameMatches(s, u);
      } else {
        TakenLooks(s, u.(library := s.library.(closeRequested := true)), Requesting);
      }
    }
  }

  lemma SameMatches(s: TlsLifetime.State, u: TlsLifetime.State)
    requires u.library == s.library && Provider(u) == Provider(s) && (s.library.closed || s.library.closeRequested)
    ensures Matches(s, u, Requesting)
  {
  }

  /** The accounts stay, and nothing is handed out. */
  predicate Outside(s: TlsLifetime.State, t: TlsLifetime.State) {
    Provider(t) == Provider(s) && t.library.unloading <= s.library.unloading
  }

  lemma OwnersOutside(s: TlsLifetime.State, a: TlsLifetime.Action)
    requires TlsLifetime.Act(s, a).Some? && RegionOf(s, a).None? && TlsLifetime.LibraryStep(s, a).None?
    ensures Outside(s, TlsLifetime.Act(s, a).value)
  {
    hide TlsLifetime.Dropped, TlsLifetime.NoCreation, TlsLifetime.Building, TlsLifetime.ToClose, TlsLifetime.Taken,
         TlsLifetime.GivenUp;
    hide TlsLifetime.CallStep, TlsLifetime.LibraryStep;
  }

  /** The steps of the chain are the provider's regions: each changes the accounts as its
      region does and sends off exactly the library the region hands out, and no count of it
      underflows. A step outside the regions leaves the accounts as they are. */
  lemma StepsAreRegions(s: TlsLifetime.State, a: TlsLifetime.Action)
    requires TlsLifetime.Invariant(s) && TlsLifetime.Act(s, a).Some?
    ensures RegionOf(s, a).Some? ==>
              Matches(s, TlsLifetime.Act(s, a).value, RegionOf(s, a).value) && Counts(s, RegionOf(s, a).value)
    ensures RegionOf(s, a).None? ==> Outside(s, TlsLifetime.Act(s, a).value)
  {
    hide TlsLifetime.LibraryOk, TlsLifetime.InUse, TlsLifetime.GenerationsOk, TlsLifetime.ChannelsOk,
         TlsLifetime.RegistryOk;
    hide TlsLifetime.Counted, TlsLifetime.TokensOk, Matches, Outside, Counts;
    hide TlsLifetime.CreateStep, TlsLifetime.CallStep, TlsLifetime.FreeStep, TlsLifetime.OwnerStep,
         TlsLifetime.RegistryStep;
    if RegionOf(s, a).Some? {
      CountedBefore(s, a);
    }
    match a
    case ActivateBegin => LibraryRegions(s, a);
    case OpenLibrary(_) => LibraryRegions(s, a);
    case PublishLibrary(_) => LibraryRegions(s, a);
    case DiscardLibrary => LibraryRegions(s, a);
    case Unload(_) => LibraryRegions(s, a);
    case RequestClose => LibraryRegions(s, a);
    case Reserve(_, _, _) => CreationRegions(s, a);
    case BeginCreate(_) => CreationRegions(s, a);
    case EndCreate(_, _) => CreationRegions(s, a);
    case CancelCreate(_) => CreationRegions(s, a);
    case PublishCreate(_) => CreationRegions(s, a);
    case BeginCall(_) => CallRegions(s, a);
    case EndCall(_) => CallRegions(s, a);
    case BeginFree(_) => FreeRegions(s, a);
    case EndFree(_) => FreeRegions(s, a);
    case EndUse(_) => FreeRegions(s, a);
    case _ => OwnersOutside(s, a);
  }

  class PccNativeTlsProvider {
    var library: Option<nat>
    var contexts: int
    var sessions: int
    var pending: int
    var calls: int
    var closeRequested: bool
    var closed: bool

    function View(): Accounts
      reads this
    {
      Accounts(library, contexts, sessions, pending, calls, closeRequested, closed)
    }

    ghost predicate Valid()
      reads this
    {
      Settled(View())
    }

    constructor ()
      ensures Valid() && View() == Accounts(None, 0, 0, 0, 0, false, false)
    {
      library, contexts, sessions, pending, calls, closeRequested, closed := None, 0, 0, 0, 0, false, false;
    }

    /** `_take_library_to_close_locked`. */
    method TakeLibrary() returns (taken: Option<nat>)
      modifies this`library, this`closed
      ensures (View(), taken) == Looked(old(View()))
    {
      if !closeRequested || closed || contexts != 0 || sessions != 0 || pending != 0 || calls != 0 {
        return None;
      }
      taken := library;
      library := None;
      closed := true;
    }

    /** The region of `activate` that publishes an opened library; false when it must be closed. */
    method PublishLibrary(candidate: nat) returns (published: bool)
      requires Valid() && library == None
      modifies this`library
      ensures Valid() && published == (!closeRequested && !closed)
      ensures View() == if published then old(View()).(library := Some(candidate)) else old(View())
      ensures (View(), None, published) == Outcome(old(View()), Publishing(candidate))
    {
      if closeRequested || closed {
        return false;
      }
      library := Some(candidate);
      return true;
    }

    method BeginCall() returns (r: Result<nat, ProviderError>)
      requires Valid()
      modifies this`calls
      ensures Valid()
      ensures r == if closed || library == None then Err(NotActivated) else Ok(library.value)
      ensures calls == old(calls) + (if r.Ok? then 1 else 0)
      ensures (View(), None, r.Ok?) == Outcome(old(View()), StartingCall)
    {
      if closed || library == None {
        return Err(NotActivated);
      }
      calls := calls + 1;
      return Ok(library.value);
    }

    method FinishCall() returns (r: Result<Option<nat>, ProviderError>)
      requires Valid()
      modifies this`calls, this`library, this`closed
      ensures Valid() && (r.Err? <==> old(calls) <= 0)
      ensures if r.Ok? then (View(), r.value) == Looked(old(View()).(calls := old(calls) - 1))
                else View() == old(View())
      ensures (View(), if r.Ok? then r.value else None, r.Ok?) == Outcome(old(View()), EndingCall)
    {
      if calls <= 0 {
        return Err(Underflow);
      }
      calls := calls - 1;
      LookedSettles(View());
      var taken := TakeLibrary();
      return Ok(taken);
    }

    method ReserveResource() returns (r: Result<(), ProviderError>)
      requires Valid()
      modifies this`pending
      ensures Valid() && (r.Err? <==> closeRequested || closed)
      ensures pending == old(pending) + (if r.Ok? then 1 else 0)
      ensures (View(), None, r.Ok?) == Outcome(old(View()), Reserving)
    {
      if closeRequested || closed {
        return Err(Closing);
      }
      pending := pending + 1;
      return Ok(());
    }

    method PublishResource(session: bool) returns (r: Result<(), ProviderError>)
      requires Valid()
      modifies this`pending, this`contexts, this`sessions
      ensures Valid() && (r.Err? <==> old(pending) <= 0)
      ensures View() == if r.Err? then old(View())
                        else if session then old(View()).(pending := old(pending) - 1, sessions := old(sessions) + 1)
                        else old(View()).(pending := old(pending) - 1, contexts := old(contexts) + 1)
      ensures (View(), None, r.Ok?) == Outcome(old(View()), Keeping(session))
    {
      if pending <= 0 {
        return Err(Underflow);
      }
      pending := pending - 1;
      if session {
        sessions := sessions + 1;
      } else {
        contexts := contexts + 1;
      }
      return Ok(());
    }

    method CancelResource() returns (r: Result<Option<nat>, ProviderError>)
      requires Valid()
      modifies this`pending, this`library, this`closed
      ensures Valid() && (r.Err? <==> old(pending) <= 0)
      ensures if r.Ok? then (View(), r.value) == Looked(old(View()).(pending := old(pending) - 1))
                else View() == old(View())
      ensures (View(), if r.Ok? then r.value else None, r.Ok?) == Outcome(old(View()), Cancelling)
    {
      if pending <= 0 {
        return Err(Underflow);
      }
      pending := pending - 1;
      LookedSettles(View());
      var taken := TakeLibrary();
      return Ok(taken);
    }

    method ReleaseResource(session: bool) returns (r: Result<Option<nat>, ProviderError>)
      requires Valid()
      modifies this`contexts, this`sessions, this`library, this`closed
      ensures Valid() && (r.Err? <==> (if session then old(sessions) else old(contexts)) <= 0)
      ensures if r.Err? then View() == old(View())
              else (View(), r.value) == Looked(if session then old(View()).(sessions := old(sessions) - 1)
                                               else old(View()).(contexts := old(contexts) - 1))
      ensures (View(), if r.Ok? then r.value else None, r.Ok?) == Outcome(old(View()), Releasing(session))
    {
      if session {
        if sessions <= 0 {
          return Err(Underflow);
        }
        sessions := sessions - 1;
      } else {
        if contexts <= 0 {
          return Err(Underflow);
        }
        contexts := contexts - 1;
      }
      LookedSettles(View());
      var taken := TakeLibrary();
      return Ok(taken);
    }

    /** `close()`: the result says whether the provider closed at once. */
    method RequestClose() returns (closedNow: bool, taken: Option<nat>)
      requires Valid()
      modifies this`closeRequested, this`library, this`closed
      ensures Valid()
      ensures old(closed || closeRequested) ==> !closedNow && taken == None && View() == old(View())
      ensures !old(closed || closeRequested) ==>
                (View(), taken) == Looked(old(View()).(closeRequested := true)) && closedNow == closed
      ensures (View(), taken, !old(closed || closeRequested)) == Outcome(old(View()), Requesting)
    {
      if closed || closeRequested {
        return false, None;
      }
      closeRequested := true;
      LookedSettles(View());
      taken := TakeLibrary();
      return closed, taken;
    }
  }
}
