/** Nothing that has begun gets stuck: what is left to finish always can be, in a bounded number
    of steps, and then the library of a closed registry without owners has been closed. */
module TlsProgress {
  import opened Octets
  import opened MapSums
  import opened TlsLifetime

  // ---------------------------------------------------------------- what is left to finish

  /** The steps that only finish what has begun: no lease, build, channel, reservation or call of
      its own begins, and no owner decides to give anything up. */
  predicate Finishing(a: Action) {
    || a.OpenLibrary? || a.PublishLibrary? || a.DiscardLibrary? || a.Unload? || a.RequestClose?
    || a.BeginCreate? || a.EndCreate? || a.CancelCreate? || a.PublishCreate? || a.EndCall?
    || a.MarkFree? || a.BeginFree? || a.EndFree? || a.EndUse? || a.DropGeneration?
  }

  predicate Quiet(s: State, t: nat) {
    Stage(s, t) == Some(Live) && !GivenUp(s, t)
  }

  /** Nothing is under way. */
  predicate Settled(s: State) {
    && s.creating == map[] && s.calls == {}
    && (forall t <- s.contexts :: Quiet(s, t)) && (forall t <- s.sessions :: Quiet(s, t))
    && (forall c <- s.channels :: var x := s.channels[c].stage; x == Holding || x.Open? || x == Released)
    && s.library.activation == Inactive && s.library.unloading == {} && !s.registry.closing
  }

  /** A channel waits for its session only while that is being created. */
  ghost predicate Awaited(s: State) {
    forall c <- s.channels :: s.channels[c].stage == Creating ==>
      exists t :: Awaits(s, t, c)
  }

  predicate Awaits(s: State, t: nat, c: nat) {
    t in s.creating && s.creating[t].kind == SessionKind && s.creating[t].owner == c
  }

  lemma ReserveAwaited(s: State, a: Action)
    requires Awaited(s) && a.Reserve? && CreateStep(s, a).Some?
    ensures Awaited(CreateStep(s, a).value)
  {
    var u := CreateStep(s, a).value;
    forall c <- u.channels | u.channels[c].stage == Creating ensures exists t :: Awaits(u, t, c) {
      if a.kind == SessionKind && c == a.owner {
        assert Awaits(u, a.token, c);
      } else {
        var t :| Awaits(s, t, c);
        assert Awaits(u, t, c);
      }
    }
  }

  /** A creation that goes on stays its channel's. */
  lemma MoveAwaited(s: State, a: Action)
    requires Awaited(s) && (a.BeginCreate? || a.EndCreate?) && CreateStep(s, a).Some?
    ensures Awaited(CreateStep(s, a).value)
  {
    hide Taken;
    var u := CreateStep(s, a).value;
    TakenMoves();
    forall c <- u.channels | u.channels[c].stage == Creating ensures exists t :: Awaits(u, t, c) {
      var t :| Awaits(s, t, c);
      assert Awaits(u, t, c);
    }
  }

  lemma TakenMoves()
    ensures forall u: State :: Taken(u).creating == u.creating && Taken(u).channels == u.channels
  {
  }

  /** One that ends leaves no channel waiting but those of other creations. */
  lemma GoneAwaited(s: State, a: Action)
    requires Awaited(s) && (a.CancelCreate? || a.PublishCreate?) && CreateStep(s, a).Some?
    ensures Awaited(CreateStep(s, a).value)
  {
    hide Taken;
    var u := CreateStep(s, a).value;
    TakenMoves();
    forall c <- u.channels | u.channels[c].stage == Creating ensures exists t :: Awaits(u, t, c) {
      var t :| Awaits(s, t, c);
      assert t != a.token;
      assert Awaits(u, t, c);
    }
  }

  lemma CreateAwaited(s: State, a: Action)
    requires Awaited(s) && CreateStep(s, a).Some?
    ensures Awaited(CreateStep(s, a).value)
  {
    hide CreateStep, Awaited;
    CreateActions(s, a);
    if a.Reserve? {
      ReserveAwaited(s, a);
    } else if a.BeginCreate? || a.EndCreate? {
      MoveAwaited(s, a);
    } else {
      GoneAwaited(s, a);
    }
  }

  lemma CreateActions(s: State, a: Action)
    requires CreateStep(s, a).Some?
    ensures a.Reserve? || a.BeginCreate? || a.EndCreate? || a.CancelCreate? || a.PublishCreate?
  {
  }

  /** No step but a creation's makes a channel wait or ends a creation. */
  predicate NoneWaits(s: State, u: State) {
    u.creating == s.creating
    && forall c <- u.channels :: u.channels[c].stage == Creating ==> c in s.channels && s.channels[c].stage == Creating
  }

  lemma NoneWaitsAwaited(s: State, u: State)
    requires Awaited(s) && NoneWaits(s, u)
    ensures Awaited(u)
  {
    forall c <- u.channels | u.channels[c].stage == Creating
      ensures exists t :: Awaits(u, t, c)
    {
      var t :| Awaits(s, t, c);
      assert Awaits(u, t, c);
    }
  }

  lemma LibraryNoneWaits(s: State, a: Action)
    ensures LibraryStep(s, a).Some? ==> NoneWaits(s, LibraryStep(s, a).value)
    ensures RegistryStep(s, a).Some? ==> NoneWaits(s, RegistryStep(s, a).value)
    ensures CallStep(s, a).Some? ==> NoneWaits(s, CallStep(s, a).value)
  {
    hide Taken;
    TakenMoves();
  }

  lemma FreeNoneWaits(s: State, a: Action)
    requires FreeStep(s, a).Some?
    ensures NoneWaits(s, FreeStep(s, a).value)
  {
    hide Taken, GivenUp;
    TakenMoves();
  }

  lemma OwnerNoneWaits(s: State, a: Action)
    requires OwnerStep(s, a).Some?
    ensures NoneWaits(s, OwnerStep(s, a).value)
  {
  }

  lemma {:induction false} RunAwaited(s: State, actions: seq<Action>)
    requires Invariant(s) && Awaited(s)
    ensures Invariant(Run(s, actions)) && Awaited(Run(s, actions))
    decreases |actions|
  {
    hide Invariant, Awaited, Act, CreateStep;
    if actions != [] {
      if Act(s, actions[0]).Some? {
        var u := Act(s, actions[0]).value;
        ActKept(s, actions[0]);
        ActAwaited(s, actions[0]);
        RunAwaited(u, actions[1..]);
      } else {
        RunAwaited(s, actions[1..]);
      }
    }
  }

  lemma ActAwaited(s: State, a: Action)
    requires Invariant(s) && Awaited(s) && Act(s, a).Some?
    ensures Awaited(Act(s, a).value)
  {
    hide Invariant, Awaited, NoneWaits, CreateStep, LibraryStep, RegistryStep, CallStep, FreeStep, OwnerStep;
    LibraryNoneWaits(s, a);
    if FreeStep(s, a).Some? {
      FreeNoneWaits(s, a);
    }
    if OwnerStep(s, a).Some? {
      OwnerNoneWaits(s, a);
    }
    if CreateStep(s, a).Some? && Act(s, a) == CreateStep(s, a) {
      CreateAwaited(s, a);
    } else {
      NoneWaitsAwaited(s, Act(s, a).value);
    }
  }

  // ---------------------------------------------------------------- what may begin

  lemma GenerationFacts(s: State, id: nat)
    requires Invariant(s) && id in s.generations
    ensures var g := s.generations[id];
            && (g.destroyed <==> g.references <= 0)
            && (g.built ==> (g.destroyed <==> g.retired && g.holders == {}))
  {
    hide Counted, InUse, TokensOk, ChannelsOk, RegistryOk, LibraryOk;
    assert GenerationOk(s, id, s.generations[id]);
    assert s.generations[id].holders == {} <==> |s.generations[id].holders| == 0;
  }

  lemma LibraryFacts(s: State)
    requires Invariant(s)
    ensures s.library.closed ==> s.library.closeRequested && s.library.handle.None?
  {
    hide Counted, InUse, TokensOk, ChannelsOk, RegistryOk, GenerationsOk, Accounted;
  }

  /** Exactly when a lease, a resource, a call and a channel may begin. */
  lemma BeginsWhen(s: State, t: nat, owner: nat)
    requires Invariant(s)
    ensures Act(s, Lease).Some? <==> !s.registry.closed
    ensures Act(s, BeginCall(t)).Some? <==> s.library.handle.Some? && Fresh(s, t)
    ensures Act(s, Reserve(t, ContextKind, owner)).Some? <==>
              !s.library.closeRequested && Fresh(s, t) && owner in s.generations && !s.generations[owner].built
              && s.generations[owner].references > 0
    ensures Act(s, Reserve(t, SessionKind, owner)).Some? <==>
              !s.library.closeRequested && Fresh(s, t) && owner in s.channels && s.channels[owner].stage == Holding
    ensures Act(s, OpenChannel(t, owner)).Some? <==>
              t !in s.channels && owner in s.generations && s.generations[owner].built
              && (!s.generations[owner].retired || s.generations[owner].holders != {})
    ensures Act(s, ActivateBegin).Some? <==>
              s.library.activation == Inactive && s.library.handle.None? && !s.library.closeRequested
  {
    hide Invariant;
    LibraryFacts(s);
    if owner in s.generations {
      GenerationFacts(s, owner);
    }
  }

  /** Exactly when its owner may give something up. */
  lemma LetsGoWhen(s: State, c: nat, id: nat)
    requires Invariant(s)
    ensures Act(s, GiveUpLease).Some? <==> s.registry.leases != 0
    ensures Act(s, CloseRegistry).Some? <==> !s.registry.closed
    ensures Act(s, AbandonChannel(c)).Some? <==> c in s.channels && s.channels[c].stage == Holding
    ensures Act(s, CloseChannel(c)).Some? <==> c in s.channels && s.channels[c].stage.Open?
    ensures Act(s, Retire(id)).Some? <==>
              id in s.generations && s.generations[id].built && !s.generations[id].retired
  {
    hide Invariant;
  }

  // ---------------------------------------------------------------- something can always be done

  lemma CreationOwned(s: State, t: nat)
    requires Invariant(s) && t in s.creating
    ensures s.creating[t].owner in (if s.creating[t].kind == ContextKind then s.generations.Keys else s.channels.Keys)
  {
    hide Counted, LibraryOk, InUse, TokensOk, RegistryOk, ChannelOk, GenerationOk;
    assert s.creating[t].kind == ContextKind ==> Building(s, s.creating[t].owner);
  }

  lemma CreationMoves(s: State, t: nat) returns (a: Action)
    requires Invariant(s) && t in s.creating
    ensures Finishing(a) && Act(s, a).Some?
  {
    hide Invariant, Taken;
    CreationOwned(s, t);
    a := match s.creating[t].stage
      case Reserved => BeginCreate(t)
      case Calling => EndCreate(t, true)
      case Created => PublishCreate(t)
      case Failing => CancelCreate(t);
  }

  lemma UseMoves(s: State, t: nat) returns (a: Action)
    requires Invariant(s) && (t in s.contexts || t in s.sessions) && !Quiet(s, t)
    ensures Finishing(a) && Act(s, a).Some?
  {
    hide Counted, LibraryOk, InUse, RegistryOk, Taken, GenerationsOk;
    a := match Stage(s, t).value
      case Live => MarkFree(t)
      case Marked => BeginFree(t)
      case Freeing => EndFree(t)
      case Freed => EndUse(t);
  }

  lemma CallMoves(s: State, t: nat) returns (a: Action)
    requires Invariant(s) && s.creating == map[] && t in s.calls
    ensures Finishing(a) && Act(s, a).Some?
  {
    hide Counted, LibraryOk, InUse, RegistryOk, Taken, GenerationsOk, ChannelsOk;
    a := if t in s.contexts || t in s.sessions then EndFree(t) else EndCall(t);
  }

  lemma ChannelMoves(s: State, c: nat) returns (a: Action)
    requires Invariant(s) && Awaited(s) && c in s.channels
    requires var x := s.channels[c].stage; x == Creating || x.Closing?
    ensures Finishing(a) && Act(s, a).Some?
  {
    hide Counted, LibraryOk, InUse, TokensOk, RegistryOk, Taken, GenerationsOk;
    assert ChannelOk(s, c, s.channels[c]);
    match s.channels[c].stage
    case Creating =>
      var t :| Awaits(s, t, c);
      a := CreationMoves(s, t);
    case Closing(Some(t)) => a := UseMoves(s, t) by {
      assert GivenUp(s, t) by { SessionOnly(s, t); }
    }
    case Closing(None) => a := DropGeneration(c);
  }

  lemma SessionOnly(s: State, t: nat)
    requires Invariant(s) && t in s.sessions
    ensures t !in s.contexts
  {
  }

  lemma LibraryMoves(s: State) returns (a: Action)
    requires s.library.activation != Inactive || s.library.unloading != {} || s.registry.closing
    ensures Finishing(a) && Act(s, a).Some?
  {
    hide Taken;
    var l := s.library;
    if s.registry.closing {
      a := RequestClose;
    } else if l.unloading != {} {
      var k :| k in l.unloading;
      a := Unload(k);
    } else {
      a := match l.activation
        case Checked => OpenLibrary(true)
        case Opened(_) => PublishLibrary(true)
        case _ => DiscardLibrary;
    }
  }

  /** Whatever is under way, some step finishes a part of it. */
  lemma NothingStuck(s: State) returns (a: Action)
    requires Invariant(s) && Awaited(s) && !Settled(s)
    ensures Finishing(a) && Act(s, a).Some?
  {
    hide Invariant, Act, Finishing, Quiet, Awaited;
    if t :| t in s.creating {
      a := CreationMoves(s, t);
    } else if t :| t in s.calls {
      a := CallMoves(s, t);
    } else if t :| t in s.contexts && !Quiet(s, t) {
      a := UseMoves(s, t);
    } else if t :| t in s.sessions && !Quiet(s, t) {
      a := UseMoves(s, t);
    } else if c :| c in s.channels && (s.channels[c].stage == Creating || s.channels[c].stage.Closing?) {
      a := ChannelMoves(s, c);
    } else {
      a := LibraryMoves(s);
    }
  }

  // ---------------------------------------------------------------- and only so often

  function CreationSteps(c: Creation): nat {
    match c.stage
    case Reserved => 10
    case Calling => 8
    case Created => 7
    case Failing => 7
  }

  function UseSteps(u: Use): nat {
    match u.stage
    case Live => 5
    case Marked => 4
    case Freeing => 2
    case Freed => 1
  }

  function ChannelSteps(x: Channel): nat {
    if x.stage == Released then 0 else 1
  }

  function LibrarySteps(l: Library): nat {
    (match l.activation
     case Checked => 4
     case Opened(_) => 3
     case Discarding(_) => 1
     case Inactive => 0)
    + (if l.handle.Some? then 2 else 0) + |l.unloading|
  }

  /** More than the steps it can take to finish what is under way. */
  ghost function Left(s: State): nat {
    Sum(s.creating, CreationSteps) + Sum(s.contexts, UseSteps) + Sum(s.sessions, UseSteps)
    + Sum(s.channels, ChannelSteps) + |s.calls| + LibrarySteps(s.library) + (if s.registry.closing then 1 else 0)
  }

  lemma TakenLeft(s: State)
    ensures Left(Taken(s)) <= Left(s)
  {
    var l := s.library;
    if l.handle.Some? && l.handle.value in l.unloading {
      assert l.unloading + {l.handle.value} == l.unloading;
    }
  }

  lemma RequestLeft(s: State)
    requires LibraryStep(s, RequestClose).Some?
    ensures Left(LibraryStep(s, RequestClose).value) < Left(s)
  {
    hide Taken, Sum;
    var t := s.(registry := s.registry.(closing := false));
    TakenLeft(t.(library := s.library.(closeRequested := true)));
  }

  lemma UnloadShrinks(s: State, k: nat)
    requires LibraryStep(s, Unload(k)).Some?
    ensures LibraryStep(s, Unload(k)).value == s.(library := LibraryStep(s, Unload(k)).value.library)
    ensures LibrarySteps(LibraryStep(s, Unload(k)).value.library) < LibrarySteps(s.library)
  {
    hide Taken;
    var u := s.library.unloading;
    assert u == u - {k} + {k} && |u - {k}| == |u| - 1;
  }

  lemma ActivationShrinks(s: State, a: Action)
    requires (a.OpenLibrary? || a.PublishLibrary? || a.DiscardLibrary?) && LibraryStep(s, a).Some?
    ensures LibraryStep(s, a).value == s.(library := LibraryStep(s, a).value.library)
    ensures LibrarySteps(LibraryStep(s, a).value.library) < LibrarySteps(s.library)
  {
    hide Taken;
    assert LibraryStep(s, a).value.library.unloading == s.library.unloading;
  }

  lemma LibraryShrinks(s: State, a: Action)
    requires Finishing(a) && a != RequestClose && LibraryStep(s, a).Some?
    ensures LibraryStep(s, a).value == s.(library := LibraryStep(s, a).value.library)
    ensures LibrarySteps(LibraryStep(s, a).value.library) < LibrarySteps(s.library)
  {
    hide LibrarySteps;
    match a
    case Unload(k) => UnloadShrinks(s, k);
    case OpenLibrary(_) => ActivationShrinks(s, a);
    case PublishLibrary(_) => ActivationShrinks(s, a);
    case DiscardLibrary => ActivationShrinks(s, a);
    case _ =>
  }

  lemma LibraryLeft(s: State, a: Action)
    requires Finishing(a) && a != RequestClose && LibraryStep(s, a).Some?
    ensures Left(LibraryStep(s, a).value) < Left(s)
  {
    hide Sum, LibrarySteps, LibraryStep;
    LibraryShrinks(s, a);
  }

  lemma CallLeft(s: State, t: nat)
    requires CallStep(s, EndCall(t)).Some?
    ensures Left(CallStep(s, EndCall(t)).value) < Left(s)
  {
    hide Taken;
    TakenLeft(s.(calls := s.calls - {t}, activeCalls := s.activeCalls - 1));
  }

  lemma CreateLeft(s: State, a: Action)
    requires TokensOk(s) && Finishing(a) && CreateStep(s, a).Some? && !a.PublishCreate? && !a.CancelCreate?
    ensures Left(CreateStep(s, a).value) < Left(s)
  {
    hide Taken, Sum;
    var t := a.token;
    SumOut(s.creating, t, CreationSteps);
    var stage := if a.BeginCreate? then (if s.library.handle.None? || s.library.closed then Failing else Calling)
      else if a.ok then Created else Failing;
    SumIn(s.creating, t, s.creating[t].(stage := stage), CreationSteps);
    if a.EndCreate? {
      TakenLeft(s.(creating := s.creating[t := s.creating[t].(stage := stage)], calls := s.calls - {t},
                   activeCalls := s.activeCalls - 1));
    }
  }

  lemma CancelLeft(s: State, t: nat)
    requires CreateStep(s, CancelCreate(t)).Some?
    ensures Left(CreateStep(s, CancelCreate(t)).value) < Left(s)
  {
    hide Taken, Sum;
    SumOut(s.creating, t, CreationSteps);
    var c := s.creating[t];
    var s1 := s.(pending := s.pending - 1, creating := s.creating - {t});
    if c.kind == ContextKind {
      TakenLeft(s1);
    } else {
      ChannelLeft(s1, c.owner, Closing(None));
      TakenLeft(s1.(channels := s.channels[c.owner := s.channels[c.owner].(stage := Closing(None))]));
    }
  }

  /** A channel that stays, in whatever stage, has a step left at most. */
  lemma ChannelLeft(s: State, c: nat, stage: ChannelStage)
    requires c in s.channels
    ensures var t := s.(channels := s.channels[c := s.channels[c].(stage := stage)]);
            Left(t) + ChannelSteps(s.channels[c]) == Left(s) + (if stage == Released then 0 else 1)
  {
    hide Sum;
    SumOut(s.channels, c, ChannelSteps);
    SumIn(s.channels, c, s.channels[c].(stage := stage), ChannelSteps);
  }

  lemma PublishLeft(s: State, t: nat)
    requires TokensOk(s) && CreateStep(s, PublishCreate(t)).Some?
    ensures Left(CreateStep(s, PublishCreate(t)).value) < Left(s)
  {
    hide Taken, Sum;
    SumOut(s.creating, t, CreationSteps);
    var c := s.creating[t];
    if c.kind == ContextKind {
      SumIn(s.contexts, t, Use(c.owner, Live), UseSteps);
    } else {
      SumIn(s.sessions, t, Use(c.owner, Live), UseSteps);
      SumOut(s.channels, c.owner, ChannelSteps);
      SumIn(s.channels, c.owner, s.channels[c.owner].(stage := Open(t)), ChannelSteps);
    }
  }

  lemma StageLeft(s: State, t: nat, stage: UseStage)
    requires TokensOk(s) && (t in s.contexts || t in s.sessions)
    ensures var u := WithStage(s, t, stage);
            Left(u) + UseSteps(Use(0, Stage(s, t).value)) == Left(s) + UseSteps(Use(0, stage))
  {
    hide Sum;
    if t in s.contexts {
      SumOut(s.contexts, t, UseSteps);
      SumIn(s.contexts, t, s.contexts[t].(stage := stage), UseSteps);
    } else {
      SumOut(s.sessions, t, UseSteps);
      SumIn(s.sessions, t, s.sessions[t].(stage := stage), UseSteps);
    }
  }

  lemma FreeLeft(s: State, a: Action)
    requires TokensOk(s) && FreeStep(s, a).Some? && !a.EndUse?
    ensures Left(FreeStep(s, a).value) < Left(s)
  {
    hide Taken, Sum, GivenUp;
    var t := a.token;
    StageLeft(s, t, Marked);
    StageLeft(s, t, Freeing);
    StageLeft(s, t, Freed);
    if a.EndFree? {
      TakenLeft(WithStage(s, t, Freed).(calls := s.calls - {t}, activeCalls := s.activeCalls - 1));
    }
  }

  lemma EndUseLeft(s: State, t: nat)
    requires ChannelsOk(s) && FreeStep(s, EndUse(t)).Some?
    ensures Left(FreeStep(s, EndUse(t)).value) < Left(s)
  {
    hide Taken, Sum;
    if t in s.contexts {
      SumOut(s.contexts, t, UseSteps);
      TakenLeft(s.(contexts := s.contexts - {t}, activeContexts := s.activeContexts - 1));
    } else {
      SumOut(s.sessions, t, UseSteps);
      var c := s.sessions[t].owner;
      var s1 := s.(sessions := s.sessions - {t}, activeSessions := s.activeSessions - 1);
      ChannelLeft(s1, c, Closing(None));
      TakenLeft(s1.(channels := s.channels[c := s.channels[c].(stage := Closing(None))]));
    }
  }

  lemma DropLeft(s: State, c: nat)
    requires OwnerStep(s, DropGeneration(c)).Some?
    ensures Left(OwnerStep(s, DropGeneration(c)).value) < Left(s)
  {
    hide Sum;
    ChannelLeft(s, c, Released);
  }

  /** Every step that finishes something leaves less to finish. */
  lemma FinishingLeft(s: State, a: Action)
    requires Invariant(s) && Finishing(a) && Act(s, a).Some?
    ensures Left(Act(s, a).value) < Left(s)
  {
    hide Counted, LibraryOk, InUse, TokensOk, GenerationsOk, ChannelsOk, RegistryOk, Left;
    hide CreateStep, LibraryStep, RegistryStep, CallStep, FreeStep, OwnerStep;
    match a
    case PublishCreate(t) => PublishLeft(s, t);
    case CancelCreate(t) => CancelLeft(s, t);
    case BeginCreate(_) => CreateLeft(s, a);
    case EndCreate(_, _) => CreateLeft(s, a);
    case EndCall(t) => CallLeft(s, t);
    case EndUse(t) => EndUseLeft(s, t);
    case MarkFree(_) => FreeLeft(s, a);
    case BeginFree(_) => FreeLeft(s, a);
    case EndFree(_) => FreeLeft(s, a);
    case DropGeneration(c) => DropLeft(s, c);
    case RequestClose => RequestLeft(s);
    case _ => LibraryLeft(s, a);
  }

  // ---------------------------------------------------------------- so the library goes

  /** Steps that each finish something, one after the other. */
  predicate AllFinish(s: State, actions: seq<Action>)
    decreases |actions|
  {
    actions == []
    || (Finishing(actions[0]) && Act(s, actions[0]).Some? && AllFinish(Act(s, actions[0]).value, actions[1..]))
  }

  /** However the threads interleave, no more than `Left` steps can finish something; */
  lemma {:induction false} FinishingEnds(s: State, actions: seq<Action>)
    requires Invariant(s) && AllFinish(s, actions)
    ensures |actions| + Left(Run(s, actions)) <= Left(s)
    decreases |actions|
  {
    hide Invariant, Finishing, Act, Left;
    if actions != [] {
      ActKept(s, actions[0]);
      FinishingLeft(s, actions[0]);
      FinishingEnds(Act(s, actions[0]).value, actions[1..]);
    }
  }

  /** and whenever nothing more can be finished, nothing is under way. */
  lemma FinishedIsSettled(s: State)
    requires Invariant(s) && Awaited(s) && forall a :: Finishing(a) ==> Act(s, a).None?
    ensures Settled(s)
  {
    hide Invariant, Awaited, Finishing, Act, Settled;
    if !Settled(s) {
      var a := NothingStuck(s);
    }
  }

  /** Every owner has let go: the registry is closed and unleased, no channel is open, and no
      generation is held. */
  predicate LetGo(s: State) {
    && s.registry.closed && s.registry.leases == 0
    && (forall c <- s.channels :: s.channels[c].stage == Released)
    && (forall id <- s.generations :: s.generations[id].destroyed)
  }

  lemma NoUses(s: State)
    requires Invariant(s) && Settled(s) && LetGo(s)
    ensures s.contexts == map[] && s.sessions == map[]
  {
    hide Counted, LibraryOk, InUse, TokensOk, RegistryOk;
  }

  /** In every reachable state where the owners have let go and nothing more can be finished,
      the provider is closed and every library it ever opened has been closed, once. */
  lemma LetGoMeansClosed(closeOnLast: bool, actions: seq<Action>)
    requires var s := Run(Initial(closeOnLast), actions);
             LetGo(s) && forall a :: Finishing(a) ==> Act(s, a).None?
    ensures var s := Run(Initial(closeOnLast), actions); var l := s.library;
            l.closed && Distinct(l.closes) && forall k: nat :: k < l.opens <==> k in l.closes
  {
    hide Run, Act, Finishing, LetGo, Settled, Awaited;
    InitialInvariant(closeOnLast);
    RunAwaited(Initial(closeOnLast), actions) by {
      assert Awaited(Initial(closeOnLast)) by { NobodyWaits(closeOnLast); }
    }
    var s := Run(Initial(closeOnLast), actions);
    FinishedIsSettled(s);
    NoUses(s);
    SettledClosed(s);
  }

  lemma NobodyWaits(closeOnLast: bool)
    ensures Awaited(Initial(closeOnLast))
  {
  }

  lemma SettledClosed(s: State)
    requires Invariant(s) && Settled(s) && LetGo(s) && s.contexts == map[] && s.sessions == map[]
    ensures var l := s.library;
            l.closed && Distinct(l.closes) && forall k: nat :: k < l.opens <==> k in l.closes
  {
    hide Counted, InUse, TokensOk, GenerationsOk, ChannelsOk;
  }
}
