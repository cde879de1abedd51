/** Nothing a publish or a drain has begun gets stuck, and after a drain every generation goes
    with its resources once its holders have let go. */
module GenerationProgress {
  import opened Octets
  import opened MapSums
  import opened Generations

  // ---------------------------------------------------------------- what may happen when

  /** Exactly when each locked region does anything. */
  lemma EnabledWhen(s: State, id: nat)
    requires Invariant(s)
    ensures Act(s, Acquire).Some? <==> s.control.mode == Running
    ensures Act(s, BeginPublish).Some? <==> s.control.mode == Running && s.publishers == map[]
    ensures id in s.generations ==>
              var g := s.generations[id];
              && (Act(s, Retain(id)).Some? <==> !g.retired || g.holders > 0)
              && (Act(s, Release(id)).Some? <==> g.holders > 0)
              && (Act(s, Attach(id)).Some? <==> !g.retired && g.holders == 0)
              && (Act(s, ReleaseResource(id)).Some? <==> g.leaving > 0)
    ensures forall idle, force :: Act(s, FinishDrain(idle, force)).Some? <==>
              s.control.mode == Draining && (idle || force)
  {
    hide StagesOk, ClaimsOk, Generations.Ordered;
    CountedOf(s);
    if s.control.mode == Running {
      CurrentRuns(s);
    }
  }

  lemma CurrentRuns(s: State)
    requires Invariant(s) && s.control.mode == Running
    ensures s.control.current in s.generations && !s.generations[s.control.current].released
  {
    CountedOf(s);
  }

  // ---------------------------------------------------------------- what is left to finish

  /** The steps that finish what has begun: a publish that is not built fails. */
  predicate Finishing(a: Action) {
    || a.ConstructFails? || a.Install? || a.RetirePrevious? || a.EndPublish? || a.RetirePending? || a.ReleaseResource?
  }

  predicate Quiet(s: State) {
    && s.publishers == map[] && s.pending == {}
    && forall id <- s.generations :: s.generations[id].leaving == 0
  }

  lemma NothingStuck(s: State) returns (a: Action)
    requires Invariant(s) && !Quiet(s)
    ensures Finishing(a) && Act(s, a).Some?
  {
    hide Invariant;
    if id :| id in s.publishers {
      match s.publishers[id]
      case Building => a := ConstructFails(id);
      case Built => a := Install(id);
      case Installed(_) =>
        RetirePreviousKept(s, id);
        a := RetirePrevious(id);
      case Ending => a := EndPublish(id);
    } else if id :| id in s.pending {
      RetirePendingKept(s, id);
      a := RetirePending(id);
    } else {
      var id :| id in s.generations && s.generations[id].leaving != 0;
      a := ReleaseResource(id);
    }
  }

  function StageSteps(stage: Stage): nat {
    match stage
    case Building => 1
    case Built => 4
    case Installed(_) => 3
    case Ending => 1
  }

  function ResourcesLeft(g: Generation): nat {
    g.held + g.leaving
  }

  /** More than the steps it can take to finish what is under way. */
  ghost function Left(s: State): nat {
    Sum(s.generations, ResourcesLeft) + Sum(s.publishers, StageSteps) + |s.pending|
  }

  /** One generation changed, and with it what it has left. */
  lemma GenerationLeft(s: State, id: nat, g: Generation)
    requires id in s.generations
    ensures var t := s.(generations := s.generations[id := g]);
            Left(t) + ResourcesLeft(s.generations[id]) == Left(s) + ResourcesLeft(g)
  {
    hide Sum;
    SumOut(s.generations, id, ResourcesLeft);
    SumIn(s.generations, id, g, ResourcesLeft);
  }

  lemma StageLeft(s: State, id: nat, stage: Stage)
    requires id in s.publishers
    ensures var t := s.(publishers := s.publishers[id := stage]);
            Left(t) + StageSteps(s.publishers[id]) == Left(s) + StageSteps(stage)
    ensures Left(s.(publishers := s.publishers - {id})) + StageSteps(s.publishers[id]) == Left(s)
  {
    hide Sum;
    SumOut(s.publishers, id, StageSteps);
    SumIn(s.publishers, id, stage, StageSteps);
  }

  lemma RetiredLeft(g: Generation)
    ensures Retired(g).Some? ==> ResourcesLeft(Retired(g).value) == ResourcesLeft(g)
    ensures ResourceReleased(g).Some? ==> ResourcesLeft(ResourceReleased(g).value) + 1 == ResourcesLeft(g)
  {
  }

  /** Every step that finishes something leaves less to finish. */
  lemma FinishingLeft(s: State, a: Action)
    requires Finishing(a) && Act(s, a).Some?
    ensures Left(Act(s, a).value) < Left(s)
  {
    hide Sum, Retired, ResourceReleased, ResourcesLeft;
    var c := s.control;
    match a
    case ConstructFails(id) => StageLeft(s, id, Ending);
    case EndPublish(id) => StageLeft(s, id, Ending);
    case Install(id) =>
      StageLeft(s, id, Installed(c.current));
    case RetirePrevious(id) =>
      var previous := s.publishers[id].previous;
      StageLeft(s, id, Ending);
      RetiredLeft(s.generations[previous]);
      GenerationLeft(s.(publishers := s.publishers[id := Ending]), previous, Retired(s.generations[previous]).value);
    case RetirePending(id) =>
      RetiredLeft(s.generations[id]);
      GenerationLeft(s.(pending := s.pending - {id}), id, Retired(s.generations[id]).value);
    case ReleaseResource(id) =>
      RetiredLeft(s.generations[id]);
      GenerationLeft(s, id, ResourceReleased(s.generations[id]).value);
  }

  // ---------------------------------------------------------------- after a drain

  /** A drain that has finished gives the current generation up. */
  predicate Owed(s: State) {
    s.control.mode == Stopped ==>
      s.control.current in s.generations
      && (s.control.current in s.pending || s.generations[s.control.current].retired)
  }

  lemma {:induction false} RunOwed(s: State, actions: seq<Action>)
    requires Invariant(s) && Owed(s)
    ensures Invariant(Run(s, actions)) && Owed(Run(s, actions))
    decreases |actions|
  {
    hide Invariant, Act, Owed;
    if actions != [] {
      if Act(s, actions[0]).Some? {
        ActKept(s, actions[0]);
        ActOwed(s, actions[0]);
        RunOwed(Act(s, actions[0]).value, actions[1..]);
      } else {
        RunOwed(s, actions[1..]);
      }
    }
  }

  lemma RetiredStays(g: Generation)
    ensures Retained(g).Some? ==> Retained(g).value.retired == g.retired
    ensures GivenBack(g).Some? ==> GivenBack(g).value.retired == g.retired
    ensures Attached(g).Some? ==> Attached(g).value.retired == g.retired
    ensures ResourceReleased(g).Some? ==> ResourceReleased(g).value.retired == g.retired
    ensures Retired(g).Some? ==> Retired(g).value.retired
  {
  }

  lemma ActOwed(s: State, a: Action)
    requires Invariant(s) && Owed(s) && Act(s, a).Some?
    ensures Owed(Act(s, a).value)
  {
    hide AllCounted, OnePublisher, Generations.Ordered;
    hide Retained, GivenBack, Attached, ResourceReleased, Retired;
    forall id <- s.generations {
      RetiredStays(s.generations[id]);
    }
  }

  /** Every holder has let go of every generation. */
  predicate LetGo(s: State) {
    forall id <- s.generations :: s.generations[id].holders == 0
  }

  /** In every reachable state after a finished drain in which nobody holds a generation and
      nothing more can be finished, every generation, the current one included, has been retired
      and has released every resource it ever had. */
  lemma DrainReleasesAll(resources: nat, actions: seq<Action>)
    requires var s := Run(Initial(resources), actions);
             s.control.mode == Stopped && LetGo(s) && forall a :: Finishing(a) ==> Act(s, a).None?
    ensures var s := Run(Initial(resources), actions);
            forall id <- s.generations ::
              var g := s.generations[id]; g.retired && g.released && g.gone == Total(g)
  {
    hide Run, Act, Finishing, Quiet;
    InitialInvariant(resources);
    RunOwed(Initial(resources), actions);
    var s := Run(Initial(resources), actions);
    if !Quiet(s) {
      var a := NothingStuck(s);
    }
    QuietReleased(s);
  }

  lemma QuietReleased(s: State)
    requires Invariant(s) && Owed(s) && Quiet(s) && LetGo(s) && s.control.mode == Stopped
    ensures forall id <- s.generations ::
              var g := s.generations[id]; g.retired && g.released && g.gone == Total(g)
  {
    hide StagesOk, Generations.Ordered;
    CountedOf(s);
  }

  /** Steps that each finish something, one after the other. */
  predicate AllFinish(s: State, actions: seq<Action>)
    decreases |actions|
  {
    actions == []
    || (Finishing(actions[0]) && Act(s, actions[0]).Some? && AllFinish(Act(s, actions[0]).value, actions[1..]))
  }

  /** However the threads interleave, no more than `Left` steps can finish something. */
  lemma {:induction false} FinishingEnds(s: State, actions: seq<Action>)
    requires AllFinish(s, actions)
    ensures |actions| + Left(Run(s, actions)) <= Left(s)
    decreases |actions|
  {
    hide Finishing, Act, Left;
    if actions != [] {
      FinishingLeft(s, actions[0]);
      FinishingEnds(Act(s, actions[0]).value, actions[1..]);
    }
  }
}
