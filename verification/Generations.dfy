/** Gateway generations: publishing, retiring and draining as interleaved atomic steps. Each
    locked region of the program is one step; everything outside a lock is a separate step. */
module Generations {
  import opened Octets

  // ---------------------------------------------------------------- one generation

  /** `holders` counts the references callers hold, `held` the resources attached, `leaving`
      those handed out for release and `gone` those released. */
  datatype Generation = Generation(
    references: int, retired: bool, released: bool, holders: nat, held: nat, leaving: nat, gone: nat)

  function NewGeneration(resources: nat): Generation {
    Generation(1, false, false, 0, resources, 0, 0)
  }

  /** A reference is given back: the last one hands out the resources. */
  function Dropped(g: Generation): Generation {
    var left := g.references - 1;
    if left == 0 then g.(references := 0, released := true, held := 0, leaving := g.leaving + g.held)
    else g.(references := left)
  }

  function Retained(g: Generation): Option<Generation> {
    if g.released then None else Some(g.(references := g.references + 1, holders := g.holders + 1))
  }

  function GivenBack(g: Generation): Option<Generation> {
    if g.released || g.references <= 0 || g.holders == 0 then None else Some(Dropped(g.(holders := g.holders - 1)))
  }

  function Retired(g: Generation): Option<Generation> {
    if g.retired || g.released || g.references <= 0 then None else Some(Dropped(g.(retired := true)))
  }

  /** A resource attaches only to a generation nobody but its owner refers to. */
  function Attached(g: Generation): Option<Generation> {
    if g.retired || g.released || g.references != 1 then None else Some(g.(held := g.held + 1))
  }

  function ResourceReleased(g: Generation): Option<Generation> {
    if g.leaving == 0 then None else Some(g.(leaving := g.leaving - 1, gone := g.gone + 1))
  }

  predicate Counted(g: Generation) {
    && g.references == g.holders + (if g.retired then 0 else 1)
    && (g.released <==> g.references == 0)
    && (if g.released then g.held == 0 else g.leaving == 0 && g.gone == 0)
  }

  lemma CountedKept(g: Generation)
    requires Counted(g)
    ensures Retained(g).Some? ==> Counted(Retained(g).value)
    ensures GivenBack(g).Some? ==> Counted(GivenBack(g).value)
    ensures Retired(g).Some? ==> Counted(Retired(g).value)
    ensures Attached(g).Some? ==> Counted(Attached(g).value)
    ensures ResourceReleased(g).Some? ==> Counted(ResourceReleased(g).value)
    ensures Retired(g).Some? <==> !g.retired
    ensures GivenBack(g).Some? <==> g.holders > 0
  {
  }

  // ---------------------------------------------------------------- the lifecycle

  datatype Mode = New | Starting | Running | Draining | Stopped | Failed

  datatype Control = Control(mode: Mode, nextId: nat, current: nat, publishing: bool)

  /** Where a publish stands between its locked regions. */
  datatype Stage = Building | Built | Installed(previous: nat) | Ending

  /** `pending` are the generations some thread has yet to retire outside the lock: those
      that lost a publish and the one a finished drain gives up. */
  datatype State = State(control: Control, generations: map<nat, Generation>, publishers: map<nat, Stage>,
                         pending: set<nat>, history: seq<nat>)

  datatype Action =
    | Start | Started | BeginDrain | FinishDrain(idle: bool, force: bool) | Fail
    | Acquire | Retain(id: nat) | Release(id: nat)
    | BeginPublish | Construct(id: nat, resources: nat) | ConstructFails(id: nat)
    | Install(id: nat) | RetirePrevious(id: nat) | EndPublish(id: nat) | RetirePending(id: nat)
    | Attach(id: nat) | ReleaseResource(id: nat)

  function Initial(resources: nat): State {
    State(Control(New, 2, 1, false), map[1 := NewGeneration(resources)], map[], {}, [1])
  }

  function Put(s: State, id: nat, g: Option<Generation>): Option<State> {
    if g.None? then None else Some(s.(generations := s.generations[id := g.value]))
  }

  function OnGeneration(s: State, id: nat, f: Generation -> Option<Generation>): Option<State> {
    if id !in s.generations then None else Put(s, id, f(s.generations[id]))
  }

  function InMode(s: State, from: set<Mode>, to: Mode): Option<State> {
    if s.control.mode in from then Some(s.(control := s.control.(mode := to))) else None
  }

  /** One atomic step; None when the program raises and leaves everything as it was, or when
      the step is not this thread's to take. */
  function Act(s: State, a: Action): Option<State> {
    var c := s.control;
    match a
    case Start => InMode(s, {New}, Starting)
    case Started => InMode(s, {Starting}, Running)
    case BeginDrain => InMode(s, {Starting, Running}, Draining)
    case Fail => Some(s.(control := c.(mode := Failed)))
    case FinishDrain(idle, force) =>
      if c.mode != Draining || (!idle && !force) then None
      else Some(s.(control := c.(mode := Stopped), pending := s.pending + {c.current}))
    case Acquire =>
      if c.mode != Running then None else OnGeneration(s, c.current, Retained)
    case Retain(id) => OnGeneration(s, id, Retained)
    case Release(id) => OnGeneration(s, id, GivenBack)
    case BeginPublish =>
      if c.mode != Running || c.publishing then None
      else Some(s.(control := c.(publishing := true, nextId := c.nextId + 1),
        publishers := s.publishers[c.nextId := Building]))
    case Construct(id, resources) =>
      if id in s.publishers && s.publishers[id] == Building then
        Some(s.(generations := s.generations[id := NewGeneration(resources)], publishers := s.publishers[id := Built]))
      else None
    case ConstructFails(id) =>
      if id in s.publishers && s.publishers[id] == Building then
        Some(s.(control := c.(publishing := false), publishers := s.publishers - {id}))
      else None
    case Install(id) =>
      if id !in s.publishers || s.publishers[id] != Built then None
      else if c.mode == Running then
        Some(s.(control := c.(current := id), publishers := s.publishers[id := Installed(c.current)],
          history := s.history + [id]))
      else
        Some(s.(control := c.(publishing := false), publishers := s.publishers - {id}, pending := s.pending + {id}))
    case RetirePrevious(id) =>
      if id !in s.publishers || !s.publishers[id].Installed? then None
      else OnGeneration(s.(publishers := s.publishers[id := Ending]), s.publishers[id].previous, Retired)
    case EndPublish(id) =>
      if id in s.publishers && s.publishers[id] == Ending then
        Some(s.(control := c.(publishing := false), publishers := s.publishers - {id}))
      else None
    case RetirePending(id) =>
      if id in s.pending then OnGeneration(s.(pending := s.pending - {id}), id, Retired) else None
    case Attach(id) => OnGeneration(s, id, Attached)
    case ReleaseResource(id) => OnGeneration(s, id, ResourceReleased)
  }

  // ---------------------------------------------------------------- the invariant

  predicate AllCounted(s: State) {
    forall g <- s.generations :: Counted(s.generations[g]) && g < s.control.nextId
  }

  /** At most one publish is in flight, and the flag says whether. */
  predicate OnePublisher(s: State) {
    && (s.control.publishing <==> s.publishers != map[])
    && (forall a <- s.publishers, b <- s.publishers :: a == b)
    && (forall a <- s.publishers :: a < s.control.nextId)
  }

  /** A generation a publish is going to install or retire. */
  predicate Claimed(s: State, g: nat) {
    exists id <- s.publishers :: (s.publishers[id] == Built && g == id) || s.publishers[id] == Installed(g)
  }

  /** What each stage of a publish knows. */
  predicate StagesOk(s: State) {
    forall id <- s.publishers ::
      match s.publishers[id]
      case Building => id !in s.generations && s.control.current < id
      case Built => id in s.generations && s.control.current < id
      case Installed(previous) => id == s.control.current && previous in s.generations && previous < id
      case Ending => id == s.control.current
  }

  predicate Over(m: Mode) {
    m == Stopped || m == Failed
  }

  /** An unretired generation is the current one or some thread is about to retire it; each of
      those has one claim on it only. */
  predicate ClaimsOk(s: State) {
    && s.control.current in s.generations
    && (forall g <- s.generations ::
         !s.generations[g].retired ==> g == s.control.current || Claimed(s, g) || g in s.pending)
    && (forall g <- s.generations ::
         Claimed(s, g) ==> !s.generations[g].retired && g !in s.pending && g != s.control.current)
    && (forall g <- s.pending :: g in s.generations && !s.generations[g].retired)
    && (s.control.current in s.pending ==> Over(s.control.mode))
    && (!Over(s.control.mode) ==> !s.generations[s.control.current].retired)
  }

  /** Generations became current in the order of their identifiers. */
  predicate Ordered(s: State) {
    && s.history != [] && s.history[|s.history| - 1] == s.control.current
    && (forall i, j :: 0 <= i < j < |s.history| ==> s.history[i] < s.history[j])
  }

  predicate Invariant(s: State) {
    AllCounted(s) && OnePublisher(s) && StagesOk(s) && ClaimsOk(s) && Ordered(s)
  }

  lemma InitialInvariant(resources: nat)
    ensures Invariant(Initial(resources))
  {
  }

  /** A change to one generation that keeps whether it is retired. */
  lemma PutKept(s: State, id: nat, g: Generation)
    requires Invariant(s) && id in s.generations && Counted(g) && g.retired == s.generations[id].retired
    ensures Invariant(s.(generations := s.generations[id := g]))
  {
    hide Counted, Claimed;
    SameClaims(s, s.(generations := s.generations[id := g]));
  }

  lemma SameClaims(s: State, t: State)
    requires t.publishers == s.publishers
    ensures forall x: nat :: Claimed(t, x) <==> Claimed(s, x)
  {
  }

  /** A new mode that is over, or one of a state that was not. */
  lemma ModeKept(s: State, m: Mode)
    requires Invariant(s) && (Over(s.control.mode) ==> Over(m))
    ensures Invariant(s.(control := s.control.(mode := m)))
  {
    hide Counted;
    var t := s.(control := s.control.(mode := m));
    assert forall x: nat :: Claimed(t, x) <==> Claimed(s, x);
  }

  lemma BeginPublishKept(s: State)
    requires Invariant(s) && Act(s, BeginPublish).Some?
    ensures Invariant(Act(s, BeginPublish).value)
  {
    hide Counted;
    var t := Act(s, BeginPublish).value;
    assert s.publishers == map[];
    assert s.control.nextId in t.publishers && forall a <- t.publishers :: a == s.control.nextId;
    assert forall x: nat :: !Claimed(t, x) && !Claimed(s, x);
  }

  lemma ConstructKept(s: State, id: nat, resources: nat)
    requires Invariant(s) && Act(s, Construct(id, resources)).Some?
    ensures Invariant(Act(s, Construct(id, resources)).value)
  {
    var t := Act(s, Construct(id, resources)).value;
    assert Counted(NewGeneration(resources));
    assert forall x: nat :: Claimed(t, x) <==> x == id;
    assert forall x: nat :: !Claimed(s, x);
  }

  lemma InstallKept(s: State, id: nat)
    requires Invariant(s) && Act(s, Install(id)).Some?
    ensures Invariant(Act(s, Install(id)).value)
  {
    hide Counted;
    var t := Act(s, Install(id)).value;
    assert forall x: nat :: Claimed(s, x) <==> x == id;
    assert t.history[..|t.history| - 1] == s.history || t.history == s.history;
    if s.control.mode == Running {
      assert forall x: nat :: Claimed(t, x) <==> x == s.control.current;
      LastIsLargest(s.history);
    } else {
      NoPublishers(s, id);
      assert forall x: nat :: !Claimed(t, x);
    }
  }

  lemma LastIsLargest(history: seq<nat>)
    requires history != [] && forall i, j :: 0 <= i < j < |history| ==> history[i] < history[j]
    ensures forall i :: 0 <= i < |history| ==> history[i] <= history[|history| - 1]
  {
  }

  /** With one publisher in flight, its end leaves none. */
  lemma NoPublishers(s: State, id: nat)
    requires OnePublisher(s) && id in s.publishers
    ensures s.publishers - {id} == map[]
  {
    assert forall a <- s.publishers :: a == id;
  }

  lemma EndKept(s: State, a: Action)
    requires Invariant(s) && Act(s, a).Some? && (a.ConstructFails? || a.EndPublish?)
    ensures Invariant(Act(s, a).value)
  {
    hide Counted;
    var t := Act(s, a).value;
    NoPublishers(s, a.id);
    assert forall x: nat :: !Claimed(t, x);
    assert forall x: nat :: !Claimed(s, x);
  }

  /** The retirement a publish owes never raises, and settles its claim. */
  lemma RetirePreviousKept(s: State, id: nat)
    requires Invariant(s) && id in s.publishers && s.publishers[id].Installed?
    ensures Act(s, RetirePrevious(id)).Some? && Invariant(Act(s, RetirePrevious(id)).value)
  {
    var previous := s.publishers[id].previous;
    assert Claimed(s, previous);
    CountedKept(s.generations[previous]);
    var t := Act(s, RetirePrevious(id)).value;
    assert forall x: nat :: Claimed(s, x) <==> x == previous;
    assert forall x: nat :: !Claimed(t, x);
    assert t.publishers.Keys == s.publishers.Keys;
  }

  /** So does the one a lost publish or a finished drain owes. */
  lemma RetirePendingKept(s: State, id: nat)
    requires Invariant(s) && id in s.pending
    ensures Act(s, RetirePending(id)).Some? && Invariant(Act(s, RetirePending(id)).value)
  {
    hide Counted;
    CountedKept(s.generations[id]);
    var t := Act(s, RetirePending(id)).value;
    assert forall x: nat :: Claimed(t, x) <==> Claimed(s, x);
  }

  lemma FinishDrainKept(s: State, a: Action)
    requires Invariant(s) && a.FinishDrain? && Act(s, a).Some?
    ensures Invariant(Act(s, a).value)
  {
    hide Counted;
    var t := Act(s, a).value;
    assert forall x: nat :: Claimed(t, x) <==> Claimed(s, x);
  }

  /** A change to one generation's counts. */
  lemma OnGenerationKept(s: State, id: nat, f: Generation -> Option<Generation>)
    requires Invariant(s) && OnGeneration(s, id, f).Some?
    requires Counted(f(s.generations[id]).value) && f(s.generations[id]).value.retired == s.generations[id].retired
    ensures Invariant(OnGeneration(s, id, f).value)
  {
    PutKept(s, id, f(s.generations[id]).value);
  }

  /** Every step keeps the invariant. */
  lemma ActKept(s: State, a: Action)
    requires Invariant(s) && Act(s, a).Some?
    ensures Invariant(Act(s, a).value)
  {
    hide Invariant, Counted;
    CountedOf(s);
    match a
    case Start => ModeKept(s, Starting);
    case Started => ModeKept(s, Running);
    case BeginDrain => ModeKept(s, Draining);
    case Fail => ModeKept(s, Failed);
    case FinishDrain(_, _) => FinishDrainKept(s, a);
    case Acquire =>
      CountedKept(s.generations[s.control.current]);
      OnGenerationKept(s, s.control.current, Retained);
    case Retain(id) =>
      CountedKept(s.generations[id]);
      OnGenerationKept(s, id, Retained);
    case Release(id) =>
      CountedKept(s.generations[id]);
      OnGenerationKept(s, id, GivenBack);
    case BeginPublish => BeginPublishKept(s);
    case Construct(id, resources) => ConstructKept(s, id, resources);
    case ConstructFails(_) => EndKept(s, a);
    case Install(id) => InstallKept(s, id);
    case RetirePrevious(id) => RetirePreviousKept(s, id);
    case EndPublish(_) => EndKept(s, a);
    case RetirePending(id) => RetirePendingKept(s, id);
    case Attach(id) =>
      CountedKept(s.generations[id]);
      OnGenerationKept(s, id, Attached);
    case ReleaseResource(id) =>
      CountedKept(s.generations[id]);
      OnGenerationKept(s, id, ResourceReleased);
  }

  lemma CountedOf(s: State)
    requires Invariant(s)
    ensures forall g <- s.generations :: Counted(s.generations[g])
  {
  }

  // ---------------------------------------------------------------- runs

  function Run(s: State, actions: seq<Action>): State
    decreases |actions|
  {
    if actions == [] then s
    else Run(match Act(s, actions[0]) case Some(t) => t case None => s, actions[1..])
  }

  lemma {:induction false} RunKept(s: State, actions: seq<Action>)
    requires Invariant(s)
    ensures Invariant(Run(s, actions))
    decreases |actions|
  {
    hide Invariant, Act;
    if actions != [] {
      if Act(s, actions[0]).Some? {
        ActKept(s, actions[0]);
        RunKept(Act(s, actions[0]).value, actions[1..]);
      } else {
        RunKept(s, actions[1..]);
      }
    }
  }

  /** Over every interleaving: while the gateway runs its current generation is unretired and
      can be acquired; at most one publish is in flight; generations became current in
      increasing order; and a generation's resources have left it only if it is retired and
      nobody holds it. */
  lemma EveryRun(resources: nat, actions: seq<Action>)
    ensures var s := Run(Initial(resources), actions);
            && s.control.current in s.generations
            && (s.control.mode == Running ==> !s.generations[s.control.current].retired && Act(s, Acquire).Some?)
            && (forall a <- s.publishers, b <- s.publishers :: a == b)
            && (s.control.publishing <==> s.publishers != map[])
            && (forall i, j :: 0 <= i < j < |s.history| ==> s.history[i] < s.history[j])
            && (forall g <- s.generations ::
                  var x := s.generations[g];
                  (x.released <==> x.retired && x.holders == 0) && (x.leaving + x.gone > 0 ==> x.released))
  {
    hide Run;
    InitialInvariant(resources);
    RunKept(Initial(resources), actions);
  }

  /** Resources that a generation still holds, is handing out, or has released. */
  function Total(g: Generation): nat {
    g.held + g.leaving + g.gone
  }

  /** No step loses a resource or releases one twice: the three counts add up to what was
      attached, and released ones stay released. */
  lemma ResourcesConserved(s: State, a: Action, g: nat)
    requires Invariant(s) && Act(s, a).Some? && g in s.generations
    ensures var t := Act(s, a).value;
            && g in t.generations && t.generations[g].gone >= s.generations[g].gone
            && Total(t.generations[g]) == Total(s.generations[g]) + (if a == Attach(g) then 1 else 0)
            && (t.generations[g].gone > s.generations[g].gone <==> a == ReleaseResource(g))
            && (s.generations[g].released ==> t.generations[g].released)
  {
    hide OnePublisher, ClaimsOk, Ordered, Counted, Retained, GivenBack, Retired, Attached, ResourceReleased;
    CountedOf(s);
    forall x <- s.generations ensures Flows(s.generations[x]) {
      EveryFlow(s.generations[x]);
    }
    match a
    case Acquire => assert Flows(s.generations[s.control.current]);
    case RetirePrevious(id) => assert Flows(s.generations[s.publishers[id].previous]);
    case Retain(id) =>
    case Release(id) =>
    case RetirePending(id) =>
    case Attach(id) =>
    case ReleaseResource(id) =>
    case Construct(id, _) => assert id !in s.generations;
    case _ =>
  }

  /** `h` comes from `g` by a step that attaches and releases nothing. */
  predicate Flow(g: Generation, h: Option<Generation>) {
    h.Some? ==> Total(h.value) == Total(g) && h.value.gone == g.gone && (g.released ==> h.value.released)
  }

  predicate Flows(g: Generation) {
    && Flow(g, Retained(g)) && Flow(g, GivenBack(g)) && Flow(g, Retired(g))
    && (Attached(g).Some? ==>
         Total(Attached(g).value) == Total(g) + 1 && Attached(g).value.gone == g.gone && !g.released)
    && (ResourceReleased(g).Some? ==>
          var h := ResourceReleased(g).value; Total(h) == Total(g) && h.gone == g.gone + 1 && h.released == g.released)
  }

  lemma EveryFlow(g: Generation)
    requires Counted(g)
    ensures Flows(g)
  {
  }

  /** Nothing is forgotten: once no thread owes a retirement and nobody holds a generation that
      is not current, that generation has been given back, and all that was attached to it has
      been released as soon as nothing is on its way out. */
  lemma Settled(s: State, g: nat)
    requires Invariant(s) && g in s.generations && g != s.control.current
    requires s.pending == {} && s.publishers == map[] && s.generations[g].holders == 0
    ensures s.generations[g].released && s.generations[g].held == 0
    ensures s.generations[g].leaving == 0 ==> s.generations[g].gone == Total(s.generations[g])
  {
    assert !Claimed(s, g);
  }

  // ---------------------------------------------------------------- the objects

  datatype LifecycleError = Refused(reason: string)

  /** The step is taken from the state, or refused, and leaves the control so. */
  predicate Enters(s: State, a: Action, taken: bool, control: Control) {
    if taken then Act(s, a).Some? && Act(s, a).value.control == control else Act(s, a).None? && s.control == control
  }

  /** One generation object; its locked regions. */
  class GatewayGeneration {
    const id: nat
    var references: int
    var retired: bool
    var released: bool
    var resources: seq<nat>
    ghost var holders: nat
    ghost var leaving: nat
    ghost var gone: nat

    ghost function View(): Generation
      reads this
    {
      Generation(references, retired, released, holders, |resources|, leaving, gone)
    }

    constructor (id: nat, resources: seq<nat>)
      ensures this.id == id && View() == NewGeneration(|resources|) && this.resources == resources
    {
      this.id := id;
      references, retired, released, this.resources := 1, false, false, resources;
      holders, leaving, gone := 0, 0, 0;
    }

    method RetainLocked() returns (r: Result<(), LifecycleError>)
      modifies this
      ensures r.Ok? <==> old(Retained(View())).Some?
      ensures View() == if r.Ok? then old(Retained(View())).value else old(View())
    {
      if released {
        return Err(Refused("released"));
      }
      references := references + 1;
      holders := holders + 1;
      return Ok(());
    }

    /** The counting common to retire and release; the resources handed out, if it was the last. */
    method Drop() returns (handed: Option<seq<nat>>)
      modifies this
      ensures View() == Dropped(old(View()))
      ensures handed == if old(references) == 1 then Some(old(resources)) else None
    {
      references := references - 1;
      if references == 0 {
        released := true;
        handed := Some(resources);
        leaving := leaving + |resources|;
        resources := [];
        return;
      }
      return None;
    }

    method RetireLocked() returns (r: Result<Option<seq<nat>>, LifecycleError>)
      modifies this
      ensures r.Ok? <==> old(Retired(View())).Some?
      ensures View() == if r.Ok? then old(Retired(View())).value else old(View())
      ensures r.Ok? ==> r.value == if old(references) == 1 then Some(old(resources)) else None
    {
      if retired {
        return Err(Refused("retired more than once"));
      }
      if released || references <= 0 {
        return Err(Refused("released more than once"));
      }
      retired := true;
      var handed := Drop();
      return Ok(handed);
    }

    /** A caller that holds no reference gives back somebody else's. */
    method ReleaseLocked() returns (r: Result<Option<seq<nat>>, LifecycleError>)
      modifies this
      ensures r.Ok? <==> !old(released) && old(references) > 0
      ensures r.Err? ==> View() == old(View())
      ensures r.Ok? && old(holders) > 0 ==> old(GivenBack(View())) == Some(View())
      ensures r.Ok? && old(holders) == 0 ==> View() == Dropped(old(View()))
      ensures r.Ok? ==> r.value == if old(references) == 1 then Some(old(resources)) else None
    {
      if released || references <= 0 {
        return Err(Refused("released more than once"));
      }
      if holders > 0 {
        holders := holders - 1;
      }
      var handed := Drop();
      return Ok(handed);
    }

    /** Releases the resources handed out, last first, whether or not some of them fail. */
    method ReleaseResources(handed: seq<nat>, failing: set<nat>) returns (order: seq<nat>, clean: bool)
      requires leaving >= |handed|
      modifies this`leaving, this`gone
      ensures leaving == old(leaving) - |handed| && gone == old(gone) + |handed|
      ensures |order| == |handed| && forall i :: 0 <= i < |handed| ==> order[i] == handed[|handed| - 1 - i]
      ensures clean <==> forall i :: 0 <= i < |handed| ==> handed[i] !in failing
    {
      order, clean := [], true;
      var index := |handed| - 1;
      while index >= 0
        invariant -1 <= index < |handed| && |order| == |handed| - 1 - index
        invariant leaving == old(leaving) - |order| && gone == old(gone) + |order|
        invariant forall i :: 0 <= i < |order| ==> order[i] == handed[|handed| - 1 - i]
        invariant clean <==> forall i :: index < i < |handed| ==> handed[i] !in failing
      {
        order := order + [handed[index]];
        leaving, gone := leaving - 1, gone + 1;
        if handed[index] in failing {
          clean := false;
        }
        index := index - 1;
      }
    }
  }

  /** The lifecycle object; each method is one locked region. */
  class GatewayLifecycle {
    var mode: Mode
    var nextId: nat
    var current: GatewayGeneration
    var publishing: bool
    var retiredGenerations: seq<GatewayGeneration>

    function Summary(): Control
      reads this
    {
      Control(mode, nextId, current.id, publishing)
    }

    constructor ()
      ensures Summary() == Initial(0).control && current.View() == NewGeneration(0) && fresh(current)
      ensures retiredGenerations == []
    {
      var first := new GatewayGeneration(1, []);
      mode, nextId, current, publishing, retiredGenerations := New, 2, first, false, [];
    }

    method AcquireGeneration() returns (r: Result<GatewayGeneration, LifecycleError>)
      modifies current
      ensures r.Ok? <==> mode == Running && old(Retained(current.View())).Some?
      ensures r.Ok? ==> r.value == current && Some(current.View()) == old(Retained(current.View()))
      ensures r.Err? ==> current.View() == old(current.View())
      ensures forall s: State ::
                s.control == Summary() && current.id in s.generations
                  && s.generations[current.id] == old(current.View()) ==>
                Act(s, Acquire) == if r.Ok? then Put(s, current.id, Some(current.View())) else None
    {
      if mode != Running {
        return Err(Refused("not accepting new work"));
      }
      var retained := current.RetainLocked();
      if retained.Err? {
        return Err(retained.error);
      }
      return Ok(current);
    }

    /** The first region of a publish: claims the flag and an identifier. */
    method ClaimPublish() returns (r: Result<nat, LifecycleError>)
      modifies this`publishing, this`nextId
      ensures r.Ok? <==> mode == Running && !old(publishing)
      ensures r.Ok? ==> r.value == old(nextId) && nextId == old(nextId) + 1 && publishing
      ensures r.Err? ==> nextId == old(nextId) && publishing == old(publishing)
      ensures forall s: State :: s.control == old(Summary()) ==> Enters(s, BeginPublish, r.Ok?, Summary())
    {
      if mode != Running {
        return Err(Refused("publish requires running state"));
      }
      if publishing {
        return Err(Refused("concurrent publish rejected"));
      }
      publishing := true;
      nextId := nextId + 1;
      return Ok(nextId - 1);
    }

    /** The second: installs the replacement, or gives up because the gateway stopped running. */
    method InstallReplacement(replacement: GatewayGeneration) returns (previous: Option<GatewayGeneration>)
      modifies this`current, this`publishing, this`retiredGenerations
      ensures mode == Running ==>
                previous == Some(old(current)) && current == replacement && publishing == old(publishing)
                                  && retiredGenerations == old(retiredGenerations) + [old(current)]
      ensures mode != Running ==> previous == None && current == old(current) && !publishing
                                  && retiredGenerations == old(retiredGenerations)
      ensures forall s: State :: s.control == old(Summary()) && Act(s, Install(replacement.id)).Some? ==>
                && Enters(s, Install(replacement.id), true, Summary())
                && (previous.Some? ==>
                     Act(s, Install(replacement.id)).value.publishers[replacement.id] == Installed(previous.value.id))
    {
      if mode == Running {
        previous := Some(current);
        current := replacement;
        retiredGenerations := retiredGenerations + [previous.value];
        return;
      }
      publishing := false;
      return None;
    }

    method ReleasePublish()
      modifies this`publishing
      ensures !publishing
      ensures forall s: State, id: nat :: s.control == old(Summary()) && Act(s, EndPublish(id)).Some? ==>
                Enters(s, EndPublish(id), true, Summary())
    {
      publishing := false;
    }

    /** Forgets the retired generations that have been released, keeping the others in order. */
    method CollectRetired() returns (collected: nat)
      modifies this`retiredGenerations
      ensures retiredGenerations == Unreleased(old(retiredGenerations))
      ensures collected == |old(retiredGenerations)| - |retiredGenerations|
    {
      var all, kept: seq<GatewayGeneration> := retiredGenerations, [];
      collected := 0;
      assert all[0..] == all && kept + Unreleased(all) == Unreleased(all);
      for k := 0 to |all|
        invariant |kept| + collected == k && Unreleased(all) == kept + Unreleased(all[k..])
      {
        var g := all[k];
        assert all[k..][0] == g && all[k..][1..] == all[k + 1..];
        if g.released {
          collected := collected + 1;
        } else {
          assert kept + ([g] + Unreleased(all[k + 1..])) == kept + [g] + Unreleased(all[k + 1..]);
          kept := kept + [g];
        }
      }
      assert all[|all|..] == [] && kept + [] == kept;
      retiredGenerations := kept;
    }

    method Begin() returns (r: Result<(), LifecycleError>)
      modifies this`mode
      ensures r.Ok? <==> old(mode) == New
      ensures mode == if r.Ok? then Starting else old(mode)
      ensures forall s: State :: s.control == old(Summary()) ==> Enters(s, Start, r.Ok?, Summary())
    {
      if mode != New {
        return Err(Refused("can start only once"));
      }
      mode := Starting;
      return Ok(());
    }

    method Begun() returns (r: Result<(), LifecycleError>)
      modifies this`mode
      ensures r.Ok? <==> old(mode) == Starting
      ensures mode == if r.Ok? then Running else old(mode)
      ensures forall s: State :: s.control == old(Summary()) ==> Enters(s, Started, r.Ok?, Summary())
    {
      if mode != Starting {
        return Err(Refused("not starting"));
      }
      mode := Running;
      return Ok(());
    }

    method DrainBegin() returns (r: Result<(), LifecycleError>)
      modifies this`mode
      ensures r.Ok? <==> old(mode) == Starting || old(mode) == Running
      ensures mode == if r.Ok? then Draining else old(mode)
      ensures forall s: State :: s.control == old(Summary()) ==> Enters(s, BeginDrain, r.Ok?, Summary())
    {
      if mode != Starting && mode != Running {
        return Err(Refused("cannot enter drain"));
      }
      mode := Draining;
      return Ok(());
    }

    /** The locked region of a finishing drain: the generation it leaves to be retired. */
    method DrainEnd(active: nat, force: bool) returns (r: Result<Option<GatewayGeneration>, LifecycleError>)
      modifies this`mode
      ensures r.Err? <==> old(mode) != Draining
      ensures mode == if r.Ok? && r.value.Some? then Stopped else old(mode)
      ensures r.Ok? ==> r.value == if active != 0 && !force then None else Some(current)
      ensures forall s: State :: s.control == old(Summary()) ==>
                Enters(s, FinishDrain(active == 0, force), r.Ok? && r.value.Some?, Summary())
    {
      if mode != Draining {
        return Err(Refused("not draining"));
      }
      if active != 0 && !force {
        return Ok(None);
      }
      mode := Stopped;
      return Ok(Some(current));
    }

    method MarkFailed()
      modifies this`mode
      ensures mode == Failed
      ensures forall s: State :: s.control == old(Summary()) ==> Enters(s, Fail, true, Summary())
    {
      mode := Failed;
    }
  }

  ghost function Unreleased(generations: seq<GatewayGeneration>): seq<GatewayGeneration>
    reads generations
  {
    if generations == [] then []
    else (if generations[0].released then [] else [generations[0]]) + Unreleased(generations[1..])
  }
}
