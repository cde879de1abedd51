/** What functions mean, for any meaning of the operators, and why the reuse pass keeps it. */
module EarlyCseMeaning {
  import opened Octets
  import opened EarlyCse
  import opened EarlyCseShape

  // ---------------------------------------------------------------- meanings

  /** Any interpretation: operators without effects, memory reached by loads and stores, every
      other line an arbitrary effect on the world, which also decides where control goes. */
  datatype Meaning<!V, !W> = Meaning(
    unset: Name -> V, global: string -> V, literal: string -> V,
    commutative: (string, string, string, V, V) -> V,
    pure: (string, string, seq<V>) -> V,
    load: (W, string, V) -> V,
    store: (W, string, V, V) -> W,
    effect: (W, seq<string>, seq<V>) -> W,
    result: (W, seq<string>, seq<V>) -> V,
    next: W -> nat)

  /** The only laws asked for: the commuting operators commute, and a scalar just stored at an
      address is what a load of the same type from it gives. */
  ghost predicate Lawful<V(!new), W(!new)>(m: Meaning<V, W>) {
    && (forall op, flags, ty, a, b :: m.commutative(op, flags, ty, a, b) == m.commutative(op, flags, ty, b, a))
    && (forall w, ty, v, p :: m.load(m.store(w, ty, v, p), ty, p) == v)
  }

  type Env<V> = map<Name, V>

  datatype State<V, W> = State(env: Env<V>, world: W)

  function Eval<V, W>(m: Meaning<V, W>, env: Env<V>, v: Value): V {
    match v
    case Local(name) => if name in env then env[name] else m.unset(name)
    case Global(text) => m.global(text)
    case Literal(text) => m.literal(text)
  }

  function EvalAll<V, W>(m: Meaning<V, W>, env: Env<V>, vs: seq<Value>): (us: seq<V>)
    ensures |us| == |vs| && forall i :: 0 <= i < |vs| ==> us[i] == Eval(m, env, vs[i])
  {
    seq(|vs|, i requires 0 <= i < |vs| => Eval(m, env, vs[i]))
  }

  /** A line without its operands and result. */
  function Describe(i: Instr): seq<string> {
    match i
    case Assign(_, BitcastPtr(_), _) => ["bitcast"]
    case Assign(_, LoadScalar(ty, _, alignment), _) => ["load", ty, alignment]
    case Assign(_, Commutative(op, flags, ty, _, _), _) => ["binary", op, flags, ty]
    case Assign(_, General(opcode, text, _), _) => ["general", opcode, text]
    case StoreScalar(ty, _, _, alignment, _) => ["store", ty, alignment]
    case Effect(text, _) => ["effect", text]
  }

  /** Lines that only compute a value. */
  predicate Silent(i: Instr) {
    i.Assign? && !i.uncertain && (i.rhs.General? ==> i.rhs.opcode in PURE)
  }

  function RhsValue<V, W>(m: Meaning<V, W>, s: State<V, W>, rhs: Rhs): V {
    match rhs
    case BitcastPtr(p) => Eval(m, s.env, p)
    case LoadScalar(ty, p, _) => m.load(s.world, ty, Eval(m, s.env, p))
    case Commutative(op, flags, ty, a, b) => m.commutative(op, flags, ty, Eval(m, s.env, a), Eval(m, s.env, b))
    case General(opcode, text, args) => m.pure(opcode, text, EvalAll(m, s.env, args))
  }

  function Exec<V, W>(m: Meaning<V, W>, s: State<V, W>, i: Instr): State<V, W> {
    if Silent(i) then s.(env := s.env[i.result := RhsValue(m, s, i.rhs)])
    else if i.StoreScalar? && !i.uncertain then
      s.(world := m.store(s.world, i.ty, Eval(m, s.env, i.value), Eval(m, s.env, i.pointer)))
    else
      var args := EvalAll(m, s.env, Operands(i));
      State(if i.Assign? then s.env[i.result := m.result(s.world, Describe(i), args)] else s.env,
            m.effect(s.world, Describe(i), args))
  }

  function ExecBody<V, W>(m: Meaning<V, W>, s: State<V, W>, body: seq<Instr>): State<V, W>
    decreases |body|
  {
    if body == [] then s else ExecBody(m, Exec(m, s, body[0]), body[1..])
  }

  function PhiValue<V, W>(m: Meaning<V, W>, env: Env<V>, p: Phi, from: nat): V {
    if from in p.incoming then Eval(m, env, p.incoming[from]) else m.unset(p.result)
  }

  /** The phis of a block, all evaluated on the edge that enters it. */
  function PhiEnv<V, W>(m: Meaning<V, W>, env: Env<V>, phis: seq<Phi>, from: nat): Env<V>
    decreases |phis|
  {
    if phis == [] then env
    else
      var last := phis[|phis| - 1];
      PhiEnv(m, env, phis[..|phis| - 1], from)[last.result := PhiValue(m, env, last, from)]
  }

  /** About to run a block, or stopped after one. */
  datatype Point<V, W> = At(block: nat, state: State<V, W>) | Done(block: nat, state: State<V, W>)

  function Advance<V, W>(m: Meaning<V, W>, f: Function, p: Point<V, W>): Point<V, W> {
    if p.Done? || p.block >= |f.blocks| || p.block >= |f.targets| then p
    else
      var s := ExecBody(m, p.state, f.blocks[p.block].body);
      var c := m.next(s.world);
      if c in f.targets[p.block] && c < |f.blocks| && c < |f.targets|
      then At(c, s.(env := PhiEnv(m, s.env, f.blocks[c].phis, p.block)))
      else Done(p.block, s)
  }

  function RunFor<V, W>(m: Meaning<V, W>, f: Function, p: Point<V, W>, n: nat): Point<V, W> {
    if n == 0 then p else Advance(m, f, RunFor(m, f, p, n - 1))
  }

  // ---------------------------------------------------------------- values stay put

  lemma EvalFrame<V, W>(m: Meaning<V, W>, env: Env<V>, x: Name, value: V, v: Value)
    requires v != Local(x)
    ensures Eval(m, env[x := value], v) == Eval(m, env, v)
  {
  }

  /** A line's result is none of the values available before it. */
  lemma NotTheResult(f: Function, v: Value, b: nat, k: nat)
    requires Unique(f) && b < |f.blocks| && k < |f.blocks[b].body| && f.blocks[b].body[k].Assign?
    requires Available(f, v, b, k + 1)
    ensures v != Local(f.blocks[b].body[k].result)
  {
    var x := f.blocks[b].body[k].result;
    assert DefinedAt(f, x, b, k + 1);
    DefinedAtSome(f, x, b, k + 1);
  }

  lemma ExecFrame<V, W>(m: Meaning<V, W>, s: State<V, W>, f: Function, v: Value, b: nat, k: nat)
    requires Unique(f) && b < |f.blocks| && k < |f.blocks[b].body| && Available(f, v, b, k + 1)
    ensures Eval(m, Exec(m, s, f.blocks[b].body[k]).env, v) == Eval(m, s.env, v)
  {
    hide RhsValue, Available, Describe;
    if f.blocks[b].body[k].Assign? {
      NotTheResult(f, v, b, k);
    }
  }

  // ---------------------------------------------------------------- replaced names hold their value

  /** At (`b`, `i`), every replaced name defined before it equals its replacement. */
  ghost predicate Holding<V, W>(m: Meaning<V, W>, f: Function, r: Replacements, env: Env<V>, b: nat, i: nat) {
    forall x <- r :: Available(f, Local(x), b, i) ==> Eval(m, env, Local(x)) == Eval(m, env, r[x])
  }

  /** What the tables remember is true. */
  ghost predicate TablesHold<V, W>(m: Meaning<V, W>, t: Tables, s: State<V, W>) {
    && (forall e <- t.expressions :: Reusable(e) && RhsValue(m, s, e) == Eval(m, s.env, t.expressions[e]))
    && (forall l <- t.loads :: l.LoadScalar? && RhsValue(m, s, l) == Eval(m, s.env, t.loads[l]))
    && (forall k <- t.stores :: m.load(s.world, k.0, Eval(m, s.env, k.1)) == Eval(m, s.env, t.stores[k]))
  }

  lemma SubstSame<V, W>(m: Meaning<V, W>, f: Function, r: Replacements, big: Replacements, env: Env<V>, v: Value,
                        b: nat, i: nat)
    requires Within(r, big) && Holding(m, f, big, env, b, i) && Available(f, v, b, i)
    ensures Eval(m, env, Subst(r, v)) == Eval(m, env, v)
  {
  }

  /** A line and its substituted form do the same. */
  lemma SameLine<V, W>(m: Meaning<V, W>, f: Function, r: Replacements, big: Replacements, s: State<V, W>, b: nat,
                       k: nat)
    requires Ssa(f) && b < |f.blocks| && k < |f.blocks[b].body|
    requires Within(r, big) && Holding(m, f, big, s.env, b, k + 1)
    ensures var line := f.blocks[b].body[k];
            && EvalAll(m, s.env, Operands(SubstInstr(r, line))) == EvalAll(m, s.env, Operands(line))
            && Exec(m, s, SubstInstr(r, line)) == Exec(m, s, line)
            && (line.Assign? ==> RhsValue(m, s, SubstInstr(r, line).rhs) == RhsValue(m, s, line.rhs))
  {
    hide Holding, Eval, Within, Available;
    var line := f.blocks[b].body[k];
    var vs := Operands(line);
    forall n | 0 <= n < |vs| ensures Eval(m, s.env, Subst(r, vs[n])) == Eval(m, s.env, vs[n]) {
      assert Available(f, Operands(f.blocks[b].body[k])[n], b, k + 1);
      SubstSame(m, f, r, big, s.env, vs[n], b, k + 1);
    }
    SameEffect(m, s, line, s, SubstInstr(r, line));
  }

  predicate Alike(i: Instr, j: Instr) {
    && Describe(i) == Describe(j) && |Operands(i)| == |Operands(j)|
    && i.Assign? == j.Assign? && i.StoreScalar? == j.StoreScalar?
    && (i.Assign? ==> i.result == j.result && i.uncertain == j.uncertain && SameKind(i.rhs, j.rhs))
    && (i.StoreScalar? ==> i.uncertain == j.uncertain && i.ty == j.ty)
  }

  predicate SameKind(a: Rhs, b: Rhs) {
    match a
    case BitcastPtr(_) => b.BitcastPtr?
    case LoadScalar(ty, _, _) => b.LoadScalar? && b.ty == ty
    case Commutative(op, flags, ty, _, _) => b.Commutative? && b.op == op && b.flags == flags && b.ty == ty
    case General(opcode, text, _) => b.General? && b.opcode == opcode && b.text == text
  }

  lemma ValuesAgree<V, W>(m: Meaning<V, W>, env: Env<V>, us: seq<Value>, env2: Env<V>, vs: seq<Value>)
    requires EvalAll(m, env, us) == EvalAll(m, env2, vs)
    ensures |us| == |vs| && forall n :: 0 <= n < |us| ==> Eval(m, env, us[n]) == Eval(m, env2, vs[n])
  {
    hide Eval;
    assert |us| == |EvalAll(m, env, us)| == |vs|;
    forall n | 0 <= n < |us| ensures Eval(m, env, us[n]) == Eval(m, env2, vs[n]) {
      assert EvalAll(m, env, us)[n] == EvalAll(m, env2, vs)[n];
    }
  }

  /** The value a line gives its result. */
  function LineValue<V, W>(m: Meaning<V, W>, s: State<V, W>, i: Instr): V
    requires i.Assign?
  {
    if Silent(i) then RhsValue(m, s, i.rhs) else m.result(s.world, Describe(i), EvalAll(m, s.env, Operands(i)))
  }

  /** Lines alike, with the same operand values in the same world, do the same. */
  lemma SameEffect<V, W>(m: Meaning<V, W>, s: State<V, W>, i: Instr, s2: State<V, W>, j: Instr)
    requires Alike(i, j) && EvalAll(m, s.env, Operands(i)) == EvalAll(m, s2.env, Operands(j)) && s.world == s2.world
    ensures Exec(m, s, i).world == Exec(m, s2, j).world
    ensures i.Assign? ==> LineValue(m, s, i) == LineValue(m, s2, j) && RhsValue(m, s, i.rhs) == RhsValue(m, s2, j.rhs)
    ensures Exec(m, s, i).env == if i.Assign? then s.env[i.result := LineValue(m, s, i)] else s.env
    ensures Exec(m, s2, j).env == if i.Assign? then s2.env[i.result := LineValue(m, s, i)] else s2.env
  {
    hide Eval, EvalAll, Describe;
    var us, vs := Operands(i), Operands(j);
    ValuesAgree(m, s.env, us, s2.env, vs);
    if i.Assign? {
      match i.rhs
      case BitcastPtr(p) => assert us[0] == p && vs[0] == j.rhs.pointer;
      case LoadScalar(_, p, _) => assert us[0] == p && vs[0] == j.rhs.pointer;
      case Commutative(_, _, _, a, b) =>
        assert us[0] == a && us[1] == b && vs[0] == j.rhs.left && vs[1] == j.rhs.right;
      case General(_, _, args) => assert us == args && vs == j.rhs.args;
    } else if i.StoreScalar? {
      assert us[0] == i.value && us[1] == i.pointer && vs[0] == j.value && vs[1] == j.pointer;
    }
  }

  // ---------------------------------------------------------------- one line

  /** What a line's own tables say about it is its value. */
  lemma KnownValue<V(!new), W(!new)>(m: Meaning<V, W>, t: Tables, s: State<V, W>, line: Instr, v: Value)
    requires Lawful(m) && TablesHold(m, t, s) && Known(t, line) == Some(v)
    ensures Silent(line) && RhsValue(m, s, line.rhs) == Eval(m, s.env, v)
  {
    hide Eval, Before, Text;
    match line.rhs
    case BitcastPtr(p) =>
    case LoadScalar(ty, p, _) =>
    case Commutative(_, _, _, _, _) => KeyValue(m, s, line.rhs);
    case General(_, _, _) =>
  }

  /** Commuting the operands of a key does not change its value. */
  lemma KeyValue<V(!new), W(!new)>(m: Meaning<V, W>, s: State<V, W>, rhs: Rhs)
    requires Lawful(m)
    ensures RhsValue(m, s, ExpressionKey(rhs)) == RhsValue(m, s, rhs)
  {
    hide Eval, Before, Text;
  }

  /** Entries stay true when one of their names' values, the line's own, is set. */
  lemma EntriesFrame<V, W>(m: Meaning<V, W>, f: Function, t: Tables, s: State<V, W>, value: V, b: nat, k: nat)
    requires Ssa(f) && b < |f.blocks| && k < |f.blocks[b].body| && f.blocks[b].body[k].Assign?
    requires GoodTables(f, t, b, k + 1) && TablesHold(m, t, s)
    ensures TablesHold(m, t, s.(env := s.env[f.blocks[b].body[k].result := value]))
  {
    hide Eval, GoodReplacements, Settled, Available, Ssa, Reusable;
    UniqueOf(f);
    var x := f.blocks[b].body[k].result;
    var s1 := s.(env := s.env[x := value]);
    var i := k + 1;
    forall v: Value | Remembered(f, t.replaced, v, b, i) ensures Eval(m, s1.env, v) == Eval(m, s.env, v) {
      NotTheResult(f, v, b, k);
      EvalFrame(m, s.env, x, value, v);
    }
    forall e <- t.expressions
      ensures RhsValue(m, s1, e) == Eval(m, s1.env, t.expressions[e])
    {
      RhsFrame(m, f, t.replaced, s, s1, e, b, i);
    }
    forall l <- t.loads
      ensures RhsValue(m, s1, l) == Eval(m, s1.env, t.loads[l])
    {
      RhsFrame(m, f, t.replaced, s, s1, l, b, i);
    }
  }

  lemma RhsFrame<V, W>(m: Meaning<V, W>, f: Function, r: Replacements, s: State<V, W>, s1: State<V, W>, rhs: Rhs,
                       b: nat, i: nat)
    requires AllRemembered(f, r, RhsOperands(rhs), b, i) && s1.world == s.world
    requires forall v: Value :: Remembered(f, r, v, b, i) ==> Eval(m, s1.env, v) == Eval(m, s.env, v)
    ensures RhsValue(m, s1, rhs) == RhsValue(m, s, rhs)
  {
    hide Eval, Remembered;
    var vs := RhsOperands(rhs);
    assert forall n :: 0 <= n < |vs| ==> Remembered(f, r, vs[n], b, i);
    match rhs
    case BitcastPtr(p) => assert vs[0] == p;
    case LoadScalar(_, p, _) => assert vs[0] == p;
    case Commutative(_, _, _, a, c) => assert vs[0] == a && vs[1] == c;
    case General(_, _, args) => assert EvalAll(m, s1.env, args) == EvalAll(m, s.env, args);
  }

  /** Replaced names keep equal to their replacements across a line that replaces nothing. */
  lemma HoldingFrame<V, W>(m: Meaning<V, W>, f: Function, big: Replacements, s: State<V, W>, b: nat, k: nat)
    requires Ssa(f) && b < |f.blocks| && k < |f.blocks[b].body|
    requires GoodReplacements(f, big, |f.blocks|, 1) && Holding(m, f, big, s.env, b, k + 1)
    requires var line := f.blocks[b].body[k];
             line.Assign? && line.result in big ==>
               var s1 := Exec(m, s, line); Eval(m, s1.env, Local(line.result)) == Eval(m, s1.env, big[line.result])
    ensures Holding(m, f, big, Exec(m, s, f.blocks[b].body[k]).env, b, k + 2)
  {
    hide Exec, Eval;
    var line := f.blocks[b].body[k];
    var env1 := Exec(m, s, line).env;
    forall y <- big | Available(f, Local(y), b, k + 2)
      ensures Eval(m, env1, Local(y)) == Eval(m, env1, big[y])
    {
      var d, j :| DefinedAt(f, y, d, j) && 0 < j && Earlier(d, j, |f.blocks|, 1) && Available(f, big[y], d, j);
      DefinedAtSome(f, y, d, j);
      if d == b && j == k + 1 {
        assert line.result == y;
      } else {
        assert Precedes(f, d, j, b, k + 1);
        AvailableThrough(f, y, d, j, big[y], b, k + 1);
        ExecFrame(m, s, f, Local(y), b, k);
        ExecFrame(m, s, f, big[y], b, k);
      }
    }
  }

  /** Remembering a line's result, or forgetting memory, keeps the tables true. */
  lemma RememberHolds<V(!new), W(!new)>(m: Meaning<V, W>, f: Function, t: Tables, s: State<V, W>, line: Instr, b: nat,
                                        k: nat)
    requires Lawful(m) && Ssa(f) && b < |f.blocks| && k < |f.blocks[b].body|
    requires GoodTables(f, t, b, k + 1) && TablesHold(m, t, s)
    requires line.Assign? == f.blocks[b].body[k].Assign? && (line.Assign? ==> line.result == f.blocks[b].body[k].result)
    requires AllRemembered(f, t.replaced, Operands(line), b, k + 1)
    ensures TablesHold(m, Remember(t, line), Exec(m, s, line))
  {
    hide GoodTables, Eval, Describe, AllRemembered, ExpressionKey;
    var s1 := Exec(m, s, line);
    if Silent(line) {
      var value := RhsValue(m, s, line.rhs);
      EntriesFrame(m, f, t, s, value, b, k);
      ResultFrame(m, f, t.replaced, s, line, b, k);
      KeyValue(m, s1, line.rhs);
      KeyReusable(line.rhs);
      NewValue(m, s.env, line.result, value);
    } else {
      var middle := s.(env := s1.env);
      if line.Assign? {
        EntriesFrame(m, f, t, s, s1.env[line.result], b, k);
      }
      assert TablesHold(m, t, middle);
      forall e <- t.expressions ensures RhsValue(m, s1, e) == RhsValue(m, middle, e) {
      }
    }
  }

  lemma KeyReusable(rhs: Rhs)
    ensures Reusable(ExpressionKey(rhs)) <==> Reusable(rhs)
  {
    hide Before, Text;
  }

  lemma NewValue<V, W>(m: Meaning<V, W>, env: Env<V>, x: Name, value: V)
    ensures Eval(m, env[x := value], Local(x)) == value
  {
  }

  /** A silent line's right-hand side means the same after its result is set. */
  lemma ResultFrame<V, W>(m: Meaning<V, W>, f: Function, r: Replacements, s: State<V, W>, line: Instr, b: nat, k: nat)
    requires Ssa(f) && b < |f.blocks| && k < |f.blocks[b].body| && Silent(line)
    requires f.blocks[b].body[k].Assign? && line.result == f.blocks[b].body[k].result
    requires AllRemembered(f, r, Operands(line), b, k + 1)
    ensures RhsValue(m, Exec(m, s, line), line.rhs) == RhsValue(m, s, line.rhs)
  {
    hide Eval, Settled, Available, Ssa, RhsValue;
    UniqueOf(f);
    var s1 := Exec(m, s, line);
    var i := k + 1;
    forall v: Value | Remembered(f, r, v, b, i) ensures Eval(m, s1.env, v) == Eval(m, s.env, v) {
      NotTheResult(f, v, b, k);
      EvalFrame(m, s.env, line.result, RhsValue(m, s, line.rhs), v);
    }
    RhsFrame(m, f, r, s, s1, line.rhs, b, i);
  }

  /** One line of the original program keeps every claim of the pass true. */
  lemma StepHolds<V(!new), W(!new)>(m: Meaning<V, W>, f: Function, t: Tables, big: Replacements, s: State<V, W>, b: nat,
                                    k: nat)
    requires Lawful(m) && Ssa(f) && b < |f.blocks| && k < |f.blocks[b].body|
    requires GoodTables(f, t, b, k + 1) && GoodReplacements(f, big, |f.blocks|, 1)
    requires Within(t.replaced, big) && Grows(f, StepLine(t, f.blocks[b].body[k]).0.replaced, big, b, k + 2)
    requires Holding(m, f, big, s.env, b, k + 1) && TablesHold(m, t, s)
    ensures var line := f.blocks[b].body[k];
            && TablesHold(m, StepLine(t, line).0, Exec(m, s, line))
            && Holding(m, f, big, Exec(m, s, line).env, b, k + 2)
            && (line.Assign? && line.result in big ==> Silent(line))
  {
    hide GoodTables, GoodReplacements, Holding, TablesHold, Ssa, SubstInstr, Known, Remember, Eval, Describe, RhsValue,
         Remembered,
         AllRemembered, Grows, Exec;
    var line, r := f.blocks[b].body[k], t.replaced;
    var l := SubstInstr(r, line);
    UniqueOf(f);
    GoodOf(f, t, b, k + 1);
    ResultSame(r, line);
    SameLine(m, f, r, big, s, b, k);
    LineRemembered(f, r, b, k);
    match Known(t, l)
    case Some(v) =>
      KnownValue(m, t, s, l, v);
      KnownRemembered(f, t, l, v, b, k + 1);
      RememberedAvailable(f, r, v, b, k + 1);
      SilentSame(r, line);
      ReplacedHolds(m, f, t, big, s, v, b, k);
      HoldingFrame(m, f, big, s, b, k);
    case None =>
      RememberHolds(m, f, t, s, l, b, k);
      if line.Assign? {
        RememberKeeps(t, l);
        NotYetReplaced(f, r, b, k);
        NeverReplaced(f, r, big, b, k);
      }
      HoldingFrame(m, f, big, s, b, k);
  }

  lemma GoodOf(f: Function, t: Tables, b: nat, i: nat)
    requires GoodTables(f, t, b, i)
    ensures GoodReplacements(f, t.replaced, b, i)
  {
  }

  lemma RememberedAvailable(f: Function, r: Replacements, v: Value, b: nat, i: nat)
    requires Remembered(f, r, v, b, i)
    ensures Available(f, v, b, i)
  {
  }

  lemma SilentSame(r: Replacements, i: Instr)
    ensures Silent(SubstInstr(r, i)) <==> Silent(i)
  {
  }

  lemma NeverReplaced(f: Function, r: Replacements, big: Replacements, b: nat, k: nat)
    requires Unique(f) && b < |f.blocks| && k < |f.blocks[b].body| && f.blocks[b].body[k].Assign?
    requires f.blocks[b].body[k].result !in r && Grows(f, r, big, b, k + 2)
    ensures f.blocks[b].body[k].result !in big
  {
    assert DefinedAt(f, f.blocks[b].body[k].result, b, k + 1) && Earlier(b, k + 1, b, k + 2);
  }

  /** A line that is replaced leaves its result equal to its replacement. */
  lemma ReplacedHolds<V, W>(m: Meaning<V, W>, f: Function, t: Tables, big: Replacements, s: State<V, W>, v: Value,
                            b: nat, k: nat)
    requires Ssa(f) && b < |f.blocks| && k < |f.blocks[b].body| && GoodTables(f, t, b, k + 1) && TablesHold(m, t, s)
    requires var line := f.blocks[b].body[k];
             && Silent(line) && RhsValue(m, s, line.rhs) == Eval(m, s.env, v) && Available(f, v, b, k + 1)
             && StepLine(t, line).0 == t.(replaced := t.replaced[line.result := v])
             && Grows(f, t.replaced[line.result := v], big, b, k + 2)
    ensures var line := f.blocks[b].body[k]; var s1 := Exec(m, s, line);
            && TablesHold(m, StepLine(t, line).0, s1)
            && line.result in big && Eval(m, s1.env, Local(line.result)) == Eval(m, s1.env, big[line.result])
  {
    hide GoodTables, StepLine, RhsValue, Ssa, Available, Reusable, Eval;
    UniqueOf(f);
    var line := f.blocks[b].body[k];
    EntriesFrame(m, f, t, s, RhsValue(m, s, line.rhs), b, k);
    NotTheResult(f, v, b, k);
    EvalFrame(m, s.env, line.result, RhsValue(m, s, line.rhs), v);
    NewValue(m, s.env, line.result, RhsValue(m, s, line.rhs));
    assert line.result in t.replaced[line.result := v];
  }

  // ---------------------------------------------------------------- the two runs

  /** Two environments give every name that is not replaced the same value. */
  ghost predicate Agree<V, W>(m: Meaning<V, W>, big: Replacements, env: Env<V>, env2: Env<V>) {
    forall x: Name :: x !in big ==> Eval(m, env, Local(x)) == Eval(m, env2, Local(x))
  }

  lemma AgreeSubst<V, W>(m: Meaning<V, W>, big: Replacements, env: Env<V>, env2: Env<V>, v: Value)
    requires Agree(m, big, env, env2) && Rooted(big)
    ensures Eval(m, env2, Subst(big, v)) == Eval(m, env, Subst(big, v))
  {
    var u := Subst(big, v);
    if u.Local? {
      assert u.name !in big;
    }
  }

  /** A kept line does in the rewritten run what it does in the original. */
  lemma KeptLineSame<V, W>(m: Meaning<V, W>, f: Function, big: Replacements, s: State<V, W>, s2: State<V, W>, b: nat,
                           k: nat)
    requires Ssa(f) && b < |f.blocks| && k < |f.blocks[b].body| && Rooted(big)
    requires Holding(m, f, big, s.env, b, k + 1) && Agree(m, big, s.env, s2.env) && s.world == s2.world
    ensures var line := f.blocks[b].body[k];
            var t, t2 := Exec(m, s, line), Exec(m, s2, SubstInstr(big, line));
            t.world == t2.world && Agree(m, big, t.env, t2.env)
  {
    hide Holding, Eval, Available, Rooted, Exec, Ssa;
    var line := f.blocks[b].body[k];
    SameLine(m, f, big, big, s, b, k);
    var vs := Operands(SubstInstr(big, line));
    forall n | 0 <= n < |vs| ensures Eval(m, s2.env, vs[n]) == Eval(m, s.env, vs[n]) {
      AgreeSubst(m, big, s.env, s2.env, Operands(line)[n]);
    }
    assert EvalAll(m, s2.env, vs) == EvalAll(m, s.env, vs);
    SameEffect(m, s, line, s2, SubstInstr(big, line));
    if line.Assign? {
      AgreeAfter(m, big, s.env, s2.env, line.result, LineValue(m, s, line));
    }
  }

  lemma AgreeAfter<V, W>(m: Meaning<V, W>, big: Replacements, env: Env<V>, env2: Env<V>, x: Name, value: V)
    requires Agree(m, big, env, env2)
    ensures Agree(m, big, env[x := value], env2[x := value])
  {
  }

  lemma AgreeDropped<V, W>(m: Meaning<V, W>, big: Replacements, env: Env<V>, env2: Env<V>, x: Name, value: V)
    requires Agree(m, big, env, env2) && x in big
    ensures Agree(m, big, env[x := value], env2)
  {
  }

  /** Running the rest of a block in both programs. */
  lemma {:induction false} BodySound<V(!new), W(!new)>(m: Meaning<V, W>, f: Function, t: Tables, big: Replacements,
                                                       s: State<V, W>, s2: State<V, W>,
                                                       b: nat, k: nat)
    requires Lawful(m) && Ssa(f) && b < |f.blocks| && k <= |f.blocks[b].body|
    requires GoodTables(f, t, b, k + 1) && GoodReplacements(f, big, |f.blocks|, 1) && Rooted(big)
    requires Grows(f, ScanBody(t, f.blocks[b].body[k..]).0.replaced, big, b, |f.blocks[b].body| + 1)
    requires Holding(m, f, big, s.env, b, k + 1) && TablesHold(m, t, s)
    requires Agree(m, big, s.env, s2.env) && s.world == s2.world
    ensures var e, e2 := ExecBody(m, s, f.blocks[b].body[k..]), ExecBody(m, s2, KeptBody(big, f.blocks[b].body[k..]));
            && Holding(m, f, big, e.env, b, |f.blocks[b].body| + 1)
            && Agree(m, big, e.env, e2.env) && e.world == e2.world
    decreases |f.blocks[b].body| - k
  {
    hide GoodTables, GoodReplacements, Holding, TablesHold, Ssa, StepLine, SubstInstr, Grows, Exec, Agree, Rooted;
    var body := f.blocks[b].body;
    if k < |body| {
      var line := body[k];
      assert body[k..][0] == line && body[k..][1..] == body[k + 1..];
      var t1 := StepLine(t, line).0;
      StepGood(f, t, b, k);
      ScanBodyGood(f, t1, b, k + 1);
      GrowsTwice(f, t1.replaced, ScanBody(t1, body[k + 1..]).0.replaced, big, b, k + 2, b, |body| + 1);
      StepGrows(f, t, b, k);
      GrowsTwice(f, t.replaced, t1.replaced, big, b, k + 1, b, k + 2);
      GrowsWithin(f, t.replaced, big, b, k + 1);
      StepHolds(m, f, t, big, s, b, k);
      var s1 := Exec(m, s, line);
      if line.Assign? && line.result in big {
        SilentExec(m, s, line);
        AgreeDropped(m, big, s.env, s2.env, line.result, RhsValue(m, s, line.rhs));
        BodySound(m, f, t1, big, s1, s2, b, k + 1);
        assert KeptBody(big, body[k..]) == KeptBody(big, body[k + 1..]);
      } else {
        KeptLineSame(m, f, big, s, s2, b, k);
        var l2 := SubstInstr(big, line);
        BodySound(m, f, t1, big, s1, Exec(m, s2, l2), b, k + 1);
        ExecFirst(m, s2, l2, KeptBody(big, body[k + 1..]));
      }
    }
  }

  lemma GrowsWithin(f: Function, r: Replacements, big: Replacements, b: nat, i: nat)
    requires Grows(f, r, big, b, i)
    ensures Within(r, big)
  {
  }

  lemma SilentExec<V, W>(m: Meaning<V, W>, s: State<V, W>, i: Instr)
    requires Silent(i)
    ensures Exec(m, s, i) == s.(env := s.env[i.result := RhsValue(m, s, i.rhs)])
  {
  }

  lemma ExecFirst<V, W>(m: Meaning<V, W>, s: State<V, W>, i: Instr, rest: seq<Instr>)
    ensures ExecBody(m, s, [i] + rest) == ExecBody(m, Exec(m, s, i), rest)
  {
    assert ([i] + rest)[1..] == rest;
  }

  // ---------------------------------------------------------------- from block to block

  /** Entering `b`: replaced names defined in its strict dominators equal their replacements. */
  ghost predicate HeldBefore<V, W>(m: Meaning<V, W>, f: Function, big: Replacements, env: Env<V>, b: nat) {
    forall x <- big :: (exists d, j :: DefinedAt(f, x, d, j) && d != b && Dominates(f, d, b)) ==>
      Eval(m, env, Local(x)) == Eval(m, env, big[x])
  }

  /** Leaving `b`: also those defined in `b` itself. */
  ghost predicate HeldAfter<V, W>(m: Meaning<V, W>, f: Function, big: Replacements, env: Env<V>, b: nat) {
    forall x <- big :: (exists d, j :: DefinedAt(f, x, d, j) && (d == b || Dominates(f, d, b))) ==>
      Eval(m, env, Local(x)) == Eval(m, env, big[x])
  }

  lemma EntryHolding<V, W>(m: Meaning<V, W>, f: Function, big: Replacements, env: Env<V>, b: nat)
    requires Unique(f) && GoodReplacements(f, big, |f.blocks|, 1) && HeldBefore(m, f, big, env, b)
    ensures Holding(m, f, big, env, b, 1)
  {
    hide Eval;
    forall x <- big | Available(f, Local(x), b, 1)
      ensures Eval(m, env, Local(x)) == Eval(m, env, big[x])
    {
      var d, j :| DefinedAt(f, x, d, j) && 0 < j && Earlier(d, j, |f.blocks|, 1) && Available(f, big[x], d, j);
      DefinedAtSome(f, x, d, j);
      var e, k :| DefinedAt(f, x, e, k) && Precedes(f, e, k, b, 1);
      assert e == d && k == j && d != b;
    }
  }

  lemma ExecLeaves<V, W>(m: Meaning<V, W>, s: State<V, W>, i: Instr, x: Name)
    requires !Defines(i, x)
    ensures Eval(m, Exec(m, s, i).env, Local(x)) == Eval(m, s.env, Local(x))
  {
    hide RhsValue, Describe;
  }

  lemma {:induction false} BodyFrame<V, W>(m: Meaning<V, W>, f: Function, s: State<V, W>, x: Name, b: nat, k: nat)
    requires b < |f.blocks| && k <= |f.blocks[b].body| && forall i :: 0 < i ==> !DefinedAt(f, x, b, i)
    ensures Eval(m, ExecBody(m, s, f.blocks[b].body[k..]).env, Local(x)) == Eval(m, s.env, Local(x))
    decreases |f.blocks[b].body| - k
  {
    hide RhsValue, Describe, Eval;
    var body := f.blocks[b].body;
    if k < |body| {
      assert body[k..][0] == body[k] && body[k..][1..] == body[k + 1..];
      assert !DefinedAt(f, x, b, k + 1);
      ExecLeaves(m, s, body[k], x);
      BodyFrame(m, f, Exec(m, s, body[k]), x, b, k + 1);
    }
  }

  /** Neither a name of another block nor its replacement is defined here, if that block
      dominates this one. */
  lemma DefinedElsewhere(f: Function, big: Replacements, x: Name, d: nat, j: nat, b: nat)
    requires Unique(f) && GoodReplacements(f, big, |f.blocks|, 1) && x in big
    requires DefinedAt(f, x, d, j) && d != b && Dominates(f, d, b) && Reachable(f, b)
    ensures forall i :: !DefinedAt(f, x, b, i)
    ensures big[x].Local? ==> forall i :: !DefinedAt(f, big[x].name, b, i)
  {
    var d2, j2 :| DefinedAt(f, x, d2, j2) && 0 < j2 && Earlier(d2, j2, |f.blocks|, 1) && Available(f, big[x], d2, j2);
    if big[x].Local? {
      forall i | DefinedAt(f, big[x].name, b, i) ensures false {
        DefinedAtSome(f, big[x].name, b, i);
        var e, k :| DefinedAt(f, big[x].name, e, k) && Precedes(f, e, k, d, j);
        DominatesAntisymmetric(f, d, b);
      }
    }
  }

  lemma ExitHolding<V, W>(m: Meaning<V, W>, f: Function, big: Replacements, s: State<V, W>, b: nat)
    requires Unique(f) && b < |f.blocks| && GoodReplacements(f, big, |f.blocks|, 1) && Reachable(f, b)
    requires HeldBefore(m, f, big, s.env, b)
    requires Holding(m, f, big, ExecBody(m, s, f.blocks[b].body[0..]).env, b, |f.blocks[b].body| + 1)
    ensures HeldAfter(m, f, big, ExecBody(m, s, f.blocks[b].body[0..]).env, b)
  {
    hide Eval, ExecBody, GoodReplacements, Unique, Dominates;
    var end := ExecBody(m, s, f.blocks[b].body[0..]).env;
    forall x <- big | exists d, j :: DefinedAt(f, x, d, j) && (d == b || Dominates(f, d, b))
      ensures Eval(m, end, Local(x)) == Eval(m, end, big[x])
    {
      var d, j :| DefinedAt(f, x, d, j) && (d == b || Dominates(f, d, b));
      if d == b {
        assert Precedes(f, d, j, b, |f.blocks[b].body| + 1);
      } else {
        DefinedElsewhere(f, big, x, d, j, b);
        BodyFrame(m, f, s, x, b, 0);
        if big[x].Local? {
          BodyFrame(m, f, s, big[x].name, b, 0);
        } else {
          NotLocal(m, s.env, end, big[x]);
        }
      }
    }
  }

  lemma NotLocal<V, W>(m: Meaning<V, W>, env: Env<V>, env2: Env<V>, v: Value)
    requires !v.Local?
    ensures Eval(m, env, v) == Eval(m, env2, v)
  {
  }

  lemma {:induction false} PhiFrame<V, W>(m: Meaning<V, W>, env: Env<V>, phis: seq<Phi>, from: nat, x: Name)
    requires forall k :: 0 <= k < |phis| ==> phis[k].result != x
    ensures Eval(m, PhiEnv(m, env, phis, from), Local(x)) == Eval(m, env, Local(x))
    decreases |phis|
  {
    hide PhiValue;
    if phis != [] {
      PhiFrame(m, env, phis[..|phis| - 1], from, x);
    }
  }

  lemma EdgeHolding<V, W>(m: Meaning<V, W>, f: Function, big: Replacements, env: Env<V>, b: nat, c: nat)
    requires Unique(f) && GoodReplacements(f, big, |f.blocks|, 1) && Reachable(f, c)
    requires b < |f.blocks| == |f.targets| && c < |f.blocks| && c in f.targets[b] && HeldAfter(m, f, big, env, b)
    ensures HeldBefore(m, f, big, PhiEnv(m, env, f.blocks[c].phis, b), c)
  {
    hide Eval, PhiEnv, GoodReplacements, Unique, Dominates;
    var phis := f.blocks[c].phis;
    var env2 := PhiEnv(m, env, phis, b);
    forall x <- big | exists d, j :: DefinedAt(f, x, d, j) && d != c && Dominates(f, d, c)
      ensures Eval(m, env2, Local(x)) == Eval(m, env2, big[x])
    {
      var d, j :| DefinedAt(f, x, d, j) && d != c && Dominates(f, d, c);
      DominatesPredecessor(f, d, b, c);
      DefinedElsewhere(f, big, x, d, j, c);
      NotAPhi(f, x, c);
      PhiFrame(m, env, phis, b, x);
      if big[x].Local? {
        NotAPhi(f, big[x].name, c);
        PhiFrame(m, env, phis, b, big[x].name);
      } else {
        NotLocal(m, env, env2, big[x]);
      }
    }
  }

  lemma NotAPhi(f: Function, x: Name, c: nat)
    requires c < |f.blocks| && !DefinedAt(f, x, c, 0)
    ensures forall k :: 0 <= k < |f.blocks[c].phis| ==> f.blocks[c].phis[k].result != x
  {
  }

  /** The phis of an edge give both runs the same values. */
  lemma PhiAgrees<V, W>(m: Meaning<V, W>, f: Function, big: Replacements, env: Env<V>, env2: Env<V>, b: nat, c: nat,
                        k: nat)
    requires PhisFollow(f) && c < |f.blocks| && k < |f.blocks[c].phis| && Rooted(big)
    requires forall x <- big :: Defined(f, x)
    requires HeldAfter(m, f, big, env, b) && Agree(m, big, env, env2)
    ensures PhiValue(m, env2, SubstPhis(big, f.blocks[c].phis)[k], b) == PhiValue(m, env, f.blocks[c].phis[k], b)
  {
    hide Eval, Agree, Rooted;
    var p := f.blocks[c].phis[k];
    if b in p.incoming {
      var v := p.incoming[b];
      AgreeSubst(m, big, env, env2, v);
      assert AvailableAfter(f, f.blocks[c].phis[k].incoming[b], b);
      if v.Local? && v.name in big {
        var d, j :| DefinedAt(f, v.name, d, j) && (d == b || Dominates(f, d, b));
      }
      assert Eval(m, env, Subst(big, v)) == Eval(m, env, v);
    }
  }

  lemma {:induction false} PhisAgree<V, W>(m: Meaning<V, W>, f: Function, big: Replacements, env: Env<V>, env2: Env<V>,
                                           b: nat, c: nat, n: nat)
    requires PhisFollow(f) && c < |f.blocks| && n <= |f.blocks[c].phis| && Rooted(big)
    requires forall x <- big :: Defined(f, x)
    requires HeldAfter(m, f, big, env, b) && Agree(m, big, env, env2)
    ensures Agree(m, big, PhiEnv(m, env, f.blocks[c].phis[..n], b),
              PhiEnv(m, env2, SubstPhis(big, f.blocks[c].phis)[..n], b))
  {
    hide Eval, Agree, Rooted;
    var phis := f.blocks[c].phis;
    if n > 0 {
      PhisAgree(m, f, big, env, env2, b, c, n - 1);
      var p, q := phis[n - 1], SubstPhis(big, phis)[n - 1];
      assert phis[..n][..n - 1] == phis[..n - 1] && SubstPhis(big, phis)[..n][..n - 1] == SubstPhis(big, phis)[..n - 1];
      PhiAgrees(m, f, big, env, env2, b, c, n - 1);
      hide PhiValue, PhisFollow, HeldAfter, Defined;
      AgreeAfter(m, big, PhiEnv(m, env, phis[..n - 1], b), PhiEnv(m, env2, SubstPhis(big, phis)[..n - 1], b),
                 p.result, PhiValue(m, env, p, b));
    }
  }

  // ---------------------------------------------------------------- the theorem

  /** The two runs at the same point: same world, same block, the same value for every name
      that is not replaced, and replaced names in scope equal to their replacements. */
  ghost predicate SamePoint<V, W>(m: Meaning<V, W>, f: Function, big: Replacements, p: Point<V, W>, q: Point<V, W>) {
    && p.At? == q.At? && p.block == q.block && p.state.world == q.state.world
    && p.block < |f.blocks| && Reachable(f, p.block)
    && Agree(m, big, p.state.env, q.state.env)
    && (if p.At? then HeldBefore(m, f, big, p.state.env, p.block) else HeldAfter(m, f, big, p.state.env, p.block))
  }

  lemma ReachableNext(f: Function, b: nat, c: nat)
    requires Reachable(f, b) && b < |f.blocks| == |f.targets| && c < |f.blocks| && c in f.targets[b]
    ensures Reachable(f, c)
  {
    var path :| Path(f, path) && path[|path| - 1] == b;
    var longer := path + [c];
    assert Path(f, longer) && longer[|longer| - 1] == c;
  }

  lemma ReplacedDefined(f: Function, big: Replacements, b: nat, i: nat)
    requires GoodReplacements(f, big, b, i)
    ensures forall x <- big :: Defined(f, x)
  {
    forall x <- big ensures Defined(f, x) {
      var d, j :| DefinedAt(f, x, d, j) && 0 < j && Earlier(d, j, b, i) && Available(f, big[x], d, j);
      DefinedAtSome(f, x, d, j);
    }
  }

  /** One block of both programs. */
  lemma BlockSame<V(!new), W(!new)>(m: Meaning<V, W>, f: Function, s: State<V, W>, s2: State<V, W>, b: nat)
    requires Lawful(m) && Ssa(f) && b < |f.blocks| && Reachable(f, b)
    requires Agree(m, Replaced(f), s.env, s2.env) && s.world == s2.world && HeldBefore(m, f, Replaced(f), s.env, b)
    ensures var e := ExecBody(m, s, f.blocks[b].body);
            var e2 := ExecBody(m, s2, KeptBody(Replaced(f), f.blocks[b].body));
            && HeldAfter(m, f, Replaced(f), e.env, b) && Agree(m, Replaced(f), e.env, e2.env) && e.world == e2.world
  {
    hide GoodReplacements, Rooted, Agree, HeldBefore, HeldAfter, GoodTables, Grows, ExecBody, Rewritten, Replaced,
         Holding,
         Unique, Reachable, ScanBody, ReplacedBefore, KeptBody, Lawful;
    var big, body := Replaced(f), f.blocks[b].body;
    RewrittenIsApplied(f);
    BlockScan(f, b);
    UniqueOf(f);
    EntryHolding(m, f, big, s.env, b);
    assert body[0..] == body;
    var t := FreshTables(ReplacedBefore(f, b));
    assert TablesHold(m, t, s);
    BodySound(m, f, t, big, s, s2, b, 0);
    ExitHolding(m, f, big, s, b);
  }

  /** One block and the edge after it keep the runs together. */
  lemma AdvanceSame<V(!new), W(!new)>(m: Meaning<V, W>, f: Function, p: Point<V, W>, q: Point<V, W>)
    requires Lawful(m) && Ssa(f) && SamePoint(m, f, Replaced(f), p, q)
    ensures SamePoint(m, f, Replaced(f), Advance(m, f, p), Advance(m, Applied(Replaced(f), f), q))
  {
    hide GoodReplacements, Rooted, Agree, HeldBefore, HeldAfter, ExecBody, Rewritten, Replaced, Unique, Reachable,
         KeptBody,
         Lawful, PhiEnv, LinesFollow;
    var big := Replaced(f);
    var g := Applied(big, f);
    if p.At? {
      var b := p.block;
      var body := f.blocks[b].body;
      assert g.blocks[b] == KeptBlock(big, f.blocks[b]);
      BlockSame(m, f, p.state, q.state, b);
      var s, s2 := ExecBody(m, p.state, body), ExecBody(m, q.state, KeptBody(big, body));
      var c := m.next(s.world);
      if c in f.targets[b] && c < |f.blocks| {
        ReachableNext(f, b, c);
        RewrittenIsApplied(f);
        ReplacedDefined(f, big, |f.blocks|, 1);
        EdgeHolding(m, f, big, s.env, b, c);
        PhisAgree(m, f, big, s.env, s2.env, b, c, |f.blocks[c].phis|);
        assert f.blocks[c].phis[..|f.blocks[c].phis|] == f.blocks[c].phis;
        assert SubstPhis(big, f.blocks[c].phis)[..|f.blocks[c].phis|] == SubstPhis(big, f.blocks[c].phis);
        assert g.blocks[c] == KeptBlock(big, f.blocks[c]);
      }
    }
  }

  lemma StartSame<V, W>(m: Meaning<V, W>, f: Function, big: Replacements, s: State<V, W>)
    requires |f.blocks| > 0 && |f.targets| == |f.blocks|
    ensures SamePoint(m, f, big, At(0, s), At(0, s))
  {
    var path: seq<nat> := [0];
    assert Path(f, path) && path[|path| - 1] == 0;
  }

  lemma {:induction false} RunsSame<V(!new), W(!new)>(m: Meaning<V, W>, f: Function, s: State<V, W>, n: nat)
    requires Lawful(m) && Ssa(f) && |f.blocks| > 0
    ensures SamePoint(m, f, Replaced(f), RunFor(m, f, At(0, s), n), RunFor(m, Applied(Replaced(f), f), At(0, s), n))
  {
    hide SamePoint, Advance, Replaced, Applied, Lawful;
    if n == 0 {
      StartSame(m, f, Replaced(f), s);
    } else {
      RunsSame(m, f, s, n - 1);
      AdvanceSame(m, f, RunFor(m, f, At(0, s), n - 1), RunFor(m, Applied(Replaced(f), f), At(0, s), n - 1));
    }
  }

  /** A name whose value counts at a point: never replaced, or defined on every way there. */
  ghost predicate InScope<V, W>(f: Function, x: Name, p: Point<V, W>) {
    || x !in Replaced(f)
    || exists d, j :: DefinedAt(f, x, d, j) && (if p.At? then d != p.block && Dominates(f, d, p.block)
                                                else d == p.block || Dominates(f, d, p.block))
  }

  /** The pass preserves meaning. For every function in single assignment form whose lines
      follow what they use, every lawful meaning, every start and every number of blocks run,
      the rewritten function has reached the same block in the same world, or has stopped after
      it, and through the replacements every name in scope has the same value. */
  lemma MeaningPreserved<V(!new), W(!new)>(m: Meaning<V, W>, f: Function, s: State<V, W>, n: nat)
    requires Lawful(m) && Ssa(f) && |f.blocks| > 0
    ensures var (g, changed) := Rewritten(f);
            var p, q := RunFor(m, f, At(0, s), n), RunFor(m, g, At(0, s), n);
            && p.At? == q.At? && p.block == q.block && p.state.world == q.state.world
            && forall x: Name :: InScope(f, x, p) ==>
                 Eval(m, p.state.env, Local(x))
                   == Eval(m, q.state.env, if changed then Subst(Replaced(f), Local(x)) else Local(x))
  {
    hide Rewritten, Replaced, Applied, RunFor, Lawful, GoodReplacements;
    RewrittenIsApplied(f);
    RunsSame(m, f, s, n);
    var big := Replaced(f);
    if Rewritten(f).1 {
      var p, q := RunFor(m, f, At(0, s), n), RunFor(m, Applied(big, f), At(0, s), n);
      forall x: Name | InScope(f, x, p)
        ensures Eval(m, p.state.env, Local(x)) == Eval(m, q.state.env, Subst(big, Local(x)))
      {
        AgreeSubst(m, big, p.state.env, q.state.env, Local(x));
      }
    }
  }
}
