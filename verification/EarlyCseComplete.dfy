/** Nothing the reuse pass could find is left: no block of its output computes a value twice. */
module EarlyCseComplete {
  import opened Octets
  import opened EarlyCse
  import opened EarlyCseShape
  import opened EarlyCseOrder

  // ---------------------------------------------------------------- what would be left to find

  predicate Certain(i: Instr) {
    i.Assign? && !i.uncertain
  }

  /** A value of its operands alone. */
  predicate IsPure(rhs: Rhs) {
    match rhs
    case BitcastPtr(p) => p.Literal?
    case LoadScalar(_, _, _) => false
    case Commutative(_, _, _, _, _) => true
    case General(opcode, _, _) => opcode in PURE
  }

  predicate IsAlias(rhs: Rhs) {
    rhs.BitcastPtr? && !rhs.pointer.Literal?
  }

  predicate IsLoad(rhs: Rhs) {
    rhs.LoadScalar? && !rhs.pointer.Literal?
  }

  /** The line leaves memory as it is. */
  predicate Quiet(i: Instr) {
    Certain(i) && (IsPure(i.rhs) || IsAlias(i.rhs) || IsLoad(i.rhs))
  }

  /** No literal is written like a name. */
  predicate Proper(v: Value) {
    v.Literal? ==> v.text != "" && v.text[0] != '%' && v.text[0] != '@'
  }

  /** The same computation, up to the order of commuting operands. */
  predicate Same(a: Rhs, b: Rhs) {
    || a == b
    || (a.Commutative? && b == Commutative(a.op, a.flags, a.ty, a.right, a.left) && Proper(a.left) && Proper(a.right))
  }

  predicate QuietBetween(body: seq<Instr>, i: int, j: int) {
    forall m :: 0 <= m < |body| && i < m < j ==> Quiet(body[m])
  }

  /** The line has just given the value the load would give: it loads or stores it. */
  predicate Provides(i: Instr, load: Rhs)
    requires IsLoad(load)
  {
    || (Certain(i) && i.rhs == load)
    || (i.StoreScalar? && !i.uncertain && i.ty == load.ty && i.pointer == load.pointer)
  }

  predicate NoAlias(body: seq<Instr>) {
    forall j :: 0 <= j < |body| && Certain(body[j]) ==> !IsAlias(body[j].rhs)
  }

  predicate NoRepeat(body: seq<Instr>) {
    forall i, j :: 0 <= i < j < |body| && Certain(body[i]) && Certain(body[j]) && IsPure(body[i].rhs) ==>
      !Same(body[i].rhs, body[j].rhs)
  }

  predicate NoReload(body: seq<Instr>) {
    forall i, j :: 0 <= i < j < |body| && Certain(body[j]) && IsLoad(body[j].rhs) && QuietBetween(body, i, j) ==>
      !Provides(body[i], body[j].rhs)
  }

  /** No certain pointer cast, no certain pure computation twice, and no certain load of what a
      line before it has loaded or stored with nothing in between that may touch memory. */
  predicate Tight(body: seq<Instr>) {
    NoAlias(body) && NoRepeat(body) && NoReload(body)
  }

  // ---------------------------------------------------------------- keys

  lemma {:induction false} BeforeOrder(a: string, b: string)
    ensures Before(a, b) ==> !Before(b, a)
    ensures a != b ==> Before(a, b) || Before(b, a)
  {
    if a != "" && b != "" && a[0] == b[0] {
      assert a == [a[0]] + a[1..] && b == [b[0]] + b[1..];
      BeforeOrder(a[1..], b[1..]);
    }
  }

  lemma TextTells(v: Value, w: Value)
    requires Proper(v) && Proper(w) && Text(v) == Text(w)
    ensures v == w
  {
    assert v.Local? ==> Text(v)[0] == '%' && Text(v)[1..] == v.name;
    assert w.Local? ==> Text(w)[0] == '%' && Text(w)[1..] == w.name;
    assert v.Global? ==> Text(v)[0] == '@' && Text(v)[1..] == v.text;
    assert w.Global? ==> Text(w)[0] == '@' && Text(w)[1..] == w.text;
  }

  lemma SameKey(a: Rhs, b: Rhs)
    requires Same(a, b)
    ensures ExpressionKey(a) == ExpressionKey(b)
  {
    hide Before, Text;
    if a != b {
      BeforeOrder(Text(a.left), Text(a.right));
      if Text(a.left) == Text(a.right) {
        TextTells(a.left, a.right);
      }
    }
  }

  // ---------------------------------------------------------------- what the tables know

  /** A certain scalar store through a name. */
  predicate NamedStore(i: Instr) {
    i.StoreScalar? && !i.uncertain && !i.pointer.Literal?
  }

  /** The tables know every value the kept lines of the block so far have given. */
  predicate KnowsAll(done: seq<Instr>, t: Tables) {
    && (forall i :: 0 <= i < |done| && Certain(done[i]) && IsPure(done[i].rhs) ==>
          ExpressionKey(done[i].rhs) in t.expressions)
    && (forall i :: 0 <= i < |done| && QuietBetween(done, i, |done|) && Certain(done[i]) && IsLoad(done[i].rhs) ==>
          done[i].rhs in t.loads)
    && (forall i :: 0 <= i < |done| && QuietBetween(done, i, |done|) && NamedStore(done[i]) ==>
          (done[i].ty, done[i].pointer) in t.stores)
  }

  lemma QuietShorter(done: seq<Instr>, line: Instr, i: int)
    requires 0 <= i < |done|
    ensures QuietBetween(done + [line], i, |done| + 1) <==> QuietBetween(done, i, |done|) && Quiet(line)
    ensures forall j :: 0 <= j <= |done| ==> (QuietBetween(done + [line], i, j) <==> QuietBetween(done, i, j))
  {
    var more := done + [line];
    assert forall m :: 0 <= m < |done| ==> more[m] == done[m];
    assert more[|done|] == line;
    if QuietBetween(more, i, |done| + 1) {
      assert Quiet(more[|done|]);
      forall m | 0 <= m < |done| && i < m < |done| ensures Quiet(done[m]) {
        assert Quiet(more[m]);
      }
    }
    forall j | 0 <= j <= |done| ensures QuietBetween(more, i, j) <==> QuietBetween(done, i, j) {
      if QuietBetween(more, i, j) {
        forall m | 0 <= m < |done| && i < m < j ensures Quiet(done[m]) {
          assert Quiet(more[m]);
        }
      }
    }
  }

  /** A kept line is one the tables did not know. */
  lemma KeptTight(done: seq<Instr>, t: Tables, line: Instr)
    requires Tight(done) && KnowsAll(done, t) && Known(t, line) == None
    ensures Tight(done + [line])
  {
    hide ExpressionKey, Quiet, QuietBetween;
    var more := done + [line];
    forall i, j | 0 <= i < j < |more| && Certain(more[i]) && Certain(more[j]) && IsPure(more[i].rhs)
      ensures !Same(more[i].rhs, more[j].rhs)
    {
      if j < |done| {
        assert more[i] == done[i] && more[j] == done[j];
      } else if Same(more[i].rhs, line.rhs) {
        assert more[i] == done[i];
        SameKey(done[i].rhs, line.rhs);
        SamePure(done[i].rhs, line.rhs);
      }
    }
    forall i, j | 0 <= i < j < |more| && Certain(more[j]) && IsLoad(more[j].rhs) && QuietBetween(more, i, j)
      ensures !Provides(more[i], more[j].rhs)
    {
      QuietShorter(done, line, i);
      assert more[i] == done[i];
      if j < |done| {
        assert more[j] == done[j];
      }
    }
    assert NoAlias(more);
  }

  lemma SamePure(a: Rhs, b: Rhs)
    requires IsPure(a) && Same(a, b)
    ensures IsPure(b) && Reusable(b) && (b.BitcastPtr? ==> ExpressionKey(b) == b)
  {
  }

  lemma KeptKnown(done: seq<Instr>, t: Tables, line: Instr)
    requires KnowsAll(done, t) && Known(t, line) == None
    ensures KnowsAll(done + [line], Remember(t, line))
  {
    hide ExpressionKey, QuietBetween;
    var more, t1 := done + [line], Remember(t, line);
    RememberExpressions(t, line);
    assert more[|done|] == line;
    forall i | 0 <= i < |done|
      ensures more[i] == done[i]
      ensures QuietBetween(more, i, |more|) <==> QuietBetween(done, i, |done|) && Quiet(line)
    {
      QuietShorter(done, line, i);
    }
  }

  lemma RememberExpressions(t: Tables, line: Instr)
    ensures t.expressions.Keys <= Remember(t, line).expressions.Keys
  {
    hide ExpressionKey;
  }

  lemma SameKnowledge(done: seq<Instr>, t: Tables, t1: Tables)
    requires KnowsAll(done, t) && t1.expressions == t.expressions && t1.loads == t.loads && t1.stores == t.stores
    ensures KnowsAll(done, t1)
  {
  }

  lemma StepTight(done: seq<Instr>, t: Tables, original: Instr)
    requires Tight(done) && KnowsAll(done, t)
    ensures var (t1, kept) := StepLine(t, original); Tight(done + kept) && KnowsAll(done + kept, t1)
  {
    hide Tight, KnowsAll, Known, Remember, SubstInstr;
    var line := SubstInstr(t.replaced, original);
    if Known(t, line).None? {
      KeptTight(done, t, line);
      KeptKnown(done, t, line);
    } else {
      SameKnowledge(done, t, StepLine(t, original).0);
      assert done + [] == done;
    }
  }

  /** Scanning on from known tables keeps the block tight. */
  lemma {:induction false} ScanTight(done: seq<Instr>, t: Tables, body: seq<Instr>)
    requires Tight(done) && KnowsAll(done, t)
    ensures Tight(done + ScanBody(t, body).1)
    decreases |body|
  {
    hide Tight, KnowsAll, StepLine;
    if body == [] {
      assert done + [] == done;
    } else {
      var (t1, kept) := StepLine(t, body[0]);
      var rest := ScanBody(t1, body[1..]).1;
      StepTight(done, t, body[0]);
      ScanTight(done + kept, t1, body[1..]);
      assert done + (kept + rest) == done + kept + rest;
    }
  }

  lemma BlockTight(r: Replacements, b: Block)
    ensures Tight(ScanBlock(r, b).1.body)
  {
    hide ScanBody;
    ScanTight([], FreshTables(r), b.body);
    assert [] + ScanBody(FreshTables(r), b.body).1 == ScanBody(FreshTables(r), b.body).1;
  }

  lemma {:induction false} BlocksTight(r: Replacements, blocks: seq<Block>, b: nat)
    requires b < |blocks|
    ensures |ScanBlocks(r, blocks).1| == |blocks| && Tight(ScanBlocks(r, blocks).1[b].body)
    decreases |blocks|
  {
    hide ScanBlock, Tight;
    ScannedLength(r, blocks);
    BlockTight(r, blocks[0]);
    if b > 0 {
      BlocksTight(ScanBlock(r, blocks[0]).0, blocks[1..], b - 1);
    }
  }

  lemma {:induction false} ScannedLength(r: Replacements, blocks: seq<Block>)
    ensures |ScanBlocks(r, blocks).1| == |blocks|
    decreases |blocks|
  {
    hide ScanBlock;
    if blocks != [] {
      ScannedLength(ScanBlock(r, blocks[0]).0, blocks[1..]);
    }
  }

  // ---------------------------------------------------------------- the whole pass

  /** Whatever the order of its lines, the text a function's scan leaves, to which the pass then
      applies its replacements once more, is tight. */
  lemma ScanLeavesTight(f: Function, b: nat)
    requires Unique(f) && b < |f.blocks|
    ensures Tight(SeenBlock(f, Replaced(f), b).body)
  {
    hide ScanBlock, SeenBlocks, Unique, Tight, Grows, SeenBlock;
    NoKeys(f);
    assert f.blocks[0..] == f.blocks;
    BlocksKeys(f, map[], 0);
    ScanBlocksSeen(f, map[], Replaced(f), 0);
    assert SeenBlocks(f, Replaced(f))[0..] == SeenBlocks(f, Replaced(f));
    BlocksTight(map[], f.blocks, b);
  }

  lemma NoKeys(f: Function)
    ensures KeysBefore(f, map[], 0, 1)
  {
  }

  lemma SubstNothing(r: Replacements, l: Instr)
    requires forall n :: 0 <= n < |Operands(l)| ==> Subst(r, Operands(l)[n]) == Operands(l)[n]
    ensures SubstInstr(r, l) == l
  {
    hide Subst;
    var vs := Operands(l);
    match l
    case Assign(_, rhs, _) =>
      match rhs {
        case BitcastPtr(p) => assert vs[0] == p;
        case LoadScalar(_, p, _) => assert vs[0] == p;
        case Commutative(_, _, _, a, c) => assert vs[0] == a && vs[1] == c;
        case General(_, _, args) => assert SubstAll(r, args) == args;
      }
    case StoreScalar(_, v, p, _, _) => assert vs[0] == v && vs[1] == p;
    case Effect(_, args) => assert SubstAll(r, args) == args;
  }

  /** A line of the block names, at the end of its scan, a name that is replaced in the end: it uses
      that name ahead of its definition in the text. */
  ghost predicate NamesReplaced(f: Function, b: nat)
    requires b < |f.blocks|
  {
    exists l, v :: l in SeenBody(f, Replaced(f), b, 0) && v in Operands(l) && v.Local? && v.name in Replaced(f)
  }

  /** No name of the function is a number. */
  ghost predicate Named(f: Function) {
    forall x :: Defined(f, x) ==> x == "" || exists i :: 0 <= i < |x| && !('0' <= x[i] <= '9')
  }

  lemma NamedUsesNone(f: Function)
    requires Named(f)
    ensures !UsesNumbers(f)
  {
    if UsesNumbers(f) {
      var b :| 0 <= b < |f.blocks| && BlockUsesNumbers(f.blocks[b]);
      if i :| 0 <= i < |f.blocks[b].phis| && Numbered(f.blocks[b].phis[i].result) {
        assert DefinedAt(f, f.blocks[b].phis[i].result, b, 0);
        DefinedAtSome(f, f.blocks[b].phis[i].result, b, 0);
      } else {
        var i :| 0 <= i < |f.blocks[b].body| && NumberedResult(f.blocks[b].body[i]);
        assert DefinedAt(f, f.blocks[b].body[i].result, b, i + 1);
        DefinedAtSome(f, f.blocks[b].body[i].result, b, i + 1);
      }
    }
  }

  /** No function with single definitions has a block with anything left to find, unless a line of the
      block uses a replaced name ahead of its definition. */
  lemma NothingLeftBehind(f: Function, b: nat)
    requires Unique(f) && Named(f) && b < |f.blocks| && !NamesReplaced(f, b)
    ensures |Rewritten(f).0.blocks| == |f.blocks| && Tight(Rewritten(f).0.blocks[b].body)
  {
    hide Rewritten, Replaced, Tight, Unique, Named, SeenBody, KeysBefore;
    NamedUsesNone(f);
    PassIs(f);
    ScanLeavesTight(f, b);
    var big, seen := Replaced(f), SeenBody(f, Replaced(f), b, 0);
    if Rewritten(f).1 {
      OutputBlock(f, b);
      forall i | 0 <= i < |seen| ensures SubstInstr(big, seen[i]) == seen[i] {
        assert seen[i] in seen;
        SubstNothing(big, seen[i]);
      }
      assert SubstBody(big, seen) == seen;
    } else {
      SeenEverything(f, b, 0);
    }
  }

  /** If nothing is replaced the scan leaves every line as it is. */
  lemma {:induction false} SeenEverything(f: Function, b: nat, k: nat)
    requires b < |f.blocks| && k <= |f.blocks[b].body|
    ensures SeenBody(f, map[], b, k) == f.blocks[b].body[k..]
    decreases |f.blocks[b].body| - k
  {
    hide SubstInstr;
    if k < |f.blocks[b].body| {
      assert Made(f, map[], b, k + 1) == map[];
      SubstNothing(map[], f.blocks[b].body[k]);
      SeenEverything(f, b, k + 1);
    }
  }

  lemma FollowingNamesNone(f: Function, b: nat)
    requires Ssa(f) && b < |f.blocks|
    ensures !NamesReplaced(f, b)
  {
    hide Rewritten, Replaced, Available, SubstInstr, Ssa, SeenBody, Made;
    RewrittenIsApplied(f);
    UniqueOf(f);
    PassIs(f);
    var big := Replaced(f);
    forall l, v | l in SeenBody(f, big, b, 0) && v in Operands(l) && v.Local? ensures v.name !in big {
      SeenLine(f, big, b, 0, l);
      var k :| 0 <= k < |f.blocks[b].body| && l == SubstInstr(Made(f, big, b, k + 1), f.blocks[b].body[k]);
      var vs := Operands(f.blocks[b].body[k]);
      SubstOperands(Made(f, big, b, k + 1), f.blocks[b].body[k]);
      var n :| 0 <= n < |vs| && v == Subst(Made(f, big, b, k + 1), vs[n]);
      OperandSettled(f, b, k, n);
    }
  }

  lemma SubstOperands(r: Replacements, i: Instr)
    ensures Operands(SubstInstr(r, i)) == SubstAll(r, Operands(i))
  {
  }

  lemma OperandSettled(f: Function, b: nat, k: nat, n: nat)
    requires Ssa(f) && b < |f.blocks| && k < |f.blocks[b].body| && n < |Operands(f.blocks[b].body[k])|
    requires Rooted(Replaced(f)) && KeysBefore(f, Replaced(f), |f.blocks|, 1)
    ensures var v := Subst(Made(f, Replaced(f), b, k + 1), Operands(f.blocks[b].body[k])[n]);
            v.Local? ==> v.name !in Replaced(f)
  {
    hide Replaced, Dominates;
    var u := Operands(f.blocks[b].body[k])[n];
    assert Available(f, u, b, k + 1);
    if u.Local? && u.name in Replaced(f) {
      assert LineBefore(f, u.name, |f.blocks|, 1);
      var e, i :| DefinedAt(f, u.name, e, i) && 0 < i;
      DefinedAtSome(f, u.name, e, i);
      var d, j :| DefinedAt(f, u.name, d, j) && Precedes(f, d, j, b, k + 1);
      assert d == e && j == i && Earlier(d, j, b, k + 1);
      assert LineBefore(f, u.name, b, k + 1);
    }
  }

  /** For every function in single assignment form whose uses follow their definitions and whose
      names are no numbers, no block of the output has a certain pointer cast, a certain pure
      computation it has done before, or a certain load of a value it has at hand. */
  lemma NothingLeft(f: Function, b: nat)
    requires Ssa(f) && Named(f) && b < |f.blocks|
    ensures |Rewritten(f).0.blocks| == |f.blocks| && Tight(Rewritten(f).0.blocks[b].body)
  {
    hide Rewritten, Ssa, Named, Tight, NamesReplaced;
    UniqueOf(f);
    FollowingNamesNone(f, b);
    NothingLeftBehind(f, b);
  }

  /** So the pass reports a change whenever a block of the input is not tight. */
  lemma ChangesWhatRepeats(f: Function, b: nat)
    requires Ssa(f) && Named(f) && b < |f.blocks| && !Tight(f.blocks[b].body)
    ensures Rewritten(f).1 && Rewritten(f).0 != f
  {
    hide ScanBlocks, Tight, Ssa, Named;
    NothingLeft(f, b);
    RewrittenIsApplied(f);
  }

  // ---------------------------------------------------------------- a use ahead of its definition

  const AHEAD := Assign("a", General("getelementptr", "i8", [Local("z")]), false)
  const BEHIND := Assign("b", General("getelementptr", "i8", [Local("x")]), false)
  const CAST := Assign("z", BitcastPtr(Local("x")), false)

  /** Control runs 0, 2, 1, so every use is dominated by its definition, but `z` is used ahead of
      its definition in the text. */
  const CAST_LATE := Function([Block([], []), Block([], [AHEAD, BEHIND]), Block([], [CAST])], [{2}, {}, {1}])

  lemma AheadScanned()
    ensures ScanBlock(map[], Block([], [AHEAD, BEHIND])) == (map[], Block([], [AHEAD, BEHIND]))
  {
    var none: Replacements := map[];
    var t0, body := FreshTables(none), [AHEAD, BEHIND];
    SubstNothing(none, AHEAD);
    SubstNothing(none, BEHIND);
    assert AHEAD.rhs.args[0] != BEHIND.rhs.args[0];
    var t1 := t0.(expressions := map[AHEAD.rhs := Local("a")]);
    assert StepLine(t0, AHEAD) == (t1, [AHEAD]);
    assert StepLine(t1, BEHIND).1 == [BEHIND] && StepLine(t1, BEHIND).0.replaced == none;
    assert body[1..] == [BEHIND] && SubstPhis(none, []) == [];
    OneLine(t1, BEHIND);
    assert ScanBody(t0, body).1 == [AHEAD] + [BEHIND] == body;
    assert ScanBody(t0, body).0.replaced == none;
  }

  lemma CastScanned()
    ensures ScanBlock(map[], Block([], [])) == (map[], Block([], []))
    ensures ScanBlock(map[], Block([], [CAST])) == (map["z" := Local("x")], Block([], []))
  {
    SubstNothing(map[], CAST);
    assert SubstPhis(map[], []) == [];
    OneLine(FreshTables(map[]), CAST);
    assert ScanBody(FreshTables(map[]), []) == (FreshTables(map[]), []);
  }

  lemma CastLateScanned()
    ensures Replaced(CAST_LATE) == map["z" := Local("x")]
    ensures ScanBlocks(map[], CAST_LATE.blocks).1 == [Block([], []), Block([], [AHEAD, BEHIND]), Block([], [])]
  {
    hide ScanBlock;
    var none: Replacements, r: Replacements := map[], map["z" := Local("x")];
    var bs := CAST_LATE.blocks;
    AheadScanned();
    CastScanned();
    assert bs[3..] == [] && ScanBlocks(r, bs[3..]) == (r, []);
    OneMoreBlock(none, bs, 2);
    assert ScanBlocks(none, bs[2..]).0 == r;
    assert ScanBlocks(none, bs[2..]).1 == [Block([], [])];
    OneMoreBlock(none, bs, 1);
    assert ScanBlocks(none, bs[1..]).0 == r;
    assert ScanBlocks(none, bs[1..]).1 == [Block([], [AHEAD, BEHIND]), Block([], [])];
    OneMoreBlock(none, bs, 0);
    assert ScanBlocks(none, bs[0..]).0 == r;
    assert ScanBlocks(none, bs[0..]).1 == [Block([], [])] + ScanBlocks(none, bs[1..]).1;
    assert bs[0..] == bs;
  }

  lemma CastLateNames()
    ensures Unique(CAST_LATE) && Named(CAST_LATE)
  {
    assert !('0' <= "a"[0] <= '9') && !('0' <= "b"[0] <= '9') && !('0' <= "z"[0] <= '9');
  }

  lemma EqualRepeats(body: seq<Instr>)
    requires |body| == 2 && Certain(body[0]) && Certain(body[1]) && IsPure(body[0].rhs) && body[0].rhs == body[1].rhs
    ensures !Tight(body)
  {
    assert Same(body[0].rhs, body[1].rhs);
  }

  lemma MadeEqual()
    ensures !Tight(SubstBody(map["z" := Local("x")], [AHEAD, BEHIND]))
  {
    hide Tight;
    var big: Replacements := map["z" := Local("x")];
    assert SubstAll(big, [Local("z")]) == [Local("x")] && SubstAll(big, [Local("x")]) == [Local("x")];
    EqualRepeats(SubstBody(big, [AHEAD, BEHIND]));
  }

  /** The scan keeps the two computations apart; the one substitution at the end makes them equal. */
  lemma LateCastRepeats()
    ensures Unique(CAST_LATE) && Named(CAST_LATE)
    ensures |Rewritten(CAST_LATE).0.blocks| == 3 && !Tight(Rewritten(CAST_LATE).0.blocks[1].body)
  {
    hide ScanBlocks, SubstBody, Tight, Unique, Named;
    CastLateNames();
    NamedUsesNone(CAST_LATE);
    CastLateScanned();
    var big: Replacements := map["z" := Local("x")];
    assert "z" in big;
    var out := [Block([], []), Block([], [AHEAD, BEHIND]), Block([], [])];
    assert Rewritten(CAST_LATE).0.blocks == SubstBlocks(big, out);
    MadeEqual();
  }

  // ---------------------------------------------------------------- two equal additions

  /** `%a = add i64 %x, %y`, `%b = add i64 %y, %x`, `ret %b`. */
  function Sum(result: Name, left: Name, right: Name): Instr {
    Assign(result, Commutative("add", "", "i64", Local(left), Local(right)), false)
  }

  function Returned(name: Name): Instr {
    Effect("ret i64", [Local(name)])
  }

  function TwoSums(): Function {
    Function([Block([], [Sum("a", "x", "y"), Sum("b", "y", "x"), Returned("b")])], [{}])
  }

  lemma SumsScanned()
    ensures var (t, lines) := ScanBody(FreshTables(map[]), TwoSums().blocks[0].body);
            t.replaced == map["b" := Local("a")] && lines == [Sum("a", "x", "y"), Returned("a")]
  {
    var first, second, ret := Sum("a", "x", "y"), Sum("b", "y", "x"), Returned("b");
    var t0 := FreshTables(map[]);
    assert Text(Local("x")) == "%x" && Text(Local("y")) == "%y";
    assert "%x"[1..] == "x" && "%y"[1..] == "y" && Before("x", "y") && !Before("y", "x");
    assert ExpressionKey(first.rhs) == first.rhs && ExpressionKey(second.rhs) == first.rhs;
    var t1 := t0.(expressions := map[first.rhs := Local("a")]);
    assert StepLine(t0, first) == (t1, [first]);
    var t2 := t1.(replaced := map["b" := Local("a")]);
    assert StepLine(t1, second) == (t2, []);
    assert SubstInstr(t2.replaced, ret) == Returned("a");
    assert StepLine(t2, ret) == (Clobbered(t2, Returned("a")), [Returned("a")]);
    var body := TwoSums().blocks[0].body;
    assert body[1..] == [second, ret] && body[1..][1..] == [ret] && body[1..][1..][1..] == [];
  }

  lemma OneBlock(b: Block)
    ensures ScanBlocks(map[], [b]) == (ScanBlock(map[], b).0, [ScanBlock(map[], b).1])
  {
    hide ScanBlock;
    var r := ScanBlock(map[], b).0;
    assert [b][1..] == [];
    assert ScanBlocks(r, []) == (r, []);
    assert [ScanBlock(map[], b).1] + [] == [ScanBlock(map[], b).1];
  }

  /** The second addition goes, its use becomes one of the first, and the change is reported. */
  lemma SecondSumGoes()
    ensures Rewritten(TwoSums()) ==
            (Function([Block([], [Sum("a", "x", "y"), Returned("a")])], [{}]), true)
  {
    hide ScanBody, ExpressionKey;
    SumsScanned();
    var f, r := TwoSums(), map["b" := Local("a")];
    var lines := [Sum("a", "x", "y"), Returned("a")];
    assert SubstPhis(map[], []) == [];
    assert ScanBlock(map[], f.blocks[0]) == (r, Block([], lines));
    OneBlock(f.blocks[0]);
    assert SubstInstr(r, lines[0]) == lines[0] && SubstInstr(r, lines[1]) == lines[1];
    assert SubstBody(r, lines) == lines && SubstPhis(r, []) == [];
    assert "b" in r && SubstBlocks(r, [Block([], lines)]) == [Block([], lines)];
    assert !UsesNumbers(f) by {
      assert !('0' <= "a"[0] <= '9') && !('0' <= "b"[0] <= '9');
    }
  }
}
