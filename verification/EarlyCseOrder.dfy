/** What the reuse pass does to every function whose names are defined once, whatever the order
    of its lines, and exactly when that leaves a use of a definition it has dropped. */
module EarlyCseOrder {
  import opened Octets
  import opened EarlyCse
  import opened EarlyCseShape

  // ---------------------------------------------------------------- which replacements are made where

  /** A line of the text before (`b`, `i`) defines `x`. */
  ghost predicate LineBefore(f: Function, x: Name, b: nat, i: nat) {
    exists d, j :: DefinedAt(f, x, d, j) && 0 < j && Earlier(d, j, b, i)
  }

  ghost predicate KeysBefore(f: Function, r: Replacements, b: nat, i: nat) {
    forall x <- r :: LineBefore(f, x, b, i)
  }

  /** The replacements of the whole pass that are made before (`b`, `i`). */
  ghost function Made(f: Function, big: Replacements, b: nat, i: nat): Replacements {
    map x <- big | LineBefore(f, x, b, i) :: big[x]
  }

  lemma MadeIs(f: Function, r: Replacements, big: Replacements, b: nat, i: nat)
    requires Unique(f) && KeysBefore(f, r, b, i) && Grows(f, r, big, b, i)
    ensures r == Made(f, big, b, i)
  {
    forall x <- big | LineBefore(f, x, b, i) ensures x in r {
      var e, n :| DefinedAt(f, x, e, n) && 0 < n && Earlier(e, n, b, i);
    }
    assert Made(f, big, b, i).Keys == r.Keys;
  }

  lemma KeysLater(f: Function, r: Replacements, b: nat, i: nat, c: nat, n: nat)
    requires KeysBefore(f, r, b, i) && (b < c || (b == c && i <= n))
    ensures KeysBefore(f, r, c, n)
  {
    forall x <- r ensures LineBefore(f, x, c, n) {
      var d, j :| DefinedAt(f, x, d, j) && 0 < j && Earlier(d, j, b, i);
      EarlierLater(d, j, b, i, c, n);
    }
  }

  lemma NotMadeYet(f: Function, r: Replacements, b: nat, k: nat)
    requires Unique(f) && b < |f.blocks| && k < |f.blocks[b].body| && KeysBefore(f, r, b, k + 1)
    ensures f.blocks[b].body[k].Assign? ==> f.blocks[b].body[k].result !in r
  {
    var line := f.blocks[b].body[k];
    if line.Assign? {
      assert DefinedAt(f, line.result, b, k + 1);
    }
  }

  lemma StepKeys(f: Function, t: Tables, b: nat, k: nat)
    requires Unique(f) && b < |f.blocks| && k < |f.blocks[b].body| && KeysBefore(f, t.replaced, b, k + 1)
    ensures var r1 := StepLine(t, f.blocks[b].body[k]).0.replaced;
            KeysBefore(f, r1, b, k + 2) && Grows(f, t.replaced, r1, b, k + 1)
  {
    hide Known, Remember, SubstInstr, LineBefore;
    var line := f.blocks[b].body[k];
    var l := SubstInstr(t.replaced, line);
    NotMadeYet(f, t.replaced, b, k);
    ResultSame(t.replaced, line);
    KnownAssigns(t, l);
    RememberKeeps(t, l);
    KeysLater(f, t.replaced, b, k + 1, b, k + 2);
    if line.Assign? {
      LineDefines(f, b, k);
      assert DefinedAt(f, line.result, b, k + 1) && !Earlier(b, k + 1, b, k + 1);
    }
  }

  lemma LineDefines(f: Function, b: nat, k: nat)
    requires b < |f.blocks| && k < |f.blocks[b].body| && f.blocks[b].body[k].Assign?
    ensures LineBefore(f, f.blocks[b].body[k].result, b, k + 2)
  {
    assert DefinedAt(f, f.blocks[b].body[k].result, b, k + 1) && Earlier(b, k + 1, b, k + 2);
  }

  lemma {:induction false} BodyKeys(f: Function, t: Tables, b: nat, k: nat)
    requires Unique(f) && b < |f.blocks| && k <= |f.blocks[b].body| && KeysBefore(f, t.replaced, b, k + 1)
    ensures var r2 := ScanBody(t, f.blocks[b].body[k..]).0.replaced;
            KeysBefore(f, r2, b, |f.blocks[b].body| + 1) && Grows(f, t.replaced, r2, b, k + 1)
    decreases |f.blocks[b].body| - k
  {
    hide KeysBefore, Grows, StepLine, Unique;
    var body := f.blocks[b].body;
    if k == |body| {
      GrowsNot(f, t.replaced, b, k + 1);
    } else {
      assert body[k..][0] == body[k] && body[k..][1..] == body[k + 1..];
      StepKeys(f, t, b, k);
      var t1 := StepLine(t, body[k]).0;
      BodyKeys(f, t1, b, k + 1);
      GrowsTwice(f, t.replaced, t1.replaced, ScanBody(t1, body[k + 1..]).0.replaced, b, k + 1, b, k + 2);
    }
  }

  lemma BlockKeys(f: Function, r: Replacements, b: nat)
    requires Unique(f) && b < |f.blocks| && KeysBefore(f, r, b, 1)
    ensures var r1 := ScanBlock(r, f.blocks[b]).0;
            KeysBefore(f, r1, b, |f.blocks[b].body| + 1) && KeysBefore(f, r1, b + 1, 1) && Grows(f, r, r1, b, 1)
  {
    hide KeysBefore, Grows, ScanBody, Unique;
    assert f.blocks[b].body[0..] == f.blocks[b].body;
    BodyKeys(f, FreshTables(r), b, 0);
    KeysLater(f, ScanBlock(r, f.blocks[b]).0, b, |f.blocks[b].body| + 1, b + 1, 1);
  }

  lemma {:induction false} BlocksKeys(f: Function, r: Replacements, b: nat)
    requires Unique(f) && b <= |f.blocks| && KeysBefore(f, r, b, 1)
    ensures var big := ScanBlocks(r, f.blocks[b..]).0;
            KeysBefore(f, big, |f.blocks|, 1) && Grows(f, r, big, b, 1)
    decreases |f.blocks| - b
  {
    hide KeysBefore, Grows, ScanBlock, Unique;
    if b == |f.blocks| {
      GrowsNot(f, r, b, 1);
    } else {
      assert f.blocks[b..][0] == f.blocks[b] && f.blocks[b..][1..] == f.blocks[b + 1..];
      BlockKeys(f, r, b);
      var r1 := ScanBlock(r, f.blocks[b]).0;
      BlocksKeys(f, r1, b + 1);
      GrowsTwice(f, r, r1, ScanBlocks(r1, f.blocks[b + 1..]).0, b, 1, b + 1, 1);
    }
  }

  // ---------------------------------------------------------------- the closed form

  predicate Drops(r: Replacements, line: Instr) {
    line.Assign? && line.result in r
  }

  /** The kept lines from `k` on, each with the replacements made before it. */
  ghost function SeenBody(f: Function, big: Replacements, b: nat, k: nat): seq<Instr>
    requires b < |f.blocks| && k <= |f.blocks[b].body|
    decreases |f.blocks[b].body| - k
  {
    if k == |f.blocks[b].body| then []
    else
      var line := f.blocks[b].body[k];
      (if Drops(big, line) then [] else [SubstInstr(Made(f, big, b, k + 1), line)]) + SeenBody(f, big, b, k + 1)
  }

  ghost function SeenBlock(f: Function, big: Replacements, b: nat): Block
    requires b < |f.blocks|
  {
    Block(SubstPhis(Made(f, big, b, 1), f.blocks[b].phis), SeenBody(f, big, b, 0))
  }

  ghost function SeenBlocks(f: Function, big: Replacements): (out: seq<Block>)
    ensures |out| == |f.blocks| && forall b :: 0 <= b < |f.blocks| ==> out[b] == SeenBlock(f, big, b)
  {
    seq(|f.blocks|, b requires 0 <= b < |f.blocks| => SeenBlock(f, big, b))
  }

  lemma FirstSeen(f: Function, t: Tables, big: Replacements, b: nat, k: nat)
    requires Unique(f) && b < |f.blocks| && k < |f.blocks[b].body| && KeysBefore(f, t.replaced, b, k + 1)
    requires Grows(f, StepLine(t, f.blocks[b].body[k]).0.replaced, big, b, k + 2)
    ensures var line := f.blocks[b].body[k];
            StepLine(t, line).1 == if Drops(big, line) then [] else [SubstInstr(Made(f, big, b, k + 1), line)]
  {
    hide Known, Remember, SubstInstr, LineBefore;
    var line := f.blocks[b].body[k];
    var l := SubstInstr(t.replaced, line);
    StepKeys(f, t, b, k);
    GrowsTwice(f, t.replaced, StepLine(t, line).0.replaced, big, b, k + 1, b, k + 2);
    MadeIs(f, t.replaced, big, b, k + 1);
    NotMadeYet(f, t.replaced, b, k);
    ResultSame(t.replaced, line);
    KnownAssigns(t, l);
    RememberKeeps(t, l);
    if Known(t, l).None? && line.Assign? {
      assert DefinedAt(f, line.result, b, k + 1) && Earlier(b, k + 1, b, k + 2);
      KeptForGood(f, t.replaced, big, line.result, b, k + 1, b, k + 2);
    }
  }

  lemma {:induction false} ScanBodySeen(f: Function, t: Tables, big: Replacements, b: nat, k: nat)
    requires Unique(f) && b < |f.blocks| && k <= |f.blocks[b].body| && KeysBefore(f, t.replaced, b, k + 1)
    requires Grows(f, ScanBody(t, f.blocks[b].body[k..]).0.replaced, big, b, |f.blocks[b].body| + 1)
    ensures ScanBody(t, f.blocks[b].body[k..]).1 == SeenBody(f, big, b, k)
    decreases |f.blocks[b].body| - k
  {
    hide KeysBefore, Grows, StepLine, Unique, Made, SubstInstr;
    var body := f.blocks[b].body;
    if k < |body| {
      assert body[k..][0] == body[k] && body[k..][1..] == body[k + 1..];
      StepKeys(f, t, b, k);
      var t1 := StepLine(t, body[k]).0;
      ScanBodySeen(f, t1, big, b, k + 1);
      BodyKeys(f, t1, b, k + 1);
      GrowsTwice(f, t1.replaced, ScanBody(t1, body[k + 1..]).0.replaced, big, b, k + 2, b, |body| + 1);
      FirstSeen(f, t, big, b, k);
    }
  }

  lemma ScanBlockSeen(f: Function, r: Replacements, big: Replacements, b: nat)
    requires Unique(f) && b < |f.blocks| && KeysBefore(f, r, b, 1)
    requires Grows(f, ScanBlock(r, f.blocks[b]).0, big, b + 1, 1)
    ensures ScanBlock(r, f.blocks[b]).1 == SeenBlock(f, big, b)
  {
    hide KeysBefore, Grows, ScanBody, Unique, Made, SubstPhis, SeenBody;
    var body := f.blocks[b].body;
    assert body[0..] == body;
    var r1 := ScanBlock(r, f.blocks[b]).0;
    BlockKeys(f, r, b);
    GrowsTwice(f, r, r1, big, b, 1, b + 1, 1);
    GrowsEarlier(f, r1, big, b + 1, 1, b, |body| + 1);
    MadeIs(f, r, big, b, 1);
    ScanBodySeen(f, FreshTables(r), big, b, 0);
  }

  lemma {:induction false} ScanBlocksSeen(f: Function, r: Replacements, big: Replacements, b: nat)
    requires Unique(f) && b <= |f.blocks| && KeysBefore(f, r, b, 1) && big == ScanBlocks(r, f.blocks[b..]).0
    ensures ScanBlocks(r, f.blocks[b..]).1 == SeenBlocks(f, big)[b..]
    decreases |f.blocks| - b
  {
    hide KeysBefore, Grows, ScanBlock, SeenBlock, Unique;
    if b < |f.blocks| {
      assert f.blocks[b..][0] == f.blocks[b] && f.blocks[b..][1..] == f.blocks[b + 1..];
      BlockKeys(f, r, b);
      var r1 := ScanBlock(r, f.blocks[b]).0;
      ScanBlocksSeen(f, r1, big, b + 1);
      BlocksKeys(f, r1, b + 1);
      ScanBlockSeen(f, r, big, b);
      assert SeenBlocks(f, big)[b..] == [SeenBlock(f, big, b)] + SeenBlocks(f, big)[b + 1..];
    }
  }

  /** The pass, for every function whose names are defined once: each kept line gets the
      replacements made before it in the text, and then all of them once more. */
  lemma PassIs(f: Function)
    requires Unique(f)
    ensures KeysBefore(f, Replaced(f), |f.blocks|, 1)
    ensures Rewritten(f).0 ==
            if Rewritten(f).1 then f.(blocks := SubstBlocks(Replaced(f), SeenBlocks(f, Replaced(f)))) else f
    ensures Rewritten(f).1 <==> !UsesNumbers(f) && Replaced(f) != map[]
  {
    hide ScanBlock, SubstBlocks, SeenBlocks, Unique;
    assert f.blocks[0..] == f.blocks;
    BlocksKeys(f, map[], 0);
    ScanBlocksSeen(f, map[], Replaced(f), 0);
    assert SeenBlocks(f, Replaced(f))[0..] == SeenBlocks(f, Replaced(f));
  }

  // ---------------------------------------------------------------- uses of dropped definitions

  ghost predicate UsedInBody(body: seq<Instr>, x: Name) {
    exists i :: i in body && Local(x) in Operands(i)
  }

  ghost predicate UsedInPhis(phis: seq<Phi>, x: Name) {
    exists p, e :: p in phis && e in p.incoming && p.incoming[e] == Local(x)
  }

  ghost predicate UsedIn(f: Function, x: Name) {
    exists b :: 0 <= b < |f.blocks| && (UsedInBody(f.blocks[b].body, x) || UsedInPhis(f.blocks[b].phis, x))
  }

  /** `g` uses a name that `f` defines and `g` does not. */
  ghost predicate Dangles(f: Function, g: Function) {
    exists x: Name :: UsedIn(g, x) && Defined(f, x) && !Defined(g, x)
  }

  /** What a value written at (`b`, `i`) has become when the whole text has been scanned is
      replaced, and by a name that is itself replaced. */
  ghost predicate Stale(f: Function, big: Replacements, v: Value, b: nat, i: nat) {
    var w := Subst(Made(f, big, b, i), v);
    w.Local? && w.name in big && big[w.name].Local? && big[w.name].name in big
  }

  ghost predicate StaleLine(f: Function, big: Replacements, b: nat, k: nat, v: Value)
    requires b < |f.blocks| && k < |f.blocks[b].body|
  {
    !Drops(big, f.blocks[b].body[k]) && v in Operands(f.blocks[b].body[k]) && Stale(f, big, v, b, k + 1)
  }

  ghost predicate StalePhi(f: Function, big: Replacements, b: nat, p: Phi, e: nat)
    requires b < |f.blocks|
  {
    p in f.blocks[b].phis && e in p.incoming && Stale(f, big, p.incoming[e], b, 1)
  }

  /** Some kept line or phi names a stale value. */
  ghost predicate StaleUse(f: Function, big: Replacements) {
    || (exists b, k, v :: 0 <= b < |f.blocks| && 0 <= k < |f.blocks[b].body| && StaleLine(f, big, b, k, v))
    || (exists b, p, e :: 0 <= b < |f.blocks| && StalePhi(f, big, b, p, e))
  }

  lemma StaleIs(f: Function, big: Replacements, v: Value, b: nat, i: nat, x: Name)
    requires x in big && Subst(big, Subst(Made(f, big, b, i), v)) == Local(x)
    ensures Stale(f, big, v, b, i)
  {
  }

  lemma {:induction false} SeenLine(f: Function, big: Replacements, b: nat, k: nat, i: Instr)
    requires b < |f.blocks| && k <= |f.blocks[b].body|
    ensures i in SeenBody(f, big, b, k) <==>
            exists n :: k <= n < |f.blocks[b].body| && !Drops(big, f.blocks[b].body[n])
                        && i == SubstInstr(Made(f, big, b, n + 1), f.blocks[b].body[n])
    decreases |f.blocks[b].body| - k
  {
    hide Made, SubstInstr, Drops;
    if k < |f.blocks[b].body| {
      SeenLine(f, big, b, k + 1, i);
    }
  }

  lemma SubstitutedLine(r: Replacements, body: seq<Instr>, j: Instr)
    ensures j in SubstBody(r, body) <==> exists i :: i in body && j == SubstInstr(r, i)
  {
    hide SubstInstr;
    if j in SubstBody(r, body) {
      var n :| 0 <= n < |body| && SubstBody(r, body)[n] == j;
      assert body[n] in body && j == SubstInstr(r, body[n]);
    }
    if i :| i in body && j == SubstInstr(r, i) {
      var n :| 0 <= n < |body| && body[n] == i;
      assert SubstBody(r, body)[n] == j;
    }
  }

  /** A kept line of the output comes from a kept line of the input, and the other way round. */
  lemma OutputLine(f: Function, big: Replacements, b: nat, j: Instr)
    requires b < |f.blocks|
    ensures j in SubstBody(big, SeenBody(f, big, b, 0)) <==>
            exists n :: 0 <= n < |f.blocks[b].body| && !Drops(big, f.blocks[b].body[n])
                        && j == SubstInstr(big, SubstInstr(Made(f, big, b, n + 1), f.blocks[b].body[n]))
  {
    hide Made, SubstInstr, Drops, SubstBody, SeenBody;
    SubstitutedLine(big, SeenBody(f, big, b, 0), j);
    forall i ensures i in SeenBody(f, big, b, 0) <==>
            exists n :: 0 <= n < |f.blocks[b].body| && !Drops(big, f.blocks[b].body[n])
                        && i == SubstInstr(Made(f, big, b, n + 1), f.blocks[b].body[n])
    {
      SeenLine(f, big, b, 0, i);
    }
  }

  lemma OperandTwice(r: Replacements, s: Replacements, i: Instr, u: Value)
    ensures u in Operands(SubstInstr(s, SubstInstr(r, i))) <==>
              exists v :: v in Operands(i) && u == Subst(s, Subst(r, v))
  {
    hide SubstInstr, Subst;
    var us := Operands(SubstInstr(s, SubstInstr(r, i)));
    assert us == SubstAll(s, SubstAll(r, Operands(i)));
    if u in us {
      var n :| 0 <= n < |us| && us[n] == u;
      assert Operands(i)[n] in Operands(i);
    }
    if v :| v in Operands(i) && u == Subst(s, Subst(r, v)) {
      var n :| 0 <= n < |Operands(i)| && Operands(i)[n] == v;
      assert us[n] == u;
    }
  }

  lemma BodyDangles(f: Function, big: Replacements, b: nat, x: Name)
    requires b < |f.blocks| && x in big && UsedInBody(SubstBody(big, SeenBody(f, big, b, 0)), x)
    ensures exists k, v :: 0 <= k < |f.blocks[b].body| && StaleLine(f, big, b, k, v)
  {
    hide Made, SubstInstr, Subst, Drops, Stale, SubstBody, SeenBody;
    var j :| j in SubstBody(big, SeenBody(f, big, b, 0)) && Local(x) in Operands(j);
    OutputLine(f, big, b, j);
    var k :| 0 <= k < |f.blocks[b].body| && !Drops(big, f.blocks[b].body[k])
             && j == SubstInstr(big, SubstInstr(Made(f, big, b, k + 1), f.blocks[b].body[k]));
    OperandTwice(Made(f, big, b, k + 1), big, f.blocks[b].body[k], Local(x));
    var v :| v in Operands(f.blocks[b].body[k]) && Local(x) == Subst(big, Subst(Made(f, big, b, k + 1), v));
    StaleIs(f, big, v, b, k + 1, x);
    assert StaleLine(f, big, b, k, v);
  }

  /** The name a stale value ends as. */
  ghost function Left(f: Function, big: Replacements, v: Value, b: nat, i: nat): (x: Name)
    requires Stale(f, big, v, b, i)
    ensures x in big && Subst(big, Subst(Made(f, big, b, i), v)) == Local(x)
  {
    big[Subst(Made(f, big, b, i), v).name].name
  }

  lemma LineDangles(f: Function, big: Replacements, b: nat, k: nat, v: Value)
    requires b < |f.blocks| && k < |f.blocks[b].body| && StaleLine(f, big, b, k, v)
    ensures UsedInBody(SubstBody(big, SeenBody(f, big, b, 0)), Left(f, big, v, b, k + 1))
  {
    hide Made, SubstInstr, Subst, Drops, Stale, SubstBody, SeenBody;
    var x := Left(f, big, v, b, k + 1);
    var j := SubstInstr(big, SubstInstr(Made(f, big, b, k + 1), f.blocks[b].body[k]));
    OutputLine(f, big, b, j);
    OperandTwice(Made(f, big, b, k + 1), big, f.blocks[b].body[k], Local(x));
  }

  lemma PhisDangle(f: Function, big: Replacements, b: nat, x: Name)
    requires b < |f.blocks| && x in big
             && UsedInPhis(SubstPhis(big, SubstPhis(Made(f, big, b, 1), f.blocks[b].phis)), x)
    ensures exists p, e :: StalePhi(f, big, b, p, e)
  {
    hide Made, Subst, Stale;
    var phis := f.blocks[b].phis;
    var out := SubstPhis(big, SubstPhis(Made(f, big, b, 1), phis));
    var q, e :| q in out && e in q.incoming && q.incoming[e] == Local(x);
    var n :| 0 <= n < |out| && out[n] == q;
    StaleIs(f, big, phis[n].incoming[e], b, 1, x);
    assert phis[n] in phis && StalePhi(f, big, b, phis[n], e);
  }

  lemma PhiDangles(f: Function, big: Replacements, b: nat, p: Phi, e: nat)
    requires b < |f.blocks| && StalePhi(f, big, b, p, e)
    ensures UsedInPhis(SubstPhis(big, SubstPhis(Made(f, big, b, 1), f.blocks[b].phis)),
              Left(f, big, p.incoming[e], b, 1))
  {
    hide Made, Subst, Stale;
    var phis := f.blocks[b].phis;
    var out := SubstPhis(big, SubstPhis(Made(f, big, b, 1), phis));
    var n :| 0 <= n < |phis| && phis[n] == p;
    assert out[n] in out && e in out[n].incoming && out[n].incoming[e] == Local(Left(f, big, p.incoming[e], b, 1));
  }

  // ---------------------------------------------------------------- what the output defines

  ghost predicate DefinedInBlock(b: Block, x: Name) {
    (exists p :: p in b.phis && p.result == x) || (exists i :: i in b.body && Defines(i, x))
  }

  lemma DefinedBlocks(f: Function, x: Name)
    ensures Defined(f, x) <==> exists b :: 0 <= b < |f.blocks| && DefinedInBlock(f.blocks[b], x)
  {
    if Defined(f, x) {
      var b, i :| 0 <= b < |f.blocks| && 0 <= i <= |f.blocks[b].body| && DefinedAt(f, x, b, i);
      if i == 0 {
        var k :| 0 <= k < |f.blocks[b].phis| && f.blocks[b].phis[k].result == x;
        assert f.blocks[b].phis[k] in f.blocks[b].phis;
      } else {
        assert f.blocks[b].body[i - 1] in f.blocks[b].body;
      }
    }
    if b :| 0 <= b < |f.blocks| && DefinedInBlock(f.blocks[b], x) {
      BlockDefines(f, b, x);
    }
  }

  lemma BlockDefines(f: Function, b: nat, x: Name)
    requires b < |f.blocks| && DefinedInBlock(f.blocks[b], x)
    ensures exists i :: 0 <= i <= |f.blocks[b].body| && DefinedAt(f, x, b, i)
  {
    if p :| p in f.blocks[b].phis && p.result == x {
      var k :| 0 <= k < |f.blocks[b].phis| && f.blocks[b].phis[k] == p;
      assert DefinedAt(f, x, b, 0);
    } else {
      var i :| i in f.blocks[b].body && Defines(i, x);
      var k :| 0 <= k < |f.blocks[b].body| && f.blocks[b].body[k] == i;
      assert DefinedAt(f, x, b, k + 1);
    }
  }

  /** The output's block defines what the input's does, without the replaced names. */
  lemma OutputDefines(f: Function, big: Replacements, b: nat, x: Name)
    requires Unique(f) && b < |f.blocks| && KeysBefore(f, big, |f.blocks|, 1)
    ensures var out := Block(SubstPhis(big, SeenBlock(f, big, b).phis), SubstBody(big, SeenBlock(f, big, b).body));
            DefinedInBlock(out, x) <==> DefinedInBlock(f.blocks[b], x) && x !in big
  {
    hide Made, SubstInstr, SubstBody, SeenBody;
    var phis := f.blocks[b].phis;
    var out := SubstPhis(big, SubstPhis(Made(f, big, b, 1), phis));
    PhiNames(Made(f, big, b, 1), big, phis, x);
    if p :| p in phis && p.result == x {
      var k :| 0 <= k < |phis| && phis[k] == p;
      assert DefinedAt(f, x, b, 0);
      assert x !in big;
    }
    BodyNames(f, big, b, x);
  }

  lemma PhiNames(r: Replacements, s: Replacements, phis: seq<Phi>, x: Name)
    ensures (exists p :: p in SubstPhis(s, SubstPhis(r, phis)) && p.result == x) <==>
              exists p :: p in phis && p.result == x
  {
    var out := SubstPhis(s, SubstPhis(r, phis));
    if p :| p in out && p.result == x {
      var n :| 0 <= n < |out| && out[n] == p;
      assert phis[n] in phis && phis[n].result == x;
    }
    if p :| p in phis && p.result == x {
      var n :| 0 <= n < |phis| && phis[n] == p;
      assert out[n] in out && out[n].result == x;
    }
  }

  lemma BodyNames(f: Function, big: Replacements, b: nat, x: Name)
    requires b < |f.blocks|
    ensures (exists j :: j in SubstBody(big, SeenBody(f, big, b, 0)) && Defines(j, x))
            <==> (exists i :: i in f.blocks[b].body && Defines(i, x)) && x !in big
  {
    hide Made, SubstInstr, SubstBody, SeenBody;
    var body := f.blocks[b].body;
    if j :| j in SubstBody(big, SeenBody(f, big, b, 0)) && Defines(j, x) {
      OutputLine(f, big, b, j);
      var n :| 0 <= n < |body| && !Drops(big, body[n])
        && j == SubstInstr(big, SubstInstr(Made(f, big, b, n + 1), body[n]));
      SameResult(big, Made(f, big, b, n + 1), body[n]);
      assert body[n] in body && Defines(body[n], x);
    }
    if x !in big {
      if i :| i in body && Defines(i, x) {
        var n :| 0 <= n < |body| && body[n] == i;
        var j := SubstInstr(big, SubstInstr(Made(f, big, b, n + 1), i));
        SameResult(big, Made(f, big, b, n + 1), i);
        OutputLine(f, big, b, j);
        assert j in SubstBody(big, SeenBody(f, big, b, 0)) && Defines(j, x);
      }
    }
  }

  lemma SameResult(s: Replacements, r: Replacements, i: Instr)
    ensures SubstInstr(s, SubstInstr(r, i)).Assign? <==> i.Assign?
    ensures i.Assign? ==> SubstInstr(s, SubstInstr(r, i)).result == i.result
  {
  }

  lemma OutputDrops(f: Function, x: Name)
    requires Unique(f) && Rewritten(f).1
    ensures Defined(Rewritten(f).0, x) <==> Defined(f, x) && x !in Replaced(f)
  {
    hide Unique, KeysBefore, Rewritten, Replaced, SeenBlock, DefinedInBlock;
    PassIs(f);
    DefinedBlocks(f, x);
    DefinedBlocks(Rewritten(f).0, x);
    forall b | 0 <= b < |f.blocks|
      ensures DefinedInBlock(Rewritten(f).0.blocks[b], x) <==> DefinedInBlock(f.blocks[b], x) && x !in Replaced(f)
    {
      OutputDefines(f, Replaced(f), b, x);
    }
  }

  lemma ReplacedIsDefined(f: Function, x: Name)
    requires Unique(f) && x in Replaced(f)
    ensures Defined(f, x)
  {
    hide Replaced, Rewritten;
    PassIs(f);
    var d, j :| DefinedAt(f, x, d, j) && 0 < j && Earlier(d, j, |f.blocks|, 1);
  }

  /** The pass leaves a use of a definition it has dropped exactly when some kept line or phi
      names, at the end of the scan, a name that is replaced by a replaced name. */
  lemma DanglesExactly(f: Function)
    requires Unique(f)
    ensures Dangles(f, Rewritten(f).0) <==> !UsesNumbers(f) && Replaced(f) != map[] && StaleUse(f, Replaced(f))
  {
    hide Unique, KeysBefore, Rewritten, Replaced, Defined, Stale, StaleLine, StalePhi;
    PassIs(f);
    var g, big := Rewritten(f).0, Replaced(f);
    if Dangles(f, g) {
      UseDangles(f);
    }
    if Rewritten(f).1 && StaleUse(f, big) {
      StaleDangles(f);
    }
  }

  lemma UseDangles(f: Function)
    requires Unique(f) && Dangles(f, Rewritten(f).0)
    ensures Rewritten(f).1 && StaleUse(f, Replaced(f))
  {
    hide Unique, KeysBefore, Rewritten, Replaced, Defined, Stale, StaleLine, StalePhi, UsedInBody, UsedInPhis;
    PassIs(f);
    var g, big := Rewritten(f).0, Replaced(f);
    var x: Name :| UsedIn(g, x) && Defined(f, x) && !Defined(g, x);
    OutputDrops(f, x);
    var b :| 0 <= b < |g.blocks| && (UsedInBody(g.blocks[b].body, x) || UsedInPhis(g.blocks[b].phis, x));
    if UsedInBody(g.blocks[b].body, x) {
      BodyDangles(f, big, b, x);
    } else {
      PhisDangle(f, big, b, x);
    }
  }

  lemma UseOfDropped(f: Function, x: Name)
    requires Unique(f) && Rewritten(f).1 && x in Replaced(f) && UsedIn(Rewritten(f).0, x)
    ensures Dangles(f, Rewritten(f).0)
  {
    hide Unique, Rewritten, Replaced, Defined, UsedIn;
    OutputDrops(f, x);
    ReplacedIsDefined(f, x);
  }

  lemma OutputBlock(f: Function, b: nat)
    requires Unique(f) && Rewritten(f).1 && b < |f.blocks|
    ensures var g, big := Rewritten(f).0, Replaced(f);
            && |g.blocks| == |f.blocks|
            && g.blocks[b].phis == SubstPhis(big, SubstPhis(Made(f, big, b, 1), f.blocks[b].phis))
            && g.blocks[b].body == SubstBody(big, SeenBody(f, big, b, 0))
  {
    hide Unique, KeysBefore, Rewritten, Replaced, Made, SeenBody;
    PassIs(f);
  }

  lemma StaleLineDangles(f: Function, b: nat, k: nat, v: Value)
    requires Unique(f) && Rewritten(f).1
    requires b < |f.blocks| && k < |f.blocks[b].body| && StaleLine(f, Replaced(f), b, k, v)
    ensures Dangles(f, Rewritten(f).0)
  {
    hide Unique, Rewritten, Replaced, Made, SeenBody, SubstBody, SubstPhis, Stale, StaleLine, Dangles, UsedInBody,
         UsedInPhis;
    OutputBlock(f, b);
    StaleValue(f, Replaced(f), b, k, v);
    LineDangles(f, Replaced(f), b, k, v);
    UseOfDropped(f, Left(f, Replaced(f), v, b, k + 1));
  }

  lemma StalePhiDangles(f: Function, b: nat, p: Phi, e: nat)
    requires Unique(f) && Rewritten(f).1 && b < |f.blocks| && StalePhi(f, Replaced(f), b, p, e)
    ensures Dangles(f, Rewritten(f).0)
  {
    hide Unique, Rewritten, Replaced, Made, SeenBody, SubstBody, SubstPhis, Stale, StalePhi, Dangles, UsedInBody,
         UsedInPhis;
    OutputBlock(f, b);
    StaleIncoming(f, Replaced(f), b, p, e);
    PhiDangles(f, Replaced(f), b, p, e);
    UseOfDropped(f, Left(f, Replaced(f), p.incoming[e], b, 1));
  }

  lemma StaleDangles(f: Function)
    requires Unique(f) && Rewritten(f).1 && StaleUse(f, Replaced(f))
    ensures Dangles(f, Rewritten(f).0)
  {
    hide Unique, Rewritten, Replaced, StaleLine, StalePhi, Dangles;
    if b, k, v :| 0 <= b < |f.blocks| && 0 <= k < |f.blocks[b].body| && StaleLine(f, Replaced(f), b, k, v) {
      StaleLineDangles(f, b, k, v);
    } else {
      var b, p, e :| 0 <= b < |f.blocks| && StalePhi(f, Replaced(f), b, p, e);
      StalePhiDangles(f, b, p, e);
    }
  }

  lemma StaleValue(f: Function, big: Replacements, b: nat, k: nat, v: Value)
    requires b < |f.blocks| && k < |f.blocks[b].body| && StaleLine(f, big, b, k, v)
    ensures Stale(f, big, v, b, k + 1)
  {
  }

  lemma StaleIncoming(f: Function, big: Replacements, b: nat, p: Phi, e: nat)
    requires b < |f.blocks| && StalePhi(f, big, b, p, e)
    ensures e in p.incoming && Stale(f, big, p.incoming[e], b, 1)
  {
  }

  /** Lines that follow what they use leave nothing stale. */
  lemma FollowingNeverDangles(f: Function)
    requires Ssa(f)
    ensures !Dangles(f, Rewritten(f).0)
  {
    hide GoodReplacements, Applied, Replaced, Rewritten, Made;
    RewrittenIsApplied(f);
    DanglesExactly(f);
  }

  // ---------------------------------------------------------------- a function that dangles

  const LATE_USE := Effect("ret", [Local("y")])
  const LATE_STORE := StoreScalar("ptr", Local("x"), Global("q"), "", false)
  const LATE_LOAD := Assign("y", LoadScalar("ptr", Global("q"), ""), false)
  const LATE_ALIAS := Assign("x", BitcastPtr(Local("p")), false)

  /** Control runs 0, 3, 2, 1, so every use is dominated by its definition, but the text has
      them the other way round. */
  const LATE := Function(
    [Block([], []), Block([], [LATE_USE]), Block([], [LATE_STORE, LATE_LOAD]), Block([], [LATE_ALIAS])],
    [{3}, {}, {1}, {2}])

  lemma OneLine(t: Tables, line: Instr)
    ensures ScanBody(t, [line]) == StepLine(t, line)
  {
    var body: seq<Instr> := [line];
    assert body[1..] == [];
    assert ScanBody(StepLine(t, line).0, []) == (StepLine(t, line).0, []);
    assert StepLine(t, line).1 + [] == StepLine(t, line).1;
  }

  lemma LateBlocks()
    ensures ScanBlock(map[], LATE.blocks[0]) == (map[], Block([], []))
    ensures ScanBlock(map[], LATE.blocks[1]) == (map[], Block([], [LATE_USE]))
    ensures ScanBlock(map[], LATE.blocks[2]) == (map["y" := Local("x")], Block([], [LATE_STORE]))
    ensures ScanBlock(map["y" := Local("x")], LATE.blocks[3])
         == (map["y" := Local("x"), "x" := Local("p")], Block([], []))
  {
    var none: Replacements := map[];
    OneLine(FreshTables(none), LATE_USE);
    assert SubstInstr(none, LATE_USE) == LATE_USE by {
      assert SubstAll(none, [Local("y")]) == [Local("y")];
    }
    LateForwarding();
    OneLine(FreshTables(map["y" := Local("x")]), LATE_ALIAS);
  }

  lemma LateForwarding()
    ensures ScanBody(FreshTables(map[]), [LATE_STORE, LATE_LOAD]).0.replaced == map["y" := Local("x")]
    ensures ScanBody(FreshTables(map[]), [LATE_STORE, LATE_LOAD]).1 == [LATE_STORE]
  {
    var body := [LATE_STORE, LATE_LOAD];
    var t1 := StepLine(FreshTables(map[]), LATE_STORE).0;
    assert t1 == Tables(map[], map[], map[], map[("ptr", Global("q")) := Local("x")]);
    assert body[1..] == [LATE_LOAD];
    OneLine(t1, LATE_LOAD);
    assert StepLine(t1, LATE_LOAD).0.replaced == map["y" := Local("x")];
  }

  lemma LateScan()
    ensures Replaced(LATE) == map["y" := Local("x"), "x" := Local("p")]
    ensures ScanBlocks(map[], LATE.blocks).1
              == [Block([], []), Block([], [LATE_USE]), Block([], [LATE_STORE]), Block([], [])]
  {
    hide ScanBlock;
    LateBlocks();
    var bs := LATE.blocks;
    var none: Replacements, r2: Replacements, r3: Replacements :=
      map[], map["y" := Local("x")], map["y" := Local("x"), "x" := Local("p")];
    OneMoreBlock(r2, bs, 3);
    assert bs[4..] == [];
    assert ScanBlock(r2, bs[3]) == (r3, Block([], []));
    assert ScanBlocks(r3, bs[4..]) == (r3, []);
    assert ScanBlocks(r2, bs[3..]).0 == r3;
    assert ScanBlocks(r2, bs[3..]).1 == [Block([], [])];
    assert ScanBlocks(r2, bs[3..]) == (r3, [Block([], [])]);
    OneMoreBlock(none, bs, 2);
    assert ScanBlocks(none, bs[2..]).0 == r3;
    assert ScanBlocks(none, bs[2..]).1 == [Block([], [LATE_STORE]), Block([], [])];
    OneMoreBlock(none, bs, 1);
    assert ScanBlocks(none, bs[1..]).0 == r3;
    assert ScanBlocks(none, bs[1..]).1 == [Block([], [LATE_USE]), Block([], [LATE_STORE]), Block([], [])];
    OneMoreBlock(none, bs, 0);
    assert ScanBlocks(none, bs[0..]).0 == r3;
    assert ScanBlocks(none, bs[0..]).1 == [Block([], [])] + ScanBlocks(none, bs[1..]).1;
    assert bs[0..] == bs;
  }

  lemma OneMoreBlock(r: Replacements, bs: seq<Block>, k: nat)
    requires k < |bs|
    ensures var (r1, b) := ScanBlock(r, bs[k]); var (r2, rest) := ScanBlocks(r1, bs[k + 1..]);
            ScanBlocks(r, bs[k..]) == (r2, [b] + rest)
  {
    assert bs[k..][0] == bs[k] && bs[k..][1..] == bs[k + 1..];
  }

  /** The scan leaves `ret %y`, the one substitution at the end makes it `ret %x`, and the
      definition of `x` has been dropped. */
  lemma LateUseDangles()
    ensures Rewritten(LATE).1 && Dangles(LATE, Rewritten(LATE).0)
    ensures Rewritten(LATE).0.blocks[1].body == [Effect("ret", [Local("x")])]
    ensures Defined(LATE, "x") && !Defined(Rewritten(LATE).0, "x")
  {
    hide ScanBlocks, ScanBlock, Dangles, Defined;
    LateScan();
    LateUnnumbered();
    var big: Replacements := map["y" := Local("x"), "x" := Local("p")];
    var g := Rewritten(LATE).0;
    assert SubstAll(big, [Local("y")]) == [Local("x")];
    assert SubstInstr(big, LATE_USE) == Effect("ret", [Local("x")]);
    assert SubstBody(big, [LATE_USE])[0] == Effect("ret", [Local("x")]);
    var out := [Block([], []), Block([], [LATE_USE]), Block([], [LATE_STORE]), Block([], [])];
    assert "y" in Replaced(LATE);
    assert Rewritten(LATE).0.blocks == SubstBlocks(big, out) && Rewritten(LATE).1;
    assert SubstBlocks(big, out)[1] == Block(SubstPhis(big, []), SubstBody(big, out[1].body));
    LateNames(g);
  }

  lemma LateUnnumbered()
    ensures !UsesNumbers(LATE)
  {
    assert "x"[0] == 'x' && "y"[0] == 'y';
    assert !Numbered("x") && !Numbered("y");
    assert forall b :: 0 <= b < 4 ==> LATE.blocks[b].phis == [];
  }

  lemma LateNames(g: Function)
    requires |g.blocks| == 4 && g.blocks[1].body == [Effect("ret", [Local("x")])]
    requires forall b :: 0 <= b < 4 ==> g.blocks[b].phis == []
    requires forall b :: 0 <= b < 4 ==> forall i :: i in g.blocks[b].body ==> !i.Assign?
    ensures Dangles(LATE, g) && Defined(LATE, "x") && !Defined(g, "x")
  {
    DefinedBlocks(g, "x");
    assert DefinedAt(LATE, "x", 3, 1);
    assert Local("x") in Operands(g.blocks[1].body[0]) && g.blocks[1].body[0] in g.blocks[1].body;
    assert UsedInBody(g.blocks[1].body, "x");
    assert UsedIn(g, "x");
  }
}
