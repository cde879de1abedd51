/** Static single assignment, dominance, and what the reuse pass does to such a function:
    it drops exactly the definitions it replaces and substitutes everywhere else. */
module EarlyCseShape {
  import opened Octets
  import opened EarlyCse

  // ---------------------------------------------------------------- definitions and dominance

  /** `x` is defined in block `b` at `i`: at 0 by a phi, at k + 1 by line k. */
  predicate DefinedAt(f: Function, x: Name, b: nat, i: nat) {
    && b < |f.blocks|
    && (if i == 0 then exists k :: 0 <= k < |f.blocks[b].phis| && f.blocks[b].phis[k].result == x
        else i <= |f.blocks[b].body| && Defines(f.blocks[b].body[i - 1], x))
  }

  predicate Defines(line: Instr, x: Name) {
    line.Assign? && line.result == x
  }

  predicate Path(f: Function, path: seq<nat>) {
    && path != [] && path[0] == 0
    && (forall i :: 0 <= i < |path| ==> path[i] < |f.blocks| && path[i] < |f.targets|)
    && (forall i :: 0 <= i < |path| - 1 ==> path[i + 1] in f.targets[path[i]])
  }

  ghost predicate Reachable(f: Function, b: nat) {
    exists path :: Path(f, path) && path[|path| - 1] == b
  }

  /** Every way from the entry to `u` passes `d`. */
  ghost predicate Dominates(f: Function, d: nat, u: nat) {
    forall path :: Path(f, path) && path[|path| - 1] == u ==> d in path
  }

  lemma DominatesTransitive(f: Function, a: nat, b: nat, c: nat)
    requires Dominates(f, a, b) && Dominates(f, b, c)
    ensures Dominates(f, a, c)
  {
    forall path | Path(f, path) && path[|path| - 1] == c ensures a in path {
      var k :| 0 <= k < |path| && path[k] == b;
      var prefix := path[..k + 1];
      assert Path(f, prefix) && prefix[|prefix| - 1] == b;
      assert a in prefix;
    }
  }

  function First(path: seq<nat>, b: nat): (k: nat)
    requires b in path
    ensures k < |path| && path[k] == b && b !in path[..k]
  {
    if path[0] == b then 0
    else
      assert path == [path[0]] + path[1..];
      var k := First(path[1..], b);
      assert path[..k + 1] == [path[0]] + path[1..][..k];
      k + 1
  }

  lemma PrefixAvoids(path: seq<nat>, k: nat, j: nat, b: nat)
    requires j <= k < |path| && b !in path[..k] && path[j] != b
    ensures b !in path[..j + 1]
  {
    assert path[..j + 1] == path[..k][..j] + [path[j]];
  }

  lemma CutPath(f: Function, path: seq<nat>, k: nat, j: nat)
    requires Path(f, path) && j <= k < |path|
    ensures Path(f, path[..j + 1]) && path[..j + 1][|path[..j + 1]| - 1] == path[j]
  {
  }

  /** Two reachable blocks that dominate each other are one. */
  lemma DominatesAntisymmetric(f: Function, a: nat, b: nat)
    requires Dominates(f, a, b) && Dominates(f, b, a) && Reachable(f, b)
    ensures a == b
  {
    var path :| Path(f, path) && path[|path| - 1] == b;
    var k := First(path, b);
    var prefix := path[..k + 1];
    assert Path(f, prefix) && prefix[|prefix| - 1] == b;
    if a != b {
      var j :| 0 <= j < |prefix| && prefix[j] == a;
      CutPath(f, path, k, j);
      PrefixAvoids(path, k, j, b);
    }
  }

  /** A strict dominator of a block dominates each of its predecessors. */
  lemma DominatesPredecessor(f: Function, d: nat, p: nat, c: nat)
    requires Dominates(f, d, c) && d != c
    requires p < |f.blocks| && p < |f.targets| && c in f.targets[p] && c < |f.blocks| && c < |f.targets|
    ensures Dominates(f, d, p)
  {
    forall path | Path(f, path) && path[|path| - 1] == p ensures d in path {
      var longer := path + [c];
      assert Path(f, longer) && longer[|longer| - 1] == c;
      assert d in longer;
    }
  }

  // ---------------------------------------------------------------- static single assignment

  predicate Defined(f: Function, x: Name) {
    exists b, i :: 0 <= b < |f.blocks| && 0 <= i <= |f.blocks[b].body| && DefinedAt(f, x, b, i)
  }

  /** The definition at (`d`, `j`) comes before (`b`, `i`), in the text and on every path. */
  ghost predicate Precedes(f: Function, d: nat, j: nat, b: nat, i: nat) {
    if d == b then j < i else d < b && Dominates(f, d, b)
  }

  ghost predicate Available(f: Function, v: Value, b: nat, i: nat) {
    v.Local? ==> !Defined(f, v.name) || exists d, j :: DefinedAt(f, v.name, d, j) && Precedes(f, d, j, b, i)
  }

  /** A value an incoming edge of a phi may carry from block `p`. */
  ghost predicate AvailableAfter(f: Function, v: Value, p: nat) {
    v.Local? ==> !Defined(f, v.name) || exists d, j :: DefinedAt(f, v.name, d, j) && (d == p || Dominates(f, d, p))
  }

  ghost predicate Unique(f: Function) {
    forall x, b, i, c, j :: DefinedAt(f, x, b, i) && DefinedAt(f, x, c, j) ==> b == c && i == j
  }

  ghost predicate LinesFollow(f: Function) {
    forall b, k, n :: 0 <= b < |f.blocks| && 0 <= k < |f.blocks[b].body| && 0 <= n < |Operands(f.blocks[b].body[k])| ==>
      Available(f, Operands(f.blocks[b].body[k])[n], b, k + 1)
  }

  ghost predicate PhisFollow(f: Function) {
    forall b, k, p :: 0 <= b < |f.blocks| && 0 <= k < |f.blocks[b].phis| && p in f.blocks[b].phis[k].incoming ==>
      AvailableAfter(f, f.blocks[b].phis[k].incoming[p], p)
  }

  /** Single assignment, and every use other than a phi's follows its definition. */
  ghost predicate Ssa(f: Function) {
    && |f.targets| == |f.blocks|
    && Unique(f) && LinesFollow(f) && PhisFollow(f)
  }

  lemma PrecedesTransitive(f: Function, e: nat, k: nat, d: nat, j: nat, b: nat, i: nat)
    requires Precedes(f, e, k, d, j) && Precedes(f, d, j, b, i)
    ensures Precedes(f, e, k, b, i)
  {
    if e != d && d != b {
      DominatesTransitive(f, e, d, b);
    }
  }

  /** What is available where an available name is defined is available too. */
  lemma AvailableThrough(f: Function, x: Name, d: nat, j: nat, v: Value, b: nat, i: nat)
    requires DefinedAt(f, x, d, j) && Precedes(f, d, j, b, i) && Available(f, v, d, j)
    ensures Available(f, v, b, i)
  {
    if v.Local? && Defined(f, v.name) {
      var e, k :| DefinedAt(f, v.name, e, k) && Precedes(f, e, k, d, j);
      PrecedesTransitive(f, e, k, d, j, b, i);
    }
  }

  // ---------------------------------------------------------------- what the tables hold

  /** Textually before (`b`, `i`). */
  predicate Earlier(d: nat, j: nat, b: nat, i: nat) {
    d < b || (d == b && j < i)
  }

  /** The replacements made before (`b`, `i`): each replaces an earlier definition by a value
      available there that is itself never replaced. */
  ghost predicate GoodReplacements(f: Function, r: Replacements, b: nat, i: nat) {
    forall x <- r ::
      && (exists d, j :: DefinedAt(f, x, d, j) && 0 < j && Earlier(d, j, b, i) && Available(f, r[x], d, j))
      && Settled(f, r, r[x], b, i)
  }

  /** A value whose name is a parameter or defined earlier, and is not replaced. */
  ghost predicate Settled(f: Function, r: Replacements, v: Value, b: nat, i: nat) {
    v.Local? ==>
      && v.name !in r
      && (!Defined(f, v.name) || exists d, j :: DefinedAt(f, v.name, d, j) && Earlier(d, j, b, i))
  }

  ghost predicate Remembered(f: Function, r: Replacements, v: Value, b: nat, i: nat) {
    Available(f, v, b, i) && Settled(f, r, v, b, i)
  }

  ghost predicate AllRemembered(f: Function, r: Replacements, vs: seq<Value>, b: nat, i: nat) {
    forall k :: 0 <= k < |vs| ==> Remembered(f, r, vs[k], b, i)
  }

  ghost predicate GoodTables(f: Function, t: Tables, b: nat, i: nat) {
    && GoodReplacements(f, t.replaced, b, i)
    && (forall e <- t.expressions ::
         Remembered(f, t.replaced, t.expressions[e], b, i) && AllRemembered(f, t.replaced, RhsOperands(e), b, i))
    && (forall l <- t.loads ::
         Remembered(f, t.replaced, t.loads[l], b, i) && AllRemembered(f, t.replaced, RhsOperands(l), b, i))
    && (forall s <- t.stores :: Remembered(f, t.replaced, t.stores[s], b, i) && Remembered(f, t.replaced, s.1, b, i))
  }

  lemma AvailableIsEarlier(f: Function, v: Value, b: nat, i: nat)
    requires Available(f, v, b, i) && v.Local? && Defined(f, v.name)
    ensures exists d, j :: DefinedAt(f, v.name, d, j) && Earlier(d, j, b, i)
  {
    var d, j :| DefinedAt(f, v.name, d, j) && Precedes(f, d, j, b, i);
    assert Earlier(d, j, b, i);
  }

  /** Substituting in an available value gives one that can be remembered. */
  lemma SubstRemembered(f: Function, r: Replacements, v: Value, b: nat, i: nat)
    requires Unique(f) && GoodReplacements(f, r, b, i) && Available(f, v, b, i)
    ensures Remembered(f, r, Subst(r, v), b, i)
  {
    if v.Local? && v.name in r {
      var d, j :| DefinedAt(f, v.name, d, j) && Earlier(d, j, b, i) && Available(f, r[v.name], d, j);
      DefinedAtSome(f, v.name, d, j);
      var e, k :| DefinedAt(f, v.name, e, k) && Precedes(f, e, k, b, i);
      AvailableThrough(f, v.name, d, j, r[v.name], b, i);
    } else if v.Local? && Defined(f, v.name) {
      AvailableIsEarlier(f, v, b, i);
    }
  }

  lemma DefinedAtSome(f: Function, x: Name, b: nat, i: nat)
    requires DefinedAt(f, x, b, i)
    ensures Defined(f, x)
  {
  }

  lemma LineRemembered(f: Function, r: Replacements, b: nat, k: nat)
    requires Ssa(f) && b < |f.blocks| && k < |f.blocks[b].body| && GoodReplacements(f, r, b, k + 1)
    ensures AllRemembered(f, r, Operands(SubstInstr(r, f.blocks[b].body[k])), b, k + 1)
  {
    var line := f.blocks[b].body[k];
    var vs := Operands(line);
    forall n | 0 <= n < |vs| ensures Remembered(f, r, SubstAll(r, vs)[n], b, k + 1) {
      assert Available(f, Operands(f.blocks[b].body[k])[n], b, k + 1);
      SubstRemembered(f, r, vs[n], b, k + 1);
    }
  }

  /** Values remembered before a line are remembered after it, also when the line's own
      result has been replaced. */
  lemma RememberedNext(f: Function, r: Replacements, r1: Replacements, v: Value, b: nat, k: nat)
    requires Unique(f) && b < |f.blocks| && k < |f.blocks[b].body| && Remembered(f, r, v, b, k + 1)
    requires r1 == r || (f.blocks[b].body[k].Assign? && r1.Keys == r.Keys + {f.blocks[b].body[k].result})
    ensures Remembered(f, r1, v, b, k + 2)
  {
    if r1 != r {
      assert DefinedAt(f, f.blocks[b].body[k].result, b, k + 1);
      DefinedAtSome(f, f.blocks[b].body[k].result, b, k + 1);
    }
    if v.Local? && Defined(f, v.name) {
      var d, j :| DefinedAt(f, v.name, d, j) && Precedes(f, d, j, b, k + 1);
      assert Precedes(f, d, j, b, k + 2) && Earlier(d, j, b, k + 2);
    }
  }

  lemma NotYetReplaced(f: Function, r: Replacements, b: nat, k: nat)
    requires Unique(f) && b < |f.blocks| && k < |f.blocks[b].body| && GoodReplacements(f, r, b, k + 1)
    ensures f.blocks[b].body[k].Assign? ==> f.blocks[b].body[k].result !in r
  {
    var line := f.blocks[b].body[k];
    if line.Assign? && line.result in r {
      assert DefinedAt(f, line.result, b, k + 1);
    }
  }

  lemma ResultRemembered(f: Function, r: Replacements, b: nat, k: nat)
    requires Unique(f) && b < |f.blocks| && k < |f.blocks[b].body| && GoodReplacements(f, r, b, k + 1)
    requires f.blocks[b].body[k].Assign?
    ensures Remembered(f, r, Local(f.blocks[b].body[k].result), b, k + 2)
  {
    NotYetReplaced(f, r, b, k);
    var x := f.blocks[b].body[k].result;
    assert DefinedAt(f, x, b, k + 1) && Precedes(f, b, k + 1, b, k + 2) && Earlier(b, k + 1, b, k + 2);
  }

  lemma EarlierLater(d: nat, j: nat, b: nat, i: nat, c: nat, n: nat)
    requires Earlier(d, j, b, i) && (b < c || (b == c && i <= n))
    ensures Earlier(d, j, c, n)
  {
  }

  lemma GoodLater(f: Function, r: Replacements, b: nat, i: nat, c: nat, n: nat)
    requires GoodReplacements(f, r, b, i) && (b < c || (b == c && i <= n))
    ensures GoodReplacements(f, r, c, n)
  {
    forall x <- r
      ensures (exists d, j :: DefinedAt(f, x, d, j) && 0 < j && Earlier(d, j, c, n) && Available(f, r[x], d, j))
              && Settled(f, r, r[x], c, n)
    {
      var d, j :| DefinedAt(f, x, d, j) && 0 < j && Earlier(d, j, b, i) && Available(f, r[x], d, j);
      EarlierLater(d, j, b, i, c, n);
      if r[x].Local? && Defined(f, r[x].name) {
        var e, m :| DefinedAt(f, r[x].name, e, m) && Earlier(e, m, b, i);
        EarlierLater(e, m, b, i, c, n);
      }
    }
  }

  /** Replacing a line's result by something remembered. */
  lemma OneMoreReplaced(f: Function, r: Replacements, v: Value, b: nat, k: nat)
    requires Unique(f) && b < |f.blocks| && k < |f.blocks[b].body| && GoodReplacements(f, r, b, k + 1)
    requires f.blocks[b].body[k].Assign? && Remembered(f, r, v, b, k + 1)
    ensures GoodReplacements(f, r[f.blocks[b].body[k].result := v], b, k + 2)
  {
    var x := f.blocks[b].body[k].result;
    var r1 := r[x := v];
    assert DefinedAt(f, x, b, k + 1) && Earlier(b, k + 1, b, k + 2);
    NotYetReplaced(f, r, b, k);
    RememberedNext(f, r, r1, v, b, k);
    forall y <- r1
      ensures (exists d, j :: DefinedAt(f, y, d, j) && 0 < j && Earlier(d, j, b, k + 2) && Available(f, r1[y], d, j))
              && Settled(f, r1, r1[y], b, k + 2)
    {
      if y != x {
        var d, j :| DefinedAt(f, y, d, j) && 0 < j && Earlier(d, j, b, k + 1) && Available(f, r[y], d, j);
        EarlierLater(d, j, b, k + 1, b, k + 2);
        SettledNext(f, r, r1, r[y], b, k);
      }
    }
  }

  lemma SettledNext(f: Function, r: Replacements, r1: Replacements, v: Value, b: nat, k: nat)
    requires Unique(f) && b < |f.blocks| && k < |f.blocks[b].body| && Settled(f, r, v, b, k + 1)
    requires f.blocks[b].body[k].Assign? && r1.Keys == r.Keys + {f.blocks[b].body[k].result}
    ensures Settled(f, r1, v, b, k + 2)
  {
    var x := f.blocks[b].body[k].result;
    assert DefinedAt(f, x, b, k + 1);
    DefinedAtSome(f, x, b, k + 1);
    if v.Local? && Defined(f, v.name) {
      var d, j :| DefinedAt(f, v.name, d, j) && Earlier(d, j, b, k + 1);
      EarlierLater(d, j, b, k + 1, b, k + 2);
    }
  }

  /** The tables' entries stay remembered across a line. */
  lemma EntriesNext(f: Function, t: Tables, r1: Replacements, b: nat, k: nat)
    requires Unique(f) && b < |f.blocks| && k < |f.blocks[b].body| && GoodTables(f, t, b, k + 1)
    requires r1 == t.replaced
             || (f.blocks[b].body[k].Assign? && r1.Keys == t.replaced.Keys + {f.blocks[b].body[k].result})
    requires GoodReplacements(f, r1, b, k + 2)
    ensures GoodTables(f, t.(replaced := r1), b, k + 2)
  {
    hide Remembered;
    var r, i, n := t.replaced, k + 1, k + 2;
    forall v | Remembered(f, r, v, b, i) ensures Remembered(f, r1, v, b, n) {
      RememberedNext(f, r, r1, v, b, k);
    }
  }

  /** A line keeps the tables good. */
  lemma StepGood(f: Function, t: Tables, b: nat, k: nat)
    requires Ssa(f) && b < |f.blocks| && k < |f.blocks[b].body| && GoodTables(f, t, b, k + 1)
    ensures GoodTables(f, StepLine(t, f.blocks[b].body[k]).0, b, k + 2)
  {
    hide Remembered, GoodReplacements, Ssa, SubstInstr, Reusable;
    var r := t.replaced;
    var line := SubstInstr(r, f.blocks[b].body[k]);
    UniqueOf(f);
    LineRemembered(f, r, b, k);
    ResultSame(r, f.blocks[b].body[k]);
    match Known(t, line)
    case Some(v) =>
      KnownRemembered(f, t, line, v, b, k + 1);
      OneMoreReplaced(f, r, v, b, k);
      EntriesNext(f, t, r[line.result := v], b, k);
    case None =>
      GoodLater(f, r, b, k + 1, b, k + 2);
      EntriesNext(f, t, r, b, k);
      assert t.(replaced := r) == t;
      OperandsNext(f, r, Operands(line), b, k);
      if line.Assign? {
        ResultRemembered(f, r, b, k);
      }
      RememberGood(f, t, line, b, k + 2);
  }

  /** What the tables know is remembered. */
  lemma KnownRemembered(f: Function, t: Tables, line: Instr, v: Value, b: nat, i: nat)
    requires GoodTables(f, t, b, i) && AllRemembered(f, t.replaced, Operands(line), b, i) && Known(t, line) == Some(v)
    ensures Remembered(f, t.replaced, v, b, i)
  {
    hide Remembered, GoodReplacements, Reusable, Before, Text;
    if line.rhs.BitcastPtr? {
      assert Operands(line)[0] == line.rhs.pointer;
    }
  }

  lemma RememberGood(f: Function, t: Tables, line: Instr, b: nat, i: nat)
    requires GoodTables(f, t, b, i) && AllRemembered(f, t.replaced, Operands(line), b, i)
    requires line.Assign? ==> Remembered(f, t.replaced, Local(line.result), b, i)
    ensures GoodTables(f, Remember(t, line), b, i)
  {
    hide Remembered, GoodReplacements, Reusable, Before, Text;
    if line.Assign? {
      KeyOperands(f, t.replaced, line.rhs, b, i);
    } else if line.StoreScalar? {
      assert Operands(line)[0] == line.value && Operands(line)[1] == line.pointer;
    }
  }

  lemma UniqueOf(f: Function)
    requires Ssa(f)
    ensures Unique(f)
  {
  }

  lemma ResultSame(r: Replacements, i: Instr)
    ensures SubstInstr(r, i).Assign? <==> i.Assign?
    ensures i.Assign? ==> SubstInstr(r, i).result == i.result
  {
  }

  lemma OperandsNext(f: Function, r: Replacements, vs: seq<Value>, b: nat, k: nat)
    requires Unique(f) && b < |f.blocks| && k < |f.blocks[b].body| && AllRemembered(f, r, vs, b, k + 1)
    ensures AllRemembered(f, r, vs, b, k + 2)
  {
    forall n | 0 <= n < |vs| ensures Remembered(f, r, vs[n], b, k + 2) {
      RememberedNext(f, r, r, vs[n], b, k);
    }
  }

  lemma KeyOperands(f: Function, r: Replacements, rhs: Rhs, b: nat, i: nat)
    requires AllRemembered(f, r, RhsOperands(rhs), b, i)
    ensures AllRemembered(f, r, RhsOperands(ExpressionKey(rhs)), b, i)
  {
    hide Remembered, Before, Text;
    if rhs.Commutative? {
      assert RhsOperands(rhs)[0] == rhs.left && RhsOperands(rhs)[1] == rhs.right;
    }
  }

  // ---------------------------------------------------------------- the closed form

  /** Dropping the replaced definitions of a body and substituting in the others. */
  function KeptBody(r: Replacements, body: seq<Instr>): seq<Instr> {
    if body == [] then []
    else (if body[0].Assign? && body[0].result in r then [] else [SubstInstr(r, body[0])]) + KeptBody(r, body[1..])
  }

  function KeptBlock(r: Replacements, b: Block): Block {
    Block(SubstPhis(r, b.phis), KeptBody(r, b.body))
  }

  function Applied(r: Replacements, f: Function): (g: Function)
    ensures |g.blocks| == |f.blocks| && g.targets == f.targets
    ensures forall b :: 0 <= b < |f.blocks| ==> g.blocks[b] == KeptBlock(r, f.blocks[b])
  {
    Function(seq(|f.blocks|, b requires 0 <= b < |f.blocks| => KeptBlock(r, f.blocks[b])), f.targets)
  }

  /** No replacement is itself replaced. */
  predicate Rooted(r: Replacements) {
    forall x <- r :: r[x].Local? ==> r[x].name !in r
  }

  predicate Within(r: Replacements, big: Replacements) {
    forall x <- r :: x in big && big[x] == r[x]
  }

  lemma SubstTwice(r: Replacements, big: Replacements, v: Value)
    requires Within(r, big) && Rooted(big)
    ensures Subst(big, Subst(r, v)) == Subst(big, v)
  {
  }

  lemma SubstAllTwice(r: Replacements, big: Replacements, vs: seq<Value>)
    requires Within(r, big) && Rooted(big)
    ensures SubstAll(big, SubstAll(r, vs)) == SubstAll(big, vs)
  {
    forall i | 0 <= i < |vs| ensures Subst(big, Subst(r, vs[i])) == Subst(big, vs[i]) {
      SubstTwice(r, big, vs[i]);
    }
  }

  lemma SubstInstrTwice(r: Replacements, big: Replacements, i: Instr)
    requires Within(r, big) && Rooted(big)
    ensures SubstInstr(big, SubstInstr(r, i)) == SubstInstr(big, i)
  {
    hide Subst, Within, Rooted;
    SubstAllTwice(r, big, Operands(i));
    forall v ensures Subst(big, Subst(r, v)) == Subst(big, v) {
      SubstTwice(r, big, v);
    }
  }

  lemma SubstPhisTwice(r: Replacements, big: Replacements, ps: seq<Phi>)
    requires Within(r, big) && Rooted(big)
    ensures SubstPhis(big, SubstPhis(r, ps)) == SubstPhis(big, ps)
  {
    forall k | 0 <= k < |ps| ensures SubstPhi(big, SubstPhi(r, ps[k])) == SubstPhi(big, ps[k]) {
      forall b <- ps[k].incoming ensures Subst(big, Subst(r, ps[k].incoming[b])) == Subst(big, ps[k].incoming[b]) {
        SubstTwice(r, big, ps[k].incoming[b]);
      }
      assert SubstPhi(big, SubstPhi(r, ps[k])).incoming == SubstPhi(big, ps[k]).incoming;
    }
  }

  /** `big` is `r` with names defined no earlier than (`b`, `i`) added. */
  ghost predicate Grows(f: Function, r: Replacements, big: Replacements, b: nat, i: nat) {
    && Within(r, big)
    && (forall x <- big :: x !in r ==> exists d, j :: DefinedAt(f, x, d, j) && !Earlier(d, j, b, i))
  }

  lemma GrowsTwice(f: Function, r: Replacements, mid: Replacements, big: Replacements, b: nat, i: nat, c: nat, n: nat)
    requires Grows(f, r, mid, b, i) && Grows(f, mid, big, c, n) && (b < c || (b == c && i <= n))
    ensures Grows(f, r, big, b, i)
  {
    forall x <- big | x !in r
      ensures exists d, j :: DefinedAt(f, x, d, j) && !Earlier(d, j, b, i)
    {
      if x !in mid {
        var d, j :| DefinedAt(f, x, d, j) && !Earlier(d, j, c, n);
        assert !Earlier(d, j, b, i);
      }
    }
  }

  lemma StepGrows(f: Function, t: Tables, b: nat, k: nat)
    requires Ssa(f) && b < |f.blocks| && k < |f.blocks[b].body| && GoodTables(f, t, b, k + 1)
    ensures Grows(f, t.replaced, StepLine(t, f.blocks[b].body[k]).0.replaced, b, k + 1)
  {
    hide Remembered, GoodReplacements, SubstInstr, Known;
    UniqueOf(f);
    NotYetReplaced(f, t.replaced, b, k);
    ResultSame(t.replaced, f.blocks[b].body[k]);
    KnownAssigns(t, SubstInstr(t.replaced, f.blocks[b].body[k]));
    var line := f.blocks[b].body[k];
    if line.Assign? {
      assert DefinedAt(f, line.result, b, k + 1) && !Earlier(b, k + 1, b, k + 1);
    }
  }

  lemma KnownAssigns(t: Tables, line: Instr)
    ensures Known(t, line).Some? ==> line.Assign?
  {
  }

  /** Scanning the rest of a block. */
  lemma {:induction false} ScanBodyGood(f: Function, t: Tables, b: nat, k: nat)
    requires Ssa(f) && b < |f.blocks| && k <= |f.blocks[b].body| && GoodTables(f, t, b, k + 1)
    ensures var t2 := ScanBody(t, f.blocks[b].body[k..]).0;
            GoodTables(f, t2, b, |f.blocks[b].body| + 1) && Grows(f, t.replaced, t2.replaced, b, k + 1)
    decreases |f.blocks[b].body| - k
  {
    hide GoodTables, Grows, StepLine;
    var body := f.blocks[b].body;
    if k == |body| {
      GrowsNot(f, t.replaced, b, k + 1);
    } else {
      assert body[k..][0] == body[k] && body[k..][1..] == body[k + 1..];
      StepGood(f, t, b, k);
      StepGrows(f, t, b, k);
      var t1 := StepLine(t, body[k]).0;
      ScanBodyGood(f, t1, b, k + 1);
      GrowsTwice(f, t.replaced, t1.replaced, ScanBody(t1, body[k + 1..]).0.replaced, b, k + 1, b, k + 2);
    }
  }

  lemma GrowsNot(f: Function, r: Replacements, b: nat, i: nat)
    ensures Grows(f, r, r, b, i)
  {
  }

  /** A name whose definition is scanned and kept is not replaced later. */
  lemma KeptForGood(f: Function, r: Replacements, big: Replacements, x: Name, b: nat, i: nat, c: nat, n: nat)
    requires Unique(f) && DefinedAt(f, x, b, i) && x !in r && Grows(f, r, big, c, n) && Earlier(b, i, c, n)
    ensures x !in big
  {
  }

  /** The lines scanning keeps are, after the last substitution, the closed form's. */
  lemma {:induction false} ScanBodyKept(f: Function, t: Tables, b: nat, k: nat, big: Replacements)
    requires Ssa(f) && b < |f.blocks| && k <= |f.blocks[b].body| && GoodTables(f, t, b, k + 1)
    requires Rooted(big) && Grows(f, ScanBody(t, f.blocks[b].body[k..]).0.replaced, big, b, |f.blocks[b].body| + 1)
    ensures SubstBody(big, ScanBody(t, f.blocks[b].body[k..]).1) == KeptBody(big, f.blocks[b].body[k..])
    decreases |f.blocks[b].body| - k
  {
    hide GoodTables, Grows, StepLine, SubstInstr, Rooted, Ssa;
    var body := f.blocks[b].body;
    if k < |body| {
      assert body[k..][0] == body[k] && body[k..][1..] == body[k + 1..];
      var (t1, line) := StepLine(t, body[k]);
      StepGood(f, t, b, k);
      ScanBodyKept(f, t1, b, k + 1, big);
      ScanBodyGood(f, t1, b, k + 1);
      var t2 := ScanBody(t1, body[k + 1..]).0;
      GrowsTwice(f, t1.replaced, t2.replaced, big, b, k + 2, b, |body| + 1);
      StepGrows(f, t, b, k);
      GrowsTwice(f, t.replaced, t1.replaced, big, b, k + 1, b, k + 2);
      FirstLine(f, t, b, k, big);
      SubstBodyAppend(big, line, ScanBody(t1, body[k + 1..]).1);
    }
  }

  lemma SubstBodyAppend(r: Replacements, a: seq<Instr>, b: seq<Instr>)
    ensures SubstBody(r, a + b) == SubstBody(r, a) + SubstBody(r, b)
  {
  }

  lemma FirstLine(f: Function, t: Tables, b: nat, k: nat, big: Replacements)
    requires Ssa(f) && b < |f.blocks| && k < |f.blocks[b].body| && GoodTables(f, t, b, k + 1)
    requires Rooted(big) && Grows(f, t.replaced, big, b, k + 1)
    requires Grows(f, StepLine(t, f.blocks[b].body[k]).0.replaced, big, b, k + 2)
    ensures var line := f.blocks[b].body[k];
            SubstBody(big, StepLine(t, line).1)
            == if line.Assign? && line.result in big then [] else [SubstInstr(big, line)]
  {
    hide Known, SubstInstr, GoodReplacements;
    var line := f.blocks[b].body[k];
    UniqueOf(f);
    SubstInstrTwice(t.replaced, big, line);
    ResultSame(t.replaced, line);
    NotYetReplaced(f, t.replaced, b, k);
    var l := SubstInstr(t.replaced, line);
    match Known(t, l)
    case Some(v) =>
      KnownAssigns(t, l);
    case None =>
      if line.Assign? {
        RememberKeeps(t, l);
        assert DefinedAt(f, line.result, b, k + 1) && Earlier(b, k + 1, b, k + 2);
        KeptForGood(f, t.replaced, big, line.result, b, k + 1, b, k + 2);
      }
  }

  lemma RememberKeeps(t: Tables, line: Instr)
    ensures Remember(t, line).replaced == t.replaced
  {
  }

  lemma NoTables(f: Function, r: Replacements, b: nat)
    requires GoodReplacements(f, r, b, 1)
    ensures GoodTables(f, FreshTables(r), b, 1)
  {
  }

  lemma {:induction false} ScanBlocksGood(f: Function, r: Replacements, b: nat)
    requires Ssa(f) && b <= |f.blocks| && GoodReplacements(f, r, b, 1)
    ensures var big := ScanBlocks(r, f.blocks[b..]).0;
            GoodReplacements(f, big, |f.blocks|, 1) && Grows(f, r, big, b, 1)
    decreases |f.blocks| - b
  {
    hide GoodReplacements, Grows, ScanBody;
    if b == |f.blocks| {
      GrowsNot(f, r, b, 1);
    } else {
      assert f.blocks[b..][0] == f.blocks[b] && f.blocks[b..][1..] == f.blocks[b + 1..];
      var body := f.blocks[b].body;
      assert body[0..] == body;
      NoTables(f, r, b);
      ScanBodyGood(f, FreshTables(r), b, 0);
      var r1 := ScanBlock(r, f.blocks[b]).0;
      GoodLater(f, r1, b, |body| + 1, b + 1, 1);
      ScanBlocksGood(f, r1, b + 1);
      GrowsTwice(f, r, r1, ScanBlocks(r1, f.blocks[b + 1..]).0, b, 1, b + 1, 1);
    }
  }

  lemma GoodIsRooted(f: Function, r: Replacements, b: nat, i: nat)
    requires GoodReplacements(f, r, b, i)
    ensures Rooted(r)
  {
  }

  lemma {:induction false} ScanBlocksKept(f: Function, r: Replacements, b: nat, big: Replacements)
    requires Ssa(f) && b <= |f.blocks| && GoodReplacements(f, r, b, 1)
    requires big == ScanBlocks(r, f.blocks[b..]).0 && Rooted(big)
    ensures SubstBlocks(big, ScanBlocks(r, f.blocks[b..]).1) == Applied(big, f).blocks[b..]
    decreases |f.blocks| - b
  {
    hide GoodReplacements, Grows, ScanBody, Rooted, KeptBody, SubstBody, SubstPhis;
    if b < |f.blocks| {
      assert f.blocks[b..][0] == f.blocks[b] && f.blocks[b..][1..] == f.blocks[b + 1..];
      var body := f.blocks[b].body;
      assert body[0..] == body;
      NoTables(f, r, b);
      ScanBodyGood(f, FreshTables(r), b, 0);
      var (r1, block) := ScanBlock(r, f.blocks[b]);
      GoodLater(f, r1, b, |body| + 1, b + 1, 1);
      ScanBlocksKept(f, r1, b + 1, big);
      ScanBlocksGood(f, r1, b + 1);
      GrowsEarlier(f, r1, big, b + 1, 1, b, |body| + 1);
      GrowsTwice(f, r, r1, big, b, 1, b, |body| + 1);
      ScanBodyKept(f, FreshTables(r), b, 0, big);
      PhisKept(f, r, big, b, f.blocks[b].phis);
      assert SubstBlocks(big, [block])[0] == KeptBlock(big, f.blocks[b]);
      var rest := ScanBlocks(r1, f.blocks[b + 1..]).1;
      assert SubstBlocks(big, [block] + rest) == SubstBlocks(big, [block]) + SubstBlocks(big, rest);
      assert Applied(big, f).blocks[b..] == [Applied(big, f).blocks[b]] + Applied(big, f).blocks[b + 1..];
    }
  }

  lemma PhisKept(f: Function, r: Replacements, big: Replacements, b: nat, ps: seq<Phi>)
    requires Grows(f, r, big, b, 1) && Rooted(big)
    ensures SubstPhis(big, SubstPhis(r, ps)) == SubstPhis(big, ps)
  {
    SubstPhisTwice(r, big, ps);
  }

  lemma GrowsEarlier(f: Function, r: Replacements, big: Replacements, b: nat, i: nat, c: nat, n: nat)
    requires Grows(f, r, big, b, i) && (c < b || (c == b && n <= i))
    ensures Grows(f, r, big, c, n)
  {
    forall x <- big | x !in r
      ensures exists d, j :: DefinedAt(f, x, d, j) && !Earlier(d, j, c, n)
    {
      var d, j :| DefinedAt(f, x, d, j) && !Earlier(d, j, b, i);
      assert !Earlier(d, j, c, n);
    }
  }

  lemma NothingReplaced(f: Function)
    ensures GoodReplacements(f, map[], 0, 1)
  {
  }

  /** The pass drops exactly the replaced definitions and substitutes everywhere else, or
      leaves the function alone. */
  lemma RewrittenIsApplied(f: Function)
    requires Ssa(f)
    ensures GoodReplacements(f, Replaced(f), |f.blocks|, 1) && Rooted(Replaced(f))
    ensures Rewritten(f).0 == if Rewritten(f).1 then Applied(Replaced(f), f) else f
    ensures Rewritten(f).1 <==> !UsesNumbers(f) && Replaced(f) != map[]
  {
    hide ScanBlock, Applied, SubstBlocks, GoodReplacements, Rooted, Ssa;
    NothingReplaced(f);
    assert f.blocks[0..] == f.blocks;
    ScanBlocksGood(f, map[], 0);
    var big := Replaced(f);
    GoodIsRooted(f, big, |f.blocks|, 1);
    ScanBlocksKept(f, map[], 0, big);
    assert Applied(big, f).blocks[0..] == Applied(big, f).blocks;
  }

  // ---------------------------------------------------------------- one block of the pass

  function ReplacedBefore(f: Function, b: nat): Replacements
    requires b <= |f.blocks|
  {
    if b == 0 then map[] else ScanBlock(ReplacedBefore(f, b - 1), f.blocks[b - 1]).0
  }

  lemma {:induction false} ScanFrom(f: Function, b: nat)
    requires Ssa(f) && b <= |f.blocks|
    ensures GoodReplacements(f, ReplacedBefore(f, b), b, 1)
    ensures Replaced(f) == ScanBlocks(ReplacedBefore(f, b), f.blocks[b..]).0
  {
    hide GoodReplacements, ScanBody, Grows;
    if b == 0 {
      NothingReplaced(f);
      assert f.blocks[0..] == f.blocks;
    } else {
      ScanFrom(f, b - 1);
      var r := ReplacedBefore(f, b - 1);
      assert f.blocks[b - 1..][0] == f.blocks[b - 1] && f.blocks[b - 1..][1..] == f.blocks[b..];
      var body := f.blocks[b - 1].body;
      assert body[0..] == body;
      NoTables(f, r, b - 1);
      ScanBodyGood(f, FreshTables(r), b - 1, 0);
      GoodLater(f, ReplacedBefore(f, b), b - 1, |body| + 1, b, 1);
    }
  }

  /** What the pass knows when it scans block `b`, and how it ends up in the final replacements. */
  lemma BlockScan(f: Function, b: nat)
    requires Ssa(f) && b < |f.blocks|
    ensures var r := ReplacedBefore(f, b); var body := f.blocks[b].body;
            && GoodTables(f, FreshTables(r), b, 1)
            && Grows(f, ScanBody(FreshTables(r), body[0..]).0.replaced, Replaced(f), b, |body| + 1)
  {
    hide GoodReplacements, Grows, ScanBody;
    ScanFrom(f, b);
    ScanFrom(f, b + 1);
    var r, body := ReplacedBefore(f, b), f.blocks[b].body;
    assert body[0..] == body;
    NoTables(f, r, b);
    ScanBlocksGood(f, ReplacedBefore(f, b + 1), b + 1);
    GrowsEarlier(f, ReplacedBefore(f, b + 1), Replaced(f), b + 1, 1, b, |body| + 1);
  }
}
