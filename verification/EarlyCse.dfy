/** Block-local reuse of common subexpressions and memory values over structured functions:
    the syntax, the pass as the program runs it, and its closed form. */
module EarlyCse {
  import opened Octets

  // ---------------------------------------------------------------- syntax

  type Name = string

  datatype Value = Local(name: Name) | Global(text: string) | Literal(text: string)

  /** The right-hand sides the pass tells apart. `General` is every other text, with its
      operands taken out. */
  datatype Rhs =
    | BitcastPtr(pointer: Value)
    | LoadScalar(ty: string, pointer: Value, alignment: string)
    | Commutative(op: string, flags: string, ty: string, left: Value, right: Value)
    | General(opcode: string, text: string, args: seq<Value>)

  /** `uncertain` marks a line that mentions undef, poison, atomic, volatile or metadata. */
  datatype Instr =
    | Assign(result: Name, rhs: Rhs, uncertain: bool)
    | StoreScalar(ty: string, value: Value, pointer: Value, alignment: string, uncertain: bool)
    | Effect(text: string, args: seq<Value>)

  datatype Phi = Phi(result: Name, incoming: map<nat, Value>)

  datatype Block = Block(phis: seq<Phi>, body: seq<Instr>)

  /** Blocks in textual order, the first being the entry, with the targets of each. */
  datatype Function = Function(blocks: seq<Block>, targets: seq<set<nat>>)

  const PURE: set<string> := {
    "add", "sub", "mul", "and", "or", "xor", "shl", "lshr", "ashr", "icmp", "select",
    "getelementptr", "bitcast", "zext", "sext", "trunc", "extractvalue", "insertvalue"
  }

  // ---------------------------------------------------------------- operands and substitution

  type Replacements = map<Name, Value>

  function Subst(r: Replacements, v: Value): Value {
    if v.Local? && v.name in r then r[v.name] else v
  }

  function SubstAll(r: Replacements, vs: seq<Value>): (us: seq<Value>)
    ensures |us| == |vs| && forall i :: 0 <= i < |vs| ==> us[i] == Subst(r, vs[i])
  {
    seq(|vs|, i requires 0 <= i < |vs| => Subst(r, vs[i]))
  }

  function RhsOperands(rhs: Rhs): seq<Value> {
    match rhs
    case BitcastPtr(p) => [p]
    case LoadScalar(_, p, _) => [p]
    case Commutative(_, _, _, a, b) => [a, b]
    case General(_, _, args) => args
  }

  function Operands(i: Instr): seq<Value> {
    match i
    case Assign(_, rhs, _) => RhsOperands(rhs)
    case StoreScalar(_, v, p, _, _) => [v, p]
    case Effect(_, args) => args
  }

  function SubstRhs(r: Replacements, rhs: Rhs): (s: Rhs)
    ensures RhsOperands(s) == SubstAll(r, RhsOperands(rhs))
  {
    match rhs
    case BitcastPtr(p) => BitcastPtr(Subst(r, p))
    case LoadScalar(ty, p, alignment) => LoadScalar(ty, Subst(r, p), alignment)
    case Commutative(op, flags, ty, a, b) => Commutative(op, flags, ty, Subst(r, a), Subst(r, b))
    case General(opcode, text, args) => General(opcode, text, SubstAll(r, args))
  }

  function SubstInstr(r: Replacements, i: Instr): (j: Instr)
    ensures Operands(j) == SubstAll(r, Operands(i))
  {
    match i
    case Assign(x, rhs, u) => Assign(x, SubstRhs(r, rhs), u)
    case StoreScalar(ty, v, p, alignment, u) => StoreScalar(ty, Subst(r, v), Subst(r, p), alignment, u)
    case Effect(text, args) => Effect(text, SubstAll(r, args))
  }

  function SubstPhi(r: Replacements, p: Phi): Phi {
    Phi(p.result, map b <- p.incoming :: Subst(r, p.incoming[b]))
  }

  function SubstPhis(r: Replacements, ps: seq<Phi>): (qs: seq<Phi>)
    ensures |qs| == |ps| && forall i :: 0 <= i < |ps| ==> qs[i] == SubstPhi(r, ps[i])
  {
    seq(|ps|, i requires 0 <= i < |ps| => SubstPhi(r, ps[i]))
  }

  function SubstBody(r: Replacements, body: seq<Instr>): (out: seq<Instr>)
    ensures |out| == |body| && forall i :: 0 <= i < |body| ==> out[i] == SubstInstr(r, body[i])
  {
    seq(|body|, i requires 0 <= i < |body| => SubstInstr(r, body[i]))
  }

  function SubstBlocks(r: Replacements, blocks: seq<Block>): (out: seq<Block>)
    ensures |out| == |blocks|
    ensures forall i :: 0 <= i < |blocks| ==>
              out[i] == Block(SubstPhis(r, blocks[i].phis), SubstBody(r, blocks[i].body))
  {
    seq(|blocks|, i requires 0 <= i < |blocks| => Block(SubstPhis(r, blocks[i].phis), SubstBody(r, blocks[i].body)))
  }

  // ---------------------------------------------------------------- keys

  function Text(v: Value): string {
    match v
    case Local(name) => "%" + name
    case Global(text) => "@" + text
    case Literal(text) => text
  }

  /** The order of operand texts, by code point. */
  predicate Before(a: string, b: string) {
    if b == "" then false
    else if a == "" then true
    else if a[0] != b[0] then a[0] < b[0]
    else Before(a[1..], b[1..])
  }

  /** `_expression_key(rhs)`: commuting operands in text order. */
  function ExpressionKey(rhs: Rhs): Rhs {
    if rhs.Commutative? && Before(Text(rhs.right), Text(rhs.left))
    then Commutative(rhs.op, rhs.flags, rhs.ty, rhs.right, rhs.left)
    else rhs
  }

  // ---------------------------------------------------------------- the pass

  /** The replacements so far and the current block's tables. */
  datatype Tables = Tables(
    replaced: Replacements, expressions: map<Rhs, Value>, loads: map<Rhs, Value>, stores: map<(string, Value), Value>)

  /** The texts the pass takes for a pointer: a name, never a literal such as null. */
  predicate Pointer(v: Value) {
    !v.Literal?
  }

  predicate Reusable(rhs: Rhs) {
    match rhs
    case BitcastPtr(p) => !Pointer(p)
    case LoadScalar(_, _, _) => false
    case Commutative(_, _, _, _, _) => true
    case General(opcode, _, _) => opcode in PURE
  }

  /** A line that may touch memory: nothing remembered of memory survives but its own store. */
  function Clobbered(t: Tables, line: Instr): Tables {
    t.(loads := map[],
       stores := if line.StoreScalar? && !line.uncertain && Pointer(line.pointer) then
         map[(line.ty, line.pointer) := line.value] else map[])
  }

  /** What the tables know of a line's value, if anything. */
  function Known(t: Tables, line: Instr): Option<Value> {
    if !line.Assign? || line.uncertain then None
    else
      match line.rhs
      case BitcastPtr(p) =>
        if Pointer(p) then Some(p)
        else if line.rhs in t.expressions then Some(t.expressions[line.rhs])
        else None
      case LoadScalar(ty, p, _) =>
        if !Pointer(p) then None
        else if (ty, p) in t.stores then Some(t.stores[(ty, p)])
        else if line.rhs in t.loads then Some(t.loads[line.rhs])
        else None
      case _ =>
        if Reusable(line.rhs) && ExpressionKey(line.rhs) in t.expressions then
          Some(t.expressions[ExpressionKey(line.rhs)])
        else None
  }

  /** The tables after a line that stays. */
  function Remember(t: Tables, line: Instr): Tables {
    if line.Assign? && !line.uncertain && line.rhs.LoadScalar? && Pointer(line.rhs.pointer) then
      t.(loads := t.loads[line.rhs := Local(line.result)])
    else if line.Assign? && !line.uncertain && Reusable(line.rhs) then
      t.(expressions := t.expressions[ExpressionKey(line.rhs) := Local(line.result)])
    else Clobbered(t, line)
  }

  /** One line: the new tables, and the line unless its result is replaced. */
  function StepLine(t: Tables, original: Instr): (Tables, seq<Instr>) {
    var line := SubstInstr(t.replaced, original);
    match Known(t, line)
    case Some(v) => (t.(replaced := t.replaced[line.result := v]), [])
    case None => (Remember(t, line), [line])
  }

  function ScanBody(t: Tables, body: seq<Instr>): (Tables, seq<Instr>)
    decreases |body|
  {
    if body == [] then (t, [])
    else
      var (t1, line) := StepLine(t, body[0]);
      var (t2, rest) := ScanBody(t1, body[1..]);
      (t2, line + rest)
  }

  function FreshTables(r: Replacements): Tables {
    Tables(r, map[], map[], map[])
  }

  function ScanBlock(r: Replacements, b: Block): (Replacements, Block) {
    var (t, body) := ScanBody(FreshTables(r), b.body);
    (t.replaced, Block(SubstPhis(r, b.phis), body))
  }

  function ScanBlocks(r: Replacements, blocks: seq<Block>): (Replacements, seq<Block>)
    decreases |blocks|
  {
    if blocks == [] then (r, [])
    else
      var (r1, b) := ScanBlock(r, blocks[0]);
      var (r2, rest) := ScanBlocks(r1, blocks[1..]);
      (r2, [b] + rest)
  }

  /** Every name the pass replaces, with its replacement. */
  function Replaced(f: Function): Replacements {
    ScanBlocks(map[], f.blocks).0
  }

  predicate Numbered(name: Name) {
    name != "" && forall i :: 0 <= i < |name| ==> '0' <= name[i] <= '9'
  }

  predicate NumberedResult(i: Instr) {
    i.Assign? && Numbered(i.result)
  }

  predicate BlockUsesNumbers(b: Block) {
    || (exists i :: 0 <= i < |b.phis| && Numbered(b.phis[i].result))
    || (exists i :: 0 <= i < |b.body| && NumberedResult(b.body[i]))
  }

  predicate UsesNumbers(f: Function) {
    exists b :: 0 <= b < |f.blocks| && BlockUsesNumbers(f.blocks[b])
  }

  /** `_rewrite_function(...)`. */
  function Rewritten(f: Function): (Function, bool) {
    var (r, out) := ScanBlocks(map[], f.blocks);
    if UsesNumbers(f) || r == map[] then (f, false)
    else (f.(blocks := SubstBlocks(r, out)), true)
  }

  // ---------------------------------------------------------------- the program's loops

  method RewriteBlock(r: Replacements, b: Block) returns (replaced: Replacements, out: Block)
    ensures (replaced, out) == ScanBlock(r, b)
  {
    hide StepLine;
    var t := FreshTables(r);
    var body: seq<Instr> := [];
    assert b.body[0..] == b.body && body + ScanBody(t, b.body).1 == ScanBody(t, b.body).1;
    for k := 0 to |b.body|
      invariant ScanBody(FreshTables(r), b.body) ==
                (ScanBody(t, b.body[k..]).0, body + ScanBody(t, b.body[k..]).1)
    {
      assert b.body[k..][0] == b.body[k] && b.body[k..][1..] == b.body[k + 1..];
      var (next, line) := StepLine(t, b.body[k]);
      assert body + (line + ScanBody(next, b.body[k + 1..]).1) == body + line + ScanBody(next, b.body[k + 1..]).1;
      t, body := next, body + line;
    }
    assert b.body[|b.body|..] == [] && body + [] == body;
    return t.replaced, Block(SubstPhis(r, b.phis), body);
  }

  method RewriteFunction(f: Function) returns (g: Function, changed: bool)
    ensures (g, changed) == Rewritten(f)
  {
    hide ScanBlock;
    if UsesNumbers(f) {
      return f, false;
    }
    var r: Replacements := map[];
    var out: seq<Block> := [];
    assert f.blocks[0..] == f.blocks && out + ScanBlocks(r, f.blocks).1 == ScanBlocks(r, f.blocks).1;
    for k := 0 to |f.blocks|
      invariant ScanBlocks(map[], f.blocks) ==
                (ScanBlocks(r, f.blocks[k..]).0, out + ScanBlocks(r, f.blocks[k..]).1)
    {
      assert f.blocks[k..][0] == f.blocks[k] && f.blocks[k..][1..] == f.blocks[k + 1..];
      var next, block := RewriteBlock(r, f.blocks[k]);
      assert out + ([block] + ScanBlocks(next, f.blocks[k + 1..]).1) == out + [block]
               + ScanBlocks(next, f.blocks[k + 1..]).1;
      r, out := next, out + [block];
    }
    assert f.blocks[|f.blocks|..] == [] && out + [] == out;
    if r == map[] {
      return f, false;
    }
    return f.(blocks := SubstBlocks(r, out)), true;
  }
}
