/** Bytes, byte scanners and the line structure of an HTTP/1 field block.
    Text in the codecs is Latin-1, so a text character is the byte it decodes from. */
module Octets {

  type byte = x: int | 0 <= x < 256
  type bytes = seq<byte>

  datatype Result<+T, +E> = Ok(value: T) | Err(error: E)

  datatype Option<+T> = None | Some(value: T)

  const CRLF: bytes := [13, 10]

  function Min(a: nat, b: nat): nat { if a <= b then a else b }

  // ---------------------------------------------------------------- scanners

  predicate CrlfAt(s: bytes, i: int) {
    0 <= i && i + 1 < |s| && s[i] == 13 && s[i + 1] == 10
  }

  predicate DoubleCrlfAt(s: bytes, i: int) {
    CrlfAt(s, i) && CrlfAt(s, i + 2)
  }

  /** First CRLF, or -1. */
  function FindCrlf(s: bytes): (r: int)
    ensures -1 <= r && (r >= 0 ==> CrlfAt(s, r))
    ensures forall j :: 0 <= j && (r < 0 || j < r) ==> !CrlfAt(s, j)
  {
    FindCrlfFrom(s, 0)
  }

  function FindCrlfFrom(s: bytes, i: nat): (r: int)
    ensures r == -1 || (i <= r && CrlfAt(s, r))
    ensures forall j :: i <= j && (r < 0 || j < r) ==> !CrlfAt(s, j)
    decreases |s| - i
  {
    if i + 1 >= |s| then -1 else if CrlfAt(s, i) then i else FindCrlfFrom(s, i + 1)
  }

  /** First empty line, or -1. */
  function FindDoubleCrlf(s: bytes): (r: int)
    ensures -1 <= r && (r >= 0 ==> DoubleCrlfAt(s, r))
    ensures forall j :: 0 <= j && (r < 0 || j < r) ==> !DoubleCrlfAt(s, j)
  {
    FindDoubleCrlfFrom(s, 0)
  }

  function FindDoubleCrlfFrom(s: bytes, i: nat): (r: int)
    ensures r == -1 || (i <= r && DoubleCrlfAt(s, r))
    ensures forall j :: i <= j && (r < 0 || j < r) ==> !DoubleCrlfAt(s, j)
    decreases |s| - i
  {
    if i + 3 >= |s| then -1 else if DoubleCrlfAt(s, i) then i else FindDoubleCrlfFrom(s, i + 1)
  }

  /** First occurrence of one byte, or -1. */
  function FindByte(s: bytes, b: byte): (r: int)
    ensures -1 <= r < |s| && (r >= 0 ==> s[r] == b)
    ensures forall j :: 0 <= j < |s| && (r < 0 || j < r) ==> s[j] != b
  {
    if s == [] then -1
    else if s[0] == b then 0
    else var r := FindByte(s[1..], b); if r < 0 then -1 else r + 1
  }

  method ScanCrlf(data: bytes) returns (index: int)
    ensures index == FindCrlf(data)
  {
    index := 0;
    while index + 1 < |data|
      invariant 0 <= index
      invariant forall j :: 0 <= j < index ==> !CrlfAt(data, j)
    {
      if data[index] == 13 && data[index + 1] == 10 {
        assert CrlfAt(data, index);
        return;
      }
      index := index + 1;
    }
    index := -1;
  }

  method ScanDoubleCrlf(data: bytes) returns (index: int)
    ensures index == FindDoubleCrlf(data)
  {
    index := 0;
    var limit := |data| - 3;
    while index < limit
      invariant 0 <= index
      invariant forall j :: 0 <= j < index ==> !DoubleCrlfAt(data, j)
    {
      if data[index] == 13 && data[index + 1] == 10 && data[index + 2] == 13 && data[index + 3] == 10 {
        assert DoubleCrlfAt(data, index);
        return;
      }
      index := index + 1;
    }
    index := -1;
  }

  /** A scanner's hit does not move when more bytes arrive, and a miss can only
      become a hit that uses one of the new bytes. */
  lemma FindCrlfExtend(s: bytes, x: bytes)
    ensures FindCrlf(s) >= 0 ==> FindCrlf(s + x) == FindCrlf(s)
    ensures FindCrlf(s) < 0 && FindCrlf(s + x) >= 0 ==> FindCrlf(s + x) >= |s| - 1
  {
    assert forall j :: j + 1 < |s| ==> CrlfAt(s, j) == CrlfAt(s + x, j);
  }

  lemma FindDoubleCrlfExtend(s: bytes, x: bytes)
    ensures FindDoubleCrlf(s) >= 0 ==> FindDoubleCrlf(s + x) == FindDoubleCrlf(s)
    ensures FindDoubleCrlf(s) < 0 && FindDoubleCrlf(s + x) >= 0 ==> FindDoubleCrlf(s + x) >= |s| - 3
  {
    assert forall j :: j + 3 < |s| ==> DoubleCrlfAt(s, j) == DoubleCrlfAt(s + x, j);
  }

  // ---------------------------------------------------------------- splitting

  /** `block.split(b"\r\n")`. */
  function SplitCrlf(s: bytes): (r: seq<bytes>)
    ensures |r| > 0
  {
    var m := FindCrlf(s);
    if m < 0 then [s] else [s[..m]] + SplitCrlf(s[m + 2..])
  }

  /** The text whose lines are `lines`, without a final line end. */
  function Block(lines: seq<bytes>): bytes
    requires |lines| > 0
  {
    if |lines| == 1 then lines[0] else lines[0] + CRLF + Block(lines[1..])
  }

  predicate CleanLine(line: bytes) {
    line != [] && forall i :: 0 <= i < |line| ==> line[i] != 13
  }

  predicate CleanLines(lines: seq<bytes>) {
    forall i :: 0 <= i < |lines| ==> CleanLine(lines[i])
  }

  lemma NoCrlfInLine(line: bytes, rest: bytes)
    requires forall i :: 0 <= i < |line| ==> line[i] != 13
    ensures FindCrlf(line) == -1
    ensures FindCrlf(line + CRLF + rest) == |line|
  {
    var s := line + CRLF + rest;
    assert CrlfAt(s, |line|);
    assert forall j :: 0 <= j < |line| ==> s[j] == line[j];
  }

  lemma {:induction false} SplitBlock(lines: seq<bytes>)
    requires |lines| > 0 && CleanLines(lines)
    ensures SplitCrlf(Block(lines)) == lines
  {
    assert CleanLine(lines[0]);
    if |lines| == 1 {
      NoCrlfInLine(lines[0], []);
    } else {
      var rest := Block(lines[1..]);
      NoCrlfInLine(lines[0], rest);
      var s := lines[0] + CRLF + rest;
      assert s[..|lines[0]|] == lines[0];
      assert s[|lines[0]| + 2..] == rest;
      assert forall i :: 0 <= i < |lines| - 1 ==> lines[1..][i] == lines[i + 1];
      SplitBlock(lines[1..]);
    }
  }

  /** A clean line in front moves the first empty line back by as much. */
  lemma EndAfterLine(l: bytes, t: bytes)
    requires CleanLine(l) && t != [] && t[0] != 13 && FindDoubleCrlf(t) >= 0
    ensures FindDoubleCrlf(l + CRLF + t) == |l| + 2 + FindDoubleCrlf(t)
  {
    var s := l + CRLF + t;
    assert forall j :: 0 <= j < |l| ==> s[j] == l[j];
    assert forall j :: 0 <= j < |t| ==> s[|l| + 2 + j] == t[j];
    assert DoubleCrlfAt(s, |l| + 2 + FindDoubleCrlf(t));
    forall j | 0 <= j < |l| + 2 + FindDoubleCrlf(t) ensures !DoubleCrlfAt(s, j) {
      if j >= |l| + 2 {
        assert !DoubleCrlfAt(t, j - |l| - 2);
      }
    }
  }

  /** The first empty line after clean lines is the one that ends the block. */
  lemma {:induction false} BlockEnd(lines: seq<bytes>, rest: bytes)
    requires |lines| > 0 && CleanLines(lines)
    ensures FindDoubleCrlf(Block(lines) + CRLF + CRLF + rest) == |Block(lines)|
    ensures |Block(lines)| > 0 && Block(lines)[0] == lines[0][0]
  {
    var l := lines[0];
    assert CleanLine(l);
    var s := Block(lines) + CRLF + CRLF + rest;
    if |lines| == 1 {
      assert forall j :: 0 <= j < |l| ==> s[j] == l[j];
      assert DoubleCrlfAt(s, |l|);
    } else {
      assert forall i :: 0 <= i < |lines| - 1 ==> lines[1..][i] == lines[i + 1];
      var tail := Block(lines[1..]);
      BlockEnd(lines[1..], rest);
      var t := tail + CRLF + CRLF + rest;
      assert s == l + CRLF + t;
      assert t[0] == lines[1][0];
      assert CleanLine(lines[1]);
      EndAfterLine(l, t);
      assert |Block(lines)| == |l| + 2 + |tail|;
    }
  }

  /** Every line followed by CRLF. */
  function Terminated(lines: seq<bytes>): bytes {
    if lines == [] then [] else lines[0] + CRLF + Terminated(lines[1..])
  }

  lemma {:induction false} TerminatedIsBlock(lines: seq<bytes>)
    requires |lines| > 0
    ensures Terminated(lines) == Block(lines) + CRLF
  {
    if |lines| > 1 {
      TerminatedIsBlock(lines[1..]);
      assert lines[0] + CRLF + (Block(lines[1..]) + CRLF) == lines[0] + CRLF + Block(lines[1..]) + CRLF;
    } else {
      assert lines[1..] == [];
      assert lines[0] + CRLF + [] == lines[0] + CRLF;
    }
  }

  lemma {:induction false} TerminatedAppend(a: seq<bytes>, b: seq<bytes>)
    ensures Terminated(a + b) == Terminated(a) + Terminated(b)
  {
    if a == [] {
      assert a + b == b;
    } else {
      assert (a + b)[1..] == a[1..] + b;
      TerminatedAppend(a[1..], b);
      assert a[0] + CRLF + (Terminated(a[1..]) + Terminated(b)) == a[0] + CRLF + Terminated(a[1..]) + Terminated(b);
    }
  }

  lemma FirstByte(line: bytes)
    requires CleanLine(line)
    ensures line[0] != 13
  {
  }

  /** A clean block, written line by line and closed by an empty line. */
  lemma TerminatedBlock(lines: seq<bytes>)
    requires lines != [] && CleanLines(lines)
    ensures var out := Terminated(lines) + CRLF;
            && |out| > 4 && FindDoubleCrlf(out) == |out| - 4
            && out[0] == lines[0][0] && out[..2] != CRLF
            && SplitCrlf(out[..|out| - 4]) == lines
  {
    hide CleanLine;
    var block := Block(lines);
    var out := Terminated(lines) + CRLF;
    TerminatedIsBlock(lines);
    BlockEnd(lines, []);
    assert out == block + CRLF + CRLF + [];
    assert out[..|out| - 4] == block;
    SplitBlock(lines);
    assert CleanLine(lines[0]);
    FirstByte(lines[0]);
  }

  lemma Slices(b: bytes, x: bytes, i: nat)
    requires i <= |b|
    ensures (b + x)[..i] == b[..i] && (b + x)[i..] == b[i..] + x
  {
  }

  /** The lines are all of the text between its line ends, and no line contains one. */
  lemma {:induction false} LinesJoinBack(s: bytes)
    ensures Block(SplitCrlf(s)) == s
    ensures forall i, k :: 0 <= i < |SplitCrlf(s)| && 0 <= k < |SplitCrlf(s)[i]| ==> !CrlfAt(SplitCrlf(s)[i], k)
    decreases |s|
  {
    var m := FindCrlf(s);
    if m >= 0 {
      var line, rest := s[..m], s[m + 2..];
      LinesJoinBack(rest);
      assert SplitCrlf(s)[1..] == SplitCrlf(rest);
      assert s == line + CRLF + rest;
      forall k | 0 <= k < |line| ensures !CrlfAt(line, k) {
        assert !CrlfAt(s, k);
      }
    }
  }

  /** `s.split(sep)` for a one-byte separator. */
  function SplitByte(s: bytes, sep: byte): (r: seq<bytes>)
    ensures |r| > 0
  {
    var m := FindByte(s, sep);
    if m < 0 then [s] else [s[..m]] + SplitByte(s[m + 1..], sep)
  }

  // ---------------------------------------------------------------- text

  /** `chr(b).lower()` for a Latin-1 character. */
  function LowerByte(b: byte): byte {
    if 65 <= b <= 90 || (192 <= b <= 222 && b != 215) then b + 32 else b
  }

  function Lower(s: bytes): (r: bytes)
    ensures |r| == |s| && forall i :: 0 <= i < |s| ==> r[i] == LowerByte(s[i])
  {
    seq(|s|, i requires 0 <= i < |s| => LowerByte(s[i]))
  }

  /** White space of `str.strip()` among the Latin-1 characters. */
  predicate TextSpace(b: byte) {
    9 <= b <= 13 || 28 <= b <= 32 || b == 133 || b == 160
  }

  predicate Blank(b: byte) {
    b == 32 || b == 9
  }

  function StripLeft(s: bytes, drop: byte -> bool): (r: bytes)
    ensures |r| <= |s| && r == s[|s| - |r|..]
    ensures r != [] ==> !drop(r[0])
  {
    if s != [] && drop(s[0]) then StripLeft(s[1..], drop) else s
  }

  function StripRight(s: bytes, drop: byte -> bool): (r: bytes)
    ensures |r| <= |s| && r == s[..|r|]
    ensures r != [] ==> !drop(r[|r| - 1])
  {
    if s != [] && drop(s[|s| - 1]) then StripRight(s[..|s| - 1], drop) else s
  }

  function Strip(s: bytes, drop: byte -> bool): (r: bytes)
    ensures r != [] ==> !drop(r[0]) && !drop(r[|r| - 1])
    ensures forall b :: b in r ==> b in s
  {
    var t := StripRight(StripLeft(s, drop), drop);
    assert forall b :: b in t ==> b in StripLeft(s, drop);
    t
  }

  lemma StripStripped(s: bytes, drop: byte -> bool)
    requires s != [] ==> !drop(s[0]) && !drop(s[|s| - 1])
    ensures Strip(s, drop) == s
  {
  }

  lemma {:induction false} LeftTakes(s: bytes, drop: byte -> bool)
    ensures forall k :: 0 <= k < |s| - |StripLeft(s, drop)| ==> drop(s[k])
  {
    if s != [] && drop(s[0]) {
      LeftTakes(s[1..], drop);
      forall k | 0 <= k < |s| - |StripLeft(s, drop)| ensures drop(s[k]) {
        assert k > 0 ==> s[k] == s[1..][k - 1];
      }
    }
  }

  lemma {:induction false} RightTakes(s: bytes, drop: byte -> bool)
    ensures forall k :: |StripRight(s, drop)| <= k < |s| ==> drop(s[k])
    decreases |s|
  {
    if s != [] && drop(s[|s| - 1]) {
      RightTakes(s[..|s| - 1], drop);
    }
  }

  /** Stripping takes off only what is to be dropped, and only at the ends. */
  lemma StripTakesEnds(s: bytes, drop: byte -> bool) returns (i: nat, j: nat)
    ensures i <= j <= |s| && Strip(s, drop) == s[i..j]
    ensures forall k :: 0 <= k < i || j <= k < |s| ==> drop(s[k])
  {
    hide StripLeft, StripRight;
    var right := StripLeft(s, drop);
    LeftTakes(s, drop);
    RightTakes(right, drop);
    i := |s| - |right|;
    j := i + |StripRight(right, drop)|;
    forall k | j <= k < |s| ensures drop(s[k]) {
      assert s[k] == right[k - i];
    }
  }

  /** Leading blanks that an encoder writes before a stripped value come off again. */
  lemma StripLeading(b: byte, s: bytes, drop: byte -> bool)
    requires drop(b)
    ensures Strip([b] + s, drop) == Strip(s, drop)
  {
    assert ([b] + s)[1..] == s;
  }
}
