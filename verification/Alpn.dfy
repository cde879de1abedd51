/** Protocol names on their way from the gateway's configuration to the TLS library: checked,
    framed as text for the provider, and turned by the C shim into the length-prefixed names of
    section 3.1 of RFC 7301. */
module Alpn {
  import opened Octets
  import opened Numerals
  import opened Joining

  /** `size_t` of a 64-bit target: every operation below is proved to stay inside it. */
  newtype Size = x: int | 0 <= x < 0x1_0000_0000_0000_0000

  const SIZE_MAX: Size := 0xFFFF_FFFF_FFFF_FFFF
  const WIRE_MAX: Size := 8192
  const UINT_MAX: Size := 0xFFFF_FFFF
  const MAX_PROTOCOLS := 16
  const COLON: byte := 58

  type codepoint = x: int | 0 <= x < 0x110000

  // ---------------------------------------------------------------- configuration

  datatype AlpnError = TooMany | BadLength | NotAscii | Duplicate

  predicate Ascii(s: seq<codepoint>) {
    forall i :: 0 <= i < |s| ==> s[i] < 128
  }

  predicate Name(s: seq<codepoint>) {
    1 <= |s| <= 255 && Ascii(s)
  }

  predicate Acceptable(names: seq<seq<codepoint>>) {
    && |names| <= MAX_PROTOCOLS
    && (forall i :: 0 <= i < |names| ==> Name(names[i]))
    && (forall i, j :: 0 <= i < j < |names| ==> names[i] != names[j])
  }

  /** Accepts exactly the short lists of distinct ASCII names, and reports the first offence. */
  method ValidateAlpn(protocols: seq<seq<codepoint>>) returns (r: Result<seq<seq<codepoint>>, AlpnError>)
    ensures r.Ok? <==> Acceptable(protocols)
    ensures r.Ok? ==> r.value == protocols
    ensures r.Err? && r.error == TooMany <==> |protocols| > MAX_PROTOCOLS
    ensures r.Err? && r.error != TooMany ==>
              exists i :: 0 <= i < |protocols| && Acceptable(protocols[..i])
                          && r.error == Offence(protocols[i], protocols[..i])
  {
    if |protocols| > MAX_PROTOCOLS {
      return Err(TooMany);
    }
    var result: seq<seq<codepoint>> := [];
    for i := 0 to |protocols|
      invariant result == protocols[..i] && Acceptable(result)
    {
      var protocol := protocols[i];
      assert protocols[..i + 1][i] == protocol;
      if |protocol| == 0 || |protocol| > 255 {
        return Err(BadLength);
      }
      if !Ascii(protocol) {
        return Err(NotAscii);
      }
      if protocol in result {
        return Err(Duplicate);
      }
      result := result + [protocol];
    }
    assert protocols[..|protocols|] == protocols;
    return Ok(result);
  }

  /** Why a name that cannot follow the earlier ones is refused. */
  function Offence(protocol: seq<codepoint>, earlier: seq<seq<codepoint>>): (e: AlpnError)
    ensures e != TooMany
  {
    if |protocol| == 0 || |protocol| > 255 then BadLength else if !Ascii(protocol) then NotAscii else Duplicate
  }

  // ---------------------------------------------------------------- the two framings

  predicate Names(names: seq<bytes>) {
    forall i :: 0 <= i < |names| ==> 1 <= |names[i]| <= 255
  }

  function Framed(name: bytes): bytes {
    Decimal(|name|) + [COLON] + name
  }

  /** The provider's text framing: decimal length, colon, name. */
  function Text(names: seq<bytes>): bytes {
    if names == [] then [] else Framed(names[0]) + Text(names[1..])
  }

  method AlpnWire(names: seq<bytes>) returns (output: bytes)
    ensures output == Text(names)
  {
    output := [];
    for i := 0 to |names|
      invariant output == Text(names[..i])
    {
      assert names[..i + 1] == names[..i] + [names[i]];
      TextAppend(names[..i], [names[i]]);
      ghost var one: seq<bytes> := [names[i]];
      assert one[1..] == [];
      output := output + (Decimal(|names[i]|) + [COLON] + names[i]);
    }
    assert names[..|names|] == names;
  }

  lemma {:induction false} TextAppend(a: seq<bytes>, b: seq<bytes>)
    ensures Text(a + b) == Text(a) + Text(b)
  {
    if a == [] {
      assert a + b == b;
    } else {
      assert (a + b)[1..] == a[1..] + b;
      TextAppend(a[1..], b);
    }
  }

  /** Names as a TLS extension carries them: one length byte and the name. */
  function Vectors(names: seq<bytes>): bytes
    requires Names(names)
  {
    if names == [] then [] else [|names[0]| as byte] + names[0] + Vectors(names[1..])
  }

  /** How the peer reads them back. */
  function ReadVectors(wire: bytes): Option<seq<bytes>> {
    if wire == [] then Some([])
    else if wire[0] == 0 || wire[0] >= |wire| then None
    else match ReadVectors(wire[1 + wire[0]..])
      case None => None
      case Some(rest) => Some([wire[1..1 + wire[0]]] + rest)
  }

  lemma {:induction false} VectorsRead(names: seq<bytes>)
    requires Names(names)
    ensures ReadVectors(Vectors(names)) == Some(names)
  {
    if names != [] {
      var wire := Vectors(names);
      assert wire[1..1 + wire[0]] == names[0];
      assert wire[1 + wire[0]..] == Vectors(names[1..]);
      VectorsRead(names[1..]);
      assert [names[0]] + names[1..] == names;
    }
  }

  lemma {:induction false} VectorsAppend(a: seq<bytes>, b: seq<bytes>)
    requires Names(a) && Names(b)
    ensures Vectors(a + b) == Vectors(a) + Vectors(b)
  {
    if a == [] {
      assert a + b == b;
    } else {
      assert (a + b)[1..] == a[1..] + b;
      VectorsAppend(a[1..], b);
    }
  }

  lemma OneMoreVector(done: seq<bytes>, name: bytes)
    requires Names(done) && 1 <= |name| <= 255
    ensures Names(done + [name]) && Vectors(done + [name]) == Vectors(done) + [|name| as byte] + name
  {
    var one: seq<bytes> := [name];
    assert one[1..] == [];
    VectorsAppend(done, one);
  }

  // ---------------------------------------------------------------- what the shim accepts

  function DigitRun(s: bytes): (n: nat)
    ensures n <= |s| && Digits(s[..n]) && (n < |s| ==> !Digit(s[n]))
  {
    if s == [] || !Digit(s[0]) then 0 else 1 + DigitRun(s[1..])
  }

  /** The length at the start of a frame and the place of its name. */
  function ReadLength(s: bytes): (r: Option<(nat, nat)>)
    ensures r.Some? ==> 2 <= r.value.0 && 1 <= r.value.1 <= 255 && r.value.0 + r.value.1 <= |s|
  {
    var n := DigitRun(s);
    if n == 0 || n == |s| || s[n] != COLON then None
    else
      var value := DecimalValue(s[..n]);
      if value == 0 || value > 255 || value > |s| - (n + 1) then None else Some((n + 1, value))
  }

  function Parse(s: bytes): (r: Option<seq<bytes>>)
    ensures r.Some? ==> Names(r.value)
  {
    if s == [] then Some([])
    else match ReadLength(s)
      case None => None
      case Some((start, n)) =>
        match Parse(s[start + n..])
        case None => None
        case Some(rest) => Some([s[start..start + n]] + rest)
  }

  /** The grammar: frames whose decimal length, leading zeros allowed, is that of the name. */
  ghost predicate Frames(s: bytes, names: seq<bytes>)
    decreases |names|
  {
    if names == [] then s == []
    else exists digits: bytes, rest: bytes ::
           LengthOf(digits, names[0]) && s == digits + [COLON] + names[0] + rest && Frames(rest, names[1..])
  }

  predicate LengthOf(digits: bytes, name: bytes) {
    digits != [] && Digits(digits) && DecimalValue(digits) == |name| && 1 <= |name| <= 255
  }

  lemma {:induction false} DigitRunOf(digits: bytes, rest: bytes)
    requires Digits(digits) && (rest != [] ==> !Digit(rest[0]))
    ensures DigitRun(digits + rest) == |digits|
  {
    if digits == [] {
      assert digits + rest == rest;
    } else {
      assert (digits + rest)[1..] == digits[1..] + rest;
      DigitRunOf(digits[1..], rest);
    }
  }

  lemma FrameRead(digits: bytes, name: bytes, rest: bytes)
    requires LengthOf(digits, name)
    ensures ReadLength(digits + [COLON] + name + rest) == Some((|digits| + 1, |name|))
  {
    var s := digits + [COLON] + name + rest;
    assert s == digits + ([COLON] + name + rest);
    DigitRunOf(digits, [COLON] + name + rest);
    assert s[..|digits|] == digits;
  }

  lemma {:induction false} FramesParse(s: bytes, names: seq<bytes>)
    requires Frames(s, names)
    ensures Parse(s) == Some(names)
    decreases |names|
  {
    if names != [] {
      var digits: bytes, rest: bytes :|
        LengthOf(digits, names[0]) && s == digits + [COLON] + names[0] + rest && Frames(rest, names[1..]);
      FrameRead(digits, names[0], rest);
      FramesParse(rest, names[1..]);
      assert s[|digits| + 1..|digits| + 1 + |names[0]|] == names[0];
      assert s[|digits| + 1 + |names[0]|..] == rest;
      assert [names[0]] + names[1..] == names;
    }
  }

  lemma LengthRead(s: bytes)
    requires ReadLength(s).Some?
    ensures var (start, n) := ReadLength(s).value;
            LengthOf(s[..start - 1], s[start..start + n])
              && s == s[..start - 1] + [COLON] + s[start..start + n] + s[start + n..]
  {
  }

  lemma {:induction false} ParsedIsFramed(s: bytes)
    requires Parse(s).Some?
    ensures Frames(s, Parse(s).value)
    decreases |s|
  {
    if s != [] {
      LengthRead(s);
      var (start, n) := ReadLength(s).value;
      ParsedIsFramed(s[start + n..]);
      FrameMore(s[..start - 1], s[start..start + n], s[start + n..], Parse(s[start + n..]).value);
    }
  }

  lemma FrameMore(digits: bytes, name: bytes, rest: bytes, names: seq<bytes>)
    requires LengthOf(digits, name) && Frames(rest, names)
    ensures Frames(digits + [COLON] + name + rest, [name] + names)
  {
    hide LengthOf;
    assert ([name] + names)[1..] == names;
  }

  /** The shim's parser decides the grammar, and returns its names. */
  lemma ParseDecides(s: bytes, names: seq<bytes>)
    ensures Parse(s) == Some(names) <==> Frames(s, names)
  {
    if Frames(s, names) {
      FramesParse(s, names);
    }
    if Parse(s).Some? {
      ParsedIsFramed(s);
    }
  }

  lemma {:induction false} TextFrames(names: seq<bytes>)
    requires Names(names)
    ensures Frames(Text(names), names)
  {
    if names != [] {
      TextFrames(names[1..]);
      DecimalRoundTrip(|names[0]|);
      assert LengthOf(Decimal(|names[0]|), names[0]);
      assert Text(names) == Decimal(|names[0]|) + [COLON] + names[0] + Text(names[1..]);
    }
  }

  lemma ShortDecimal(n: nat)
    requires n < 1000
    ensures |Decimal(n)| <= 3
  {
    if n >= 100 {
      assert n / 10 / 10 < 10;
      assert |Decimal(n / 10 / 10)| == 1;
    }
  }

  lemma {:induction false} TextLength(names: seq<bytes>)
    requires Names(names)
    ensures 3 * |names| <= |Text(names)| <= 259 * |names|
  {
    if names != [] {
      TextLength(names[1..]);
      ShortDecimal(|names[0]|);
    }
  }

  /** Every nonempty list the configuration accepts reaches the library unchanged: its text is
      within the shim's limit, is accepted, and becomes wire bytes the peer reads as the list. */
  lemma ConfiguredNamesArrive(names: seq<bytes>)
    requires Acceptable(names)
    ensures names != [] ==> 0 < |Text(names)| <= WIRE_MAX as int
    ensures Parse(Text(names)) == Some(names)
    ensures ReadVectors(Vectors(Parse(Text(names)).value)) == Some(names)
  {
    TextFrames(names);
    FramesParse(Text(names), names);
    TextLength(names);
    VectorsRead(names);
  }

  // ---------------------------------------------------------------- the shim

  lemma {:induction false} LongerIsMore(s: bytes, k: nat)
    requires Digits(s) && k <= |s|
    ensures DecimalValue(s[..k]) <= DecimalValue(s)
  {
    if k < |s| {
      assert s[..|s| - 1][..k] == s[..k];
      LongerIsMore(s[..|s| - 1], k);
    } else {
      assert s[..k] == s;
    }
  }

  lemma RunPrefix(s: bytes, k: nat)
    requires k <= |s| && Digits(s[..k])
    ensures k <= DigitRun(s)
    ensures k < |s| && Digit(s[k]) ==> k < DigitRun(s)
    ensures k == |s| || !Digit(s[k]) ==> k == DigitRun(s)
  {
    var n := DigitRun(s);
    assert forall i :: 0 <= i < k ==> s[i] == s[..k][i];
    assert forall i :: 0 <= i < n ==> s[i] == s[..n][i];
  }

  /** Advances past the digits and the colon; no step of the arithmetic leaves `size_t`. */
  method ParseDecimal(input: bytes, length: Size, start: Size) returns (ok: bool, position: Size, value: Size)
    requires |input| == length as int && start <= length
    ensures start <= position <= length
    ensures ok <==> ReadLength(input[start..]).Some?
    ensures ok ==> ReadLength(input[start..]) == Some(((position - start) as nat, value as nat))
  {
    ghost var s := input[start..];
    position := start;
    value := 0;
    var current: Size, digits: Size := 0, 0;
    while position < length && Digit(input[position])
      invariant start <= position <= length && digits == position - start
      invariant Digits(s[..digits]) && current as int == DecimalValue(s[..digits])
    {
      var digit := (input[position] - 48) as Size;
      assert input[position] == s[digits];
      assert s[..digits + 1][..digits] == s[..digits];
      RunPrefix(s, digits as nat + 1);
      if current > (SIZE_MAX - digit) / 10 {
        LongerIsMore(s[..DigitRun(s)], digits as nat + 1);
        assert s[..DigitRun(s)][..digits + 1] == s[..digits + 1];
        return false, position, 0;
      }
      current := current * 10 + digit;
      position := position + 1;
      digits := digits + 1;
    }
    RunPrefix(s, digits as nat);
    if digits == 0 || position >= length || input[position] != COLON {
      return false, position, 0;
    }
    position := position + 1;
    if current == 0 || current > 255 || current > length - position {
      return false, position, 0;
    }
    return true, position, current;
  }

  /** `Parse(whole)` when `done` has been read and `rest` is still to be read. */
  ghost predicate ReadSoFar(whole: bytes, done: seq<bytes>, rest: bytes) {
    match Parse(rest)
    case None => Parse(whole) == None
    case Some(more) => Parse(whole) == Some(done + more)
  }

  lemma BoundaryReads(whole: bytes)
    ensures ReadSoFar(whole, [], whole[0..])
  {
    assert whole[0..] == whole;
    if Parse(whole).Some? {
      assert [] + Parse(whole).value == Parse(whole).value;
    }
  }

  lemma RefusedRead(whole: bytes, done: seq<bytes>, rest: bytes)
    requires ReadSoFar(whole, done, rest) && rest != [] && ReadLength(rest) == None
    ensures Parse(whole) == None
  {
  }

  lemma AllRead(whole: bytes, done: seq<bytes>)
    requires ReadSoFar(whole, done, [])
    ensures Parse(whole) == Some(done)
  {
    assert done + [] == done;
  }

  lemma OneMoreRead(whole: bytes, done: seq<bytes>, rest: bytes, start: nat, n: nat)
    requires ReadSoFar(whole, done, rest) && ReadLength(rest) == Some((start, n))
    ensures ReadSoFar(whole, done + [rest[start..start + n]], rest[start + n..])
  {
    var name := rest[start..start + n];
    match Parse(rest[start + n..])
    case None =>
    case Some(more) =>
      assert done + ([name] + more) == done + [name] + more;
  }

  /** The text becomes the length-prefixed names, written in place behind the reading position,
      or is refused; `memory` is whether the buffer could be allocated. */
  method ParseAlpn(source: bytes, length: Size, memory: bool)
    returns (ok: bool, wire: array<byte>, outputLength: Size)
    requires |source| == length as int
    ensures ok <==> 0 < length <= WIRE_MAX && memory && Parse(source).Some?
    ensures ok ==> 0 < outputLength <= length && outputLength as int <= wire.Length
    ensures ok ==> wire[..outputLength] == Vectors(Parse(source).value)
    ensures fresh(wire)
  {
    outputLength := 0;
    if length == 0 || length > WIRE_MAX || !memory {
      wire := new byte[0];
      return false, wire, 0;
    }
    wire := new byte[length as nat + 1];
    var input, output: Size := 0, 0;
    ghost var done: seq<bytes> := [];
    BoundaryReads(source);
    assert Vectors([]) == [];
    hide Parse, ReadSoFar, ReadLength, Vectors;
    while input < length
      invariant output <= input <= length && (output == 0 ==> input == 0)
      invariant Names(done) && wire[..output] == Vectors(done)
      invariant ReadSoFar(source, done, source[input..])
    {
      var found, position, n := ParseDecimal(source, length, input);
      if !found {
        RefusedRead(source, done, source[input..]);
        return false, wire, 0;
      }
      assert output + 1 + n <= length + 1;
      ghost var name := NextName(source, done, input as nat, position as nat, n as nat);
      AppendName(wire, output, source, position, n, done, name);
      done := done + [name];
      output := output + 1 + n;
      input := position + n;
    }
    assert source[length..] == [];
    AllRead(source, done);
    assert 0 < output <= UINT_MAX;
    return true, wire, output;
  }

  lemma NextName(source: bytes, done: seq<bytes>, input: nat, position: nat, n: nat) returns (name: bytes)
    requires input <= position && position + n <= |source|
    requires ReadSoFar(source, done, source[input..]) && ReadLength(source[input..]) == Some((position - input, n))
    ensures name == source[position..position + n] && 1 <= |name| <= 255
    ensures ReadSoFar(source, done + [name], source[position + n..])
  {
    var rest := source[input..];
    name := source[position..position + n];
    OneMoreRead(source, done, rest, position - input, n);
    assert rest[position - input..position - input + n] == name;
    assert rest[position - input + n..] == source[position + n..];
  }

  /** A length byte and a name, after the names already written. */
  method AppendName(wire: array<byte>, output: Size, source: bytes, position: Size, n: Size,
                    ghost done: seq<bytes>, ghost name: bytes)
    requires output as int + 1 + n as int <= wire.Length && position as int + n as int <= |source|
    requires Names(done) && wire[..output] == Vectors(done)
    requires name == source[position as int..position as int + n as int] && 1 <= |name| <= 255
    modifies wire
    ensures Names(done + [name]) && wire[..output as int + 1 + n as int] == Vectors(done + [name])
  {
    wire[output] := n as byte;
    forall k: int | 0 <= k < n as int {
      wire[output as int + 1 + k] := source[position as int + k];
    }
    OneMoreVector(done, name);
    assert wire[..output] == old(wire[..output]);
    assert wire[output as int + 1..output as int + 1 + n as int] == name;
    assert wire[..output as int + 1 + n as int] == wire[..output] + [n as byte] + name;
  }
}
