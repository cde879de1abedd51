/** The chunk-size line of section 7.1 of RFC 9112, without optional white space:
    one to sixteen hexadecimal digits followed by chunk extensions. */
module ChunkLine {
  import opened Octets
  import opened Numerals

  datatype ChunkLineError = BadChunkSize | BadChunkExtension

  // ---------------------------------------------------------------- tokens

  /** `tchar` of section 5.6.2 of RFC 9110. */
  predicate TokenByte(b: byte) {
    || 48 <= b <= 57 || 65 <= b <= 90 || 97 <= b <= 122
    || b == 33 || 35 <= b <= 39 || 42 <= b <= 43 || 45 <= b <= 46
    || 94 <= b <= 96 || b == 124 || b == 126
  }

  predicate Token(s: bytes) {
    s != [] && forall i :: 0 <= i < |s| ==> TokenByte(s[i])
  }

  method IsToken(data: bytes) returns (ok: bool)
    ensures ok <==> Token(data)
  {
    if |data| == 0 {
      return false;
    }
    for k := 0 to |data|
      invariant forall i :: 0 <= i < k ==> TokenByte(data[i])
    {
      if !TokenByte(data[k]) {
        return false;
      }
    }
    return true;
  }

  // ---------------------------------------------------------------- quoted strings

  predicate QuotedTextByte(b: byte) {
    b == 9 || b == 32 || b == 33 || 35 <= b <= 91 || 93 <= b <= 126 || b >= 128
  }

  predicate EscapedByte(b: byte) {
    b == 9 || b == 32 || 33 <= b <= 126 || b >= 128
  }

  /** `*( qdtext / quoted-pair )` of section 5.6.4 of RFC 9110. */
  predicate QuotedContent(s: bytes) {
    || s == []
    || (QuotedTextByte(s[0]) && QuotedContent(s[1..]))
    || (|s| >= 2 && s[0] == 92 && EscapedByte(s[1]) && QuotedContent(s[2..]))
  }

  predicate QuotedString(s: bytes) {
    |s| >= 2 && s[0] == 34 && s[|s| - 1] == 34 && QuotedContent(s[1..|s| - 1])
  }

  method IsQuotedString(value: bytes) returns (ok: bool)
    ensures ok <==> QuotedString(value)
  {
    if |value| < 2 || value[0] != 34 || value[|value| - 1] != 34 {
      return false;
    }
    var index := 1;
    var end := |value| - 1;
    while index < end
      invariant 1 <= index <= end
      invariant QuotedString(value) <==> QuotedContent(value[index..end])
    {
      ghost var s := value[index..end];
      var current := value[index];
      if current == 92 {
        assert s[0] == 92;
        index := index + 1;
        if index >= end {
          return false;
        }
        current := value[index];
        assert s[1] == current && s[2..] == value[index + 1..end];
        if !EscapedByte(current) {
          return false;
        }
      } else if !QuotedTextByte(current) {
        return false;
      } else {
        assert s[1..] == value[index + 1..end];
      }
      index := index + 1;
    }
    return true;
  }

  // ---------------------------------------------------------------- grammar

  /** One chunk extension; `raw` keeps its quotes. */
  datatype Extension =
    | Bare(name: bytes)
    | WithToken(name: bytes, value: bytes)
    | WithQuoted(name: bytes, raw: bytes)

  predicate ValidExtension(e: Extension) {
    && Token(e.name)
    && (e.WithToken? ==> Token(e.value))
    && (e.WithQuoted? ==> QuotedString(e.raw))
  }

  predicate ValidExtensions(es: seq<Extension>) {
    forall i :: 0 <= i < |es| ==> ValidExtension(es[i])
  }

  function RenderExtension(e: Extension): bytes {
    [59] + e.name +
    match e
    case Bare(_) => []
    case WithToken(_, value) => [61] + value
    case WithQuoted(_, raw) => [61] + raw
  }

  function RenderExtensions(es: seq<Extension>): bytes {
    if es == [] then [] else RenderExtension(es[0]) + RenderExtensions(es[1..])
  }

  /** The grammar: `line` is a size numeral followed by extensions. */
  ghost predicate Derives(line: bytes, digits: bytes, es: seq<Extension>)
    ensures Derives(line, digits, es) ==> HexDigits(digits)
  {
    && 1 <= |digits| <= 16 && HexDigits(digits)
    && ValidExtensions(es)
    && line == digits + RenderExtensions(es)
  }

  // ---------------------------------------------------------------- the parser's decisions

  /** Bytes before the next `;` or `=`. */
  function NameLength(s: bytes): (n: nat)
    ensures n <= |s| && (n < |s| ==> s[n] == 59 || s[n] == 61)
    ensures forall i :: 0 <= i < n ==> s[i] != 59 && s[i] != 61
  {
    if s == [] || s[0] == 59 || s[0] == 61 then 0 else 1 + NameLength(s[1..])
  }

  /** Bytes before the next `;`. */
  function ValueLength(s: bytes): (n: nat)
    ensures n <= |s| && (n < |s| ==> s[n] == 59)
    ensures forall i :: 0 <= i < n ==> s[i] != 59
  {
    if s == [] || s[0] == 59 then 0 else 1 + ValueLength(s[1..])
  }

  /** Bytes up to and including the quote that closes a string already opened. */
  function QuoteLength(s: bytes, escaped: bool): (n: nat)
    ensures n <= |s|
  {
    if s == [] then 0
    else if !escaped && s[0] == 34 then 1
    else 1 + QuoteLength(s[1..], !escaped && s[0] == 92)
  }

  /** Length of the value after `=`, or 0 when the parser rejects it. */
  function ExtensionValueLength(u: bytes): (n: nat)
    ensures n <= |u|
  {
    if u == [] then 0
    else if u[0] == 34 then
      var q := 1 + QuoteLength(u[1..], false);
      if QuotedString(u[..q]) && (q == |u| || u[q] == 59) then q else 0
    else
      var v := ValueLength(u);
      if Token(u[..v]) then v else 0
  }

  /** Length of the extension at the start of `s`, or 0 when the parser rejects it. */
  function ExtensionLength(s: bytes): (n: nat)
    ensures n <= |s|
  {
    if s == [] || s[0] != 59 then 0
    else
      var t := s[1..];
      var n := NameLength(t);
      if !Token(t[..n]) then 0
      else if n == |t| || t[n] == 59 then 1 + n
      else
        var v := ExtensionValueLength(t[n + 1..]);
        if v == 0 then 0 else 2 + n + v
  }

  /** Which extension texts the parser accepts. */
  predicate AcceptsExtensions(s: bytes)
    decreases |s|
  {
    s == [] || (ExtensionLength(s) > 0 && AcceptsExtensions(s[ExtensionLength(s)..]))
  }

  function SizeEnd(line: bytes): (n: nat)
    ensures n <= |line|
  {
    var semicolon := FindByte(line, 59);
    if semicolon < 0 then |line| else semicolon
  }

  /** What `_parse_chunk_size_line` returns or raises. */
  function ParseLine(line: bytes): Result<nat, ChunkLineError> {
    var end := SizeEnd(line);
    if end == 0 || end > 16 || !HexDigits(line[..end]) then Err(BadChunkSize)
    else if !AcceptsExtensions(line[end..]) then Err(BadChunkExtension)
    else Ok(HexValue(line[..end]))
  }

  // ---------------------------------------------------------------- the parser

  method ParseChunkSizeLine(line: bytes) returns (r: Result<nat, ChunkLineError>)
    ensures r == ParseLine(line)
  {
    hide ExtensionLength;
    var end := SizeEnd(line);
    if end == 0 || end > 16 {
      return Err(BadChunkSize);
    }
    var size := 0;
    var index := 0;
    while index < end
      invariant 0 <= index <= end
      invariant HexDigits(line[..index]) && size == HexValue(line[..index])
    {
      var current := line[index];
      if !HexDigit(current) {
        assert line[..end][index] == current;
        return Err(BadChunkSize);
      }
      assert line[..index + 1][..index] == line[..index];
      size := size * 16 + HexDigitValue(current);
      index := index + 1;
    }
    while index < |line|
      invariant end <= index <= |line|
      invariant AcceptsExtensions(line[end..]) <==> AcceptsExtensions(line[index..])
    {
      var n := ReadExtension(line[index..]);
      if n == 0 {
        return Err(BadChunkExtension);
      }
      assert line[index..][n..] == line[index + n..];
      index := index + n;
    }
    assert line[index..] == [];
    return Ok(size);
  }

  /** One round of the extension loop; 0 where the loop raises. */
  method ReadExtension(s: bytes) returns (n: nat)
    requires s != []
    ensures n == ExtensionLength(s)
  {
    if s[0] != 59 {
      return 0;
    }
    var t := s[1..];
    var index := 0;
    while index < |t| && t[index] != 59 && t[index] != 61
      invariant 0 <= index <= |t|
      invariant NameLength(t) == index + NameLength(t[index..])
    {
      assert t[index..][1..] == t[index + 1..];
      index := index + 1;
    }
    var ok := IsToken(t[..index]);
    if !ok {
      return 0;
    }
    if index >= |t| || t[index] == 59 {
      return 1 + index;
    }
    var v := ReadExtensionValue(t[index + 1..]);
    return if v == 0 then 0 else 2 + index + v;
  }

  method ReadExtensionValue(u: bytes) returns (n: nat)
    ensures n == ExtensionValueLength(u)
  {
    if |u| == 0 {
      return 0;
    }
    var index := 0;
    if u[0] == 34 {
      index := 1;
      var escaped, open := false, true;
      while index < |u| && open
        invariant 1 <= index <= |u|
        invariant 1 + QuoteLength(u[1..], false)
               == index + if open then QuoteLength(u[index..], escaped) else 0
        decreases |u| - index
      {
        assert u[index..][1..] == u[index + 1..];
        if escaped {
          escaped := false;
        } else if u[index] == 92 {
          escaped := true;
        } else if u[index] == 34 {
          open := false;
        }
        index := index + 1;
      }
      var ok := IsQuotedString(u[..index]);
      return if ok && (index == |u| || u[index] == 59) then index else 0;
    }
    while index < |u| && u[index] != 59
      invariant 0 <= index <= |u|
      invariant ValueLength(u) == index + ValueLength(u[index..])
    {
      assert u[index..][1..] == u[index + 1..];
      index := index + 1;
    }
    var ok := IsToken(u[..index]);
    return if ok then index else 0;
  }

  // ---------------------------------------------------------------- acceptance is the grammar

  lemma {:induction false} NameLengthOf(name: bytes, rest: bytes)
    requires forall i :: 0 <= i < |name| ==> name[i] != 59 && name[i] != 61
    requires rest == [] || rest[0] == 59 || rest[0] == 61
    ensures NameLength(name + rest) == |name|
  {
    if name == [] {
      assert name + rest == rest;
    } else {
      assert (name + rest)[1..] == name[1..] + rest;
      NameLengthOf(name[1..], rest);
    }
  }

  lemma {:induction false} ValueLengthOf(value: bytes, rest: bytes)
    requires forall i :: 0 <= i < |value| ==> value[i] != 59
    requires rest == [] || rest[0] == 59
    ensures ValueLength(value + rest) == |value|
  {
    if value == [] {
      assert value + rest == rest;
    } else {
      assert (value + rest)[1..] == value[1..] + rest;
      ValueLengthOf(value[1..], rest);
    }
  }

  lemma {:induction false} QuoteLengthOf(content: bytes, rest: bytes)
    requires QuotedContent(content)
    ensures QuoteLength(content + [34] + rest, false) == |content| + 1
  {
    var s := content + [34] + rest;
    if content == [] {
    } else if QuotedTextByte(content[0]) && QuotedContent(content[1..]) {
      assert s[1..] == content[1..] + [34] + rest;
      QuoteLengthOf(content[1..], rest);
    } else {
      assert s[1..][1..] == content[2..] + [34] + rest;
      QuoteLengthOf(content[2..], rest);
    }
  }

  lemma TokenHasNoDelimiter(s: bytes)
    requires Token(s)
    ensures forall i :: 0 <= i < |s| ==> s[i] != 59 && s[i] != 61 && s[i] != 34
  {
    forall i | 0 <= i < |s| ensures s[i] != 59 && s[i] != 61 && s[i] != 34 {
      assert TokenByte(s[i]);
    }
  }

  lemma RenderStart(es: seq<Extension>)
    ensures RenderExtensions(es) == [] || RenderExtensions(es)[0] == 59
  {
    if es != [] {
      assert RenderExtension(es[0])[0] == 59;
    }
  }

  lemma ValidValueLength(value: bytes, rest: bytes)
    requires Token(value) || QuotedString(value)
    requires rest == [] || rest[0] == 59
    ensures ExtensionValueLength(value + rest) == |value| > 0
  {
    var u := value + rest;
    assert u[..|value|] == value;
    if QuotedString(value) {
      var content := value[1..|value| - 1];
      assert u[1..] == content + [34] + rest;
      QuoteLengthOf(content, rest);
    } else {
      TokenHasNoDelimiter(value);
      ValueLengthOf(value, rest);
    }
  }

  lemma BareRead(name: bytes, rest: bytes)
    requires Token(name) && (rest == [] || rest[0] == 59)
    ensures ExtensionLength([59] + name + rest) == 1 + |name|
  {
    hide ExtensionValueLength;
    var s := [59] + name + rest;
    assert s[1..] == name + rest;
    TokenHasNoDelimiter(name);
    NameLengthOf(name, rest);
    assert s[1..][..|name|] == name;
  }

  lemma ValuedRead(name: bytes, value: bytes, rest: bytes)
    requires Token(name) && (Token(value) || QuotedString(value)) && (rest == [] || rest[0] == 59)
    ensures ExtensionLength([59] + name + [61] + value + rest) == 2 + |name| + |value|
  {
    hide ExtensionValueLength, QuotedString, Token;
    var s := [59] + name + [61] + value + rest;
    assert s[1..] == name + ([61] + value + rest);
    TokenHasNoDelimiter(name);
    NameLengthOf(name, [61] + value + rest);
    assert s[1..][..|name|] == name && s[1..][|name| + 1..] == value + rest;
    ValidValueLength(value, rest);
  }

  /** An extension of the grammar is read whole, whatever extension follows. */
  lemma ExtensionRead(e: Extension, rest: bytes)
    requires ValidExtension(e)
    requires rest == [] || rest[0] == 59
    ensures ExtensionLength(RenderExtension(e) + rest) == |RenderExtension(e)|
  {
    hide ExtensionLength, QuotedString, Token;
    if e.Bare? {
      assert RenderExtension(e) == [59] + e.name;
      BareRead(e.name, rest);
    } else {
      var value := if e.WithToken? then e.value else e.raw;
      assert RenderExtension(e) + rest == [59] + e.name + [61] + value + rest;
      ValuedRead(e.name, value, rest);
    }
  }

  /** What is read is an extension of the grammar. */
  lemma ReadIsExtension(s: bytes) returns (e: Extension)
    requires ExtensionLength(s) > 0
    ensures ValidExtension(e) && RenderExtension(e) == s[..ExtensionLength(s)]
  {
    var t := s[1..];
    var n := NameLength(t);
    if n == |t| || t[n] == 59 {
      e := Bare(t[..n]);
    } else {
      var u := t[n + 1..];
      var v := ExtensionValueLength(u);
      e := if u[0] == 34 then WithQuoted(t[..n], u[..v]) else WithToken(t[..n], u[..v]);
      assert s[..ExtensionLength(s)] == [59] + t[..n] + ([61] + u[..v]);
    }
  }

  lemma {:induction false} GrammarAccepted(es: seq<Extension>)
    requires ValidExtensions(es)
    ensures AcceptsExtensions(RenderExtensions(es))
  {
    if es != [] {
      assert ValidExtension(es[0]);
      RenderStart(es[1..]);
      var rest := RenderExtensions(es[1..]);
      ExtensionRead(es[0], rest);
      assert (RenderExtension(es[0]) + rest)[|RenderExtension(es[0])|..] == rest;
      GrammarAccepted(es[1..]);
    }
  }

  lemma {:induction false} AcceptedInGrammar(s: bytes) returns (es: seq<Extension>)
    requires AcceptsExtensions(s)
    ensures ValidExtensions(es) && RenderExtensions(es) == s
    decreases |s|
  {
    hide ExtensionLength, ValidExtension, RenderExtension;
    if s == [] {
      es := [];
    } else {
      var n := ExtensionLength(s);
      var e := ReadIsExtension(s);
      var tail := AcceptedInGrammar(s[n..]);
      es := [e] + tail;
      assert es[1..] == tail;
      assert s == s[..n] + s[n..];
    }
  }

  /** Exactly the lines of the grammar are accepted, and the result is the value of
      their size numeral, below 16^16. */
  lemma LineGrammar(line: bytes, size: nat)
    ensures ParseLine(line) == Ok(size) <==>
            exists digits, es :: Derives(line, digits, es) && HexValue(digits) == size
    ensures ParseLine(line) == Ok(size) ==> size < Pow16(16)
  {
    hide ParseLine, Derives, HexValue, Pow16;
    if ParseLine(line) == Ok(size) {
      var digits, es := ParsedLineDerives(line);
    }
    if digits, es :| Derives(line, digits, es) && HexValue(digits) == size {
      DerivedLineParses(line, digits, es);
    }
  }

  lemma ParsedLineDerives(line: bytes) returns (digits: bytes, es: seq<Extension>)
    requires ParseLine(line).Ok?
    ensures Derives(line, digits, es) && ParseLine(line) == Ok(HexValue(digits)) && HexValue(digits) < Pow16(16)
  {
    hide AcceptsExtensions, HexValue, RenderExtensions, ValidExtensions, Pow16;
    var end := SizeEnd(line);
    digits := line[..end];
    es := AcceptedInGrammar(line[end..]);
    HexBound(digits);
    Pow16Grows(end, 16);
  }

  lemma {:induction false} Pow16Grows(a: nat, b: nat)
    requires a <= b
    ensures Pow16(a) <= Pow16(b)
    decreases b
  {
    if a < b {
      Pow16Grows(a, b - 1);
    }
  }

  lemma DerivedLineParses(line: bytes, digits: bytes, es: seq<Extension>)
    requires Derives(line, digits, es)
    ensures ParseLine(line) == Ok(HexValue(digits))
  {
    GrammarAccepted(es);
    RenderStart(es);
    assert forall i :: 0 <= i < |digits| ==> line[i] == digits[i] && HexDigit(digits[i]);
    var rest := RenderExtensions(es);
    if rest != [] {
      assert line[|digits|] == rest[0];
    }
    assert SizeEnd(line) == |digits|;
    assert line[..|digits|] == digits;
    assert line[|digits|..] == RenderExtensions(es);
  }

  /** A line of hexadecimal digits alone. */
  lemma BareSizeLine(line: bytes)
    requires HexDigits(line) && line != []
    ensures ParseLine(line) == if |line| <= 16 then Ok(HexValue(line)) else Err(BadChunkSize)
  {
    hide HexValue;
    assert forall i :: 0 <= i < |line| ==> HexDigit(line[i]);
    assert SizeEnd(line) == |line|;
    assert line[..|line|] == line;
    assert line[|line|..] == [];
  }

  /** The parser reads back the size the encoder printed exactly when it fits sixteen digits. */
  lemma EncodedSize(n: nat)
    ensures ParseLine(Hex(n)) == Ok(n) <==> n < Pow16(16)
    ensures n >= Pow16(16) ==> ParseLine(Hex(n)) == Err(BadChunkSize)
  {
    hide ParseLine, HexValue, Pow16;
    HexLength(n, 16);
    HexRoundTrip(n);
    BareSizeLine(Hex(n));
  }

  /** A printed size line is found and read back, whatever follows it. */
  lemma SizeLine(n: nat, rest: bytes)
    requires n < Pow16(16)
    ensures var s := Hex(n) + CRLF + rest;
            FindCrlf(s) == |Hex(n)| <= 16 && s[..|Hex(n)|] == Hex(n) && s[|Hex(n)| + 2..] == rest
            && ParseLine(Hex(n)) == Ok(n)
  {
    hide ParseLine;
    var line := Hex(n);
    HexLength(n, 16);
    EncodedSize(n);
    forall i | 0 <= i < |line| ensures line[i] != 13 {
      assert HexDigit(line[i]);
    }
    NoCrlfInLine(line, rest);
  }

  /** `0;` and a name: a line of the longest length the decoders accept. */
  const LONGEST: bytes := [48, 59] + seq(126, i => 97)

  lemma LongestParses()
    ensures |LONGEST| == 128 && ParseLine(LONGEST) == Ok(0) && forall i :: 0 <= i < 128 ==> LONGEST[i] != 13
  {
    var name: bytes := seq(126, i => 97);
    var es := [Bare(name)];
    assert es[1..] == [];
    assert RenderExtensions(es) == [59] + name;
    assert LONGEST == [48] + RenderExtensions(es);
    assert Token(name) by {
      assert forall i :: 0 <= i < |name| ==> TokenByte(name[i]);
    }
    assert Derives(LONGEST, [48], es);
    DerivedLineParses(LONGEST, [48], es);
    var digits: bytes := [48];
    assert digits[..0] == [];
  }
}
