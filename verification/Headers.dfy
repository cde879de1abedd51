/** Header fields: the strict field-line grammar, its encoding, comma-separated token
    lists and hop-by-hop sanitation. */
module Headers {
  import opened Octets
  import opened ChunkLine

  // "connection"
  const CONNECTION: bytes := [99, 111, 110, 110, 101, 99, 116, 105, 111, 110]
  // "keep-alive"
  const KEEP_ALIVE: bytes := [107, 101, 101, 112, 45, 97, 108, 105, 118, 101]
  // "proxy-authenticate"
  const PROXY_AUTHENTICATE: bytes :=
    [112, 114, 111, 120, 121, 45, 97, 117, 116, 104, 101, 110, 116, 105, 99, 97, 116, 101]
  // "proxy-authorization"
  const PROXY_AUTHORIZATION: bytes :=
    [112, 114, 111, 120, 121, 45, 97, 117, 116, 104, 111, 114, 105, 122, 97, 116, 105, 111, 110]
  // "te"
  const TE: bytes := [116, 101]
  // "trailer"
  const TRAILER: bytes := [116, 114, 97, 105, 108, 101, 114]
  // "transfer-encoding"
  const TRANSFER_ENCODING: bytes := [116, 114, 97, 110, 115, 102, 101, 114, 45, 101, 110, 99, 111, 100, 105, 110, 103]
  // "upgrade"
  const UPGRADE: bytes := [117, 112, 103, 114, 97, 100, 101]
  // "host"
  const HOST: bytes := [104, 111, 115, 116]
  // "content-length"
  const CONTENT_LENGTH: bytes := [99, 111, 110, 116, 101, 110, 116, 45, 108, 101, 110, 103, 116, 104]
  // "expect"
  const EXPECT: bytes := [101, 120, 112, 101, 99, 116]
  // "100-continue"
  const CONTINUE_100: bytes := [49, 48, 48, 45, 99, 111, 110, 116, 105, 110, 117, 101]
  // "chunked"
  const CHUNKED: bytes := [99, 104, 117, 110, 107, 101, 100]
  // "close"
  const CLOSE: bytes := [99, 108, 111, 115, 101]
  // "x-forwarded-for"
  const FORWARDED_FOR: bytes := [120, 45, 102, 111, 114, 119, 97, 114, 100, 101, 100, 45, 102, 111, 114]
  // "x-forwarded-proto"
  const FORWARDED_PROTO: bytes := [120, 45, 102, 111, 114, 119, 97, 114, 100, 101, 100, 45, 112, 114, 111, 116, 111]
  // "x-forwarded-host"
  const FORWARDED_HOST: bytes := [120, 45, 102, 111, 114, 119, 97, 114, 100, 101, 100, 45, 104, 111, 115, 116]

  datatype Header = Header(name: bytes, value: bytes)

  datatype HeaderError = ObsFold | MissingName | BadName | BadValue | TooManyHeaders

  type HeaderResult = Result<seq<Header>, HeaderError>

  predicate BadValueByte(b: byte) {
    b == 10 || b == 13 || b == 127 || (b < 32 && b != 9)
  }

  predicate CleanValue(s: bytes) {
    forall i :: 0 <= i < |s| ==> !BadValueByte(s[i])
  }

  /** What an encoder may write as a field. */
  predicate SafeField(h: Header) {
    Token(h.name) && CleanValue(h.value)
  }

  method ContainsBadValueByte(data: bytes) returns (bad: bool)
    ensures bad <==> !CleanValue(data)
  {
    for k := 0 to |data|
      invariant forall i :: 0 <= i < k ==> !BadValueByte(data[i])
    {
      if BadValueByte(data[k]) {
        return true;
      }
    }
    return false;
  }

  // ---------------------------------------------------------------- parsing

  /** What one nonempty field line stands for. */
  function ParseField(line: bytes): Result<Header, HeaderError>
    requires line != []
  {
    var colon := FindByte(line, 58);
    if line[0] == 32 || line[0] == 9 then Err(ObsFold)
    else if colon <= 0 then Err(MissingName)
    else if !Token(line[..colon]) then Err(BadName)
    else if !CleanValue(line[colon + 1..]) then Err(BadValue)
    else Ok(Header(Lower(line[..colon]), Strip(line[colon + 1..], Blank)))
  }

  function Prepend(hs: seq<Header>, r: HeaderResult): (p: HeaderResult)
    ensures hs == [] ==> p == r
  {
    if r.Err? then r else assert hs == [] ==> hs + r.value == r.value; Ok(hs + r.value)
  }

  /** What the lines stand for once `have` fields were accepted; empty lines are skipped. */
  function ParseFields(lines: seq<bytes>, max: int, have: nat): HeaderResult {
    if lines == [] then Ok([])
    else if lines[0] == [] then ParseFields(lines[1..], max, have)
    else
      match ParseField(lines[0])
      case Err(e) => Err(e)
      case Ok(h) => if have >= max then Err(TooManyHeaders) else Prepend([h], ParseFields(lines[1..], max, have + 1))
  }

  method ParseHeaders(lines: seq<bytes>, max: int) returns (r: HeaderResult)
    ensures r == ParseFields(lines, max, 0)
  {
    hide ParseField;
    var headers: seq<Header> := [];
    assert lines[0..] == lines;
    for k := 0 to |lines|
      invariant ParseFields(lines, max, 0) == Prepend(headers, ParseFields(lines[k..], max, |headers|))
    {
      var line := lines[k];
      assert lines[k..][0] == line && lines[k..][1..] == lines[k + 1..];
      if |line| != 0 {
        var field := ReadField(line);
        if field.Err? {
          return Err(field.error);
        }
        if |headers| >= max {
          return Err(TooManyHeaders);
        }
        PrependTwice(headers, [field.value], ParseFields(lines[k + 1..], max, |headers| + 1));
        headers := headers + [field.value];
      }
    }
    assert lines[|lines|..] == [] && headers + [] == headers;
    return Ok(headers);
  }

  lemma PrependTwice(a: seq<Header>, b: seq<Header>, r: HeaderResult)
    ensures Prepend(a, Prepend(b, r)) == Prepend(a + b, r)
  {
    if r.Ok? {
      assert a + (b + r.value) == a + b + r.value;
    }
  }

  method ReadField(line: bytes) returns (r: Result<Header, HeaderError>)
    requires line != []
    ensures r == ParseField(line)
  {
    if line[0] == 32 || line[0] == 9 {
      return Err(ObsFold);
    }
    var colon := FindByte(line, 58);
    if colon <= 0 {
      return Err(MissingName);
    }
    var ok := IsToken(line[..colon]);
    if !ok {
      return Err(BadName);
    }
    var bad := ContainsBadValueByte(line[colon + 1..]);
    if bad {
      return Err(BadValue);
    }
    return Ok(Header(Lower(line[..colon]), Strip(line[colon + 1..], Blank)));
  }

  /** Values of the fields of one name, in order: the parser's `names` dictionary. */
  function Values(hs: seq<Header>, name: bytes): seq<bytes> {
    if hs == [] then []
    else (if hs[0].name == name then [hs[0].value] else []) + Values(hs[1..], name)
  }

  predicate Has(hs: seq<Header>, name: bytes) {
    exists i :: 0 <= i < |hs| && hs[i].name == name
  }

  lemma {:induction false} ValuesAppend(a: seq<Header>, b: seq<Header>, name: bytes)
    ensures Values(a + b, name) == Values(a, name) + Values(b, name)
  {
    if a == [] {
      assert a + b == b;
    } else {
      assert (a + b)[1..] == a[1..] + b;
      ValuesAppend(a[1..], b, name);
    }
  }

  // ---------------------------------------------------------------- well-formed fields

  /** A field as the parser returns it: lower-case token, clean value without outer blanks. */
  predicate Canonical(h: Header) {
    && Token(h.name) && Lower(h.name) == h.name
    && CleanValue(h.value)
    && (h.value != [] ==> !Blank(h.value[0]) && !Blank(h.value[|h.value| - 1]))
  }

  predicate AllCanonical(hs: seq<Header>) {
    forall i :: 0 <= i < |hs| ==> Canonical(hs[i])
  }

  lemma LowerToken(s: bytes)
    requires Token(s)
    ensures Token(Lower(s)) && Lower(Lower(s)) == Lower(s)
  {
    var t := Lower(s);
    forall i | 0 <= i < |s| ensures TokenByte(t[i]) && LowerByte(t[i]) == t[i] {
      assert TokenByte(s[i]);
    }
    assert Lower(t) == t;
  }

  lemma StrippedClean(raw: bytes)
    requires CleanValue(raw)
    ensures CleanValue(Strip(raw, Blank))
  {
    var v := Strip(raw, Blank);
    forall i | 0 <= i < |v| ensures !BadValueByte(v[i]) {
      assert v[i] in raw;
    }
  }

  lemma ParsedFieldCanonical(line: bytes)
    requires line != [] && ParseField(line).Ok?
    ensures Canonical(ParseField(line).value)
  {
    hide Token, FindByte, CleanValue, Lower, Strip;
    var colon := FindByte(line, 58);
    LowerToken(line[..colon]);
    StrippedClean(line[colon + 1..]);
  }

  lemma {:induction false} ParsedCanonical(lines: seq<bytes>, max: int, have: nat)
    requires ParseFields(lines, max, have).Ok?
    ensures AllCanonical(ParseFields(lines, max, have).value)
    ensures have <= max ==> have + |ParseFields(lines, max, have).value| <= max
  {
    hide ParseField, Canonical;
    if lines != [] {
      if lines[0] == [] {
        ParsedCanonical(lines[1..], max, have);
      } else {
        ParsedFieldCanonical(lines[0]);
        ParsedCanonical(lines[1..], max, have + 1);
      }
    }
  }

  // ---------------------------------------------------------------- encoding

  /** `name: value`, as every encoder of the gateway writes a field. */
  function FieldLine(name: bytes, value: bytes): bytes {
    name + [58, 32] + value
  }

  function FieldLines(hs: seq<Header>): (r: seq<bytes>)
    ensures |r| == |hs| && forall i :: 0 <= i < |hs| ==> r[i] == FieldLine(hs[i].name, hs[i].value)
  {
    seq(|hs|, i requires 0 <= i < |hs| => FieldLine(hs[i].name, hs[i].value))
  }

  lemma LineParts(name: bytes, value: bytes)
    requires Token(name) && CleanValue(value)
    ensures var line := FieldLine(name, value);
            && FindByte(line, 58) == |name| < |line| && line[..|name|] == name && line[|name| + 1..] == [32] + value
            && line[0] != 32 && line[0] != 9
    ensures CleanLine(FieldLine(name, value))
  {
    hide Token, CleanValue;
    var line := FieldLine(name, value);
    var raw := [32] + value;
    assert line == name + ([58] + raw);
    TokenPlain(name);
    BlankBefore(value);
    assert forall i :: 0 <= i < |name| ==> line[i] == name[i];
    assert line[|name|] == 58;
    assert FindByte(line, 58) == |name|;
    forall i | 0 <= i < |line| ensures line[i] != 13 {
      if i > |name| {
        assert line[i] == raw[i - |name| - 1];
      }
    }
  }

  /** A written field reads back as the lower-cased name and the value without outer blanks. */
  lemma FieldRoundTrip(name: bytes, value: bytes)
    requires Token(name) && CleanValue(value)
    ensures FieldLine(name, value) != []
    ensures ParseField(FieldLine(name, value)) == Ok(Header(Lower(name), Strip(value, Blank)))
    ensures CleanLine(FieldLine(name, value))
  {
    hide Token, CleanValue, FieldLine, Lower, Strip, CleanLine;
    LineParts(name, value);
    BlankBefore(value);
    TokenPlain(name);
    StripLeading(32, value, Blank);
  }

  lemma TokenPlain(name: bytes)
    requires Token(name)
    ensures name != []
    ensures forall i :: 0 <= i < |name| ==> name[i] != 58 && name[i] != 13 && name[i] != 32 && name[i] != 9
  {
    forall i | 0 <= i < |name| ensures name[i] != 58 && name[i] != 13 && name[i] != 32 && name[i] != 9 {
      assert TokenByte(name[i]);
    }
  }

  lemma BlankBefore(value: bytes)
    requires CleanValue(value)
    ensures CleanValue([32] + value) && forall i :: 0 <= i < |value| + 1 ==> ([32] + value)[i] != 13
  {
    var raw := [32] + value;
    forall i | 0 <= i < |raw| ensures !BadValueByte(raw[i]) {
      assert i > 0 ==> raw[i] == value[i - 1];
    }
  }

  lemma CanonicalFieldRoundTrip(h: Header)
    requires Canonical(h)
    ensures CleanLine(FieldLine(h.name, h.value))
    ensures FieldLine(h.name, h.value) != [] && ParseField(FieldLine(h.name, h.value)) == Ok(h)
  {
    hide Token, CleanValue, Lower, ParseField;
    FieldRoundTrip(h.name, h.value);
    StripStripped(h.value, Blank);
  }

  lemma {:induction false} FieldsRoundTrip(hs: seq<Header>, max: int, have: nat)
    requires AllCanonical(hs)
    requires have + |hs| <= max
    ensures ParseFields(FieldLines(hs), max, have) == Ok(hs)
    ensures CleanLines(FieldLines(hs))
  {
    hide ParseField, Canonical, FieldLine, CleanLine;
    forall i | 0 <= i < |hs| ensures CleanLine(FieldLines(hs)[i]) {
      CanonicalFieldRoundTrip(hs[i]);
    }
    if hs != [] {
      CanonicalFieldRoundTrip(hs[0]);
      assert FieldLines(hs)[1..] == FieldLines(hs[1..]);
      FieldsRoundTrip(hs[1..], max, have + 1);
      assert [hs[0]] + hs[1..] == hs;
    }
  }

  lemma {:induction false} ParseFieldsAppend(a: seq<bytes>, b: seq<bytes>, max: int, have: nat)
    requires ParseFields(a, max, have).Ok?
    ensures ParseFields(a + b, max, have)
         == Prepend(ParseFields(a, max, have).value, ParseFields(b, max, have + |ParseFields(a, max, have).value|))
  {
    hide ParseField;
    if a == [] {
      assert a + b == b;
    } else {
      assert (a + b)[1..] == a[1..] + b && (a + b)[0] == a[0];
      if a[0] == [] {
        ParseFieldsAppend(a[1..], b, max, have);
      } else {
        ParseFieldsAppend(a[1..], b, max, have + 1);
        var h := ParseField(a[0]).value;
        var tail := ParseFields(a[1..], max, have + 1).value;
        PrependTwice([h], tail, ParseFields(b, max, have + 1 + |tail|));
      }
    }
  }

  // ---------------------------------------------------------------- token lists

  function TrimmedTokens(items: seq<bytes>): seq<bytes> {
    if items == [] then []
    else
      var t := Lower(Strip(items[0], TextSpace));
      (if t == [] then [] else [t]) + TrimmedTokens(items[1..])
  }

  /** `_split_commas(value)`. */
  function SplitCommas(value: bytes): seq<bytes> {
    TrimmedTokens(SplitByte(value, 44))
  }

  /** The tokens of all values of one list-valued field. */
  function Codings(values: seq<bytes>): seq<bytes> {
    if values == [] then [] else SplitCommas(values[0]) + Codings(values[1..])
  }

  /** The connection is kept unless it says close, or is HTTP/1.0 and does not ask for it. */
  predicate KeepsAlive(http11: bool, hs: seq<Header>) {
    var tokens := Codings(Values(hs, CONNECTION));
    CLOSE !in tokens && (http11 || KEEP_ALIVE in tokens)
  }

  /** A comma joins two lists, */
  lemma {:induction false} CommaJoins(a: bytes, b: bytes)
    ensures SplitCommas(a + [44] + b) == SplitCommas(a) + SplitCommas(b)
    decreases |a|
  {
    hide TrimmedTokens;
    var s := a + [44] + b;
    var m := FindByte(a, 44);
    if m < 0 {
      assert s[|a|] == 44 && FindByte(s, 44) == |a| && s[..|a|] == a && s[|a| + 1..] == b;
      TokensAppend([a], SplitByte(b, 44));
    } else {
      var head, rest := a[..m], a[m + 1..];
      assert s[m] == 44 && FindByte(s, 44) == m && s[..m] == head && s[m + 1..] == rest + [44] + b;
      CommaJoins(rest, b);
      TokensAppend([head], SplitByte(rest, 44));
      TokensAppend([head], SplitByte(rest + [44] + b, 44));
    }
  }

  /** and an item without one is a token in lower case unless it is blank. */
  lemma CommaItem(item: bytes)
    requires 44 !in item
    ensures var t := Lower(Strip(item, TextSpace)); SplitCommas(item) == if t == [] then [] else [t]
  {
    hide Lower, Strip;
    assert SplitByte(item, 44) == [item] && [item][1..] == [];
    assert TrimmedTokens([]) == [];
  }

  lemma {:induction false} TokensAppend(a: seq<bytes>, b: seq<bytes>)
    ensures TrimmedTokens(a + b) == TrimmedTokens(a) + TrimmedTokens(b)
  {
    hide Lower, Strip;
    if a == [] {
      assert a + b == b;
    } else {
      assert (a + b)[1..] == a[1..] + b && (a + b)[0] == a[0];
      TokensAppend(a[1..], b);
      var t := Lower(Strip(a[0], TextSpace));
      var first, more, last := if t == [] then [] else [t], TrimmedTokens(a[1..]), TrimmedTokens(b);
      assert first + (more + last) == first + more + last;
    }
  }

  /** The text from `i` to `j` stands between commas and is the option, in any case and with any
      white space around it. */
  predicate OptionAt(value: bytes, i: int, j: int, option: bytes) {
    && 0 <= i <= j <= |value| && (i == 0 || value[i - 1] == 44) && (j == |value| || value[j] == 44)
    && 44 !in value[i..j] && option == Lower(Strip(value[i..j], TextSpace)) && option != []
  }

  ghost predicate ListsOption(value: bytes, option: bytes) {
    exists i, j :: OptionAt(value, i, j, option)
  }

  /** A field of that name lists the option. */
  ghost predicate HasOption(hs: seq<Header>, name: bytes, option: bytes) {
    exists k :: 0 <= k < |hs| && hs[k].name == name && ListsOption(hs[k].value, option)
  }

  lemma OnlyItem(value: bytes, option: bytes)
    requires 44 !in value
    ensures ListsOption(value, option) <==> OptionAt(value, 0, |value|, option)
    ensures option in SplitCommas(value) <==> OptionAt(value, 0, |value|, option)
  {
    hide Lower, Strip, SplitCommas;
    CommaItem(value);
    assert value[0..|value|] == value;
  }

  lemma FirstItem(head: bytes, rest: bytes, i: int, j: int, option: bytes)
    requires 44 !in head
    ensures var value := head + [44] + rest;
            OptionAt(value, i, j, option) <==>
            (i == 0 && j == |head| && OptionAt(head, 0, |head|, option))
            || OptionAt(rest, i - |head| - 1, j - |head| - 1, option)
  {
    hide Lower, Strip;
    var value, m := head + [44] + rest, |head|;
    assert value[m] == 44 && value[0..m] == head == head[0..m];
    if 0 <= i <= j <= |value| {
      if i > m {
        assert value[i..j] == rest[i - m - 1..j - m - 1];
      } else if j > m {
        assert value[i..j][m - i] == 44;
      } else if i > 0 {
        assert value[i - 1] == head[i - 1];
      }
    }
  }

  lemma {:induction false} ListedOption(value: bytes, option: bytes)
    ensures option in SplitCommas(value) <==> ListsOption(value, option)
    decreases |value|
  {
    hide OptionAt, SplitCommas;
    var m := FindByte(value, 44);
    if m < 0 {
      OnlyItem(value, option);
    } else {
      var head, rest := value[..m], value[m + 1..];
      assert value == head + [44] + rest && 44 !in head;
      CommaJoins(head, rest);
      OnlyItem(head, option);
      ListedOption(rest, option);
      FirstItem(head, rest, 0, m, option);
      if i, j :| OptionAt(value, i, j, option) {
        FirstItem(head, rest, i, j, option);
      }
      if i, j :| OptionAt(rest, i, j, option) {
        FirstItem(head, rest, i + m + 1, j + m + 1, option);
        assert OptionAt(value, i + m + 1, j + m + 1, option);
      }
    }
  }

  lemma {:induction false} OptionListed(hs: seq<Header>, name: bytes, option: bytes)
    ensures option in Codings(Values(hs, name)) <==> HasOption(hs, name, option)
  {
    hide SplitCommas, ListsOption;
    if hs != [] {
      OptionListed(hs[1..], name, option);
      ListedOption(hs[0].value, option);
      var rest := Values(hs[1..], name);
      assert ([hs[0].value] + rest)[1..] == rest && [] + rest == rest;
      if HasOption(hs[1..], name, option) {
        var k :| 0 <= k < |hs[1..]| && hs[1..][k].name == name && ListsOption(hs[1..][k].value, option);
        assert hs[k + 1] == hs[1..][k];
      }
      if HasOption(hs, name, option) {
        var k :| 0 <= k < |hs| && hs[k].name == name && ListsOption(hs[k].value, option);
        assert k > 0 ==> hs[1..][k - 1] == hs[k];
      }
    }
  }

  /** A connection ends after the message if a Connection field says close; otherwise it stays
      for HTTP/1.1, and for HTTP/1.0 if a Connection field asks for keep-alive. */
  lemma Persistence(http11: bool, hs: seq<Header>)
    ensures HasOption(hs, CONNECTION, CLOSE) ==> !KeepsAlive(http11, hs)
    ensures !HasOption(hs, CONNECTION, CLOSE) && http11 ==> KeepsAlive(http11, hs)
    ensures !HasOption(hs, CONNECTION, CLOSE) && !http11 ==>
              (KeepsAlive(http11, hs) <==> HasOption(hs, CONNECTION, KEEP_ALIVE))
  {
    hide HasOption, Codings, Values;
    OptionListed(hs, CONNECTION, CLOSE);
    OptionListed(hs, CONNECTION, KEEP_ALIVE);
  }

  lemma SingleToken(value: bytes)
    requires Token(value)
    requires Lower(value) == value
    ensures SplitCommas(value) == [value] && Codings([value]) == [value]
  {
    forall i | 0 <= i < |value| ensures value[i] != 44 && !TextSpace(value[i]) {
      assert TokenByte(value[i]);
    }
    assert SplitByte(value, 44) == [value];
    StripStripped(value, TextSpace);
    assert TrimmedTokens([value]) == [value] + TrimmedTokens([value][1..]) || TrimmedTokens([value]) == [value];
  }

  // ---------------------------------------------------------------- hop-by-hop sanitation

  predicate HopByHop(name: bytes) {
    || name == CONNECTION || name == KEEP_ALIVE || name == PROXY_AUTHENTICATE
    || name == PROXY_AUTHORIZATION || name == TE || name == TRAILER
    || name == TRANSFER_ENCODING || name == UPGRADE
  }

  /** Tokens named by Connection fields; repetitions do not matter to membership. */
  function ConnectionNamed(hs: seq<Header>): seq<bytes> {
    if hs == [] then []
    else (if Lower(hs[0].name) == CONNECTION then SplitCommas(hs[0].value) else []) + ConnectionNamed(hs[1..])
  }

  function Keep(hs: seq<Header>, named: seq<bytes>): (r: seq<Header>)
    ensures |r| <= |hs|
  {
    if hs == [] then []
    else
      var lower := Lower(hs[0].name);
      (if HopByHop(lower) || lower in named then [] else [Header(lower, hs[0].value)]) + Keep(hs[1..], named)
  }

  /** `sanitize_hop_by_hop(headers)`. */
  function Sanitize(hs: seq<Header>): (r: seq<Header>)
    ensures |r| <= |hs|
  {
    Keep(hs, ConnectionNamed(hs))
  }

  lemma NamedFrom(hs: seq<Header>, k: nat)
    requires k < |hs|
    ensures ConnectionNamed(hs[k..])
         == (if Lower(hs[k].name) == CONNECTION then SplitCommas(hs[k].value) else []) + ConnectionNamed(hs[k + 1..])
  {
    assert hs[k..][0] == hs[k] && hs[k..][1..] == hs[k + 1..];
  }

  lemma KeepFrom(hs: seq<Header>, k: nat, named: seq<bytes>)
    requires k < |hs|
    ensures var lower := Lower(hs[k].name);
            Keep(hs[k..], named) == (if HopByHop(lower) || lower in named then [] else [Header(lower, hs[k].value)])
            + Keep(hs[k + 1..], named)
  {
    hide HopByHop;
    assert hs[k..][0] == hs[k] && hs[k..][1..] == hs[k + 1..];
  }

  method SanitizeHopByHop(headers: seq<Header>) returns (output: seq<Header>)
    ensures output == Sanitize(headers)
  {
    hide HopByHop, SplitCommas, Lower, Keep, ConnectionNamed;
    var named: seq<bytes> := [];
    assert headers[0..] == headers && headers[|headers|..] == [];
    for k := 0 to |headers|
      invariant ConnectionNamed(headers) == named + ConnectionNamed(headers[k..])
    {
      NamedFrom(headers, k);
      if Lower(headers[k].name) == CONNECTION {
        named := named + SplitCommas(headers[k].value);
      }
    }
    NoFields(named);
    assert named + [] == named;
    output := [];
    for k := 0 to |headers|
      invariant Keep(headers, named) == output + Keep(headers[k..], named)
    {
      KeepFrom(headers, k, named);
      var lower := Lower(headers[k].name);
      if !HopByHop(lower) && lower !in named {
        output := output + [Header(lower, headers[k].value)];
      }
    }
    assert output + [] == output;
  }

  lemma NoFields(named: seq<bytes>)
    ensures ConnectionNamed([]) == [] && Keep([], named) == []
  {
  }

  lemma {:induction false} KeepProperties(hs: seq<Header>, named: seq<bytes>)
    requires AllCanonical(hs)
    ensures AllCanonical(Keep(hs, named))
    ensures forall i :: 0 <= i < |Keep(hs, named)| ==>
              !HopByHop(Keep(hs, named)[i].name) && Keep(hs, named)[i].name !in named
    ensures forall i :: 0 <= i < |Keep(hs, named)| ==> Keep(hs, named)[i] in hs
  {
    hide HopByHop;
    if hs != [] {
      assert Canonical(hs[0]);
      assert hs[0] == Header(Lower(hs[0].name), hs[0].value);
      KeepProperties(hs[1..], named);
      var k := Keep(hs, named);
      forall i | 0 <= i < |k| ensures k[i] in hs && Canonical(k[i]) {
        if k[i] != hs[0] {
          assert k[i] in Keep(hs[1..], named);
        }
      }
    }
  }

  lemma {:induction false} NothingNamed(hs: seq<Header>)
    requires forall i :: 0 <= i < |hs| ==> Lower(hs[i].name) != CONNECTION
    ensures ConnectionNamed(hs) == []
  {
    if hs != [] {
      NothingNamed(hs[1..]);
    }
  }

  lemma {:induction false} KeepAll(hs: seq<Header>)
    requires AllCanonical(hs)
    requires forall i :: 0 <= i < |hs| ==> !HopByHop(hs[i].name)
    ensures Keep(hs, []) == hs
  {
    hide HopByHop;
    if hs != [] {
      assert Canonical(hs[0]);
      KeepAll(hs[1..]);
      assert hs == [hs[0]] + hs[1..];
    }
  }

  /** Sanitation leaves canonical fields only, none of them hop-by-hop, and doing it twice changes nothing. */
  lemma SanitizeIdempotent(hs: seq<Header>)
    requires AllCanonical(hs)
    ensures AllCanonical(Sanitize(hs))
    ensures forall i :: 0 <= i < |Sanitize(hs)| ==> !HopByHop(Sanitize(hs)[i].name) && Sanitize(hs)[i] in hs
    ensures Sanitize(Sanitize(hs)) == Sanitize(hs)
  {
    var s := Sanitize(hs);
    KeepProperties(hs, ConnectionNamed(hs));
    forall i | 0 <= i < |s| ensures Lower(s[i].name) != CONNECTION {
      assert Canonical(s[i]);
    }
    NothingNamed(s);
    KeepAll(s);
  }

  // ---------------------------------------------------------------- which fields sanitation keeps

  lemma {:induction false} NamedTokens(hs: seq<Header>)
    requires AllCanonical(hs)
    ensures ConnectionNamed(hs) == Codings(Values(hs, CONNECTION))
  {
    hide SplitCommas;
    if hs != [] {
      assert Canonical(hs[0]);
      NamedTokens(hs[1..]);
      var rest := Values(hs[1..], CONNECTION);
      if hs[0].name == CONNECTION {
        assert Values(hs, CONNECTION) == [hs[0].value] + rest;
        assert ([hs[0].value] + rest)[1..] == rest;
      } else {
        assert Values(hs, CONNECTION) == [] + rest == rest;
        assert [] + ConnectionNamed(hs[1..]) == ConnectionNamed(hs[1..]);
      }
    }
  }

  lemma {:induction false} KeptValues(hs: seq<Header>, named: seq<bytes>, name: bytes)
    requires AllCanonical(hs)
    ensures Values(Keep(hs, named), name) == if HopByHop(name) || name in named then [] else Values(hs, name)
  {
    hide HopByHop;
    if hs != [] {
      assert Canonical(hs[0]);
      KeptValues(hs[1..], named, name);
      var lower := Lower(hs[0].name);
      var first := if HopByHop(lower) || lower in named then [] else [Header(lower, hs[0].value)];
      ValuesAppend(first, Keep(hs[1..], named), name);
      if first != [] {
        assert first[1..] == [];
      }
    }
  }

  /** A field meant for the far end: neither hop-by-hop nor named by a Connection field. */
  predicate EndToEnd(hs: seq<Header>, name: bytes) {
    !HopByHop(name) && name !in Codings(Values(hs, CONNECTION))
  }

  /** The hop-by-hop fields are these eight, and whatever a Connection field lists. */
  lemma HopByHopAre(hs: seq<Header>, name: bytes)
    ensures EndToEnd(hs, name) <==>
            && name != CONNECTION && name != KEEP_ALIVE && name != TE && name != TRAILER && name != TRANSFER_ENCODING
            && name != UPGRADE && name != PROXY_AUTHENTICATE && name != PROXY_AUTHORIZATION
            && !HasOption(hs, CONNECTION, name)
  {
    hide Codings, Values, HasOption;
    OptionListed(hs, CONNECTION, name);
  }

  /** Sanitation keeps the end-to-end fields, each with all its values in order, and no other. */
  lemma SanitizedValues(hs: seq<Header>, name: bytes)
    requires AllCanonical(hs)
    ensures Values(Sanitize(hs), name) == if EndToEnd(hs, name) then Values(hs, name) else []
  {
    hide HopByHop, Codings, Keep;
    NamedTokens(hs);
    KeptValues(hs, ConnectionNamed(hs), name);
  }
}
