/** Request relay: what is written for the upstream decodes to exactly the one request. */
module RequestTransparency {
  import opened Octets
  import opened Numerals
  import opened ChunkLine
  import opened Headers
  import opened ServerCodec
  import opened ServerFragments
  import opened RequestRelay

  // ---------------------------------------------------------------- fields decode

  /** A written field as it reads back. */
  function Read(h: Header): Header {
    Header(Lower(h.name), Strip(h.value, Blank))
  }

  function ReadAll(hs: seq<Header>): (r: seq<Header>)
    ensures |r| == |hs| && forall i :: 0 <= i < |hs| ==> r[i] == Read(hs[i])
  {
    seq(|hs|, i requires 0 <= i < |hs| => Read(hs[i]))
  }

  lemma {:induction false} FieldsDecode(hs: seq<Header>, max: int, have: nat)
    requires SafeFields(hs) && have + |hs| <= max
    ensures ParseFields(FieldLines(hs), max, have) == Ok(ReadAll(hs))
    ensures CleanLines(FieldLines(hs))
  {
    hide ParseField, FieldLine, CleanLine, Read, SafeField;
    forall i | 0 <= i < |hs| ensures CleanLine(FieldLines(hs)[i]) {
      FieldDecodes(hs[i]);
    }
    if hs != [] {
      FieldDecodes(hs[0]);
      assert FieldLines(hs)[1..] == FieldLines(hs[1..]);
      FieldsDecode(hs[1..], max, have + 1);
      assert [Read(hs[0])] + ReadAll(hs[1..]) == ReadAll(hs);
    }
  }

  lemma FieldDecodes(h: Header)
    requires SafeField(h)
    ensures CleanLine(FieldLine(h.name, h.value)) && FieldLine(h.name, h.value) != []
    ensures ParseField(FieldLine(h.name, h.value)) == Ok(Read(h))
  {
    hide Token, CleanValue, ParseField;
    FieldRoundTrip(h.name, h.value);
  }

  function StripAll(vs: seq<bytes>): (r: seq<bytes>)
    ensures |r| == |vs| && forall i :: 0 <= i < |vs| ==> r[i] == Strip(vs[i], Blank)
  {
    seq(|vs|, i requires 0 <= i < |vs| => Strip(vs[i], Blank))
  }

  lemma {:induction false} ReadValues(hs: seq<Header>, name: bytes)
    requires AllWritable(hs)
    ensures Values(ReadAll(hs), name) == StripAll(Values(hs, name))
  {
    hide Strip, SafeField, Lower;
    if hs != [] {
      assert Writable(hs[0]);
      assert ReadAll(hs)[1..] == ReadAll(hs[1..]);
      ReadValues(hs[1..], name);
    }
  }

  lemma {:induction false} CanonicalValues(hs: seq<Header>, name: bytes)
    requires AllCanonical(hs)
    ensures StripAll(Values(hs, name)) == Values(hs, name)
  {
    hide Canonical, Strip, Writable, Read;
    if hs != [] {
      assert Canonical(hs[0]);
      CanonicalWritable(hs[0]);
      CanonicalValues(hs[1..], name);
      var first := if hs[0].name == name then [hs[0].value] else [];
      assert StripAll(first + Values(hs[1..], name)) == StripAll(first) + StripAll(Values(hs[1..], name));
    }
  }

  /** A field name is a lower-case token and the value is clean. */
  predicate Writable(h: Header) {
    SafeField(h) && Lower(h.name) == h.name
  }

  predicate AllWritable(hs: seq<Header>) {
    forall i :: 0 <= i < |hs| ==> Writable(hs[i])
  }

  lemma CanonicalWritable(h: Header)
    requires Canonical(h)
    ensures Writable(h) && Read(h) == h && Strip(h.value, Blank) == h.value
  {
    hide Token, CleanValue;
    StripStripped(h.value, Blank);
  }

  // ---------------------------------------------------------------- which fields are written

  lemma NamesApart()
    ensures HOST != CONTENT_LENGTH && HOST != TRANSFER_ENCODING && HOST != EXPECT && HOST != CONNECTION
    ensures CONTENT_LENGTH != TRANSFER_ENCODING && CONTENT_LENGTH != EXPECT && CONTENT_LENGTH != CONNECTION
    ensures TRANSFER_ENCODING != EXPECT && TRANSFER_ENCODING != CONNECTION && EXPECT != CONNECTION
    ensures !ForwardedName(HOST) && !ForwardedName(CONTENT_LENGTH) && !ForwardedName(TRANSFER_ENCODING)
    ensures !ForwardedName(EXPECT) && !ForwardedName(CONNECTION)
  {
    assert |HOST| == 4 && |CONTENT_LENGTH| == 14 && |TRANSFER_ENCODING| == 17 && |EXPECT| == 6 && |CONNECTION| == 10;
    assert |FORWARDED_FOR| == 15 && |FORWARDED_PROTO| == 17 && |FORWARDED_HOST| == 16;
    assert FORWARDED_PROTO[0] == 120 && TRANSFER_ENCODING[0] == 116;
  }

  lemma OwnNamesCanonical()
    ensures Token(HOST) && Lower(HOST) == HOST
    ensures Token(FORWARDED_FOR) && Lower(FORWARDED_FOR) == FORWARDED_FOR
    ensures Token(FORWARDED_PROTO) && Lower(FORWARDED_PROTO) == FORWARDED_PROTO
    ensures Token(FORWARDED_HOST) && Lower(FORWARDED_HOST) == FORWARDED_HOST
  {
  }

  lemma FramingNamesCanonical()
    ensures Token(CONTENT_LENGTH) && Lower(CONTENT_LENGTH) == CONTENT_LENGTH
    ensures Token(TRANSFER_ENCODING) && Lower(TRANSFER_ENCODING) == TRANSFER_ENCODING
    ensures Token(CHUNKED) && Lower(CHUNKED) == CHUNKED && CleanValue(CHUNKED)
    ensures !Blank(CHUNKED[0]) && !Blank(CHUNKED[|CHUNKED| - 1])
  {
  }

  lemma {:induction false} KeptProperties(hs: seq<Header>, trust: bool)
    requires AllCanonical(hs)
    ensures AllCanonical(KeptForwarded(hs, trust))
    ensures forall i :: 0 <= i < |KeptForwarded(hs, trust)| ==> KeptForwarded(hs, trust)[i] in hs
    ensures |KeptForwarded(hs, trust)| <= |hs|
    ensures forall name :: !ForwardedName(name) ==> Values(KeptForwarded(hs, trust), name) == Values(hs, name)
  {
    hide Canonical, ForwardedName;
    if hs != [] {
      KeptProperties(hs[1..], trust);
      var first := if KeepForwarded(hs[0], trust) then [hs[0]] else [];
      var rest := KeptForwarded(hs[1..], trust);
      forall name | !ForwardedName(name) ensures Values(KeptForwarded(hs, trust), name) == Values(hs, name) {
        ValuesAppend(first, rest, name);
        ValuesAppend([hs[0]], hs[1..], name);
        assert [hs[0]] + hs[1..] == hs;
        ValuesOne(hs[0], name);
        if !KeepForwarded(hs[0], trust) {
          assert ForwardedName(hs[0].name);
        }
      }
    }
  }

  lemma ValuesOne(h: Header, name: bytes)
    ensures Values([h], name) == if h.name == name then [h.value] else []
  {
    assert [h][1..] == [];
  }

  lemma {:induction false} SelectedProperties(hs: seq<Header>, expectHandled: bool)
    requires AllWritable(hs)
    ensures AllWritable(NotSkipped(hs, expectHandled)) && |NotSkipped(hs, expectHandled)| <= |hs|
    ensures forall i :: 0 <= i < |NotSkipped(hs, expectHandled)| ==> NotSkipped(hs, expectHandled)[i] in hs
    ensures forall name :: Values(NotSkipped(hs, expectHandled), name) ==
                           if Skipped(name, expectHandled) then [] else Values(hs, name)
  {
    hide SafeField, Skipped, Lower;
    if hs != [] {
      assert Writable(hs[0]);
      SelectedProperties(hs[1..], expectHandled);
      var first := if Skipped(Lower(hs[0].name), expectHandled) then [] else [hs[0]];
      var rest := NotSkipped(hs[1..], expectHandled);
      forall name ensures Values(NotSkipped(hs, expectHandled), name) == if Skipped(name, expectHandled) then []
        else Values(hs, name) {
        ValuesAppend(first, rest, name);
        ValuesAppend([hs[0]], hs[1..], name);
        assert [hs[0]] + hs[1..] == hs;
        ValuesOne(hs[0], name);
      }
    }
  }

  lemma {:induction false} IncomingClean(hs: seq<Header>, trust: bool)
    requires AllCanonical(hs)
    ensures CleanValue(IncomingFor(hs, trust))
  {
    hide CleanValue, Token;
    if hs != [] {
      assert Canonical(hs[|hs| - 1]);
      assert AllCanonical(hs[..|hs| - 1]);
      IncomingClean(hs[..|hs| - 1], trust);
    } else {
      NoBytesClean();
    }
  }

  lemma NoBytesClean()
    ensures CleanValue([])
  {
  }

  /** The texts the gateway adds are clean and the authority is not empty: all the encoder asks. */
  predicate GoodRoute(r: Route) {
    && r.authority != [] && CleanValue(r.authority)
    && CleanValue(r.clientIp) && CleanValue(r.scheme) && CleanValue(r.originalHost)
  }

  lemma ChainClean(hs: seq<Header>, r: Route)
    requires AllCanonical(hs)
    ensures CleanValue(Chain(hs, r)) <==> CleanValue(r.clientIp)
  {
    IncomingClean(hs, r.trust);
    var incoming := IncomingFor(hs, r.trust);
    var chain := Chain(hs, r);
    if incoming != [] {
      var k := |incoming| + 2;
      assert forall i :: 0 <= i < |r.clientIp| ==> chain[k + i] == r.clientIp[i];
      if CleanValue(chain) {
        forall i | 0 <= i < |r.clientIp| ensures !BadValueByte(r.clientIp[i]) {
          assert !BadValueByte(chain[k + i]);
        }
      }
      if CleanValue(r.clientIp) {
        forall i | 0 <= i < |chain| ensures !BadValueByte(chain[i]) {
          if i < |incoming| {
            assert chain[i] == incoming[i];
          } else if i >= k {
            assert chain[i] == r.clientIp[i - k];
          }
        }
      }
    }
  }

  function Added(hs: seq<Header>, r: Route): seq<Header> {
    [Header(FORWARDED_FOR, Chain(Sanitize(hs), r)), Header(FORWARDED_PROTO, r.scheme),
      Header(FORWARDED_HOST, r.originalHost)]
  }

  lemma AddedProperties(hs: seq<Header>, r: Route)
    requires AllCanonical(hs)
    ensures CleanValue(r.clientIp) && CleanValue(r.scheme) && CleanValue(r.originalHost) ==> AllWritable(Added(hs, r))
    ensures SafeFields(Added(hs, r)) ==> CleanValue(r.clientIp) && CleanValue(r.scheme) && CleanValue(r.originalHost)
    ensures forall i :: 0 <= i < 3 ==> ForwardedName(Added(hs, r)[i].name)
  {
    hide Token, CleanValue, Lower, Chain, Sanitize;
    SanitizeIdempotent(hs);
    ChainClean(Sanitize(hs), r);
    OwnNamesCanonical();
    var a := Added(hs, r);
    assert a[0].value == Chain(Sanitize(hs), r) && a[1].value == r.scheme && a[2].value == r.originalHost;
    if SafeFields(a) {
      assert SafeField(a[0]) && SafeField(a[1]) && SafeField(a[2]);
    }
  }

  lemma {:induction false} NamesUnvalued(hs: seq<Header>, name: bytes)
    requires forall i :: 0 <= i < |hs| ==> hs[i].name != name
    ensures Values(hs, name) == []
  {
    if hs != [] {
      NamesUnvalued(hs[1..], name);
    }
  }

  lemma {:induction false} SelectAppend(a: seq<Header>, b: seq<Header>, expectHandled: bool)
    ensures NotSkipped(a + b, expectHandled) == NotSkipped(a, expectHandled) + NotSkipped(b, expectHandled)
  {
    hide Skipped;
    if a == [] {
      assert a + b == b;
    } else {
      assert (a + b)[1..] == a[1..] + b;
      SelectAppend(a[1..], b, expectHandled);
      var first := if Skipped(Lower(a[0].name), expectHandled) then [] else [a[0]];
      var more, last := NotSkipped(a[1..], expectHandled), NotSkipped(b, expectHandled);
      assert first + (more + last) == first + more + last;
    }
  }

  lemma {:induction false} NothingSkipped(hs: seq<Header>, expectHandled: bool)
    requires forall i :: 0 <= i < |hs| ==> !Skipped(Lower(hs[i].name), expectHandled)
    ensures NotSkipped(hs, expectHandled) == hs
  {
    hide Skipped;
    if hs != [] {
      NothingSkipped(hs[1..], expectHandled);
      assert [hs[0]] + hs[1..] == hs;
    }
  }

  lemma AddedKept(hs: seq<Header>, r: Route, expectHandled: bool)
    ensures NotSkipped(Added(hs, r), expectHandled) == Added(hs, r)
  {
    hide Chain, Sanitize;
    OwnNamesCanonical();
    NamesApart();
    NothingSkipped(Added(hs, r), expectHandled);
  }

  /** The fields that pass the hop-by-hop and forwarding filters. */
  function Passed(hs: seq<Header>, trust: bool, expectHandled: bool): seq<Header> {
    NotSkipped(KeptForwarded(Sanitize(hs), trust), expectHandled)
  }

  lemma OutFieldsParts(hs: seq<Header>, r: Route, expectHandled: bool)
    ensures OutFields(hs, r, expectHandled)
         == [Header(HOST, r.authority)] + (Passed(hs, r.trust, expectHandled) + Added(hs, r))
  {
    hide Sanitize, Chain;
    SelectAppend(KeptForwarded(Sanitize(hs), r.trust), Added(hs, r), expectHandled);
    AddedKept(hs, r, expectHandled);
  }

  lemma PassedProperties(hs: seq<Header>, trust: bool, expectHandled: bool)
    requires AllCanonical(hs)
    ensures var p := Passed(hs, trust, expectHandled);
            && AllWritable(p) && |p| <= |hs|
            && Values(p, HOST) == [] && Values(p, CONTENT_LENGTH) == [] && Values(p, TRANSFER_ENCODING) == []
            && Values(p, CONNECTION) == []
            && (Values(p, EXPECT) == [] || Values(p, EXPECT) == Values(hs, EXPECT))
  {
    hide HopByHop, Canonical, ForwardedName, Writable;
    var clean := Sanitize(hs);
    SanitizeIdempotent(hs);
    var named := ConnectionNamed(hs);
    var kept := KeptForwarded(clean, trust);
    KeptProperties(clean, trust);
    forall i | 0 <= i < |kept| ensures Writable(kept[i]) {
      CanonicalWritable(kept[i]);
    }
    SelectedProperties(kept, expectHandled);
    NamesApart();
    KeptValues(hs, named, CONNECTION);
    KeptValues(hs, named, EXPECT);
    ConnectionHops();
  }

  lemma ConnectionHops()
    ensures HopByHop(CONNECTION)
  {
  }

  lemma OutFieldsSafe(hs: seq<Header>, r: Route, expectHandled: bool)
    requires AllCanonical(hs)
    ensures SafeFields(OutFields(hs, r, expectHandled)) <==>
            CleanValue(r.authority) && CleanValue(r.clientIp) && CleanValue(r.scheme) && CleanValue(r.originalHost)
    ensures SafeFields(OutFields(hs, r, expectHandled)) ==> AllWritable(OutFields(hs, r, expectHandled))
  {
    hide CleanValue, Token, Lower, Passed, Added, AllCanonical, OutFields;
    OutFieldsParts(hs, r, expectHandled);
    PassedProperties(hs, r.trust, expectHandled);
    AddedProperties(hs, r);
    OwnNamesCanonical();
    var p, a, out := Passed(hs, r.trust, expectHandled), Added(hs, r), OutFields(hs, r, expectHandled);
    var tail := p + a;
    assert out[0] == Header(HOST, r.authority);
    if SafeFields(out) {
      forall i | 0 <= i < |a| ensures SafeField(a[i]) {
        assert out[1 + |p| + i] == a[i];
        assert SafeField(out[1 + |p| + i]);
      }
      assert SafeField(out[0]);
    }
    if CleanValue(r.authority) && AllWritable(a) {
      forall i | 0 <= i < |out| ensures Writable(out[i]) {
        if i > 0 {
          assert out[i] == if i - 1 < |p| then p[i - 1] else a[i - 1 - |p|];
        }
      }
      assert SafeFields(out);
    }
  }

  lemma {:induction false} OutFieldsValues(hs: seq<Header>, r: Route, expectHandled: bool)
    requires AllCanonical(hs)
    ensures var out := OutFields(hs, r, expectHandled);
            && |out| <= |hs| + 4
            && Values(out, HOST) == [r.authority]
            && Values(out, CONTENT_LENGTH) == [] && Values(out, TRANSFER_ENCODING) == []
            && Values(out, CONNECTION) == []
            && (Values(out, EXPECT) == [] || Values(out, EXPECT) == Values(hs, EXPECT))
  {
    hide CleanValue, Token, Lower, Passed, AllCanonical, OutFields, ForwardedName;
    OutFieldsParts(hs, r, expectHandled);
    PassedProperties(hs, r.trust, expectHandled);
    AddedProperties(hs, r);
    NamesApart();
    OutValues(hs, r, expectHandled, HOST);
    OutValues(hs, r, expectHandled, CONTENT_LENGTH);
    OutValues(hs, r, expectHandled, TRANSFER_ENCODING);
    OutValues(hs, r, expectHandled, CONNECTION);
    OutValues(hs, r, expectHandled, EXPECT);
  }

  lemma OutValues(hs: seq<Header>, r: Route, expectHandled: bool, name: bytes)
    requires AllCanonical(hs) && !ForwardedName(name)
    ensures Values(OutFields(hs, r, expectHandled), name)
         == (if name == HOST then [r.authority] else []) + Values(Passed(hs, r.trust, expectHandled), name)
  {
    hide Passed, AllCanonical, OutFields, ForwardedName;
    OutFieldsParts(hs, r, expectHandled);
    AddedProperties(hs, r);
    var p, a := Passed(hs, r.trust, expectHandled), Added(hs, r);
    NamesUnvalued(a, name);
    ValuesAppend(p, a, name);
    ValuesAppend([Header(HOST, r.authority)], p + a, name);
    ValuesOne(Header(HOST, r.authority), name);
  }

  // ---------------------------------------------------------------- the head decodes

  /** What an accepted client head guarantees. */
  predicate Accepted(L: Limits, h: RequestHead) {
    && Token(h.requestMethod) && h.target != [] && h.target[0] == 47 && SafeTarget(h.target)
    && AllCanonical(h.headers) && |h.headers| <= L.headerCount
    && (Values(h.headers, EXPECT) != [] ==> Codings(Values(h.headers, EXPECT)) == [CONTINUE_100])
    && (h.chunked <==> h.contentLength == -1) && -1 <= h.contentLength
    && (h.contentLength > 0 ==> h.contentLength <= L.bodyBytes)
  }

  lemma AcceptedHead(L: Limits, block: bytes)
    requires ParseHead(L, block).Ok? && L.headerCount >= 0
    ensures Accepted(L, ParseHead(L, block).value)
  {
    hide Token, SafeTarget, ParseFields, Codings, AllCanonical, CheckHost, KeepsAlive;
    var lines := SplitCrlf(block);
    ParsedCanonical(lines[1..], L.headerCount, 0);
  }

  lemma {:induction false} SplitAt(a: bytes, rest: bytes, sep: byte)
    requires forall i :: 0 <= i < |a| ==> a[i] != sep
    ensures SplitByte(a + [sep] + rest, sep) == [a] + SplitByte(rest, sep)
    ensures SplitByte(a, sep) == [a]
  {
    var s := a + [sep] + rest;
    assert forall i :: 0 <= i < |a| ==> s[i] == a[i];
    assert s[|a|] == sep;
    assert FindByte(s, sep) == |a|;
    assert s[..|a|] == a && s[|a| + 1..] == rest;
  }

  lemma TokenPlain(s: bytes)
    requires Token(s)
    ensures forall i :: 0 <= i < |s| ==> s[i] != 32 && s[i] != 9 && s[i] != 13
  {
    forall i | 0 <= i < |s| ensures s[i] != 32 && s[i] != 9 && s[i] != 13 {
      assert TokenByte(s[i]);
    }
  }

  lemma VersionPlain()
    ensures forall i :: 0 <= i < |HTTP_11| ==> HTTP_11[i] != 32 && HTTP_11[i] != 9 && HTTP_11[i] != 13
    ensures |HTTP_11| == 8
  {
  }

  lemma RequestLineParts(m: bytes, target: bytes)
    requires Token(m) && SafeTarget(target)
    ensures SplitByte(RequestLineBytes(m, target), 32) == [m, target, HTTP_11]
  {
    hide Token, SplitByte;
    TokenPlain(m);
    VersionPlain();
    assert RequestLineBytes(m, target) == m + [32] + (target + [32] + HTTP_11);
    SplitAt(m, target + [32] + HTTP_11, 32);
    SplitAt(target, HTTP_11, 32);
    SplitAt(HTTP_11, [], 32);
    assert [m] + ([target] + [HTTP_11]) == [m, target, HTTP_11];
  }

  lemma RequestLinePlain(m: bytes, target: bytes)
    requires Token(m) && SafeTarget(target)
    ensures var line := RequestLineBytes(m, target);
            line != [] && forall i :: 0 <= i < |line| ==> line[i] != 9 && line[i] != 13
  {
    hide Token;
    var line := RequestLineBytes(m, target);
    TokenPlain(m);
    VersionPlain();
    forall i | 0 <= i < |line| ensures line[i] != 9 && line[i] != 13 {
      if i < |m| {
        assert line[i] == m[i];
      } else if |m| < i < |m| + 1 + |target| {
        assert line[i] == target[i - |m| - 1];
      } else if i > |m| + 1 + |target| {
        assert line[i] == HTTP_11[i - |m| - |target| - 2];
      }
    }
  }

  lemma RequestLineDecodes(L: Limits, m: bytes, target: bytes)
    requires Token(m) && target != [] && target[0] == 47 && SafeTarget(target)
    requires |RequestLineBytes(m, target)| <= L.requestLine
    ensures CleanLine(RequestLineBytes(m, target))
    ensures ParseRequestLine(L, RequestLineBytes(m, target)) == Ok(RequestLine(m, target, true))
  {
    hide Token, SafeTarget, SplitByte, RequestLineBytes;
    RequestLineParts(m, target);
    RequestLinePlain(m, target);
  }

  /** The head the upstream decodes. */
  function SeenHead(m: bytes, target: bytes, fields: seq<Header>, contentLength: int, chunked: bool): RequestHead {
    var all := Seen(fields, contentLength, chunked);
    RequestHead(m, target, true, all, true, Values(all, EXPECT) != [], contentLength, chunked)
  }

  lemma FramingWritable(contentLength: int, chunked: bool)
    ensures Writable(FramingField(contentLength, chunked))
    ensures Read(FramingField(contentLength, chunked)) == FramingField(contentLength, chunked)
  {
    hide Token, CleanValue, Lower, Decimal, Strip, Blank;
    FramingNamesCanonical();
    var f := FramingField(contentLength, chunked);
    if chunked || contentLength < 0 {
      StripStripped(CHUNKED, Blank);
    } else {
      DecimalClean(contentLength);
      StripStripped(Decimal(contentLength), Blank);
    }
  }

  lemma DecimalClean(n: nat)
    ensures var s := Decimal(n);
            CleanValue(s) && !Blank(s[0]) && !Blank(s[|s| - 1]) && 44 !in s
  {
    var s := Decimal(n);
    forall i | 0 <= i < |s| ensures !BadValueByte(s[i]) && s[i] != 44 {
      assert Digit(s[i]);
    }
    assert Digit(s[0]) && Digit(s[|s| - 1]);
  }

  /** All values of the fields the upstream decodes, for the names its decoder looks at. */
  lemma SeenValues(fields: seq<Header>, framing: Header, name: bytes)
    requires AllWritable(fields) && Writable(framing) && Read(framing) == framing
    ensures Values(ReadAll(fields + [framing]), name)
         == StripAll(Values(fields, name)) + (if framing.name == name then [framing.value] else [])
  {
    hide Writable, Read, Strip;
    var all := fields + [framing];
    ReadValues(all, name);
    ValuesAppend(fields, [framing], name);
    ValuesOne(framing, name);
    StripFraming(framing);
    assert StripAll(Values(all, name)) == StripAll(Values(fields, name)) + StripAll(Values([framing], name));
  }

  lemma StripFraming(framing: Header)
    requires Read(framing) == framing
    ensures Strip(framing.value, Blank) == framing.value
  {
  }

  /** The fields written for the upstream, as far as its decoder looks at them. */
  predicate Framable(fields: seq<Header>, authority: bytes, original: seq<Header>) {
    && AllWritable(fields) && AllCanonical(original)
    && Values(fields, HOST) == [authority]
    && Values(fields, CONTENT_LENGTH) == [] && Values(fields, TRANSFER_ENCODING) == []
    && Values(fields, CONNECTION) == []
    && (Values(fields, EXPECT) == [] || Values(fields, EXPECT) == Values(original, EXPECT))
    && (Values(original, EXPECT) != [] ==> Codings(Values(original, EXPECT)) == [CONTINUE_100])
  }

  predicate DeclaredLength(L: Limits, contentLength: int, chunked: bool) {
    && (chunked <==> contentLength == -1)
    && -1 <= contentLength && (contentLength > 0 ==> contentLength <= L.bodyBytes) && 0 <= L.bodyBytes
  }

  function Seen(fields: seq<Header>, contentLength: int, chunked: bool): seq<Header> {
    ReadAll(fields + [FramingField(contentLength, chunked)])
  }

  lemma SeenAt(fields: seq<Header>, contentLength: int, chunked: bool, name: bytes)
    requires AllWritable(fields)
    ensures FramingField(contentLength, chunked).name == name ==>
              Values(Seen(fields, contentLength, chunked), name)
              == StripAll(Values(fields, name)) + [FramingField(contentLength, chunked).value]
    ensures FramingField(contentLength, chunked).name != name ==>
              Values(Seen(fields, contentLength, chunked), name) == StripAll(Values(fields, name))
  {
    hide *;
    FramingWritable(contentLength, chunked);
    SeenIs(fields, contentLength, chunked);
    SeenValues(fields, FramingField(contentLength, chunked), name);
  }

  lemma SeenIs(fields: seq<Header>, contentLength: int, chunked: bool)
    ensures Seen(fields, contentLength, chunked) == ReadAll(fields + [FramingField(contentLength, chunked)])
  {
  }

  lemma SeenHost(fields: seq<Header>, authority: bytes, original: seq<Header>, contentLength: int, chunked: bool)
    requires Framable(fields, authority, original)
    ensures CheckHost(true, Seen(fields, contentLength, chunked)) == None
  {
    hide Seen, Values, StripAll, AllWritable, AllCanonical, Codings;
    SeenAt(fields, contentLength, chunked, HOST);
    NamesApart();
  }

  lemma SeenFramingValues(fields: seq<Header>, authority: bytes, original: seq<Header>, contentLength: int,
                          chunked: bool)
    requires Framable(fields, authority, original) && (chunked <==> contentLength < 0)
    ensures var all := Seen(fields, contentLength, chunked);
            && Values(all, CONTENT_LENGTH) == (if chunked then [] else [Decimal(contentLength)])
            && Values(all, TRANSFER_ENCODING) == (if chunked then [CHUNKED] else [])
  {
    hide Seen, Values, AllWritable, AllCanonical, Codings, Decimal;
    SeenAt(fields, contentLength, chunked, CONTENT_LENGTH);
    SeenAt(fields, contentLength, chunked, TRANSFER_ENCODING);
    NamesApart();
    assert StripAll([]) == [];
  }

  lemma SeenFraming(L: Limits, fields: seq<Header>, authority: bytes, original: seq<Header>, contentLength: int,
                    chunked: bool)
    requires Framable(fields, authority, original) && DeclaredLength(L, contentLength, chunked)
    ensures ParseFraming(Seen(fields, contentLength, chunked), L.bodyBytes) == Ok(Framing(contentLength, chunked))
  {
    hide Seen, Values, Framable, Codings, Digits, DecimalValue, Decimal;
    SeenFramingValues(fields, authority, original, contentLength, chunked);
    if chunked {
      FramingNamesCanonical();
      SingleToken(CHUNKED);
    } else {
      DecimalClean(contentLength);
      DecimalRoundTrip(contentLength);
    }
  }

  lemma SeenOptions(fields: seq<Header>, authority: bytes, original: seq<Header>, contentLength: int, chunked: bool)
    requires Framable(fields, authority, original)
    ensures var all := Seen(fields, contentLength, chunked);
            && KeepsAlive(true, all)
            && (Values(all, EXPECT) != [] ==> Codings(Values(all, EXPECT)) == [CONTINUE_100])
  {
    hide Seen, Values, AllWritable, AllCanonical, Codings;
    SeenAt(fields, contentLength, chunked, CONNECTION);
    SeenAt(fields, contentLength, chunked, EXPECT);
    NamesApart();
    CanonicalValues(original, EXPECT);
    assert StripAll([]) == [];
    NoCodings();
  }

  /** A head block whose parts decode, decodes. */
  lemma HeadFromParts(L: Limits, block: bytes, start: RequestLine, hs: seq<Header>, f: Framing)
    requires ParseRequestLine(L, SplitCrlf(block)[0]) == Ok(start)
    requires ParseFields(SplitCrlf(block)[1..], L.headerCount, 0) == Ok(hs)
    requires CheckHost(start.http11, hs) == None && ParseFraming(hs, L.bodyBytes) == Ok(f)
    requires Values(hs, EXPECT) != [] ==> Codings(Values(hs, EXPECT)) == [CONTINUE_100]
    requires f.chunked || f.contentLength >= 0
    ensures ParseHead(L, block) ==
            Ok(RequestHead(start.requestMethod, start.target, start.http11, hs, KeepsAlive(start.http11, hs),
                           Values(hs, EXPECT) != [], f.contentLength, f.chunked))
  {
    hide ParseRequestLine, ParseFields, CheckHost, ParseFraming, Values, Codings, KeepsAlive;
  }

  lemma NoCodings()
    ensures Codings([]) == []
  {
  }

  /** An encoded request head decodes to the method, target, fields and framing it was written for. */
  lemma HeadDecodes(L: Limits, m: bytes, target: bytes, fields: seq<Header>, authority: bytes,
                    original: seq<Header>, contentLength: int, chunked: bool)
    requires Token(m) && target != [] && target[0] == 47 && SafeTarget(target)
    requires |RequestLineBytes(m, target)| <= L.requestLine && |fields| < L.headerCount
    requires Framable(fields, authority, original) && DeclaredLength(L, contentLength, chunked)
    ensures var out := Terminated(HeadLines(m, target, fields + [FramingField(contentLength, chunked)])) + CRLF;
            && |out| > 4 && FindDoubleCrlf(out) == |out| - 4
            && ParseHead(L, out[..|out| - 4]) == Ok(SeenHead(m, target, fields, contentLength, chunked))
  {
    hide Token, SafeTarget, RequestLineBytes, ParseRequestLine, ParseFields, ParseFraming, ParseHead, CheckHost,
         KeepsAlive,
         Framable, AllWritable, DeclaredLength, FieldLines, CleanLine, ReadAll, FramingField, Codings, Terminated,
           SplitCrlf, Values;
    var all := fields + [FramingField(contentLength, chunked)];
    RequestLineDecodes(L, m, target);
    FramableWritable(fields, authority, original);
    FramingWritable(contentLength, chunked);
    WritableAppend(fields, FramingField(contentLength, chunked));
    WritableSafe(all);
    FieldsDecode(all, L.headerCount, 0);
    SeenHost(fields, authority, original, contentLength, chunked);
    SeenFraming(L, fields, authority, original, contentLength, chunked);
    SeenOptions(fields, authority, original, contentLength, chunked);
    DeclaredShape(L, contentLength, chunked);
    var lines := HeadLines(m, target, all);
    assert CleanLines(lines);
    TerminatedBlock(lines);
    assert lines[1..] == FieldLines(all);
    var out := Terminated(lines) + CRLF;
    HeadFromParts(L, out[..|out| - 4], RequestLine(m, target, true), Seen(fields, contentLength, chunked),
      Framing(contentLength, chunked));
  }

  lemma FramableWritable(fields: seq<Header>, authority: bytes, original: seq<Header>)
    requires Framable(fields, authority, original)
    ensures AllWritable(fields)
  {
  }

  lemma WritableAppend(fields: seq<Header>, f: Header)
    requires AllWritable(fields) && Writable(f)
    ensures AllWritable(fields + [f])
  {
  }

  lemma DeclaredShape(L: Limits, contentLength: int, chunked: bool)
    requires DeclaredLength(L, contentLength, chunked)
    ensures chunked || contentLength >= 0
  {
  }

  lemma WritableSafe(hs: seq<Header>)
    requires AllWritable(hs)
    ensures SafeFields(hs)
  {
    hide SafeField;
    forall i | 0 <= i < |hs| ensures SafeField(hs[i]) {
      assert Writable(hs[i]);
    }
  }
}
