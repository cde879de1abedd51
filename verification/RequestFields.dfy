/** Which fields of a client's request reach the upstream, by name: what the gateway says about
    where the request came from, and what it passes on. */
module RequestFields {
  import opened Octets
  import opened Numerals
  import opened ChunkLine
  import opened Headers
  import opened ServerCodec
  import opened ServerFragments
  import opened RequestRelay
  import opened RequestTransparency

  // ---------------------------------------------------------------- what should arrive

  /** The client's own claims about where the request came from: none unless it is trusted. */
  function Claimed(sent: seq<Header>, trust: bool): seq<bytes> {
    if trust && EndToEnd(sent, FORWARDED_FOR) then Values(sent, FORWARDED_FOR) else []
  }

  /** The gateway's own claim: the client's address, behind the last claim made before it. */
  function OwnClaim(claimed: seq<bytes>, clientIp: bytes): bytes {
    if claimed == [] || claimed[|claimed| - 1] == [] then clientIp
    else claimed[|claimed| - 1] + [44, 32] + clientIp
  }

  /** Names the gateway writes itself. */
  predicate OwnName(name: bytes) {
    || name == HOST || name == CONTENT_LENGTH || name == TRANSFER_ENCODING
    || name == FORWARDED_FOR || name == FORWARDED_PROTO || name == FORWARDED_HOST
  }

  /** What the upstream decodes of an accepted head. A decoder takes the blanks around a value off. */
  ghost predicate ForwardedHead(sent: RequestHead, r: Route, expectHandled: bool, seen: RequestHead) {
    var claimed := Claimed(sent.headers, r.trust);
    && seen.requestMethod == Upper(sent.requestMethod) && seen.target == sent.target && seen.http11
    && seen.contentLength == sent.contentLength && seen.chunked == sent.chunked
    && Values(seen.headers, HOST) == [Strip(r.authority, Blank)]
    && Values(seen.headers, FORWARDED_FOR) == claimed + [Strip(OwnClaim(claimed, r.clientIp), Blank)]
    && Values(seen.headers, FORWARDED_PROTO) == [Strip(r.scheme, Blank)]
    && Values(seen.headers, FORWARDED_HOST) == [Strip(r.originalHost, Blank)]
    && Values(seen.headers, CONTENT_LENGTH) == (if sent.contentLength < 0 then [] else [Decimal(sent.contentLength)])
    && Values(seen.headers, TRANSFER_ENCODING) == (if sent.chunked then [CHUNKED] else [])
    && forall name :: !OwnName(name) ==>
         Values(seen.headers, name) ==
         if PassedOn(sent.headers, expectHandled, name) then Values(sent.headers, name) else []
  }

  /** An Expect the gateway has answered goes no further. */
  predicate PassedOn(sent: seq<Header>, expectHandled: bool, name: bytes) {
    EndToEnd(sent, name) && !(expectHandled && name == EXPECT)
  }

  // ---------------------------------------------------------------- the filters, name by name

  lemma {:induction false} KeptForwardedValues(hs: seq<Header>, trust: bool, name: bytes)
    ensures Values(KeptForwarded(hs, trust), name) ==
            if !ForwardedName(name) || (trust && name == FORWARDED_FOR) then Values(hs, name) else []
  {
    hide ForwardedName;
    if hs != [] {
      KeptForwardedValues(hs[1..], trust, name);
      var first := if KeepForwarded(hs[0], trust) then [hs[0]] else [];
      ValuesAppend(first, KeptForwarded(hs[1..], trust), name);
      if first != [] {
        ValuesOne(hs[0], name);
      }
    }
  }

  lemma {:induction false} LastIncoming(hs: seq<Header>, trust: bool)
    ensures var claimed := Values(hs, FORWARDED_FOR);
            IncomingFor(hs, trust) == if trust && claimed != [] then claimed[|claimed| - 1] else []
  {
    if hs != [] {
      var k := |hs| - 1;
      LastIncoming(hs[..k], trust);
      assert hs == hs[..k] + [hs[k]];
      ValuesAppend(hs[..k], [hs[k]], FORWARDED_FOR);
      ValuesOne(hs[k], FORWARDED_FOR);
    }
  }

  lemma AddedValues(hs: seq<Header>, r: Route, name: bytes)
    ensures Values(Added(hs, r), name) ==
            if name == FORWARDED_FOR then [Chain(Sanitize(hs), r)]
            else if name == FORWARDED_PROTO then [r.scheme]
            else if name == FORWARDED_HOST then [r.originalHost]
            else []
  {
    hide Chain, Sanitize;
    ForwardedApart();
    var a := Added(hs, r);
    assert a == [a[0]] + ([a[1]] + [a[2]]);
    ValuesAppend([a[0]], [a[1]] + [a[2]], name);
    ValuesAppend([a[1]], [a[2]], name);
    ValuesOne(a[0], name);
    ValuesOne(a[1], name);
    ValuesOne(a[2], name);
  }

  lemma ForwardedApart()
    ensures FORWARDED_FOR != FORWARDED_PROTO && FORWARDED_FOR != FORWARDED_HOST && FORWARDED_PROTO != FORWARDED_HOST
  {
    assert |FORWARDED_FOR| == 15 && |FORWARDED_PROTO| == 17 && |FORWARDED_HOST| == 16;
  }

  lemma WrittenValues(hs: seq<Header>, r: Route, expectHandled: bool, name: bytes)
    requires AllCanonical(hs)
    ensures Values(OutFields(hs, r, expectHandled), name) ==
            (if name == HOST then [r.authority] else [])
            + (Values(Passed(hs, r.trust, expectHandled), name) + Values(Added(hs, r), name))
  {
    hide Passed, Added, OutFields;
    OutFieldsParts(hs, r, expectHandled);
    var p, a := Passed(hs, r.trust, expectHandled), Added(hs, r);
    ValuesAppend(p, a, name);
    ValuesAppend([Header(HOST, r.authority)], p + a, name);
    ValuesOne(Header(HOST, r.authority), name);
  }

  lemma PassedValues(hs: seq<Header>, trust: bool, expectHandled: bool, name: bytes)
    requires AllCanonical(hs)
    ensures Values(Passed(hs, trust, expectHandled), name) ==
            if Skipped(name, expectHandled) || !EndToEnd(hs, name)
              || (ForwardedName(name) && !(trust && name == FORWARDED_FOR))
            then [] else Values(hs, name)
  {
    hide EndToEnd, ForwardedName, Skipped, Canonical, HopByHop, Sanitize, Writable;
    var clean := Sanitize(hs);
    var kept := KeptForwarded(clean, trust);
    SanitizeIdempotent(hs);
    KeptProperties(clean, trust);
    forall i | 0 <= i < |kept| ensures Writable(kept[i]) {
      CanonicalWritable(kept[i]);
    }
    SelectedProperties(kept, expectHandled);
    KeptForwardedValues(clean, trust, name);
    SanitizedValues(hs, name);
  }

  lemma ChainClaims(hs: seq<Header>, r: Route)
    requires AllCanonical(hs)
    ensures Chain(Sanitize(hs), r) == OwnClaim(Claimed(hs, r.trust), r.clientIp)
  {
    hide Sanitize, EndToEnd;
    SanitizedValues(hs, FORWARDED_FOR);
    LastIncoming(Sanitize(hs), r.trust);
  }

  // ---------------------------------------------------------------- the decoded head

  lemma OtherNames()
    ensures !Skipped(FORWARDED_FOR, true) && !Skipped(FORWARDED_PROTO, true) && !Skipped(FORWARDED_HOST, true)
    ensures !Skipped(FORWARDED_FOR, false) && !Skipped(FORWARDED_PROTO, false) && !Skipped(FORWARDED_HOST, false)
    ensures HOST != FORWARDED_FOR && HOST != FORWARDED_PROTO && HOST != FORWARDED_HOST
    ensures CONTENT_LENGTH != FORWARDED_FOR && CONTENT_LENGTH != FORWARDED_PROTO && CONTENT_LENGTH != FORWARDED_HOST
    ensures TRANSFER_ENCODING != FORWARDED_FOR && TRANSFER_ENCODING != FORWARDED_PROTO
            && TRANSFER_ENCODING != FORWARDED_HOST
  {
    assert |FORWARDED_FOR| == 15 && |FORWARDED_PROTO| == 17 && |FORWARDED_HOST| == 16;
    assert |HOST| == 4 && |CONTENT_LENGTH| == 14 && |TRANSFER_ENCODING| == 17 && |EXPECT| == 6;
    assert FORWARDED_PROTO[0] == 120 && TRANSFER_ENCODING[0] == 116;
  }

  /** The values the upstream decodes for one name. */
  lemma DecodedValues(hs: seq<Header>, r: Route, expectHandled: bool, contentLength: int, chunked: bool, name: bytes)
    requires AllCanonical(hs) && AllWritable(OutFields(hs, r, expectHandled))
    ensures Values(Seen(OutFields(hs, r, expectHandled), contentLength, chunked), name) ==
            StripAll(Values(OutFields(hs, r, expectHandled), name))
            + (if FramingField(contentLength, chunked).name == name then [FramingField(contentLength, chunked).value]
              else [])
  {
    hide Seen, OutFields, FramingField, AllWritable, StripAll;
    SeenAt(OutFields(hs, r, expectHandled), contentLength, chunked, name);
  }

  lemma StripThree(a: bytes, vs: seq<bytes>, b: bytes)
    requires StripAll(vs) == vs
    ensures StripAll([a] + []) == [Strip(a, Blank)] && StripAll([] + (vs + [])) == vs
    ensures StripAll([] + (vs + [b])) == vs + [Strip(b, Blank)] && StripAll([a] + ([] + [])) == [Strip(a, Blank)]
    ensures StripAll([] + ([] + [])) == [] && StripAll([] + ([] + [b])) == [Strip(b, Blank)]
  {
  }

  lemma StrippedAlready(hs: seq<Header>, name: bytes)
    requires AllCanonical(hs)
    ensures StripAll(Values(hs, name)) == Values(hs, name)
  {
    CanonicalValues(hs, name);
  }

  lemma OwnFieldsSeen(hs: seq<Header>, r: Route, expectHandled: bool, contentLength: int, chunked: bool)
    requires AllCanonical(hs) && AllWritable(OutFields(hs, r, expectHandled))
    ensures var seen, claimed := Seen(OutFields(hs, r, expectHandled), contentLength, chunked), Claimed(hs, r.trust);
            && Values(seen, HOST) == [Strip(r.authority, Blank)]
            && Values(seen, FORWARDED_FOR) == claimed + [Strip(OwnClaim(claimed, r.clientIp), Blank)]
            && Values(seen, FORWARDED_PROTO) == [Strip(r.scheme, Blank)]
            && Values(seen, FORWARDED_HOST) == [Strip(r.originalHost, Blank)]
  {
    hide Seen, OutFields, Passed, Added, AllWritable, EndToEnd, Chain, Sanitize, Values, Strip, StripAll, OwnClaim;
    OtherNames();
    ForwardedApart();
    ChainClaims(hs, r);
    forall name | name in {HOST, FORWARDED_FOR, FORWARDED_PROTO, FORWARDED_HOST}
      ensures Values(Seen(OutFields(hs, r, expectHandled), contentLength, chunked), name)
           == StripAll((if name == HOST then [r.authority] else [])
                       + (Values(Passed(hs, r.trust, expectHandled), name) + Values(Added(hs, r), name)))
    {
      FramingNamed(contentLength, chunked);
      NamesApart();
      DecodedValues(hs, r, expectHandled, contentLength, chunked, name);
      WrittenValues(hs, r, expectHandled, name);
      assert StripAll(Values(OutFields(hs, r, expectHandled), name)) + []
          == StripAll(Values(OutFields(hs, r, expectHandled), name));
    }
    HostSeen(hs, r, expectHandled);
    ForSeen(hs, r, expectHandled);
    ProtoSeen(hs, r, expectHandled);
  }

  lemma FramingNamed(contentLength: int, chunked: bool)
    ensures FramingField(contentLength, chunked).name in {CONTENT_LENGTH, TRANSFER_ENCODING}
  {
    hide Decimal;
  }

  lemma HostSeen(hs: seq<Header>, r: Route, expectHandled: bool)
    requires AllCanonical(hs)
    ensures StripAll([r.authority] + (Values(Passed(hs, r.trust, expectHandled), HOST) + Values(Added(hs, r), HOST)))
         == [Strip(r.authority, Blank)]
  {
    hide Passed, Added, EndToEnd, Strip, Chain;
    OtherNames();
    PassedValues(hs, r.trust, expectHandled, HOST);
    AddedValues(hs, r, HOST);
    StripThree(r.authority, [], []);
  }

  lemma ForSeen(hs: seq<Header>, r: Route, expectHandled: bool)
    requires AllCanonical(hs)
    ensures StripAll([] + (Values(Passed(hs, r.trust, expectHandled), FORWARDED_FOR)
              + Values(Added(hs, r), FORWARDED_FOR)))
         == Claimed(hs, r.trust) + [Strip(Chain(Sanitize(hs), r), Blank)]
  {
    hide Passed, Added, EndToEnd, Strip, Chain, Sanitize, Values, StripAll;
    OtherNames();
    PassedValues(hs, r.trust, expectHandled, FORWARDED_FOR);
    AddedValues(hs, r, FORWARDED_FOR);
    StrippedAlready(hs, FORWARDED_FOR);
    NothingStripped();
    StripThree([], Claimed(hs, r.trust), Chain(Sanitize(hs), r));
  }

  lemma NothingStripped()
    ensures StripAll([]) == []
  {
  }

  lemma ProtoSeen(hs: seq<Header>, r: Route, expectHandled: bool)
    requires AllCanonical(hs)
    ensures StripAll([] + (Values(Passed(hs, r.trust, expectHandled), FORWARDED_PROTO)
              + Values(Added(hs, r), FORWARDED_PROTO)))
         == [Strip(r.scheme, Blank)]
    ensures StripAll([] + (Values(Passed(hs, r.trust, expectHandled), FORWARDED_HOST)
              + Values(Added(hs, r), FORWARDED_HOST)))
         == [Strip(r.originalHost, Blank)]
  {
    hide Passed, Added, EndToEnd, Strip, Chain, Values;
    OtherNames();
    ForwardedApart();
    PassedValues(hs, r.trust, expectHandled, FORWARDED_PROTO);
    AddedValues(hs, r, FORWARDED_PROTO);
    StripThree([], [], r.scheme);
    PassedValues(hs, r.trust, expectHandled, FORWARDED_HOST);
    AddedValues(hs, r, FORWARDED_HOST);
    StripThree([], [], r.originalHost);
  }

  lemma OtherFieldSeen(hs: seq<Header>, r: Route, expectHandled: bool, contentLength: int, chunked: bool, name: bytes)
    requires AllCanonical(hs) && AllWritable(OutFields(hs, r, expectHandled)) && !OwnName(name)
    ensures Values(Seen(OutFields(hs, r, expectHandled), contentLength, chunked), name) ==
            if PassedOn(hs, expectHandled, name) then Values(hs, name) else []
  {
    hide Seen, OutFields, Passed, Added, AllWritable, EndToEnd, Chain, Values, Strip, StripAll;
    FramingNamed(contentLength, chunked);
    DecodedValues(hs, r, expectHandled, contentLength, chunked, name);
    WrittenValues(hs, r, expectHandled, name);
    PassedValues(hs, r.trust, expectHandled, name);
    AddedValues(hs, r, name);
    StrippedAlready(hs, name);
    NothingStripped();
    StripThree([], Values(hs, name), []);
    StripThree([], [], []);
  }

  /** The head the upstream decodes is the client's, forwarded: an untrusted client's claims are
      gone, a trusted one's are kept with the client's address behind the last. */
  lemma RequestForwarded(sent: RequestHead, r: Route, expectHandled: bool)
    requires AllCanonical(sent.headers) && AllWritable(OutFields(sent.headers, r, expectHandled))
    requires sent.chunked <==> sent.contentLength < 0
    requires Framable(OutFields(sent.headers, r, expectHandled), r.authority, sent.headers)
    ensures ForwardedHead(sent, r, expectHandled,
                          SeenHead(Upper(sent.requestMethod), sent.target, OutFields(sent.headers, r, expectHandled),
                                   sent.contentLength, sent.chunked))
  {
    hide Seen, OutFields, AllWritable, Claimed, OwnClaim, PassedOn, Values, Framable, OwnName, AllCanonical, Strip;
    var fields := OutFields(sent.headers, r, expectHandled);
    OwnFieldsSeen(sent.headers, r, expectHandled, sent.contentLength, sent.chunked);
    SeenFramingValues(fields, r.authority, sent.headers, sent.contentLength, sent.chunked);
    forall name | !OwnName(name)
      ensures Values(Seen(fields, sent.contentLength, sent.chunked), name) ==
              if PassedOn(sent.headers, expectHandled, name) then Values(sent.headers, name) else []
    {
      OtherFieldSeen(sent.headers, r, expectHandled, sent.contentLength, sent.chunked, name);
    }
  }
}
