# Verified model of the PCC gateway

This Dafny project models the protocol core of an HTTP/1 gateway whose code is
written without input or output: it takes bytes and clock readings as arguments
and returns events. The model follows that code branch by branch, with the same
constants, limits and errors, and proves what the parts promise together.

`dafny verify dfyconfig.toml` checks everything.

## What is modelled

- **HTTP/1 decoding, encoding and relaying** (sections 6 and 7 of RFC 9112).
  `ChunkLine`, `Headers`, `ServerCodec`, `UpstreamCodec` and `ResponseEncoder`
  hold the parsers and encoders as loops over growing buffers, each proved
  against a recursive specification; `HeadGrammar`, `RequestMessages` and
  `ResponseMessages` say exactly which heads and which whole messages the two
  decoders accept, and as what (sections 3 to 7 of RFC 9112). `ServerFragments`,
  `UpstreamFragments` and `ServerTraces` say what does not depend on how the
  bytes were cut, `ServerCuts` and `UpstreamCuts` which cuts do matter.
  `ResponseRelay`, `ResponseTransparency`, `ResponseOutcome`, `RequestRelay`,
  `RequestTransparency`, `RequestFields` and `RequestOutcome` decode what the
  relay writes with the gateway's own decoders, field by field. `ExchangeHistory` and `ProxyExchange` carry that
  over to the mutable exchange with its two queues.
- **Buffers** on the heap: `Buffers` (reference-counted segments and views),
  `ChannelBuffers` (the compacting queue of views as a byte queue) and
  `BufferAccounts` (the global metric and every queue charged to it).
- **Ownership protocols** as steps under every interleaving and every failure:
  `AdmissionLedger` (who owns a connection's admissions, and that its events are
  handled in order), `Generations` and `GenerationProgress` (publish, retire,
  drain), `TlsLifetime`, `TlsProgress` and `TlsProvider` (when the native TLS
  library may be unloaded, and that it is) and `BodyStreams` (the handoff of a
  request body).
- **DNS**: `DnsNames` (sections 3.1 and 4.1.4 of RFC 1035), `DnsCaches`,
  `DnsDriving`, `DnsDriver` and `DnsOutcomes` (what each observation of the
  transport leads to, and where answers come from).
- **ALPN framing** across the Python and C sides: `Alpn` (section 3.1 of
  RFC 7301).
- **A compiler pass**: `EarlyCse`, `EarlyCseShape`, `EarlyCseMeaning`,
  `EarlyCseOrder` and `EarlyCseComplete` (nothing it could reuse is left).

`Octets`, `Numerals`, `Joining` and `MapSums` hold bytes, numerals,
concatenation and sums over maps.

## How to read it

Objects the program updates in place are classes here, and each locked region
of the program is one method or one step. Such a method is proved equal to a
function of the old state; the theorems are about those functions. For
concurrent parts a datatype lists the atomic steps, `Act` says what each does,
`Invariant` is kept by every step, and the theorems quantify over all step
sequences. Hooks, handlers, transports, clocks and native calls are arbitrary
inputs. Text is Latin-1: a character is the byte it decodes from.

## Where the code differs from what one might expect

The model follows the code. These are the places where a property one would
like is not what the code does, each with its exact condition proved.

- The early guards of both decoders count a lone CR as part of the line. Bytes
  that decode in one read can therefore fail in two: exactly when the first part
  ends in the CR of a line of the longest accepted length, which is 128 bytes for
  a chunk-size line and max_request_line for a request line. The request decoder
  also refuses a request line over its limit at once, while one read that brings
  its line end but not the whole head still waits; this is its only other case
  (`ServerCuts.FeedPrefix`, `UpstreamCuts.FeedPrefix`, with a concrete cut each).
- The response encoder refuses a Host trailer that the upstream decoder has
  accepted, so the relay raises on exactly those responses
  (`ResponseOutcome.RelayRefuses`; `HostResponseRefused` is one).
- The exchange upper-cases the method, so a method with lower-case letters does
  not survive the relay (`RequestOutcome.MethodKept`; `LowerCaseMethodChanged`).
- Chunk extensions are read without the optional whitespace of section 7.1.1 of
  RFC 9112 (`ChunkLine.LineGrammar` states the grammar accepted).
- A local handler's response whose status is no number raises before the guarded
  region, and its admission is then owned by nobody. The response's constructor
  compares the status itself, so only a status changed after construction gets
  there. A connection ends with exactly as many such admissions as it joined such
  answers, hence with none if and only if there was none
  (`AdmissionLedger.GatewayConnection.RunConnection`, `StrandedResponse`).
- The compiler pass substitutes in each line as it scans and once more at the
  end. For functions whose uses follow their definitions in the text, phis
  excepted, it preserves meaning (`EarlyCseMeaning.MeaningPreserved`). For others
  it can leave a use of a definition it has dropped, exactly when a kept line or
  phi, as the scan leaves it, names a replaced name whose replacement is replaced
  (`EarlyCseOrder.DanglesExactly`, `EarlyCseOrder.LateUseDangles`).
- For the same reason only such functions come out with nothing left to reuse
  (`EarlyCseComplete.NothingLeft`); in any other, a block that repeats a value in
  the output has a line that uses a replaced name ahead of its definition
  (`EarlyCseComplete.NothingLeftBehind`, `EarlyCseComplete.LateCastRepeats`).

## Model

| member | source | states |
|---|---|---|
| Octets.ScanCrlf | pcc_gateway/http1.py:128-134 | the scanning loop returns the first index at which CR LF stands, or -1 |
| Octets.ScanDoubleCrlf | pcc_gateway/http1.py:113-125 | the scanning loop returns the first index at which CR LF CR LF stands, or -1 |
| Octets.FindDoubleCrlfExtend | pcc_gateway/http1.py:113-125 | a hit does not move when bytes are appended, and a miss becomes a hit only through one of the new bytes; what incremental decoding relies on |
| Octets.TerminatedBlock | pcc_gateway/http1.py:326-330 | lines written one by one and closed by an empty line are found by the scanner at their own end and split back into exactly those lines |
| Octets.LinesJoinBack | pcc_gateway/http1.py:329-329 | splitting at line ends loses nothing and leaves no line end in a line |
| Octets.StripTakesEnds | pcc_gateway/http1.py:288-288 | stripping takes off only what is to be dropped, and only at the two ends |
| ChunkLine.IsToken | pcc_gateway/http1.py:83-101 | the loop accepts exactly the nonempty strings of token bytes |
| ChunkLine.IsQuotedString | pcc_gateway/http1.py:146-175 | the escape-tracking loop accepts exactly the quoted strings of the recursive grammar: quoted text and escaped pairs between two quotes |
| ChunkLine.ParseChunkSizeLine | pcc_gateway/http1.py:178-248 | the index-advancing parser equals the specification function, errors included |
| ChunkLine.LineGrammar | pcc_gateway/http1.py:178-248 | a line is accepted with a size if and only if it derives from 1 to 16 hexadecimal digits followed by `;name`, `;name=token` or `;name="quoted"` repetitions, with that value; the value is below 16^16 |
| ChunkLine.DerivedLineParses | pcc_gateway/http1.py:178-248 | every line of the grammar is accepted with the value of its digits: no valid extension is refused |
| ChunkLine.ReadIsExtension | pcc_gateway/http1.py:199-247 | whatever one round of the extension loop consumes is a valid extension, written back byte for byte |
| ChunkLine.ExtensionRead | pcc_gateway/http1.py:199-247 | a valid extension is consumed whole, whatever extension follows it |
| ChunkLine.EncodedSize | pcc_gateway/http1.py:642-645 | the size the encoder prints is read back if and only if it is below 16^16, and is a chunk-size error from there on |
| Numerals.HexAnyCase | pcc_gateway/http1.py:178-196 | either case of a hexadecimal numeral has the same value |
| Headers.ContainsBadValueByte | pcc_gateway/http1.py:104-110 | the loop finds a control byte exactly when the value is not clean |
| Headers.ParseHeaders | pcc_gateway/http1.py:268-294 | the field loop equals the specification: first error in line order, field count limit, blank lines skipped |
| Headers.FieldsRoundTrip | pcc_gateway/http1.py:268-294 | canonical fields written as `name: value` lines parse back to exactly those fields, within the count limit |
| Headers.FieldRoundTrip | pcc_gateway/http1.py:595-602 | any field the output validation accepts reads back with its name in lower case and its value stripped of outer blanks |
| Headers.SanitizeHopByHop | pcc_gateway/proxy.py:23-43 | the two loops keep exactly the fields that are neither hop-by-hop nor named by Connection, in order, with lower-case names |
| Headers.SanitizeIdempotent | pcc_gateway/proxy.py:34-43 | sanitizing leaves no hop-by-hop field, invents none, and doing it twice changes nothing |
| Headers.HopByHopAre | pcc_gateway/proxy.py:11-31 | a field is end-to-end if and only if it is none of the eight hop-by-hop names and no Connection field lists it, in any case and with any white space around it |
| Headers.SanitizedValues | pcc_gateway/proxy.py:23-43 | sanitizing keeps every end-to-end field with all its values in order, and no other |
| Headers.CommaJoins | pcc_gateway/http1.py:137-143 | a comma joins two lists of tokens |
| Headers.CommaItem | pcc_gateway/http1.py:137-143 | an item without a comma is one token, stripped and in lower case, or none if it is blank |
| Headers.OptionListed | pcc_gateway/http1.py:388-392 | a token is among those of a field name if and only if it stands between commas in one of its values, in any case |
| Headers.Persistence | pcc_gateway/http1.py:388-397 | close ends the connection; without it HTTP/1.1 stays, and HTTP/1.0 stays exactly when keep-alive is listed |
| HeadGrammar.RequestLineGrammar | pcc_gateway/http1.py:326-355 | a line is accepted as a method, target and version if and only if it is exactly a token, an origin-form target without control bytes or spaces, and HTTP/1.0 or HTTP/1.1, separated by single spaces, within the limit |
| HeadGrammar.StatusLineGrammar | pcc_gateway/proxy_http1.py:109-130 | a line is accepted as a status line if and only if it is a version, three digits from 100, and a clean reason phrase whose space may be missing when it is empty |
| HeadGrammar.FieldsGrammar | pcc_gateway/http1.py:268-294 | field lines are accepted with some fields if and only if each nonblank line is a token, a colon and a clean value, in that order, and there are at most the allowed number |
| HeadGrammar.RequestFraming | pcc_gateway/http1.py:362-386 | request framing is accepted if and only if there is one decimal Content-Length within the limit and no Transfer-Encoding, or one final chunked coding and no Content-Length, or neither |
| HeadGrammar.ResponseFraming | pcc_gateway/proxy_http1.py:136-163 | the same for responses |
| HeadGrammar.DecodersAgree | pcc_gateway/proxy_http1.py:136-163 | from the same fields both decoders read the same framing, or both refuse, and both find the same declared bodies too large |
| HeadGrammar.FramingRefused | pcc_gateway/http1.py:362-386 | which fields the request decoder refuses to frame by, and with which of its five errors |
| HeadGrammar.RequestHeadGrammar | pcc_gateway/http1.py:326-425 | a block is accepted as a request head if and only if its lines derive from the grammar, with one Host for HTTP/1.1 and at most one otherwise, one framing, and no expectation but 100-continue; persistence is as the Connection field says |
| HeadGrammar.ResponseHeadGrammar | pcc_gateway/proxy_http1.py:109-209 | a block is accepted as a response head if and only if its lines derive from the grammar, with one framing and no status 101; whether a body follows and the connection persists is as status, method and fields say |
| HeadGrammar.RequestTrailersGrammar | pcc_gateway/http1.py:551-557 | a block is accepted as a request trailer section with some fields if and only if its lines derive them, within the count limit, and none is Content-Length, Transfer-Encoding or Host |
| HeadGrammar.ResponseTrailersGrammar | pcc_gateway/proxy_http1.py:312-323 | a block is accepted as a response trailer section if and only if its lines derive fields that do not frame, and the result is those fields without the hop-by-hop ones |
| HeadGrammar.HeadTooLarge | pcc_gateway/http1.py:374-376 | a head block is refused as declaring too large a body if and only if it derives from the grammar up to its framing and its one Content-Length is above the limit |
| HeadGrammar.BodyTooLargeWhen | pcc_gateway/http1.py:374-517 | a decoding step finds a body too large exactly in two cases: a head that declares it, and a chunk-size line of the grammar that goes beyond the limit |
| UpstreamCodec.Http1UpstreamCodec.constructor | pcc_gateway/proxy_http1.py:82-102 | a new decoder is in the head state with an empty buffer |
| UpstreamCodec.Http1UpstreamCodec.DecodeBlock | pcc_gateway/proxy_http1.py:219-237 | head and trailer rounds change buffer, state and counters exactly as the step function says, and change nothing when they wait for more |
| UpstreamCodec.Http1UpstreamCodec.DecodeBody | pcc_gateway/proxy_http1.py:238-252 | fixed, chunk-data and read-until-close rounds take bytes from the front of the buffer exactly as the step function says |
| UpstreamCodec.Http1UpstreamCodec.DecodeChunkLine | pcc_gateway/proxy_http1.py:253-294 | chunk-size lines and chunk line ends, with every limit and the 128-byte guard, exactly as the step function says |
| UpstreamCodec.Http1UpstreamCodec.FeedData | pcc_gateway/proxy_http1.py:211-340 | the whole feed loop: new state, events and error equal the recursive specification; bytes after a close are refused; a successful feed keeps the codec well formed |
| UpstreamCodec.Http1UpstreamCodec.Eof | pcc_gateway/proxy_http1.py:342-350 | a close ends a response of unknown length, is silent after a complete one, and is an error anywhere else |
| UpstreamFragments.StepExtend | pcc_gateway/proxy_http1.py:211-340 | one decoding step taken on a buffer is the same step on the buffer with more bytes behind it |
| UpstreamFragments.FeedSplit | pcc_gateway/proxy_http1.py:211-340 | feeding a then b and feeding a + b both fail or both succeed, with the same final state and the same events once adjacent body pieces are merged |
| UpstreamCuts.FeedPrefix | pcc_gateway/proxy_http1.py:253-260 | conversely, bytes a waiting decoder can read in one piece fail in two if and only if the first part ends in the CR of a chunk-size line of exactly 128 bytes, that is, one byte earlier the decoder waits with those 128 bytes; otherwise both reads succeed and mean what one read does |
| UpstreamCuts.ShortLinesReadable | pcc_gateway/proxy_http1.py:253-260 | so bytes whose chunk-size lines are all shorter than 128 bytes can be cut anywhere |
| UpstreamCuts.LongestChunkLineCut | pcc_gateway/proxy_http1.py:253-260 | a concrete 128-byte chunk-size line that is read in one piece and refused when cut between CR and LF |
| ResponseMessages.ResponseExactly | pcc_gateway/proxy_http1.py:211-340 | bytes are read as a complete response if and only if they derive from the message grammar: interim heads, a final head, and the body it calls for, fixed, chunked with trailers, none, or up to the close, within all limits; and what is read is their heads, body and trailers |
| ResponseMessages.ChunksRead | pcc_gateway/proxy_http1.py:253-323 | the same for a chunked body: size lines, data, line ends, last chunk and trailer section |
| UpstreamFragments.CompletedRunExtend | pcc_gateway/proxy_http1.py:233-252 | once the response is complete, more bytes are an error however they are cut |
| ResponseEncoder.EncodeHead | pcc_gateway/http1.py:606-640 | the byte-appending head encoder equals the line-based specification, with its refusals: both framings, unsafe fields, framing fields of the caller |
| ResponseEncoder.EncodeChunk | pcc_gateway/http1.py:642-645 | a nonempty chunk is its hexadecimal size, CR LF, the data, CR LF; an empty one is nothing |
| ResponseEncoder.EncodeEnd | pcc_gateway/http1.py:647-665 | the last chunk and the trailer lines, or the first refusal in field order |
| ResponseRelay.RelayAppend | pcc_gateway/proxy_http1.py:604-660 | relaying one list of events after another equals relaying both together, failures included |
| ResponseRelay.ParsedHeadGood | pcc_gateway/proxy_http1.py:109-209 | every head the upstream decoder accepts has a status of 100 to 999, canonical fields and a consistent framing |
| ResponseRelay.StartLineDecodes | pcc_gateway/http1.py:606-640 | the status line the encoder writes parses back to the same status |
| ResponseRelay.HeadDecodes | pcc_gateway/http1.py:606-640 | an encoded head decodes, under any sufficient limits, to the status, fields, framing and body expectation it was written for |
| ResponseRelay.ClosingHeadDecodes | pcc_gateway/http1.py:634-635 | a head encoded for a connection that ends decodes as one, and otherwise in the same way |
| ResponseRelay.SeenFields | pcc_gateway/proxy_http1.py:609-617 | the fields of a relayed head are the end-to-end fields of the upstream's, with their values in order, and the relay's own framing |
| ResponseRelay.WritableAccepted | pcc_gateway/http1.py:595-618 | a head is refused for its fields exactly when one is unsafe or frames |
| ResponseRelay.RefusedAt | pcc_gateway/http1.py:612-618 | and the first such field decides the error |
| ResponseRelay.WritableTrailers | pcc_gateway/http1.py:647-660 | a trailer section is refused exactly when a field is unsafe, frames or names Host |
| ResponseRelay.WrittenLines | pcc_gateway/http1.py:606-640 | whatever fields it accepts, a head is written as its status line and one line for each field and no others: nothing in a name or value ends a line or the head early |
| ResponseTransparency.ChunkDecodes | pcc_gateway/http1.py:642-645 | an encoded chunk decodes to exactly its data and returns the decoder to the chunk-size state |
| ResponseTransparency.EndDecodes | pcc_gateway/http1.py:647-665 | an encoded chunked ending decodes to the same trailers and completes the response |
| ResponseTransparency.ChunkCut | pcc_gateway/http1.py:642-645 | no beginning of an encoded chunk makes the client's decoder fail: its size line is too short for the early guard |
| ResponseTransparency.EndCut | pcc_gateway/http1.py:647-665 | nor does any beginning of an encoded ending |
| ResponseTransparency.StepSim | pcc_gateway/proxy_http1.py:604-660 | one step of the upstream decoder, relayed, keeps the client's decoder in lockstep and shows it the same units |
| ResponseTransparency.RunSim | pcc_gateway/proxy_http1.py:604-660 | a whole run of the upstream decoder, relayed, does |
| ResponseTransparency.RelayTransparency | pcc_gateway/proxy_http1.py:604-672 | for every upstream byte stream, every cutting into reads and every moment, the client decodes the bytes so far without error and with nothing left over, sees the relayed units, and is complete exactly when the upstream response is; and no beginning of those bytes makes it fail |
| ResponseOutcome.SeenSameResponse | pcc_gateway/proxy_http1.py:604-660 | what the client sees of a response agrees with what the upstream sent: the final head and the interim ones that are due (all but a 100 the gateway has answered itself) with the same status, every end-to-end field with the same values in order, and only the relay's own framing; the same body bytes; the same sanitized trailers |
| ResponseOutcome.SeenHeadSame | pcc_gateway/proxy_http1.py:609-648 | the head the client sees agrees with the upstream's: status, end-to-end fields, and only the framing the relay chooses |
| ResponseOutcome.AllDecoded | pcc_gateway/proxy_http1.py:211-350 | every head the upstream decoder emits, over any reads, has canonical fields and a length or none |
| ResponseOutcome.RelayRefuses | pcc_gateway/http1.py:651-659 | the relay raises on a decoded response if and only if one of its trailer sections names Host |
| ResponseOutcome.HostResponseRefused | pcc_gateway/http1.py:651-659 | a concrete chunked response with a Host trailer that the upstream decoder reads to its end and the relay refuses |
| ResponseOutcome.ClientSeesTheResponse | pcc_gateway/proxy_http1.py:604-672 | unless a trailer names Host, the relay succeeds and the client decodes the same response: heads, end-to-end fields with their values in order, declared length, body and sanitized trailers, and every 100 the gateway has not answered itself |
| ServerCodec.Http1ServerCodec.constructor | pcc_gateway/http1.py:300-319 | a new decoder is between messages with an empty buffer |
| ServerCodec.Http1ServerCodec.ResetMessage | pcc_gateway/http1.py:321-324 | state and counters start over; the buffer keeps its bytes |
| ServerCodec.Http1ServerCodec.DecodeHead | pcc_gateway/http1.py:454-475 | the head round, with both early guards and every head check, equals the step function |
| ServerCodec.Http1ServerCodec.DecodeBody | pcc_gateway/http1.py:477-496 | fixed bodies and chunk data equal the step function |
| ServerCodec.Http1ServerCodec.DecodeChunkSize | pcc_gateway/http1.py:498-517 | chunk-size lines equal the step function |
| ServerCodec.Http1ServerCodec.DecodeTrailers | pcc_gateway/http1.py:531-562 | trailer sections equal the step function |
| ServerCodec.Http1ServerCodec.FeedData | pcc_gateway/http1.py:427-565 | the whole feed loop, with its message budget: state, events and error equal the recursive specification |
| ServerCodec.Http1ServerCodec.Eof | pcc_gateway/http1.py:567-592 | a close is clean exactly between messages with nothing buffered |
| ServerFragments.StepExtend | pcc_gateway/http1.py:447-565 | one decoding step is the same with more bytes behind the buffer |
| ServerFragments.FeedSplit | pcc_gateway/http1.py:447-565 | feeding a then b ends in the state of feeding a + b, with the same error if any, after the same merged events |
| ServerCuts.FeedPrefix | pcc_gateway/http1.py:460-503 | conversely, bytes a waiting decoder can read in one piece fail in two if and only if the first part ends in the CR of a request line or chunk-size line of exactly the longest accepted length, or ends behind the limit in a request line of a head that all the bytes leave unfinished; otherwise both reads succeed and mean what one read does |
| ServerCuts.ShortLinesReadable | pcc_gateway/http1.py:460-503 | so bytes whose request lines and chunk-size lines are all shorter than the limits can be cut anywhere |
| ServerCuts.LongestChunkLineCut | pcc_gateway/http1.py:498-503 | a concrete 128-byte chunk-size line that is read in one piece and refused when cut between CR and LF |
| ServerCuts.LongRequestLineCut | pcc_gateway/http1.py:460-462 | a concrete request line over the limit that waits in one piece and is refused when cut before its line end |
| RequestMessages.RequestExactly | pcc_gateway/http1.py:427-565 | the first n bytes are read as one request, and the others left, if and only if they derive from the message grammar: a head and the body it calls for, fixed, chunked with trailers, or none, within all limits; and what is read is its head, body and trailers |
| RequestMessages.ChunksOne | pcc_gateway/http1.py:498-562 | the same for a chunked body |
| ServerTraces.RunTrace | pcc_gateway/http1.py:447-565 | from any well-formed state a run emits a legal continuation of the message trace and stays in step with it |
| ServerTraces.ConnectionTrace | pcc_gateway/http1.py:447-565 | over any reads of a connection, up to and including a failing one, the events are a prefix of (Head Body* End)*, a finished body has its declared length, and neither a declared length nor the bytes of a chunked body exceed max_body_bytes |
| ServerTraces.LeftoverBound | pcc_gateway/http1.py:447-565 | after successful reads and one unlimited read, at most max(max_header_bytes, 128, max_chunk_bytes + 1) bytes stay buffered |
| ServerTraces.OneShrinks | pcc_gateway/http1.py:472-475 | every message decoded shrinks the buffer |
| ServerTraces.OneByOneIsAll | pcc_gateway/http1.py:447-565 | decoding message by message until none ends equals one unlimited decode: same state, same events, same error |
| RequestRelay.ForwardHeaders | pcc_gateway/proxy.py:46-71 | the loop keeps the sanitized fields but for the forwarding fields of an untrusted client, and appends the gateway's own three; RequestFields says what that means to the upstream |
| RequestRelay.EncodeRequestHead | pcc_gateway/proxy_http1.py:353-406 | the request-head encoder equals its specification, every refusal included |
| RequestRelay.SelectFields | pcc_gateway/proxy_http1.py:383-390 | Host first, then the forwarded fields without framing fields and, when the gateway has answered it, without Expect |
| RequestTransparency.OutFieldsValues | pcc_gateway/proxy_http1.py:383-404 | for the names the upstream looks at, the written fields carry the authority as Host, the client's Expect or nothing, and no framing or Connection field of the client |
| RequestFields.RequestForwarded | pcc_gateway/proxy.py:46-71 | for the head the upstream decodes: of an untrusted client X-Forwarded-For is the gateway's address of it alone, of a trusted one the client's values followed by the last of them extended with that address; X-Forwarded-Proto and X-Forwarded-Host are exactly the scheme and the original host; every other end-to-end field but those the relay owns keeps the client's values in order |
| RequestFields.PassedValues | pcc_gateway/proxy.py:46-71 | what of a name's values passes the sanitizing and the trust rule |
| RequestTransparency.RequestLineDecodes | pcc_gateway/proxy_http1.py:391-391 | the written request line parses back to the same method and target |
| RequestTransparency.HeadDecodes | pcc_gateway/proxy_http1.py:391-406 | a written request head decodes under the server-side decoder to the method, target, fields and framing it was written for |
| RequestOutcome.HeadForwarded | pcc_gateway/proxy_http1.py:366-406 | the head of every relayed request carries those forwarding fields and those values |
| RequestOutcome.HeadEncodesWhen | pcc_gateway/proxy_http1.py:366-404 | a head the client-side decoder accepted is relayed if and only if the authority is not empty and the four texts the gateway adds contain no control byte |
| RequestOutcome.EndNeverRefused | pcc_gateway/proxy_http1.py:568-585 | trailers the client-side decoder accepted are never refused on the way out |
| RequestOutcome.PieceReaches | pcc_gateway/proxy_http1.py:553-566 | one body piece, fixed or chunked, is decoded upstream to exactly its bytes |
| RequestOutcome.EndReaches | pcc_gateway/proxy_http1.py:577-585 | the chunked ending is decoded upstream to exactly the sanitized trailers |
| RequestOutcome.RequestRelayed | pcc_gateway/proxy_http1.py:353-592 | for an accepted head and trailers and any pieces of the declared total, everything written decodes to exactly one request: same target, same framing, upper-cased method, end-to-end fields with the client's values in order, the gateway's forwarding fields, body the concatenation of the pieces, sanitized trailers |
| RequestOutcome.MethodKept | pcc_gateway/proxy_http1.py:492-492 | the relayed method differs from the client's at most in case, and is the client's if and only if that has no lower-case letter |
| RequestOutcome.LowerCaseMethodChanged | pcc_gateway/proxy_http1.py:492-492 | the concrete request `get /` is decoded on the client side as one request with that method, and is relayed under every usable route as one request with the method `GET` |
| ExchangeHistory.RunEnds | pcc_gateway/proxy_http1.py:104-107 | a run leaves the decoder complete exactly when it has emitted the end of the response |
| ExchangeHistory.RelayFinishes | pcc_gateway/proxy_http1.py:654-659 | the relay is finished exactly when it has relayed an end |
| ExchangeHistory.RelayReports | pcc_gateway/proxy_http1.py:636-648 | status, persistence and framing the exchange keeps of a response are those of the last final head relayed, and untouched before there is one |
| ExchangeHistory.MoreRead | pcc_gateway/proxy_http1.py:604-660 | one more successful, relayed read extends the history of reads and of queued bytes consistently |
| ExchangeHistory.WholeRequest | pcc_gateway/proxy_http1.py:553-592 | a finished request history is one request for the upstream's decoder, with the client's fields and the gateway's forwarding fields |
| ProxyExchanges.ProxyExchange.Empty | pcc_gateway/proxy_http1.py:492-513 | two empty bounded queues charged to the metric and a fresh decoder |
| ProxyExchanges.Open | pcc_gateway/proxy_http1.py:482-527 | the constructor: defaults, validation, head encoded and queued and charged, framing and expectation remembered, or nothing charged when it raises |
| ProxyExchanges.DefaultsAccepted | pcc_gateway/proxy_http1.py:488-491 | the derived watermarks suit every positive bound |
| ProxyExchanges.ProxyExchange.AppendUpstream | pcc_gateway/proxy_http1.py:542-551 | bytes are queued and charged, or neither |
| ProxyExchanges.ProxyExchange.FeedRequestBody | pcc_gateway/proxy_http1.py:553-566 | refused when cancelled or finished, an overflow exactly when a fixed body would pass its declared length, else framed and queued |
| ProxyExchanges.ProxyExchange.EncodeEnding | pcc_gateway/proxy_http1.py:577-584 | the trailer loop writes the specified ending or refuses |
| ProxyExchanges.ProxyExchange.FinishRequest | pcc_gateway/proxy_http1.py:568-585 | idempotent; an underflow exactly when a fixed body is short, and then the request stays open; the ending is queued whole or not at all |
| ProxyExchanges.ProxyExchange.TakeUpstream | pcc_gateway/proxy_http1.py:587-592 | hands out the first bytes in order, gives their charge back, and reports when backpressure ended |
| ProxyExchanges.ProxyExchange.AppendDownstream | pcc_gateway/proxy_http1.py:594-602 | bytes are queued and charged, or neither |
| ProxyExchanges.ProxyExchange.OutgoingHeaders | pcc_gateway/proxy_http1.py:610-617 | the loop keeps the sanitized fields that do not frame; ResponseRelay.SeenFields says what that means to the client |
| ProxyExchanges.ProxyExchange.DeliverHead | pcc_gateway/proxy_http1.py:609-648 | a head is relayed as specified: suppressed 100, informational, or final with the relay's own framing |
| ProxyExchanges.ProxyExchange.Deliver | pcc_gateway/proxy_http1.py:608-659 | each event is relayed as specified |
| ProxyExchanges.ProxyExchange.DeliverAll | pcc_gateway/proxy_http1.py:608-660 | the events are relayed in order up to the first that fails |
| ProxyExchanges.ProxyExchange.FeedUpstream | pcc_gateway/proxy_http1.py:604-660 | one upstream read: refused when cancelled or finished, else decoded and relayed exactly as far as the first failure; the exchange's history invariant is kept |
| ProxyExchanges.ProxyExchange.UpstreamEof | pcc_gateway/proxy_http1.py:662-672 | the upstream's close finishes a response of unknown length, is silent after a complete one, and is an error elsewhere |
| ProxyExchanges.ProxyExchange.TakeDownstream | pcc_gateway/proxy_http1.py:674-679 | hands out the first bytes in order and gives their charge back |
| ProxyExchanges.ProxyExchange.Cancel | pcc_gateway/proxy_http1.py:681-689 | both queues are dropped and exactly what they held is given back, once |
| ProxyExchanges.ProxyExchange.RequestDelivered | pcc_gateway/proxy_http1.py:553-592 | in every reachable state: once the request is finished and handed out, the bytes taken are exactly the client's one request with the pieces fed as its body, and with forwarding fields as the trust in the client says |
| ProxyExchanges.ProxyExchange.ResponseDelivered | pcc_gateway/proxy_http1.py:604-679 | in every reachable state: once the response is finished and handed out, the bytes taken decode to a complete response that agrees with the upstream's in its heads, the values of their end-to-end fields, body and sanitized trailers |
| ProxyExchanges.ProxyExchange.ResponseUnderway | pcc_gateway/proxy_http1.py:604-679 | and at every earlier moment, however little has been handed out, those bytes decode without error to the beginning of what has been relayed so far and the queued bytes to the rest: nothing lost, duplicated or reordered |
| ProxyExchanges.ProxyExchange.ResponseReported | pcc_gateway/proxy_http1.py:636-648 | in every reachable state the exchange reports status, persistence and framing of the upstream's last final head |
| BufferAccounts.Accounts.Reserve | pcc_gateway/lifecycle.py:569-580 | a reservation is granted exactly when it fits the limit, and raises for a negative amount |
| BufferAccounts.Accounts.Release | pcc_gateway/lifecycle.py:582-589 | a release raises exactly when it is negative or more than is charged |
| BufferAccounts.Accounts.Moved | pcc_gateway/lifecycle.py:569-589 | when one queue and the metric change by the same amount, the metric stays the sum of all queues |
| BufferAccounts.Accounts.ChargedAtLeast | pcc_gateway/lifecycle.py:582-589 | no queue holds more than the metric counts, so giving back what a queue held never raises |
| BufferAccounts.Enqueue | pcc_gateway/proxy_http1.py:542-551 | reserve, append and, when the append is refused, give back: the metric stays the sum of all queues whatever happens |
| BufferAccounts.Dequeue | pcc_gateway/proxy_http1.py:587-592 | reading gives back exactly what was read |
| BufferAccounts.Discharge | pcc_gateway/server.py:1573-1583 | closing a queue gives back everything it held |
| BufferAccounts.ConnectionOutput.QueueBytes | pcc_gateway/server.py:452-466 | output is queued and charged or neither, and refused exactly at the global limit, the queue's limit or after a close |
| BufferAccounts.ConnectionOutput.ConsumeOutput | pcc_gateway/server.py:468-478 | consumed bytes leave the front of the output and the metric |
| BufferAccounts.ConnectionOutput.PeekOutput | pcc_gateway/server.py:480-486 | peeking copies the front bytes and changes neither the output nor any view |
| BufferAccounts.ConnectionOutput.TakeOutput | pcc_gateway/server.py:488-491 | taking returns the front bytes and consumes them |
| BufferAccounts.ConnectionOutput.CloseOutput | pcc_gateway/server.py:1573-1583 | closing gives back everything still queued |
| Buffers.BufferSegment.constructor | pcc_gateway/buffer.py:33-41 | a new segment has one reference, no views and no bytes |
| Buffers.BufferSegment.Retain | pcc_gateway/buffer.py:43-47 | one more direct reference, or an error once freed |
| Buffers.BufferSegment.Release | pcc_gateway/buffer.py:49-61 | the memory is freed exactly when the last reference, direct or of a view, is given back, and never again; the count still matches its holders unless the caller held no reference |
| Buffers.BufferSegment.Write | pcc_gateway/buffer.py:73-92 | copies as much of the range as fits behind the readable bytes; bytes already written never change |
| Buffers.BufferSegment.Consume | pcc_gateway/buffer.py:94-104 | advances the start by at most what is readable |
| Buffers.BufferSegment.View | pcc_gateway/buffer.py:106-116 | a view of a readable range holds one reference of its own, or the range is refused |
| Buffers.BufferView.ToBytes | pcc_gateway/buffer.py:137-140 | the bytes of the view's range, or an error once released |
| Buffers.BufferView.Slice | pcc_gateway/buffer.py:142-151 | a slice is a view of the sub-range with a reference of its own |
| Buffers.BufferView.Release | pcc_gateway/buffer.py:153-158 | a view gives its reference back once; the second time is an error that changes nothing |
| ChannelBuffers.ChannelBuffer.constructor | pcc_gateway/buffer.py:164-186 | an empty open queue |
| ChannelBuffers.ChannelBuffer.Append | pcc_gateway/buffer.py:203-223 | the contents grow by the source, or stay as they were when the queue is closed or would pass its limit; the new segments belong to the queue alone; high water is reported once |
| ChannelBuffers.ChannelBuffer.AppendView | pcc_gateway/buffer.py:225-234 | a slice of the view is queued without copying; the caller's view and its bytes are untouched |
| ChannelBuffers.ChannelBuffer.KeptQueue | pcc_gateway/buffer.py:161-306 | a change to a shared segment that keeps the queue's views counted and its readable bytes in place does not change the queue |
| ChannelBuffers.ChannelBuffer.PeekViews | pcc_gateway/buffer.py:236-254 | the returned views spell the first bytes of the queue, each holds exactly one reference of its own, and the queue is unchanged |
| ChannelBuffers.ChannelBuffer.PopHead | pcc_gateway/buffer.py:268-271 | the head view is released exactly once |
| ChannelBuffers.ChannelBuffer.DiscardHead | pcc_gateway/buffer.py:261-271 | one round of the consuming loop: part of the head view, or all of it and its release |
| ChannelBuffers.ChannelBuffer.Compact | pcc_gateway/buffer.py:273-275 | dropping the spent prefix of the list changes neither contents nor owners |
| ChannelBuffers.ChannelBuffer.Consume | pcc_gateway/buffer.py:256-276 | the first bytes leave the contents, the views they filled are released exactly once, and every other reference count is unchanged; refused exactly when there are not as many bytes |
| ChannelBuffers.ChannelBuffer.Peek | pcc_gateway/buffer.py:236-254 | copying out through views that are given back leaves every reference count as it was |
| ChannelBuffers.ChannelBuffer.Read | pcc_gateway/buffer.py:278-287 | returns the first bytes, removes them, and releases exactly the views they filled |
| ChannelBuffers.ChannelBuffer.Close | pcc_gateway/buffer.py:289-306 | every queued view is released exactly once and counted; a second close does nothing |
| ChannelBuffers.ChannelBuffer.ReleaseElsewhere | pcc_gateway/buffer.py:153-158 | releasing a view of a shared segment outside the queue leaves the queue as it was |
| ChannelBuffers.ChannelBuffer.WriteElsewhere | pcc_gateway/buffer.py:73-92 | so does writing behind the readable bytes of a shared segment |
| AdmissionLedger.HeadsAppend | pcc_gateway/server.py:1129-1129 | the request heads of two event lists add up, which is what keeps queued admissions equal to deferred heads |
| AdmissionLedger.NoHeadInside | pcc_gateway/server.py:1221-1267 | in a legal trace no head comes while a message is open, so taking out a request's own events keeps the order |
| AdmissionLedger.GatewayConnection.constructor | pcc_gateway/server.py:378-446 | a new connection owns nothing |
| AdmissionLedger.GatewayConnection.ReleaseRequest | pcc_gateway/lifecycle.py:519-526 | is never called without an unreleased admission of this connection |
| AdmissionLedger.GatewayConnection.ReleaseQueuedRequest | pcc_gateway/lifecycle.py:540-548 | is never called without a queued admission of this connection, so its guard never fires |
| AdmissionLedger.GatewayConnection.BeginRequest | pcc_gateway/server.py:804-863 | the parser owns what was admitted; an early proxy takes it over, or else a local child once it is spawned; when anything raises, the parser still owns it |
| AdmissionLedger.GatewayConnection.BeginStreaming | pcc_gateway/server.py:682-712 | the stream becomes the owner only after its head is queued |
| AdmissionLedger.GatewayConnection.Respond | pcc_gateway/server.py:1003-1052 | the guarded part of finishing: at most one of proxy and stream takes the admission, and only on success |
| AdmissionLedger.GatewayConnection.FinishRequest | pcc_gateway/server.py:981-1073 | one admission is released, moves to the proxy or stream that answers, or stays with the owner it had been handed to, whatever raises |
| AdmissionLedger.GatewayConnection.HandleEvent | pcc_gateway/server.py:1075-1095 | each event keeps the ledger; events of a request already handed on leave its owner in place |
| AdmissionLedger.GatewayConnection.AbortCurrentRequest | pcc_gateway/server.py:493-538 | releases the parser's admission exactly when the parser still owns it |
| AdmissionLedger.GatewayConnection.CancelPendingProxy | pcc_gateway/server.py:623-650 | the proxy's admission is released exactly once |
| AdmissionLedger.GatewayConnection.CancelPendingStream | pcc_gateway/server.py:652-680 | the stream's admission is released exactly once |
| AdmissionLedger.GatewayConnection.CompleteStreaming | pcc_gateway/server.py:714-753 | the stream's admission is released exactly once, after its owner fields are taken |
| AdmissionLedger.GatewayConnection.DriveStreaming | pcc_gateway/server.py:755-802 | a stream is given up exactly when it is cancelled or exhausted, with its admission, and goes on with it otherwise |
| AdmissionLedger.GatewayConnection.PublishLocal | pcc_gateway/server.py:939-971 | once inside the guarded region the admission is released or moves to a stream, whatever raises |
| AdmissionLedger.GatewayConnection.CompleteLocalHandler | pcc_gateway/server.py:921-979 | the joined child's admission is released or moves to a stream; it is left without an owner exactly when the response's status is no number |
| AdmissionLedger.GatewayConnection.TakeJoinedChild | pcc_gateway/server.py:1313-1326 | taking the joined child leaves its admission to the caller to settle, and no other owner changes |
| AdmissionLedger.GatewayConnection.SettleLocal | pcc_gateway/server.py:1296-1344 | the joined child's answer, taken by the response it gives or by a plain 500, settles its admission |
| AdmissionLedger.GatewayConnection.DrivePendingLocal | pcc_gateway/server.py:1269-1344 | a child that has ended gives its answer and its admission up once; one that runs on, or whose outcome cannot be had, keeps it; a joined answer with a status that is no number raises and strands the admission |
| AdmissionLedger.GatewayConnection.CancelAndJoinPendingLocal | pcc_gateway/server.py:1346-1386 | the child's admission is released exactly once and the parser's alias dropped |
| AdmissionLedger.GatewayConnection.ReleaseEventSuffix | pcc_gateway/server.py:1165-1183 | releases one queued admission for every head in the suffix, and none when the suffix was never queued |
| AdmissionLedger.GatewayConnection.DiscardDeferred | pcc_gateway/server.py:1185-1189 | nothing stays deferred and no queued admission is left |
| AdmissionLedger.GatewayConnection.FailHttp | pcc_gateway/server.py:1388-1408 | current request and deferred events are given up with their admissions |
| AdmissionLedger.GatewayConnection.FeedEvent | pcc_gateway/server.py:1115-1132 | an event is handled, or deferred behind a pending owner with its queued admission, or refused and not deferred; nothing else is handled or deferred |
| AdmissionLedger.GatewayConnection.FeedNext | pcc_gateway/server.py:1110-1163 | one event, and when it is the last to be handled, what becomes of the later ones and of the deferred ones; the order of events is kept |
| AdmissionLedger.GatewayConnection.FeedData | pcc_gateway/server.py:1097-1163 | the ledger is kept whatever the codec decodes and whatever raises; pending owners are not disturbed; everything decoded is handled, deferred or lost, in this order |
| AdmissionLedger.GatewayConnection.FeedEvents | pcc_gateway/server.py:1106-1132 | the decoded events are handled in turn until an owner appears and deferred from there on; a failure or refusal loses those behind it and nothing else |
| AdmissionLedger.GatewayConnection.StopFeeding | pcc_gateway/server.py:1143-1163 | after a refusal the refused head and those behind it are lost, after a failure everything deferred too |
| AdmissionLedger.GatewayConnection.ResumeNext | pcc_gateway/server.py:1196-1219 | one deferred event: handled with its queued admission released, deferred again, or released with all that follow |
| AdmissionLedger.GatewayConnection.ResumeDeferred | pcc_gateway/server.py:1191-1219 | the deferred events are handled in order, the first of them at least, until an owner appears; what is left stays deferred in order, and a failure loses it |
| AdmissionLedger.GatewayConnection.ConsumePendingBody | pcc_gateway/server.py:1221-1267 | exactly the pending request's own events, up to its end, are handled, and the others stay deferred in order; owners and order are kept |
| AdmissionLedger.GatewayConnection.ConsumeNext | pcc_gateway/server.py:1228-1238 | one event is handled if it is of the open request and no head, and deferred again otherwise |
| AdmissionLedger.GatewayConnection.RunProxy | pcc_gateway/server.py:2239-2392 | however the exchange ends, the proxy's admission is released exactly once |
| AdmissionLedger.GatewayConnection.InputEof | pcc_gateway/server.py:1410-1417 | an incomplete request is given up like a protocol error |
| AdmissionLedger.GatewayConnection.DeadlineTimeout | pcc_gateway/server.py:1419-1435 | a deadline gives the current request up and closes after flushing |
| AdmissionLedger.GatewayConnection.Close | pcc_gateway/server.py:1521-1604 | everything but a local child is given up, and a second close does nothing |
| AdmissionLedger.GatewayConnection.TakePendingProxy | pcc_gateway/server.py:2327-2380 | the ended exchange gives its owner fields up before its admission is released, once |
| AdmissionLedger.GatewayConnection.Turn | pcc_gateway/server.py:2525-2669 | every turn of the connection loop keeps the ledger and uses at most one answer of a local handler |
| AdmissionLedger.GatewayConnection.Advance | pcc_gateway/server.py:2539-2669 | a turn with nothing to flush, in the order of the loop: proxy, local child, stream, deferred events, the two ways to leave, reading; a local child that is not done lets the turn go on to the bytes of its body |
| AdmissionLedger.GatewayConnection.AwaitBodySpace | pcc_gateway/server.py:2545-2575 | behind a full body the turn ends, with the deadline or without; otherwise nothing changes |
| AdmissionLedger.GatewayConnection.ReadTurn | pcc_gateway/server.py:2602-2669 | buffered and newly read bytes, the end of the input and the deadlines keep the ledger, and leave whoever is pending in place |
| AdmissionLedger.GatewayConnection.ParseBuffered | pcc_gateway/server.py:2602-2621 | decoding the buffered bytes keeps the ledger and moves on the pending body |
| AdmissionLedger.GatewayConnection.ParseRead | pcc_gateway/server.py:2622-2639 | so does decoding newly read bytes |
| AdmissionLedger.GatewayConnection.RunTurns | pcc_gateway/server.py:2511-2669 | any number of turns keeps it, using the answers in order |
| AdmissionLedger.GatewayConnection.RunConnection | pcc_gateway/server.py:2511-2701 | over the whole life of a connection, with any answers, failures and cancellations: no queued admission is left, exactly one request admission for every joined answer whose status is no number, and the events handled are the first of those decoded, in order and once each |
| AdmissionLedger.NoneStranded | pcc_gateway/server.py:921-928 | no admission is stranded if and only if every joined status is a number |
| AdmissionLedger.StrandedResponse | pcc_gateway/server.py:804-928 | a concrete connection: its one request is begun and handed to a local child, the next turn joins a response whose status is no number, and its admission ends owned by nobody |
| Generations.ActKept | pcc_gateway/lifecycle.py:91-195 | every locked step of every interleaving keeps the invariant |
| Generations.EveryRun | pcc_gateway/lifecycle.py:390-478 | over every interleaving, with retains by anybody of anything unreleased: while running, the current generation is unretired and can be acquired; at most one publish is in flight; generations became current in increasing order; one is released exactly when it is retired and unheld, and gives up its resources only then |
| Generations.ResourcesConserved | pcc_gateway/lifecycle.py:146-195 | attached, leaving and released resources add up to what was attached; a release step releases one, and no other step does |
| Generations.Settled | pcc_gateway/lifecycle.py:146-195 | once no retirement is owed and nobody holds it, a generation that is not current has been released with all its resources |
| GenerationProgress.EnabledWhen | pcc_gateway/lifecycle.py:136-177 | exactly when each locked region does anything: acquiring while running, retaining what is unretired or held, releasing what is held, attaching to what is unretired and not held |
| GenerationProgress.NothingStuck | pcc_gateway/lifecycle.py:415-462 | whatever a publish or a drain has begun, some step finishes a part of it |
| GenerationProgress.FinishingEnds | pcc_gateway/lifecycle.py:415-462 | and no more than a bounded number of steps can, however the threads interleave |
| GenerationProgress.DrainReleasesAll | pcc_gateway/lifecycle.py:600-615 | after a finished drain, once nobody holds a generation and nothing more can be finished, every generation, the current one included, has released every resource it ever had |
| Generations.RetirePreviousKept | pcc_gateway/lifecycle.py:453-462 | the retirement a publish owes never raises |
| Generations.RetirePendingKept | pcc_gateway/lifecycle.py:445-449 | nor does the one a lost publish or a finished drain owes |
| Generations.GatewayGeneration.constructor | pcc_gateway/lifecycle.py:21-39 | one reference, the retained resources, neither retired nor released |
| Generations.GatewayGeneration.RetainLocked | pcc_gateway/lifecycle.py:99-102 | one more reference, refused exactly once released |
| Generations.GatewayGeneration.RetireLocked | pcc_gateway/lifecycle.py:146-162 | retires once; hands the resources out exactly when it gave the last reference |
| Generations.GatewayGeneration.ReleaseLocked | pcc_gateway/lifecycle.py:164-177 | gives a reference back, the caller's own if it holds one; hands the resources out exactly when it was the last |
| Generations.GatewayGeneration.ReleaseResources | pcc_gateway/lifecycle.py:179-195 | releases every resource, last first, even when some fail |
| Generations.GatewayLifecycle.AcquireGeneration | pcc_gateway/lifecycle.py:390-400 | retains the current generation, exactly while running; this is the step of the interleaving model |
| Generations.GatewayLifecycle.ClaimPublish | pcc_gateway/lifecycle.py:402-413 | claims the flag and a new identifier, exactly while running and unclaimed; this is the step of the interleaving model |
| Generations.GatewayLifecycle.InstallReplacement | pcc_gateway/lifecycle.py:433-443 | installs and remembers the previous generation, or gives the claim up because the gateway stopped; this is the step of the interleaving model |
| Generations.GatewayLifecycle.ReleasePublish | pcc_gateway/lifecycle.py:453-462 | gives the publish flag back; this is the step of the interleaving model |
| Generations.GatewayLifecycle.CollectRetired | pcc_gateway/lifecycle.py:464-478 | forgets exactly the released generations and keeps the others in order |
| Generations.GatewayLifecycle.Begin | pcc_gateway/lifecycle.py:372-379 | starts exactly once; this is the step of the interleaving model |
| Generations.GatewayLifecycle.Begun | pcc_gateway/lifecycle.py:381-388 | runs exactly after starting; this is the step of the interleaving model |
| Generations.GatewayLifecycle.DrainBegin | pcc_gateway/lifecycle.py:591-598 | draining begins only from starting or running; this is the step of the interleaving model |
| Generations.GatewayLifecycle.DrainEnd | pcc_gateway/lifecycle.py:600-615 | stops and gives up the current generation when idle or forced; this is the step of the interleaving model |
| Generations.GatewayLifecycle.MarkFailed | pcc_gateway/lifecycle.py:617-623 | fails from any state; this is the step of the interleaving model |
| TlsLifetime.ActKept | pcc_gateway/tls.py:751-859 | every locked step and call edge of every interleaving keeps the invariant of the whole chain |
| TlsLifetime.CreateKept | pcc_gateway/tls.py:1033-1139 | creating a context or session, in every stage and failure, keeps it |
| TlsLifetime.CallKept | pcc_gateway/tls.py:861-895 | provider calls keep it |
| TlsLifetime.FreeKept | pcc_gateway/tls.py:1212-1248 | freeing contexts and sessions keeps it |
| TlsLifetime.OwnerKept | pcc_gateway/tls.py:1297-1447 | building, retiring and closing generations and channels keeps it |
| TlsLifetime.LibraryLifetime | pcc_gateway/tls.py:751-859 | over every interleaving: only opened libraries are closed, none twice, and every opened one is either held, in which case it has not been closed, or has been closed; what is in use is the published library; once it may be or is closed there is no call, pending resource, context, session, open channel or live generation; and close requested with four zero counters implies closed |
| TlsLifetime.ClosesAfterLastLease | pcc_gateway/tls.py:576-631 | the provider is asked to close only after the registry is closed and its last lease has ended, and then no lease can begin |
| TlsProgress.BeginsWhen | pcc_gateway/tls.py:784-805 | exactly when a lease, a call, a context, a session and a channel may begin |
| TlsProgress.LetsGoWhen | pcc_gateway/tls.py:576-631 | exactly when its owner may give a lease, the registry, a channel or a generation up |
| TlsProgress.NothingStuck | pcc_gateway/tls.py:751-859 | whatever creation, call, release, close or activation is under way, some step finishes a part of it |
| TlsProgress.FinishingEnds | pcc_gateway/tls.py:751-859 | and no more than a bounded number of steps can, however the threads interleave |
| TlsProgress.LetGoMeansClosed | pcc_gateway/tls.py:751-859 | once every owner has let go and nothing more can be finished, the provider is closed and every library it ever opened has been closed, once |
| TlsProviders.LookedSettles | pcc_gateway/tls.py:751-766 | looking for a library to close settles the accounts, and hands one out only when nothing is counted |
| TlsProviders.StepsAreRegions | pcc_gateway/tls.py:751-859 | every step of the interleaving model changes the accounts exactly as the provider's region it stands for, sends off exactly the library that region hands out, and never underflows a count; every other step leaves the accounts alone |
| TlsProviders.PccNativeTlsProvider.TakeLibrary | pcc_gateway/tls.py:751-766 | the handle is taken exactly when close is requested and all four counters are zero |
| TlsProviders.PccNativeTlsProvider.PublishLibrary | pcc_gateway/tls.py:931-1023 | an opened library is published unless a close came first |
| TlsProviders.PccNativeTlsProvider.BeginCall | pcc_gateway/tls.py:784-796 | a call is counted, or refused without a published library |
| TlsProviders.PccNativeTlsProvider.FinishCall | pcc_gateway/tls.py:772-782 | a call is uncounted, and the library taken if that was the last thing |
| TlsProviders.PccNativeTlsProvider.ReserveResource | pcc_gateway/tls.py:798-805 | refused once closing |
| TlsProviders.PccNativeTlsProvider.PublishResource | pcc_gateway/tls.py:807-822 | a pending resource becomes a context or a session |
| TlsProviders.PccNativeTlsProvider.CancelResource | pcc_gateway/tls.py:824-836 | a pending resource is given up, and the library taken if that was the last thing |
| TlsProviders.PccNativeTlsProvider.ReleaseResource | pcc_gateway/tls.py:838-859 | a context or session is given up, and the library taken if that was the last thing |
| TlsProviders.PccNativeTlsProvider.RequestClose | pcc_gateway/tls.py:1250-1265 | closes at once when nothing is counted, else leaves it to the last release; a second request does nothing |
| Alpn.ValidateAlpn | pcc_gateway/tls.py:301-315 | accepts exactly the lists of at most 16 distinct ASCII names of 1 to 255 characters, unchanged, and otherwise reports the first offence in the source's order of checks |
| Alpn.AlpnWire | pcc_gateway/tls.py:1025-1031 | the text is the concatenation of decimal length, colon and name |
| Alpn.ParseDecides | pcc_gateway/native/openssl_provider.c:135-196 | the shim's parser accepts a text with some names if and only if it is a sequence of frames whose decimal length, leading zeros allowed, is that of the name |
| Alpn.ConfiguredNamesArrive | pcc_gateway/native/openssl_provider.c:135-196 | every nonempty accepted list fits the shim's limit, parses to itself, and its length-prefixed form (section 3.1 of RFC 7301) is read back as itself |
| Alpn.VectorsRead | pcc_gateway/native/openssl_provider.c:183-189 | length-prefixed names are read back exactly |
| Alpn.ParseDecimal | pcc_gateway/native/openssl_provider.c:135-156 | for all inputs: stays in bounds, no step of the arithmetic leaves size_t, and finds the length exactly when the text starts with a good frame |
| Alpn.ParseAlpn | pcc_gateway/native/openssl_provider.c:158-196 | for all inputs: the output position never passes the input position, and the buffer ends up holding exactly the length-prefixed names, or the text is refused |
| Alpn.AppendName | pcc_gateway/native/openssl_provider.c:183-189 | one length byte and the copied name, behind the names already written |
| DnsNames.CheckLabel | pcc_gateway/dns.py:70-81 | the checks accept exactly labels of 1 to 63 letters, digits and inner hyphens |
| DnsNames.EncodeName | pcc_gateway/dns.py:60-85 | accepts exactly the names of 1 to 253 bytes made of good labels, and writes them length-prefixed and lower-cased |
| DnsNames.SameName | pcc_gateway/dns.py:60-69 | trailing dots and case do not matter to a name, and nothing else of it is changed |
| DnsNames.WireLength | pcc_gateway/dns.py:60-85 | an encoded name is two bytes longer than its text and at most 255 |
| DnsNames.ReadingUnique | pcc_gateway/dns.py:88-127 | a message reads as a name at an offset in at most one way |
| DnsNames.PointerReads | pcc_gateway/dns.py:99-111 | a pointer, two set bits and fourteen of offset, reads as the name at exactly that offset |
| DnsNames.JumpsDistinct | pcc_gateway/dns.py:99-111 | no pointer of a reading repeats, so looping pointers have no reading |
| DnsNames.DecodeName | pcc_gateway/dns.py:88-127 | the decoding loop ends on every input, stays in bounds, and equals the specification with its errors |
| DnsNames.DecodeExactly | pcc_gateway/dns.py:88-127 | succeeds if and only if the offset reads as a name of ASCII labels through at most 32 pointers (section 4.1.4 of RFC 1035), and then returns that reading's labels in lower case and the offset after it |
| DnsNames.DecodeEncoded | pcc_gateway/dns.py:60-127 | decoding inverts encoding at any position inside any message |
| DnsCaches.GetGood | pcc_gateway/dns.py:567-584 | after a get the order is still a duplicate-free listing of the keys |
| DnsCaches.PutGood | pcc_gateway/dns.py:586-622 | after a put too, and there are at most max_entries of them |
| DnsCaches.GetRefines | pcc_gateway/dns.py:567-584 | a get changes no answer at any later time |
| DnsCaches.PutRefines | pcc_gateway/dns.py:586-622 | a put sets its own answer and changes no other, but for the least recently used key when a new key meets a full cache |
| DnsCaches.LeastRecentlyUsed | pcc_gateway/dns.py:544-622 | a key is answered with its last put until it expires, whatever else is called, as long as fewer than max_entries other keys are touched between its own touches |
| DnsCaches.DnsCache.constructor | pcc_gateway/dns.py:545-565 | an empty cache |
| DnsCaches.DnsCache.GetEntry | pcc_gateway/dns.py:567-584 | dictionary and list after a get are those of the specification, and the answer is the unexpired entry |
| DnsCaches.DnsCache.DropOldest | pcc_gateway/dns.py:603-607 | the popping loop drops the oldest key still present |
| DnsCaches.DnsCache.PutEntry | pcc_gateway/dns.py:586-622 | dictionary and list after a put are those of the specification; a negative entry lives for the negative lifetime, any other for the given one where it lies between the bounds and for the nearer bound where it does not |
| DnsDriving.StepKept | pcc_gateway/dns.py:1103-1215 | every step keeps the invariant and, unless it waits, makes the measure smaller |
| DnsDriving.CancelledEnds | pcc_gateway/dns.py:1110-1111 | an operation cancelled from outside ends the lookup at its next call, which gives the handle back |
| DnsDriving.WaitBounds | pcc_gateway/dns.py:1063-1071 | a wait is for the handle held, and its deadline is after now and not after the operation's |
| DnsDriving.RunsEnd | pcc_gateway/dns.py:949-1215 | for any transport and any clock a run makes a bounded number of calls that do not wait, holds at most one handle, none once done, and uses servers only in rotation |
| DnsDriving.OpenedThenClosed | pcc_gateway/dns.py:1031-1034 | every opened handle but the one still held has been closed exactly once |
| DnsDriving.RotationOrder | pcc_gateway/dns.py:1003-1008 | attempts go to the same server exactly when they are of the same turn, so each server is tried attempts_per_server times in rotation order |
| DnsOutcomes.AnswerArrives | pcc_gateway/dns.py:1171-1215 | a whole reply, in time, from the server that was asked, that answers and does not start a fallback ends the lookup with exactly its values, or with its error |
| DnsOutcomes.OnlyAnswersResolve | pcc_gateway/dns.py:1103-1215 | a lookup ends without an error only through such a reply, or, with no values, through a frame that asks for TCP over TCP |
| DnsOutcomes.ValuesComeFromReplies | pcc_gateway/dns.py:1036-1215 | over every run the values of a finished lookup are those of a reply that settled it |
| DnsOutcomes.AnswersRepeat | pcc_gateway/dns.py:1103-1109 | a finished lookup gives every later call the same outcome |
| DnsOutcomes.LateCalls | pcc_gateway/dns.py:1110-1116 | a call after the operation's deadline ends the lookup, one after the attempt's costs the attempt |
| DnsOutcomes.SendingOutcomes | pcc_gateway/dns.py:1117-1149 | opening, connecting and sending: what fails costs the attempt, what would block waits, the query goes out from where it stopped, over UDP in one datagram |
| DnsOutcomes.DatagramOutcomes | pcc_gateway/dns.py:1171-1184 | what every other datagram does: it is ignored while few are invalid, costs the attempt, or restarts it over TCP |
| DnsOutcomes.FrameOutcomes | pcc_gateway/dns.py:1186-1215 | what every other stream fragment does: it is buffered until the frame is whole, or costs the attempt |
| DnsOutcomes.AwaitingOutcomes | pcc_gateway/dns.py:1151-1170 | while nothing comes the call waits, and an end, an error, an empty or an oversized read costs the attempt |
| DnsDrivers.DnsResolveDriver.constructor | pcc_gateway/dns.py:960-1001 | the driver starts on its first server, or is done when there is none |
| DnsDrivers.DnsResolveDriver.SelectAttempt | pcc_gateway/dns.py:1003-1024 | server, deadline and buffers of an attempt |
| DnsDrivers.DnsResolveDriver.CloseHandle | pcc_gateway/dns.py:1031-1034 | closes the handle it holds, once |
| DnsDrivers.DnsResolveDriver.Terminate | pcc_gateway/dns.py:1036-1050 | gives the handle back and reports the outcome |
| DnsDrivers.DnsResolveDriver.Retry | pcc_gateway/dns.py:1052-1061 | the next attempt, or the end when time or attempts are used up |
| DnsDrivers.DnsResolveDriver.Invalidate | pcc_gateway/dns.py:1073-1081 | an invalid reply is ignored or ends the attempt |
| DnsDrivers.DnsResolveDriver.SwitchToTcp | pcc_gateway/dns.py:1083-1094 | a truncated reply restarts the attempt over TCP |
| DnsDrivers.DnsResolveDriver.DriveOpen | pcc_gateway/dns.py:1117-1124 | the opening stage |
| DnsDrivers.DnsResolveDriver.DriveConnect | pcc_gateway/dns.py:1126-1133 | the connecting stage |
| DnsDrivers.DnsResolveDriver.DriveSend | pcc_gateway/dns.py:1135-1149 | the sending stage, with partial writes over TCP only |
| DnsDrivers.DnsResolveDriver.ReceiveDatagram | pcc_gateway/dns.py:1171-1184 | a datagram reply |
| DnsDrivers.DnsResolveDriver.ReceiveStream | pcc_gateway/dns.py:1186-1215 | a stream reply, kept until its frame is whole |
| DnsDrivers.DnsResolveDriver.Drive | pcc_gateway/dns.py:1103-1215 | one call equals the step of the specification; a wait lies ahead, any other call brings the end nearer, and nothing is held once done |
| DnsDrivers.DnsResolveDriver.CancelLookup | pcc_gateway/dns.py:1096-1101 | ends the lookup and gives the handle back |
| DnsDrivers.DnsResolveDriver.CancelOutside | pcc_gateway/dns.py:680-684 | cancelling the operation itself only leaves a mark for the next call |
| BodyStreams.ActKept | pcc_gateway/models.py:104-325 | every locked region, set, wait and release of every interleaving keeps the invariant |
| BodyStreams.NoLostWakeUp | pcc_gateway/models.py:104-262 | over every interleaving a reader parked on a clear event has nothing to read from an open stream or a set is still owed to it, likewise for a producer; reader and producer are not both stuck; reads are a prefix of feeds, and received = consumed + queued until cancel or close |
| BodyStreams.NotBothStuck | pcc_gateway/models.py:158-262 | both events are never clear with no set owed |
| BodyStreams.WakesTheReader | pcc_gateway/models.py:104-156 | whatever ends a parked reader's reason to wait owes it a set, and that set lets it wake |
| BodyStreams.ReleasedOnce | pcc_gateway/models.py:205-212 | a retained view is released only by whoever holds it, and once |
| BodyStreams.AllReleased | pcc_gateway/models.py:301-324 | after a close and its releases no view is left |
| BodyStreams.NothingStuck | pcc_gateway/models.py:104-325 | a side without a reason to wait can wake, or a set is owed that lets it; a view to be released can be |
| BodyStreams.ReadOutcomes | pcc_gateway/models.py:164-204 | over every interleaving a read gives the first unread chunk exactly when there is one and the stream is not cancelled; the end exactly when the stream has ended or closed and nothing is unread, and unless it was closed everything fed has then been read; nothing, or a wait, exactly on an open empty stream |
| BodyStreams.StepEffects | pcc_gateway/models.py:104-325 | what every step does to what is unread and to the flags of the stream |
| BodyStreams.FeedOutcomes | pcc_gateway/models.py:104-129 | over every interleaving a chunk is kept, ignored when empty, refused for its size, or refused for the state, each exactly when it should be |
| BodyStreams.SpaceOutcomes | pcc_gateway/models.py:234-246 | over every interleaving a producer may write, is refused, or waits, each exactly when it should |
| BodyStreams.BodyStream.constructor | pcc_gateway/models.py:71-102 | an empty open stream, writable |
| BodyStreams.BodyStream.FeedLocked | pcc_gateway/models.py:104-129 | accepts a chunk, or refuses it for the state or the size limit; sets backpressure at high water |
| BodyStreams.BodyStream.FinishLocked | pcc_gateway/models.py:131-138 | no more data will come; both sides are owed a wake-up |
| BodyStreams.BodyStream.CancelLocked | pcc_gateway/models.py:140-153 | the queue is dropped |
| BodyStreams.BodyStream.CloseLocked | pcc_gateway/models.py:301-319 | closes once, handing out the unread views |
| BodyStreams.BodyStream.TakeNext | pcc_gateway/models.py:167-190 | the next chunk in order, with the metadata compacted and backpressure lifted at low water |
| BodyStreams.BodyStream.DropRead | pcc_gateway/models.py:176-181 | compacting drops exactly the chunks that have been read |
| BodyStreams.BodyStream.Relieve | pcc_gateway/models.py:182-188 | backpressure is lifted, and a wake-up owed, at low water |
| BodyStreams.BodyStream.ReadLocked | pcc_gateway/models.py:164-204 | data, end, nothing yet, or park with the event cleared under the lock |
| BodyStreams.BodyStream.AskLocked | pcc_gateway/models.py:234-246 | writable at once on a polled stream; else refused, writable, or park with the event cleared under the lock |
| EarlyCse.RewriteBlock | benchmarks/results/2026-09-10-runtime-dispatch/early-cse/early_cse.py:49-99 | the line loop of a block equals the specification of the pass |
| EarlyCse.RewriteFunction | benchmarks/results/2026-09-10-runtime-dispatch/early-cse/early_cse.py:40-104 | the whole pass, with its final substitution, equals the specification |
| EarlyCseShape.StepGood | benchmarks/results/2026-09-10-runtime-dispatch/early-cse/early_cse.py:67-99 | every entry of the tables is available, and not itself replaced, at the line where it is used |
| EarlyCseShape.RewrittenIsApplied | benchmarks/results/2026-09-10-runtime-dispatch/early-cse/early_cse.py:100-104 | the pass drops exactly the replaced definitions and substitutes everywhere else once and for all, or leaves the function alone; it reports a change exactly in the first case |
| EarlyCseMeaning.BodySound | benchmarks/results/2026-09-10-runtime-dispatch/early-cse/early_cse.py:49-99 | running the rest of a block in both programs keeps memory, effects and every unreplaced value equal, and replaced names equal to their replacements |
| EarlyCseMeaning.AdvanceSame | benchmarks/results/2026-09-10-runtime-dispatch/early-cse/early_cse.py:40-104 | so does running a block and the phis of the edge after it |
| EarlyCseMeaning.MeaningPreserved | benchmarks/results/2026-09-10-runtime-dispatch/early-cse/early_cse.py:30-104 | for every function in single assignment form whose uses follow their definitions, every interpretation in which the commutable operators commute, every start and every length of run: same block, same memory and effects, and through the replacements the same value for every name in scope |
| EarlyCseOrder.PassIs | benchmarks/results/2026-09-10-runtime-dispatch/early-cse/early_cse.py:40-104 | for every function with unique names, whatever the order of its blocks, the output is each kept line with the replacements made before it in the text and then all of them once more; a change is reported exactly when something was replaced and no name is a number |
| EarlyCseOrder.DanglesExactly | benchmarks/results/2026-09-10-runtime-dispatch/early-cse/early_cse.py:100-104 | the output uses a definition the pass has dropped if and only if no name is a number, something is replaced, and what the scan of the text has left in a kept line or phi names a replaced name whose replacement is itself replaced; this reads the scan's final table, so a caller checks the next row instead |
| EarlyCseOrder.FollowingNeverDangles | benchmarks/results/2026-09-10-runtime-dispatch/early-cse/early_cse.py:40-104 | that never happens when uses follow their definitions, the condition to check before a call |
| EarlyCseOrder.LateUseDangles | benchmarks/results/2026-09-10-runtime-dispatch/early-cse/early_cse.py:100-104 | a concrete function of four blocks on which it does: its return still names the dropped alias |
| EarlyCseComplete.ScanLeavesTight | benchmarks/results/2026-09-10-runtime-dispatch/early-cse/early_cse.py:49-99 | for every function with unique names the scan leaves no certain pointer cast, no certain pure computation done before in its block up to the order of commuting operands, and no certain load of a value just loaded or stored there |
| EarlyCseComplete.NothingLeftBehind | benchmarks/results/2026-09-10-runtime-dispatch/early-cse/early_cse.py:40-104 | nor does the output, when no name is a number, unless a kept line of the block uses a replaced name ahead of its definition in the text |
| EarlyCseComplete.NothingLeft | benchmarks/results/2026-09-10-runtime-dispatch/early-cse/early_cse.py:40-104 | so for every function in single assignment form whose uses follow their definitions and whose names are no numbers, no block of the output repeats anything |
| EarlyCseComplete.ChangesWhatRepeats | benchmarks/results/2026-09-10-runtime-dispatch/early-cse/early_cse.py:40-104 | and the pass reports a change whenever a block of such a function repeats something |
| EarlyCseComplete.SecondSumGoes | benchmarks/results/2026-09-10-runtime-dispatch/early-cse/early_cse.py:84-92 | a concrete function with two equal sums, the second with its operands swapped: it goes, its use becomes one of the first, and the change is reported |
| EarlyCseComplete.LateCastRepeats | benchmarks/results/2026-09-10-runtime-dispatch/early-cse/early_cse.py:100-104 | a concrete function of three blocks that uses a cast ahead of its text: the output computes one value twice in a block |

## Left out

- Sockets, waitsets, virtual threads, dynamic loading, OpenSSL, signals and
  wall-clock time: only their outcomes enter, as arbitrary inputs.
- Code points above 255, and header or trailer names outside ASCII: the program
  raises encoding errors for them, or maps them by Unicode case rules.
- Reason phrases and persistence of relayed heads, and the order among fields of
  different names: the encoder deliberately makes its own.
- Routing, connection pools, retry tables, the hosts table, address policy,
  reply parsing, configuration parsing, metrics other than those named, the web
  layer: they would only add easy members.
- ResponseOutcome.ClientSeesTheResponse: asks for client limits at least as
  large as the upstream's and a header limit above the relayed size, since a
  client may refuse any response for its size, and for upstream body limits
  below 16^16, since the encoder prints larger chunks on more digits than the
  decoder reads.
- RequestOutcome.RequestRelayed: the same for the upstream's limits; four more
  header fields, since the gateway adds its own.
- ProxyExchanges.ProxyExchange.FeedRequestBody: models bytes only; the path that
  appends a retained view to the upstream queue is covered by
  ChannelBuffers.ChannelBuffer.AppendView, not by the exchange.
- ProxyExchanges.ProxyExchange.Cancel: what was still queued is not delivered,
  so the delivery theorems speak of exchanges that are not cancelled and on
  which no call has raised.
- ProxyExchanges.Open: an exchange without accounting is not modelled.
- BufferAccounts.ConnectionOutput.QueueBytes: the write deadline and the
  backpressure hook are left out; the hook runs after the bytes are queued.
- AdmissionLedger.GatewayConnection.RunConnection: hooks that call back into the
  connection and a close from another thread while the loop runs are left out. A
  forced drain clears the gateway's gauge of active requests; releases may raise
  after that, and count as made. The response bytes, deadlines and keep-alive
  decisions are arbitrary. The unguarded cancellations of a joined child's token
  and body are steps that cannot raise: one sets two fields, the other drops a
  queue nobody else reads.
- AdmissionLedger.GatewayConnection.Decode: stands for the request decoder, as
  any source of legal traces, which ServerTraces.ConnectionTrace shows it to be.
- AdmissionLedger.GatewayConnection.ProxyStep: one attempt of the proxy is any
  number of reads, body transfers and failing calls; its own exchange is the
  subject of ProxyExchanges.
- Generations.EveryRun: attaching a resource is one step; the program checks
  twice around the retain and undoes it when the second check fails. The reset
  of the activity counters by a forced drain is left out.
- TlsLifetime.LibraryLifetime: one provider owned by its registry; handshakes,
  reads and writes are calls without effect on the counters; a manager is its
  lease.
- A Content-Length of more than 4300 digits, for which the decoders' `int()`
  raises ValueError: DecimalValue has no such bound.
- BodyStreams.ReleasedOnce: excludes cancel, which releases queued views while a
  reader may hold one; the timed form of wait_writable is left out.
- BodyStreams.AllReleased: excludes cancelled streams for the same reason.
- DnsDriving.RunsEnd: replies are judged by an arbitrary outcome of the
  operation, whose parser is left out: that a lookup ends with an address is
  claimed for a reply judged to hold it, by DnsOutcomes.AnswerArrives. The
  operation's own TCP flag is part of that outcome.
- EarlyCseMeaning.MeaningPreserved: works on structured instructions. The
  regular expressions, the tokenizer and the simplification that runs beside
  the pass are not part of this model.
- Alpn.ParseAlpn: the null pointer is the empty text, which is refused alike.
