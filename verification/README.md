# Verified models of ThingsDB's wire machines

This project models the byte-level machines of ThingsDB in Dafny and proves what they promise: the HTTP parser of the
API and web endpoints, the UTF-8 validators, the MessagePack codec with its JSON bridge, the JavaScript MessagePack
decoder that clients use, the queue's ring buffer, and the timers that start and stop a node.

`dafny verify dfyconfig.toml` checks everything.

## How it is organised

**HTTP parser.** `HttpTypes` and `HttpArms` hold the parser record and one function per arm of the big switch, each
with the invariant the source's asserts rely on. `HttpMachine` is the parser as a machine that takes one byte at a time
and keeps a log of callbacks. `HttpBulk` shows that the loops which take many bytes at once are folds of single steps,
and `HttpParser` is the parser object: `Execute`, with its marks and bulk loops, refines the machine. Everything else is
proved about the machine and therefore holds of the object: independence from how a stream is cut (`HttpTheorems`), the
end of a connection over any sequence of calls (`HttpClosing`), conservation of bodies and chunked coding (`HttpBodies`),
header names (`HttpNames`), the length that a message declares, and that it does so once (`HttpLength`, `HttpOneLength`),
trailer sections (`HttpTrailers`, `HttpTrailerLines`), and method names (`HttpMethods`). `HttpUrl`, `HttpUrlSplit` and
`HttpUrlTheorems` split URLs.

**UTF-8.** `Utf8Table` is the table of section 4 of RFC 3629. `Simd` gives meaning to the SSE operations lane by lane.
`Utf8Simd.Validate` is the block-wise validator, `Utf8Scalar.Validate` the scalar one.

**MessagePack.** `Msgpack` is the packer. `Mpack` holds the two decoders as functions of buffer and cursor, `MpackAgree`
compares them, `MpackFlat` finds the end of an object with one counter, `MpackRoundTrip` decodes what was packed, and
`MpackUnpacker` has the object with its cursor. `Sbuffer` is the growing output buffer. `Json` and `JsonTheorems` specify
the parser callbacks and what they write, `JsonConvert` is the callback context that patches counts into the buffer,
`JsonGenerate` walks a buffer to JSON, `JsonBridge` puts both directions together, and `JsonPartial` is about input that
ends too early, either way.

**JavaScript client.** `JsUtf8` and `JsUtf8Theorems` are its UTF-8 codec, `JsDecode` is its decoder as a stack machine on
the input that is still unread, `JsCut` says what the place of a cut changes in its run and `JsResult` what it changes in
the answer, `JsDecodeTheorems` relates the machine to the recursive decoder of the C side, and `JsKeyCache` and
`JsDecoder` have the key cache and the resumable decoder as objects.

**Queue and lifecycle.** `Queue` is the ring buffer, `Lifecycle` the two timers.

## Where the code is not what one would expect

- `mp_skip` computes the number of objects in a map 32 and the number of bytes in an ext 32 with 32 bits. A map 32 of
  2^31 pairs or an ext 32 of 2^32 - 1 bytes is therefore skipped as if it were empty. `MpackAgree.WrappedMapAccepted` and
  `MpackAgree.WrappedExtAccepted` show it, `MpackAgree.SkipAccepts` says exactly when acceptance is right.
- `utf8DecodeJs` does not look at the end of its slice inside a sequence. The text of a string whose last sequence is cut
  off has bits of the bytes behind it, and zeros where the buffer ends. `JsCut.StreamDiffers` is a stream whose result
  depends on the cut. Call an input steady if the bytes taken from behind its strings, as far as they are there, have no
  low six bits. Whole strings, legal UTF-8 among them, are of that kind, and so is a cut-off string at the end of the
  input. `JsCut.SteadyExactly` is about the states of the run: every cut leads back into the run on the whole exactly for
  steady input. `JsResult` is about the answer that the caller gets. `JsResult.AnswerExactly`: where `decode` gives an
  object and no map repeats a key, every stream gives it exactly for steady input. If a map repeats a key, a text that
  depends on the cut may be overwritten (`JsResult.OverwrittenIsGone`). `JsResult.KindExactly`: all streams of an input
  give the same error, or all an object, unless a key is the refused name `__proto__` only by bits from behind its end
  and what follows it could be decoded (`JsResult.KindDiffers`).
- A cached key keeps the text of its first decoding (`JsKeyCache.KeyRemembered`). `JsKeyCache.KeyExactly` says exactly which
  keys have one text wherever they stand and whatever the cache has seen.
- `mp__to_json` takes the end of the data inside a container for the end of that container: `92 01` is written as the array
  of one (`JsonPartial.ShortArray`). `JsonPartial.JsonExactly` says exactly when it succeeds.
- `mpjson_json_to_mp` does not ask whether all containers are closed when the JSON text ends. An open one keeps its
  placeholder count of 65536. `JsonPartial.UnfinishedDecodes` says exactly when the bytes written are an object all the same, and
  `JsonPartial.ShortIsNotFilled` that they are not below 65536 values.
- The scalar `validate_utf8_fast` refuses DEL and most control characters, the SSE one does not. Both are characterised
  exactly.
- The parser's table for hexadecimal digits lists 128 entries, so bytes from 128 on count as the digit 0.
  `HttpBodies.NotHexadecimal` shows it, `HttpBodies.SizeExact` says exactly what is taken for a chunk size.
- A body that lasts until the connection closes is completed by the call without data, but the parser stays in that body:
  bytes of a further call are still delivered. `HttpClosing.BytesAfterClose` shows it, `HttpClosing.SilentExactlyWhenDead`
  says exactly when nothing follows the last message, and `HttpClosing.ConnectionEnd` that no message ever begins.
- While it skips ordinary bytes of a header value, the parser passes one byte unchecked when the header limit is reached.
  It then always fails with a header overflow, as the one-byte machine does.

## Model

| member | source | states |
|---|---|---|
| `HttpArms.Switch` | inc/lib/http_parser.c:713-2046 | every arm of the switch, from a record that satisfies the machine invariant, either sets an error or leaves the invariant intact, keeps exactly the mark its new state needs, and makes only the notifications its state allows; the asserts of the parser are part of the invariant |
| `HttpArms.OnStartReq` | inc/lib/http_parser.c:920-961 | the first byte of a request keeps the invariant, and leaves the start state only with a notification |
| `HttpArms.OnStatusCode` | inc/lib/http_parser.c:858-886 | the digits of a status code keep the invariant |
| `HttpArms.OnReqVersion` | inc/lib/http_parser.c:1089-1196 | the version of a request line keeps the invariant, the counter and the parser type |
| `HttpArms.OnMethod` | inc/lib/http_parser.c:963-1014 | keeps the invariant, in which the index is at most 11; that what was read is a prefix of the guessed name is `HttpMethods.ReadAll` |
| `HttpArms.OnUrl` | inc/lib/http_parser.c:1016-1087 | a URL byte keeps the invariant; the URL mark is live in every URL state and delivered when the URL ends |
| `HttpArms.OnFieldStart` | inc/lib/http_parser.c:1198-1246 | a header name is opened with its mark, or the headers end with the notifications of a finished head or message |
| `HttpArms.OnField` | inc/lib/http_parser.c:1248-1382 | a byte of a header name keeps the invariant between the header matcher and its index, and the name's mark |
| `HttpArms.OnValueStart` | inc/lib/http_parser.c:1399-1467 | the first byte of a value opens the value's mark, with no other callback, and keeps the invariant, in which a length in progress has its flag set |
| `HttpArms.MatchLength` | inc/lib/http_parser.c:1529-1563 | a Content-Length digit either gives the exact product and sum below ULLONG_MAX or an error; nothing else of the record changes |
| `HttpArms.MatchValueKeeps` | inc/lib/http_parser.c:1529-1655 | a value byte keeps the header matcher within its bounds |
| `HttpArms.OnDiscard` | inc/lib/http_parser.c:1384-1397 | white space before a value keeps the invariant |
| `HttpArms.OnDiscardEnd` | inc/lib/http_parser.c:1714-1755 | the end of an empty value keeps the invariant and makes no data callback other than that of an empty value |
| `HttpArms.OnValueEnd` | inc/lib/http_parser.c:1681-1712 | the line after a value that is not folded keeps the invariant, and opens a name's mark or ends the head |
| `HttpArms.OnFolded` | inc/lib/http_parser.c:1681-1691 | a folded line goes on with the value: the value's mark is set again and a length that is folded stays one that has its flag |
| `HttpArms.OnAfterValue` | inc/lib/http_parser.c:1670-1712 | the line end after a value, folded or not, keeps the invariant and the marks |
| `HttpArms.OnHeadersAlmostDone` | inc/lib/http_parser.c:1757-1824 | the end of the headers: a body follows or the message is complete, with exactly the notifications for it |
| `HttpArms.OnHeadersDone` | inc/lib/http_parser.c:1826-1871 | a body state with the same record and no notification, or a completed message with one |
| `HttpArms.OnMessageDone` | inc/lib/http_parser.c:1916-1923 | one message-complete, and the state that `NEW_MESSAGE` prescribes |
| `HttpArms.OnChunkDigit` | inc/lib/http_parser.c:1941-1976 | a further digit gives the exact product and sum, or an error |
| `HttpArms.OnChunkStart` | inc/lib/http_parser.c:1925-1939 | the first digit of a chunk size keeps the invariant, with one byte of the line counted, as the source asserts |
| `HttpArms.OnChunkLine` | inc/lib/http_parser.c:1925-2005 | a chunk-size line keeps the invariant; its first byte finds the counter at 1, as the source asserts |
| `HttpArms.OnChunkContent` | inc/lib/http_parser.c:2007-2045 | chunk data: the remaining length is neither 0 nor ULLONG_MAX, as the source asserts |
| `HttpArms.OnIdentity` | inc/lib/http_parser.c:1873-1914 | body bytes: the remaining length is neither 0 nor ULLONG_MAX, as the source asserts |
| `HttpMachine.Step` | inc/lib/http_parser.c:708-2050 | the one-byte machine keeps its invariant for every record, byte and callback answer: header states match the phase, lengths are in range, the counter is within the limit, at most one mark is live, and the log ends as the state says |
| `HttpMachine.Fresh` | inc/lib/http_parser.c:2147-2156 | a new parser satisfies the invariant, so every run from it does |
| `HttpMachine.RunConcat` | inc/lib/http_parser.c:708-2050 | a run over two pieces is the run over the second from where the first ended |
| `HttpBulk.ScanField` | inc/lib/http_parser.c:1248-1363 | the loop over a header name, with its inner loop, computes the fold of the one-byte matcher over exactly the token bytes |
| `HttpBulk.RunField` | inc/lib/http_parser.c:1248-1382 | the one-byte machine over token bytes is that fold, one data event and the same counter, or an overflow |
| `HttpBulk.SkipValue` | inc/lib/http_parser.c:1498-1517 | the loop that skips ordinary value bytes stops at a line end, at the end of data, at the header limit, or at a byte that is refused |
| `HttpBulk.ScanValue` | inc/lib/http_parser.c:1477-1655 | the loop over a header value computes the fold of the one-byte matcher over the bytes before the line end, or stops where that fold fails |
| `HttpBulk.RunValue` | inc/lib/http_parser.c:1469-1668 | the one-byte machine over value bytes is that fold, one data event and the same counter |
| `HttpBulk.RunContent` | inc/lib/http_parser.c:1873-2030 | bytes inside a body or a chunk, taken at once, are the same as one by one |
| `HttpBulk.RunChunk` | inc/lib/http_parser.c:2007-2029 | the last bytes of a chunk, taken at once, end the chunk |
| `HttpBulk.RunIdentity` | inc/lib/http_parser.c:1873-1907 | the last bytes of a body, taken at once, complete the message |
| `HttpBulk.RunEof` | inc/lib/http_parser.c:1910-1914 | a body without a length takes everything |
| `HttpParser.FireByte` | inc/lib/http_parser.c:79-141 | the marks and the callbacks of one byte, on the buffer, produce the events of the one-byte machine |
| `HttpParser.Parser.constructor` | inc/lib/http_parser.c:2147-2156 | the object stands for the fresh machine |
| `HttpParser.Parser.TakeByte` | inc/lib/http_parser.c:713-2046 | one byte that is not part of a bulk loop does what the machine does |
| `HttpParser.Parser.TakeField` | inc/lib/http_parser.c:1248-1382 | a whole header name in one turn does what the machine does byte by byte, also at the header limit and at the end of data |
| `HttpParser.Parser.EndField` | inc/lib/http_parser.c:1366-1382 | what follows a name that is read: the end of the data, the colon that delivers the name, or an error that changes no callback |
| `HttpParser.Parser.TakeValue` | inc/lib/http_parser.c:1469-1668 | a whole header value in one turn does what the machine does byte by byte, also where it is refused or too long |
| `HttpParser.Parser.EndValue` | inc/lib/http_parser.c:1477-1668 | what follows a value that is read: the end of the data, or the line end that delivers the value |
| `HttpParser.Parser.TakeContent` | inc/lib/http_parser.c:1873-2030 | a stretch of body or chunk data in one turn does what the machine does byte by byte |
| `HttpParser.Parser.TakeRest` | inc/lib/http_parser.c:1910-1914 | a body that lasts until the connection closes takes the rest of the data |
| `HttpParser.Parser.Turn` | inc/lib/http_parser.c:708-2050 | one turn of the loop advances inside the buffer and refines the machine |
| `HttpParser.Parser.ExecuteEof` | inc/lib/http_parser.c:660-679 | a call without data: completes a message without length, is ignored between messages, and is an error elsewhere |
| `HttpParser.Parser.Execute` | inc/lib/http_parser.c:638-2084 | the call with its marks and bulk loops refines the one-byte machine: the same record, the same log once adjacent data events are joined, the number of bytes taken, and an error exactly when the machine has one |
| `HttpTheorems.Feed` | inc/lib/http_parser.c:638-2084 | one call per piece leaves the machine's record and log for the whole stream, or fails if the machine does, as long as no call returns early for an upgrade |
| `HttpTheorems.SplitIndependence` | inc/lib/http_parser.c:638-2084 | the same stream in one call and in any non-empty pieces, if no call returns early: both fail, or both have the same final fields and the same joined log; an early return happens without an error and announces an upgrade |
| `HttpTheorems.HaltMeansUpgrade` | inc/lib/http_parser.c:1826-1871 | a call that returns early without an error has announced an upgrade |
| `HttpTheorems.FailureDoesNotHalt` | inc/lib/http_parser.c:713-2046 | an error is not also an early return |
| `HttpTheorems.RequestHasLength` | inc/lib/http_parser.c:2088-2108 | a request parser is never in the state that reads a body until the connection closes |
| `HttpMachine.RunType` | inc/lib/http_parser.c:726-761 | a parser that knows whether it reads requests or responses does not change its mind |
| `HttpClosing.ByteCompletes` | inc/lib/http_parser.c:460-460 | the byte that completes a message leaves the state that `NEW_MESSAGE` prescribes for the reported record, which is the dead state if the connection is not kept alive |
| `HttpClosing.CloseIsLast` | inc/lib/http_parser.c:660-667 | a message that lasts until the connection closes is completed by the call without data, is never kept alive, and leaves the state as it was |
| `HttpClosing.ConnectionEnd` | inc/lib/http_parser.c:2088-2127 | over any sequence of calls on a new parser, empty ones included, no message begins after one that completes and does not keep the connection alive; without an error the parser is then dead or in the body that lasts until the close |
| `HttpClosing.RunDead` | inc/lib/http_parser.c:716-724 | a dead parser makes no callback, whatever bytes follow |
| `HttpClosing.DeadIsSilent` | inc/lib/http_parser.c:716-724 | nor over any sequence of calls |
| `HttpClosing.BytesAfterClose` | inc/lib/http_parser.c:1910-1914 | after the call without data has completed a message, further bytes are still delivered as body |
| `HttpClosing.SilentExactlyWhenDead` | inc/lib/http_parser.c:660-724 | after the last message no callback at all follows, whatever calls are made, exactly if the parser is dead |
| `HttpClosing.Serve` | inc/lib/http_parser.c:638-2084 | the parser object over any sequence of calls: its record and joined log are the machine's, it fails exactly if the machine does, and no message begins after the last one, also in the log of a call that fails |
| `HttpBodies.StepConserves` | inc/lib/http_parser.c:1851-1906 | each byte keeps delivered plus remaining equal to what was declared, and the byte that completes the message has delivered all of it |
| `HttpBodies.RunConserves` | inc/lib/http_parser.c:1851-1906 | after any stream, body bytes delivered since the headers plus the remaining length are the declared Content-Length |
| `HttpBodies.LengthExact` | inc/lib/http_parser.c:1423-1437 | the digits of a Content-Length are accepted exactly when the digits before the last are at most (ULLONG_MAX - 10) / 10, and then the length is their decimal value |
| `HttpNames.NameBegins` | inc/lib/http_parser.c:1198-1246 | the first byte of a name puts the matcher where that name says |
| `HttpNames.NameGoesOn` | inc/lib/http_parser.c:1248-1363 | each further byte keeps it there: the matcher's state and index are a function of the lower-cased name so far |
| `HttpNames.NamesRecognised` | inc/lib/http_parser.c:1248-1363 | the matcher ends on content-length, connection or proxy-connection, transfer-encoding and upgrade exactly for these names, in any case |
| `HttpLength.StepLength` | inc/lib/http_parser.c:713-2046 | each byte keeps the tie between the record's length, the matcher and the logged header that declares it, also over blanks, folded lines and repeated headers |
| `HttpLength.LengthIsDeclared` | inc/lib/http_parser.c:1198-1824 | in every run from a new parser, each headers-complete with a length has that length as the decimal value of the digits of a logged content-length header of the same message, with only blanks behind the digits |
| `HttpOneLength.StepCounts` | inc/lib/http_parser.c:713-2046 | each byte keeps the tie between the length flag and the number of content-length fields the message has in the log, the one being read included |
| `HttpOneLength.OneLength` | inc/lib/http_parser.c:1198-1824 | in every run from a new parser, each headers-complete finds exactly one field named content-length in its message, in any case, if the record has a length, and none otherwise |
| `HttpLength.BodyIsDeclared` | inc/lib/http_parser.c:1851-1906 | after any stream, body bytes delivered since the headers plus the remaining length are the decimal value of that header |
| `HttpLength.BodyIsComplete` | inc/lib/http_parser.c:1873-1907 | the byte that ends such a body has delivered exactly that many bytes |
| `HttpBodies.RunSizeLine` | inc/lib/http_parser.c:1925-2005 | a chunk-size line with any spelling the parser takes for a size and any extension sets the length and notifies once |
| `HttpBodies.SizeExact` | inc/lib/http_parser.c:1925-1976 | bytes before a CR, a semicolon or a blank are accepted as a size exactly if each is a hexadecimal digit or at least 128 and the digits before the last are at most (ULLONG_MAX - 16) / 16; then the size is their value with bytes from 128 on counted as 0 |
| `HttpBodies.NotHexadecimal` | inc/lib/http_parser.c:1925-1976 | the byte 0x80 and a line end are taken for the last chunk |
| `HttpBodies.RunOneChunk` | inc/lib/http_parser.c:1925-2045 | a chunk is delivered as one header notification, its data, and one complete notification |
| `HttpBodies.ChunkedDelivery` | inc/lib/http_parser.c:1925-2045 | chunks, a chunk of size zero and an empty trailer section: the exact log, ending in a single message-complete |
| `HttpBodies.PayloadDelivered` | inc/lib/http_parser.c:2007-2029 | the body bytes of that log are the concatenation of the chunks |
| `HttpTrailers.RunTrailer` | inc/lib/http_parser.c:1757-1766 | every trailer section that is accepted delivers no body byte and ends the last chunk and the message, once each |
| `HttpTrailers.ChunkedWithTrailer` | inc/lib/http_parser.c:1757-2045 | chunked coding with any accepted trailer section: the body is the concatenation of the chunks, one chunk-header and chunk-complete per chunk and for the last, one message-complete |
| `HttpTrailers.EmptyTrailer` | inc/lib/http_parser.c:1757-1766 | the empty trailer section is accepted |
| `HttpTrailerLines.LineStays` | inc/lib/http_parser.c:1198-1712 | a line of a token other than content-length, a colon, header characters and CRLF is taken, and leaves the parser in front of the next line |
| `HttpTrailerLines.LinesFit` | inc/lib/http_parser.c:1198-1766 | every section of such lines and an empty line, within the header limit, is accepted as a trailer section |
| `HttpTrailerLines.ChunkedWithLines` | inc/lib/http_parser.c:1757-2045 | chunks, a last chunk and such a section are one message: its body is the concatenation of the chunks, with one chunk-header and chunk-complete per chunk and for the last, and one message-complete |
| `HttpMethods.RegressFits` | inc/lib/http_parser.c:977-1005 | switching to another method on a mismatch keeps the bytes read a prefix of the new method's name |
| `HttpMethods.GuessNext` | inc/lib/http_parser.c:963-1014 | for each name, the guess after each letter leads on to the guess after the next |
| `HttpMethods.ReadAll` | inc/lib/http_parser.c:920-1014 | as long as there is no error, what was read is a prefix of the current method's name |
| `HttpMethods.NameAccepted` | inc/lib/http_parser.c:920-1014 | each of the names is read to its end |
| `HttpMethods.MethodRecognised` | inc/lib/http_parser.h:163-205 | a token and a space are taken for a request exactly when the token is one of the 34 names, and that method is set, also by a parser of both types, where HEAD and HTTP/ begin alike |
| `HttpUrl.RankGrows` | inc/lib/http_parser.c:490-636 | the URL machine never goes back to an earlier part |
| `HttpUrl.HostRankGrows` | inc/lib/http_parser.c:2176-2256 | the host machine never goes back to an earlier part |
| `HttpUrlSplit.Url.ScanFields` | inc/lib/http_parser.c:2362-2416 | the loop accepts exactly the live URLs and puts every byte into the field its state stands for |
| `HttpUrlSplit.Url.ParseHost` | inc/lib/http_parser.c:2258-2338 | splits the authority: succeeds exactly when the host machine ends well, and every byte is in the field its state stands for |
| `HttpUrlSplit.ParsePort` | inc/lib/http_parser.c:2438-2462 | succeeds exactly when the decimal value of the port is at most 65535, and returns it |
| `HttpUrlSplit.Url.Parse` | inc/lib/http_parser.c:2345-2466 | accepts exactly the URLs both machines accept whose port fits; every byte is in the one field it belongs to, and `port` is the decimal value of its field |
| `HttpUrlTheorems.UncoveredAreDelimiters` | inc/lib/http_parser.c:490-636 | in an accepted URL every byte outside all fields is one of `: / ? # @ [ ]` |
| `HttpUrlTheorems.PartsInOrder` | inc/lib/http_parser.c:2345-2466 | bytes of different parts come in the order schema, userinfo, host, port, path, query, fragment |
| `HttpUrlTheorems.FieldsInOrder` | inc/lib/http_parser.c:2345-2466 | the set fields are not empty, inside the URL, disjoint and in that order |
| `HttpUrlTheorems.OuterFrame` | inc/lib/http_parser.c:490-636 | a schema is letters; a path begins with a slash or is a leading asterisk and holds no `?` or `#`; a query follows a `?`, a fragment a `#` |
| `HttpUrlTheorems.HostFrame` | inc/lib/http_parser.c:2176-2256 | a userinfo has userinfo characters, a host no brackets or `@`, a port only digits, after a colon |
| `Utf8Table.LegalBytewise` | inc/lib/simdutf8check.h:95-104 | a byte string is a concatenation of rows of the table exactly if each byte fits what is still open and nothing stays open |
| `Utf8Simd.LengthsAre` | inc/lib/simdutf8check.h:116-124 | the shuffle gives each lane the length its byte announces |
| `Utf8Simd.CarriedIs` | inc/lib/simdutf8check.h:126-137 | two shifted saturating additions give each lane what the four bytes before it still ask for |
| `Utf8Simd.LaneContinuations` | inc/lib/simdutf8check.h:139-150 | a lane stays clean exactly if a sequence continues where one is open and only there |
| `Utf8Simd.LaneFirstMax` | inc/lib/simdutf8check.h:155-167 | a lane stays clean exactly if no surrogate and nothing above U+10FFFF begins there |
| `Utf8Simd.LaneOverlong` | inc/lib/simdutf8check.h:175-199 | a lane stays clean exactly if no overlong form begins there |
| `Utf8Simd.LaneErrors` | inc/lib/simdutf8check.h:216-238 | a lane of the error register is zero exactly if it was before and its byte passes all four checks |
| `Utf8Simd.LaneOk` | inc/lib/simdutf8check.h:216-238 | a lane passes exactly if its byte fits the input so far, across the block boundary |
| `Utf8Simd.BlockOk` | inc/lib/simdutf8check.h:216-238 | after a block, no error is flagged exactly if all bytes up to here fit, and what is carried over describes the input so far |
| `Utf8Simd.PaddedOk` | inc/lib/simdutf8check.h:253-259 | zeros after the input pass exactly if the input leaves nothing open |
| `Utf8Simd.LastCheck` | inc/lib/simdutf8check.h:260-269 | the last comparison finds exactly the inputs whose length is a multiple of 16 and that end inside a sequence |
| `Utf8Simd.Validate` | inc/lib/simdutf8check.h:240-270 | true exactly for concatenations of legal sequences, for every length and alignment |
| `Utf8Scalar.Validate` | inc/lib/simdutf8check.h:10-87 | true exactly for concatenations of legal sequences without DEL and without control bytes other than TAB, LF and CR |
| `Msgpack.PackersAgree` | inc/msgpack/pack_template.h:101-270 | the unsigned and the signed packer write the same bytes wherever both apply |
| `Msgpack.LoadStore` | inc/util/mpack.h:217-247 | a big-endian number of any width is read back |
| `Mpack.Next` | inc/util/mpack.h:281-506 | an object that is read takes at least one byte and lies inside the buffer; otherwise the type is not positive |
| `Mpack.Skip` | inc/util/mpack.h:508-676 | a skipped object takes at least one byte and lies inside the buffer |
| `MpackAgree.HeaderMatch` | inc/util/mpack.h:281-676 | on every header that does not wrap, both decoders see the same type, extent or count, or the same failure |
| `MpackAgree.DecodersAgree` | inc/util/mpack.h:281-676 | where no header on the way wraps, `mp_skip` and a recursive `mp_next` walk succeed together with the same type and final cursor, and fail with the same code |
| `MpackAgree.SkipAccepts` | inc/util/mpack.h:508-676 | below 2^32 bytes the walk succeeds exactly if `mp_skip` does and no header on the way is a map 32 of 2^31 pairs or an ext 32 of 2^32 - 1 bytes |
| `MpackAgree.WrappedMapAccepted` | inc/util/mpack.h:664-670 | the five bytes df 80 00 00 00 are accepted by `mp_skip` and are not an object |
| `MpackAgree.WrappedExtAccepted` | inc/util/mpack.h:574-580 | the five bytes c9 ff ff ff ff are accepted by `mp_skip` and are not an object |
| `MpackAgree.SkipCut` | inc/util/mpack.h:208-263 | every strict prefix of a complete object gives MP_INCOMPLETE, the empty one MP_END; bytes behind the object do not matter |
| `MpackAgree.CallsBounded` | inc/util/mpack.h:256-263 | on n bytes the recursion makes at most n + 1 calls |
| `MpackFlat.FlatWalk` | inc/util/mpack.h:281-506 | an object is complete, and ends, exactly where one counter of values still expected comes to nought |
| `MpackRoundTrip.RoundTrip` | inc/msgpack/pack_template.h:101-895 | for every tree of nil, bool, integers in [-2^63, 2^64), float bits, str, bin, ext, array and map with lengths below 2^32: packing, with anything around it, decodes with `mp_next` to the same tree and leaves exactly what follows |
| `MpackUnpacker.Unpacker.constructor` | inc/util/mpack.h:201-206 | the cursor is at the start of the data |
| `MpackUnpacker.Unpacker.Next` | inc/util/mpack.h:281-506 | fills the object and moves the cursor as the decoding function says |
| `MpackUnpacker.Unpacker.Skip` | inc/util/mpack.h:508-676 | moves the cursor and returns the type as the skipping function says |
| `MpackUnpacker.Unpacker.SkipAll` | inc/util/mpack.h:256-263 | the loop over nested objects, which turns an end inside a container into MP_INCOMPLETE |
| `MpackUnpacker.IsValid` | inc/util/mpack.h:783-788 | true exactly if one object is skipped up to the end; where no header wraps, exactly for one complete object with nothing after it |
| `MpackUnpacker.PackedWalk` | inc/msgpack/pack_template.h:101-895 | a packed value followed by any suffix decodes to itself and leaves the suffix |
| `MpackUnpacker.PrefixFree` | inc/msgpack/pack_template.h:101-895 | no encoding is a prefix of another |
| `MpackUnpacker.PackedPrefix` | inc/util/mpack.h:208-263 | `mp_skip` takes all of a packed object and reports each strict prefix as incomplete, the empty one as the end |
| `Sbuffer.Buffer.constructor` | inc/util/mpack.h:123-133 | nothing is allocated when nothing but the reserved space is in use |
| `Sbuffer.Buffer.Grown` | inc/msgpack/sbuffer.h:63-77 | doubling in 64-bit arithmetic ends with enough room, also where it wraps |
| `Sbuffer.Buffer.Write` | inc/msgpack/sbuffer.h:59-87 | fails exactly if it must grow and there is no memory, and then changes nothing; otherwise the bytes are appended and what was there is kept, also across a reallocation |
| `Json.Handle` | inc/util/mpjson.h:174-265 | every callback keeps the context valid: levels below the limit, and count bytes inside the buffer |
| `Json.Run` | inc/util/mpjson.h:174-265 | so does every stream of balanced events |
| `JsonTheorems.EndPatches` | inc/util/mpjson.h:209-265 | the end of a container turns the placeholder header into one with the number of its children |
| `JsonTheorems.TreeRun` | inc/util/mpjson.h:174-265 | from any valid context with enough levels left, the events of a tree append its encoding, count one value, and leave outer levels alone |
| `JsonTheorems.TooDeep` | inc/util/mpjson.h:209-254 | a tree that nests deeper than the levels left is refused |
| `JsonTheorems.EncodedWalk` | inc/util/mpjson.h:174-265 | those bytes decode to the tree |
| `JsonTheorems.Converted` | inc/util/mpjson.h:174-319 | the callbacks take the events of a tree exactly if it nests less than the limit, and then leave bytes that decode to exactly this tree |
| `JsonTheorems.EndChangesItsCount` | inc/util/mpjson.h:230-265 | an end event changes the four count bytes of its own container and no other byte |
| `JsonTheorems.RunPlaced` | inc/util/mpjson.h:209-265 | after every run the offset of each open container points behind its own header byte, and the headers do not overlap |
| `JsonConvert.Converter.constructor` | inc/util/mpjson.h:291-306 | the context starts empty, at level 0 |
| `JsonConvert.Converter.Scalar` | inc/util/mpjson.h:174-200 | the callbacks for null, boolean, integer and double, on the arrays and the buffer, do what the event function says |
| `JsonConvert.Converter.Text` | inc/util/mpjson.h:202-228 | strings count, keys do not; both append the string |
| `JsonConvert.Converter.Open` | inc/util/mpjson.h:209-254 | a container start counts, takes a level or fails, records the offset and writes the placeholder, also when the buffer moves |
| `JsonConvert.Converter.Close` | inc/util/mpjson.h:230-265 | a container end overwrites its count in place, wherever the buffer is now |
| `JsonConvert.Convert` | inc/util/mpjson.h:291-319 | a whole stream of events through the callbacks gives the output of the event function, and fails exactly where that does unless one of the requests for memory is refused |
| `JsonGenerate.Generator.Generate` | inc/util/mpjson.h:33-102 | the recursive walk makes the generator calls of the specification and stops at the first that is refused |
| `JsonBridge.TreeCalls` | inc/util/mpjson.h:33-102 | for every JSON tree in the buffer the generator gets exactly the calls that write it |
| `JsonBridge.TreeReparse` | inc/util/mpjson.h:174-265 | what those calls wrote is reported by the parser as the events of the tree, strings in key position as keys |
| `JsonBridge.ThereAndBack` | inc/util/mpjson.h:33-319 | packed bytes of any tree of int64, double, str, bool, nil, array and string-keyed map, within the depth limit, go to JSON and back to bytes that decode to the same tree |
| `JsonPartial.JsonExactly` | inc/util/mpjson.h:33-102 | with a generator that takes every call, `mp__to_json` succeeds exactly if every object it reads before the data ends is complete and has a form in JSON, whether or not all announced values are there; with any generator it succeeds only then |
| `JsonPartial.ShortArray` | inc/util/mpjson.h:33-102 | 92 01 is no object, and is written as the array of one |
| `JsonPartial.UnfinishedDecodes` | inc/util/mpjson.h:209-319 | events that end inside containers are taken, and the bytes written decode as one object exactly if the open containers hold, with what is nested in each other, as many values as their placeholder counts of 65536 announce |
| `JsonPartial.ShortIsNotFilled` | inc/util/mpjson.h:209-319 | with fewer than 65536 values in the open containers they do not decode |
| `JsonPartial.PrefixDecodes` | inc/util/mpjson.h:174-319 | this holds of the first events of every tree within the depth limit, wherever they stop |
| `JsUtf8.Count` | itest/ws/msgpack.js:99-137 | the number of bytes the encoder writes, for every sequence of code units |
| `JsUtf8.EncodeInto` | itest/ws/msgpack.js:138-179 | writes the encoding at the offset and changes nothing else |
| `JsUtf8.DecodeJs` | itest/ws/msgpack.js:202-249 | the chunked loop returns the decoding of the whole slice |
| `JsUtf8Theorems.RoundTrip` | itest/ws/msgpack.js:138-249 | decoding what was encoded gives every sequence of code units back, also with unpaired surrogates |
| `JsUtf8Theorems.EncodeLegal` | itest/ws/msgpack.js:138-179 | the bytes are legal per section 4 of RFC 3629 exactly if all surrogates are paired |
| `JsUtf8Theorems.LocalExactlyWhenWhole` | itest/ws/msgpack.js:202-249 | decoding a string does not depend on the bytes behind it exactly if its last sequence does not reach behind its end |
| `JsUtf8Theorems.LegalIsWhole` | itest/ws/msgpack.js:202-249 | legal UTF-8 has this property |
| `JsUtf8Theorems.CutExactly` | itest/ws/msgpack.js:202-249 | the bytes behind a string do not show in its text exactly if those its last sequence takes have no low six bits, missing ones reading as 0 |
| `JsCut.TokenCut` | itest/ws/msgpack.js:1450-1715 | on the first bytes of the input a token is the same or not complete, unless its text has bits from behind the string |
| `JsCut.TokenShows` | itest/ws/msgpack.js:1766-1784 | in that case the text is another one when the input ends with the string |
| `JsCut.TextsTell` | itest/ws/msgpack.js:1672-1713 | different texts lead to different stacks or objects, except where every string is refused because it completes a container in a key's place |
| `JsCut.SteadyExactly` | itest/ws/msgpack.js:1450-1715 | of the states of the run: every cut of the input leads back to the unread bytes and the stack of the run on the whole exactly if no string of that run, other than one that is refused anyway, takes bits that are not zero from behind its end |
| `JsCut.StreamIsWhole` | itest/ws/msgpack.js:1290-1361 | if none does, a stream of non-empty buffers gives what `decode` gives on their concatenation |
| `JsCut.StreamDiffers` | itest/ws/msgpack.js:1290-1361 | 92 a1 c3 01 decodes to an array with U+00C1, and with U+00C0 if the first buffer ends after three bytes |
| `JsResult.ObjectExactly` | itest/ws/msgpack.js:1264-1361 | of the result: for a complete object whose maps repeat no key, all cuts into two buffers give the object that `decode` gives exactly if no string takes such bits |
| `JsResult.KindExactly` | itest/ws/msgpack.js:1290-1361 | for every input, all streams of non-empty buffers give the same error as `decode`, or an object where it gives one, exactly if behind every key that is `__proto__` only by bits from behind its end the input is malformed all the same |
| `JsResult.FirmUnlessMalformed` | itest/ws/msgpack.js:1672-1713 | that is so for every input that is not malformed |
| `JsResult.AnswerExactly` | itest/ws/msgpack.js:1264-1361 | for every input whose maps repeat no key, all streams of non-empty buffers give the answer of `decode` exactly if no string takes such bits, where that answer is an object, and exactly under the condition of `KindExactly` where it is an error |
| `JsResult.KindDiffers` | itest/ws/msgpack.js:1672-1713 | 81 a9, the bytes of `__proto_`, c1 and 1f are malformed, and an object if the first buffer ends before 1f |
| `JsResult.OverwrittenIsGone` | itest/ws/msgpack.js:1672-1713 | 82 a1 6b a1 c3 a1 6b 05 decodes to one object however the text of its first value comes out, because the key is repeated |
| `JsDecodeTheorems.TokenSame` | itest/ws/msgpack.js:1450-1715 | on every head byte the JavaScript decoder reads what `mp_next` reads |
| `JsDecodeTheorems.MachineFollows` | itest/ws/msgpack.js:1450-1715 | wherever the recursive decoder reads a value, the stack machine gets, under any stack, to the point where that value is complete |
| `JsDecodeTheorems.ObjectDecodes` | itest/ws/msgpack.js:1264-1272 | one complete object within the limits, with proper keys and whole strings, decodes to itself, and none of its texts depends on a cut |
| `JsDecodeTheorems.ServerToClient` | itest/ws/msgpack.js:1264-1272 | what the C packer writes, the JavaScript decoder reads as the same value |
| `JsKeyCache.KeyCache.constructor` | itest/ws/msgpack.js:1054-1067 | the cache starts empty and valid |
| `JsKeyCache.KeyCache.Find` | itest/ws/msgpack.js:1071-1094 | the text of the record of exactly these bytes, or nothing if there is none |
| `JsKeyCache.KeyCache.Store` | itest/ws/msgpack.js:1095-1106 | the record is appended to the row of its length, or replaces one record of a full row; all else is kept, and no key is filed twice |
| `JsKeyCache.KeyCache.DecodeKey` | itest/ws/msgpack.js:1107-1119 | a cached key gets the text it was cached with, another one is decoded where it stands and cached; whatever was cached or given up before, a whole key gets its own text |
| `JsKeyCache.KeyRemembered` | itest/ws/msgpack.js:1107-1119 | any key keeps the text of its first decoding, whatever stands behind it then and later |
| `JsKeyCache.KeyExactly` | itest/ws/msgpack.js:1071-1119 | a key gets the text it has where it stands, for all valid caches and all surroundings, exactly if its last sequence does not reach behind its end |
| `JsDecoder.Decoder.constructor` | itest/ws/msgpack.js:1210-1227 | nothing is unread and the stack is empty |
| `JsDecoder.Decoder.AppendBuffer` | itest/ws/msgpack.js:1239-1252 | the new bytes come behind the unread ones, including a head byte already taken |
| `JsDecoder.Decoder.DecodeString` | itest/ws/msgpack.js:1766-1784 | a string token is the specified one, with its text made of the bytes that are there; a key short enough for the cache has the text it is filed with there, or the one it has where it stands |
| `JsDecoder.Decoder.Place` | itest/ws/msgpack.js:1672-1713 | the unwinding loop puts an object into the containers on the stack as specified |
| `JsDecoder.Decoder.Turn` | itest/ws/msgpack.js:1451-1713 | one round of the loop is one round of the machine on the bytes that are there |
| `JsDecoder.Decoder.DoDecodeSync` | itest/ws/msgpack.js:1450-1715 | the call ends as the machine's run on the unread bytes does: with the object, an error, or the unread bytes and the stack to resume with |
| `JsDecoder.Decoder.DecodeAll` | itest/ws/msgpack.js:1264-1272 | decodes the whole buffer: the object, too little data, malformed data, or extra bytes, as the machine says |
| `JsDecoder.Decoder.DecodeAsync` | itest/ws/msgpack.js:1290-1361 | the result for the buffers of a stream, empty ones and bytes left over from before included, is the specified one |
| `JsDecoder.Resumable` | itest/ws/msgpack.js:1290-1361 | a stream of non-empty buffers, with any history of the key cache and any eviction, gives the same result as `decode` on the whole if no string takes bits from behind its end and, for a complete object with whole strings, as the recursive decoder; on every firm input the two answers are of the same kind |
| `Queue.Ring.constructor` | inc/util/queue.h:15-15 | a new queue is empty |
| `Queue.Ring.Space` | inc/util/queue.h:71-74 | how many more elements fit |
| `Queue.Ring.Get` | inc/util/queue.h:76-79 | the i-th element of the plain sequence |
| `Queue.Ring.First` | inc/util/queue.h:81-84 | the first element, or none |
| `Queue.Ring.Last` | inc/util/queue.h:86-89 | the last element, or none |
| `Queue.Ring.Push` | inc/util/queue.h:38-41 | appends to the plain sequence |
| `Queue.Ring.Unshift` | inc/util/queue.h:42-46 | prepends to the plain sequence, also at the start of the block |
| `Queue.Ring.Pop` | inc/util/queue.h:91-94 | removes and returns the last element, or none |
| `Queue.Ring.Shift` | inc/util/queue.h:96-101 | removes and returns the first element, or none, also at the end of the block |
| `Queue.Ring.Clear` | inc/util/queue.h:103-106 | empties the sequence |
| `Queue.Ring.Each` | inc/util/queue.h:48-61 | visits the starting sequence in order exactly once, also if the body shifts once per round, and exactly the shifted elements are gone |
| `Lifecycle.ShutdownBound` | src/ti.c:1145-1185 | under every environment a node goes off-line exactly once, before it stops, and stops no later than tick period + 300 |
| `Lifecycle.PeriodIsKept` | src/ti.c:1145-1163 | while there are other nodes, nothing happens before the period is over |
| `Lifecycle.Shutdown.Tick` | src/ti.c:1145-1185 | the timer callback does one tick of that machine |
| `Lifecycle.StartupOrder` | src/ti.c:535-614 | in every run modules are loaded at most once, clients are served at most once and only after that, and there are at most 120 waits |
| `Lifecycle.ClientsWait` | src/ti.c:535-614 | the tick that lets clients in found the change queue drained, and the modules ready, not waited for, or waited for 120 times |
| `Lifecycle.StartupEnds` | src/ti.c:535-614 | once no change is waiting, the start is over within 121 ticks |
| `Lifecycle.Startup.Tick` | src/ti.c:535-614 | the timer callback does one tick of that machine |

## Left out

- HttpParser.Parser.Execute: requires that the header limit plus the length of the data is below 2^32, because the byte counter of the source has 32 bits.
- HttpTheorems.Feed: says nothing once a call has returned early for an upgrade, because the caller takes over the connection there.
- HttpTheorems.SplitIndependence: does not say which error code a refused stream gets or at which byte, because the bulk loops report limits at other points than single bytes would; bytes behind an early return for an upgrade are not compared either.
- HttpParser.Parser.TakeByte: like `TakeField`, `TakeValue` and `Turn`, has the bound of `Execute` on the length of the data.
- HttpClosing.Serve: has that bound for each call.
- HttpMethods.MethodRecognised: is about tokens within the header limit that do not start with a line end, which the parser skips.
- HttpUrlSplit.Url.Parse: requires at most 65535 bytes, because offsets and lengths of the source have 16 bits.
- MpackAgree.SkipAccepts: is about buffers below 2^32 bytes; for longer ones `MpackAgree.DecodersAgree` has one direction.
- JsonConvert.Convert: requires that the output fits 64-bit sizes.
- JsCut.StreamIsWhole: is about non-empty buffers; an empty buffer behind a complete object counts as extra bytes in the source, as `JsDecode.Stream` has it.
- JsResult.AnswerExactly: like `ObjectExactly`, is about maps that repeat no key, because an overwritten text does not show in the object (`JsResult.OverwrittenIsGone`); which of the texts are overwritten would be another condition on the run.
- JsDecoder.Decoder.DecodeAsync: says nothing of streams with a key that is short enough for the cache and not whole, because the specification of a run has no cache; `JsDecoder.Decoder.DecodeString` and `JsKeyCache.KeyCache.DecodeKey` give the text of such a key exactly.
- JsDecoder.Resumable: like `DecodeAsync`, says nothing of streams with such a key.
- HttpTrailerLines.LinesFit: is about lines without folding and without blanks before the colon.
- Callbacks of the HTTP parser that fail or pause, and callbacks that change the parser; `on_headers_complete` may answer in every way the source allows.
- The JSON text itself, which yajl writes and reads: the model hands the generator's calls to the parser as events, with strings in key position as keys. The depth limit is a parameter. Numbers above the signed 64-bit range and 32-bit floats are outside the bridge.
- The value of floating-point numbers: floats are kept as bits, and JavaScript numbers as the integer or the bits they are made from, so rounding of 64-bit integers is not modelled. `useBigInt64` is taken as off.
- TextEncoder, TextDecoder, the extension codec and the naming of numeric keys in JavaScript are functions given from outside that do not fail.
- The casts between signed and unsigned objects and the printing helpers of `mpack.h`, which would only add easy members.
- The JavaScript encoder, and the decoder's stream and array-stream variants.
- The AVX2 helpers, which have no driver, and the ASCII checks.
- Queue functions whose bodies are not in the header (insert, remove, reserve, walk and others).
- The quorum, change, archive, synchronisation and away protocols, collections, types and the query language.
- Timer, socket and file input and output; what a tick finds is a parameter of the tick.
