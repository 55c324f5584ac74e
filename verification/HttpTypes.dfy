/**
  * The data of the HTTP/1 push parser: the `http_parser` record, the parser's two layers of states, the log of
  * callbacks it makes, and the character classes of strict mode.
  */
module HttpTypes {
  import opened Bytes

  datatype ParserType = Request | Response | Both

  /** `HTTP/x.y ` and the blanks before the status code, and the line feed that ends the line. */
  datatype ResVersionState =
    | ResH | ResHT | ResHTT | ResHTTP | ResHttpMajor | ResHttpDot | ResHttpMinor | ResHttpEnd
    | ResFirstStatusCode | ResLineAlmostDone

  /** What follows the URL of a request line. */
  datatype ReqVersionState =
    | ReqHttpStart | ReqHttpH | ReqHttpHT | ReqHttpHTT | ReqHttpHTTP | ReqHttpI | ReqHttpIC
    | ReqHttpMajor | ReqHttpDot | ReqHttpMinor | ReqHttpEnd | ReqLineAlmostDone

  datatype UrlState =
    | ReqSchema | ReqSchemaSlash | ReqSchemaSlashSlash | ReqServerStart | ReqServer | ReqServerWithAt
    | ReqPath | ReqQueryStringStart | ReqQueryString | ReqFragmentStart | ReqFragment

  /** White space between a header's colon and its value. */
  datatype DiscardState = DiscardWs | DiscardWsAlmostDone | DiscardLws

  /**
    * `enum state`, with neighbouring states of one line part grouped.  The states `s_header_value_start`,
    * `s_headers_done` and `s_message_done` are missing: the parser only passes through them while it handles one byte.
    */
  datatype State =
    | Dead | StartReqOrRes | StartRes | StartReq
    | ResOrRespH | ResVersion(rv: ResVersionState) | ResStatusCode | ResStatusStart | ResStatus
    | ReqMethod | ReqSpacesBeforeUrl | Url(u: UrlState) | ReqVersion(qv: ReqVersionState)
    | HeaderFieldStart | HeaderField | Discard(d: DiscardState) | HeaderValue | HeaderAlmostDone | HeaderValueLws
    | HeadersAlmostDone
    | ChunkSizeStart | ChunkSize | ChunkParameters | ChunkSizeAlmostDone
    | ChunkData | ChunkDataAlmostDone | ChunkDataDone
    | BodyIdentity | BodyIdentityEof

  /** `PARSING_HEADER`: every state up to and including `s_headers_done`. */
  predicate ParsingHeader(s: State) {
    !(s.ChunkData? || s.ChunkDataAlmostDone? || s.ChunkDataDone? || s.BodyIdentity? || s.BodyIdentityEof?)
  }

  datatype HeaderState =
    | HGeneral | HC | HCO | HCON
    | HMatchingConnection | HMatchingProxyConnection | HMatchingContentLength
    | HMatchingTransferEncoding | HMatchingUpgrade
    | HConnection | HContentLength | HContentLengthNum | HContentLengthWs | HTransferEncoding | HUpgrade
    | HMatchingTransferEncodingChunked | HMatchingConnectionTokenStart | HMatchingConnectionKeepAlive
    | HMatchingConnectionClose | HMatchingConnectionUpgrade | HMatchingConnectionToken
    | HTransferEncodingChunked | HConnectionKeepAlive | HConnectionClose | HConnectionUpgrade

  datatype Method =
    | DELETE | GET | HEAD | POST | PUT | CONNECT | OPTIONS | TRACE
    | COPY | LOCK | MKCOL | MOVE | PROPFIND | PROPPATCH | SEARCH | UNLOCK | BIND | REBIND | UNBIND | ACL
    | REPORT | MKACTIVITY | CHECKOUT | MERGE
    | MSEARCH | NOTIFY | SUBSCRIBE | UNSUBSCRIBE
    | PATCH | PURGE | MKCALENDAR | LINK | UNLINK | SOURCE

  /** The bits of `http_parser.flags`, one boolean each. */
  datatype Flags = Flags(chunked: bool, keepAlive: bool, close: bool, connUpgrade: bool,
                         trailing: bool, upgrade: bool, skipBody: bool, contentLength: bool)

  const NO_FLAGS := Flags(false, false, false, false, false, false, false, false)

  datatype Errno =
    | OK | InvalidEofState | HeaderOverflow | ClosedConnection | InvalidVersion | InvalidStatus | InvalidMethod
    | InvalidUrl | LfExpected | InvalidHeaderToken | InvalidContentLength | UnexpectedContentLength
    | InvalidChunkSize | InvalidConstant | InvalidInternalState | Strict

  /** The part of the `http_parser` record that describes the message, which a callback may read. */
  datatype View = View(ptype: ParserType, flags: Flags, contentLength: nat, major: nat, minor: nat,
                       statusCode: nat, meth: Method, upgrade: bool)

  /** The `http_parser` record (without the embedder's `data`). */
  datatype Fields = Fields(state: State, hs: HeaderState, index: nat, lenient: bool, nread: nat, errno: Errno, v: View)

  /** ULLONG_MAX: the value of `content_length` while no length is known. */
  const NO_LENGTH: nat := TWO_64 - 1

  /** What `on_headers_complete` may answer: 0, 1 or 2. */
  datatype Verdict = Proceed | NoBody | NoBodyAndUpgrade

  /** The header limit and the embedder's answer to `on_headers_complete`; every other callback returns 0. */
  datatype Config = Config(maxHeader: nat, onHeadersComplete: View -> Verdict)

  datatype Kind = KField | KValue | KUrl | KBody | KStatus

  datatype Note = MessageBegin | HeadersComplete | MessageComplete | ChunkHeader | ChunkComplete

  /** One callback: a run of bytes, or a notification together with the record it could read. */
  datatype Event = Data(kind: Kind, bytes: seq<byte>) | Notify(note: Note, view: View)

  /** The notifications of one byte: at most two. */
  datatype Notes = Silent | Once(note: Note, view: View) | Twice(note: Note, view: View, note2: Note, view2: View)

  function NoteEvents(n: Notes): seq<Event> {
    match n
    case Silent => []
    case Once(a, v) => [Notify(a, v)]
    case Twice(a, v, b, w) => [Notify(a, v), Notify(b, w)]
  }

  /**
    * What one byte does to marks and callbacks, in this order: run the data callback of the live mark `close`; make
    * an empty data callback for `empty`; hand this byte to `on_body`; run the notifications; set the mark `open` here.
    */
  datatype Effect = Effect(close: Option<Kind>, empty: Option<Kind>, body: bool, notes: Notes, open: Option<Kind>)

  const NONE := Effect(None, None, false, Silent, None)

  /** One arm of the parser's switch: the new record, the callbacks, and whether the call returns after this byte. */
  datatype Arm = Arm(f: Fields, e: Effect, halt: bool)

  /** The one-byte machine: the record, the log with adjacent data events joined, and "the call has returned". */
  datatype Machine = Machine(f: Fields, log: seq<Event>, halted: bool)

  /** The mark a call sets on entry, which is also the mark that is live between two bytes in this state. */
  function LiveOf(s: State): Option<Kind> {
    if s.HeaderField? then Some(KField)
    else if s.HeaderValue? then Some(KValue)
    else if s.Url? then Some(KUrl)
    else if s.ResStatus? then Some(KStatus)
    else None
  }

  // ---- character classes, strict mode ----

  const CR: byte := 13
  const LF: byte := 10
  const SP: byte := 32
  const HT: byte := 9

  /** `TOKEN(c)`: the lower-cased token character, or 0. */
  function Token(c: byte): byte {
    if 65 <= c <= 90 then c + 32
    else if 97 <= c <= 122 || 48 <= c <= 57 || c == 33 || 35 <= c <= 39 || c == 42 || c == 43 || c == 45 || c == 46
            || 94 <= c <= 96 || c == 124 || c == 126 then c
    else 0
  }

  /** `LOWER(c)`: the byte with bit 5 set. */
  function Lower(c: byte): byte {
    if (c / 32) % 2 == 0 then c + 32 else c
  }

  predicate IsAlpha(c: byte) { 97 <= Lower(c) <= 122 }

  predicate IsNum(c: byte) { 48 <= c <= 57 }

  predicate IsAlphaNum(c: byte) { IsAlpha(c) || IsNum(c) }

  predicate IsHex(c: byte) { IsNum(c) || 97 <= Lower(c) <= 102 }

  /** - _ . ! ~ * ' ( ) */
  predicate IsMark(c: byte) {
    c == 45 || c == 95 || c == 46 || c == 33 || c == 126 || c == 42 || c == 39 || c == 40 || c == 41
  }

  /** alphanumerics, marks and % ; : & = + $ , */
  predicate IsUserinfoChar(c: byte) {
    IsAlphaNum(c) || IsMark(c) || c == 37 || c == 59 || c == 58 || c == 38 || c == 61 || c == 43 || c == 36 || c == 44
  }

  /** Visible US-ASCII except # and ?. */
  predicate IsUrlChar(c: byte) { 33 <= c <= 126 && c != 35 && c != 63 }

  predicate IsHostChar(c: byte) { IsAlphaNum(c) || c == 46 || c == 45 }

  predicate IsHeaderChar(c: byte) { c == CR || c == LF || c == HT || (c > 31 && c != 127) }

  /** `unhex[c]`; the table lists 128 entries, so the remaining ones are 0 and not -1. */
  function Unhex(c: byte): int {
    if 48 <= c <= 57 then c - 48
    else if 65 <= c <= 70 then c - 55
    else if 97 <= c <= 102 then c - 87
    else if c >= 128 then 0
    else -1
  }

  const CONNECTION: seq<byte> := [99, 111, 110, 110, 101, 99, 116, 105, 111, 110]
  const PROXY_CONNECTION: seq<byte> := [112, 114, 111, 120, 121, 45, 99, 111, 110, 110, 101, 99, 116, 105, 111, 110]
  const CONTENT_LENGTH: seq<byte> := [99, 111, 110, 116, 101, 110, 116, 45, 108, 101, 110, 103, 116, 104]
  const TRANSFER_ENCODING: seq<byte> :=
    [116, 114, 97, 110, 115, 102, 101, 114, 45, 101, 110, 99, 111, 100, 105, 110, 103]
  const UPGRADE: seq<byte> := [117, 112, 103, 114, 97, 100, 101]
  const CHUNKED: seq<byte> := [99, 104, 117, 110, 107, 101, 100]
  const KEEP_ALIVE: seq<byte> := [107, 101, 101, 112, 45, 97, 108, 105, 118, 101]
  const CLOSE: seq<byte> := [99, 108, 111, 115, 101]

  function MethodName(m: Method): (name: seq<byte>)
    ensures 3 <= |name| <= 11
  {
    match m
    case DELETE => [68, 69, 76, 69, 84, 69]
    case GET => [71, 69, 84]
    case HEAD => [72, 69, 65, 68]
    case POST => [80, 79, 83, 84]
    case PUT => [80, 85, 84]
    case CONNECT => [67, 79, 78, 78, 69, 67, 84]
    case OPTIONS => [79, 80, 84, 73, 79, 78, 83]
    case TRACE => [84, 82, 65, 67, 69]
    case COPY => [67, 79, 80, 89]
    case LOCK => [76, 79, 67, 75]
    case MKCOL => [77, 75, 67, 79, 76]
    case MOVE => [77, 79, 86, 69]
    case PROPFIND => [80, 82, 79, 80, 70, 73, 78, 68]
    case PROPPATCH => [80, 82, 79, 80, 80, 65, 84, 67, 72]
    case SEARCH => [83, 69, 65, 82, 67, 72]
    case UNLOCK => [85, 78, 76, 79, 67, 75]
    case BIND => [66, 73, 78, 68]
    case REBIND => [82, 69, 66, 73, 78, 68]
    case UNBIND => [85, 78, 66, 73, 78, 68]
    case ACL => [65, 67, 76]
    case REPORT => [82, 69, 80, 79, 82, 84]
    case MKACTIVITY => [77, 75, 65, 67, 84, 73, 86, 73, 84, 89]
    case CHECKOUT => [67, 72, 69, 67, 75, 79, 85, 84]
    case MERGE => [77, 69, 82, 71, 69]
    case MSEARCH => [77, 45, 83, 69, 65, 82, 67, 72]
    case NOTIFY => [78, 79, 84, 73, 70, 89]
    case SUBSCRIBE => [83, 85, 66, 83, 67, 82, 73, 66, 69]
    case UNSUBSCRIBE => [85, 78, 83, 85, 66, 83, 67, 82, 73, 66, 69]
    case PATCH => [80, 65, 84, 67, 72]
    case PURGE => [80, 85, 82, 71, 69]
    case MKCALENDAR => [77, 75, 67, 65, 76, 69, 78, 68, 65, 82]
    case LINK => [76, 73, 78, 75]
    case UNLINK => [85, 78, 76, 73, 78, 75]
    case SOURCE => [83, 79, 85, 82, 67, 69]
  }
}
