/**
  * The switch of `http_parser_execute`, one function per group of arms: what a single byte does to the record and
  * which callbacks it makes.  An arm that re-executes the byte in another state calls that state's arm directly.
  */
module HttpArms {
  import opened Bytes
  import opened HttpTypes

  // ---- groups of states ----

  predicate Starting(s: State) { s.Dead? || s.StartReqOrRes? || s.StartRes? || s.StartReq? }

  predicate InField(s: State) { s.HeaderField? || s.Discard? }

  predicate InValue(s: State) { s.HeaderValue? || s.HeaderAlmostDone? || s.HeaderValueLws? }

  predicate InHeaders(s: State) { s.HeaderFieldStart? || s.HeadersAlmostDone? || InField(s) || InValue(s) }

  predicate InChunkLine(s: State) { s.ChunkSizeStart? || s.ChunkSize? || s.ChunkParameters? || s.ChunkSizeAlmostDone? }

  predicate InChunk(s: State) { InChunkLine(s) || s.ChunkData? || s.ChunkDataAlmostDone? || s.ChunkDataDone? }

  predicate InBody(s: State) { InChunk(s) || s.BodyIdentity? || s.BodyIdentityEof? }

  /** The head of a message: its first line and its headers, and likewise the trailers of a chunked body. */
  predicate InHead(s: State) { !Starting(s) && !InBody(s) }

  // ---- what holds between two bytes ----

  predicate FieldHs(hs: HeaderState) {
    hs.HGeneral? || hs.HC? || hs.HCO? || hs.HCON? || hs.HMatchingConnection? || hs.HMatchingProxyConnection?
    || hs.HMatchingContentLength? || hs.HMatchingTransferEncoding? || hs.HMatchingUpgrade? || hs.HConnection?
    || hs.HContentLength? || hs.HTransferEncoding? || hs.HUpgrade?
  }

  predicate ValueHs(hs: HeaderState) {
    hs.HGeneral? || hs.HContentLengthNum? || hs.HContentLengthWs? || hs.HMatchingTransferEncodingChunked?
    || hs.HMatchingConnectionTokenStart? || hs.HMatchingConnectionKeepAlive? || hs.HMatchingConnectionClose?
    || hs.HMatchingConnectionUpgrade? || hs.HMatchingConnectionToken? || hs.HTransferEncodingChunked?
    || hs.HConnectionKeepAlive? || hs.HConnectionClose? || hs.HConnectionUpgrade?
  }

  /** The header matcher is in the layer the state asks for. */
  predicate LayerOk(s: State, hs: HeaderState, hasLength: bool) {
    && (InField(s) ==> FieldHs(hs))
    && (InValue(s) ==> ValueHs(hs) && ((hs.HContentLengthNum? || hs.HContentLengthWs?) ==> hasLength))
  }

  /** The largest index reached while a header state compares a name, letter by letter. */
  function IndexLimit(hs: HeaderState): nat {
    if hs.HC? || hs.HMatchingConnectionTokenStart? then 0
    else if hs.HCO? then 1
    else if hs.HCON? then 2
    else if hs.HMatchingConnectionClose? then 3
    else if hs.HMatchingUpgrade? || hs.HMatchingTransferEncodingChunked? || hs.HMatchingConnectionUpgrade? then 5
    else if hs.HMatchingConnection? || hs.HMatchingConnectionKeepAlive? then 8
    else if hs.HMatchingContentLength? then 12
    else if hs.HMatchingProxyConnection? then 14
    else if hs.HMatchingTransferEncoding? then 15
    else 17
  }

  /** The 7-bit index never wraps. */
  predicate IndexOk(s: State, hs: HeaderState, index: nat) {
    && index <= 17
    && (s.HeaderField? || s.HeaderValue? ==> index <= IndexLimit(hs))
    && (s.ReqMethod? ==> index <= 11)
  }

  predicate HeadLength(flags: Flags, cl: nat) {
    if flags.trailing then flags.chunked && cl < NO_LENGTH
    else (flags.contentLength <==> cl < NO_LENGTH) && !flags.skipBody
  }

  /** `content_length` holds a length exactly where the state relies on one. */
  predicate LengthOk(s: State, flags: Flags, cl: nat) {
    && cl < TWO_64
    && (InHead(s) ==> HeadLength(flags, cl))
    && (InChunk(s) ==> flags.chunked && !flags.contentLength && !flags.skipBody && !flags.trailing)
    && (InChunk(s) && !s.ChunkSizeStart? ==> cl < NO_LENGTH)
    && (s.ChunkData? ==> cl > 0)
    && (s.ChunkDataAlmostDone? ==> cl == 0)
    && (s.BodyIdentity? ==> 0 < cl < NO_LENGTH && flags.contentLength)
  }

  predicate TypeOk(s: State, ptype: ParserType) {
    && (ptype.Both? <==> s.StartReqOrRes? || s.ResOrRespH?)
    && (s.StartReq? ==> ptype.Request?)
    && (s.BodyIdentityEof? ==> ptype.Response?)
  }

  /**
    * The invariant of the whole machine between two bytes (the byte counter is in `Budget`).  Its clauses are what
    * the assertions of the parser need.
    */
  predicate Inv(f: Fields) {
    && f.errno.OK?
    && LayerOk(f.state, f.hs, f.v.flags.contentLength)
    && IndexOk(f.state, f.hs, f.index)
    && LengthOk(f.state, f.v.flags, f.v.contentLength)
    && TypeOk(f.state, f.v.ptype)
    && (f.state.BodyIdentityEof? ==> NeedsEof(f.v))
  }

  /** The header byte counter is within the limit, and zero where a chunk-size line starts. */
  predicate Budget(cfg: Config, f: Fields) {
    f.nread <= cfg.maxHeader && (f.state.ChunkSizeStart? ==> f.nread == 0)
  }

  /** The callbacks an arm makes fit the mark that is live before it and leave live the mark its state asks for. */
  predicate Fits(s: State, e: Effect, t: State) {
    && (e.empty.Some? ==> LiveOf(s).None? && (e.empty.value.KValue? || e.empty.value.KStatus?))
    && (e.body <==> s.ChunkData? || s.BodyIdentity? || s.BodyIdentityEof?)
    && (e.body ==> e.close.None? && e.empty.None? && e.open.None?)
    && (e.close.Some? ==> e.notes.Silent? && e.empty.None?)
    && e.open != Some(KBody)
    && (if e.close.Some? then
          && (e.close == LiveOf(s) || (e.close == Some(KBody) && s.ChunkDataAlmostDone? && e.open.None?))
          && LiveOf(t) == e.open
        else if LiveOf(s).Some? then e == NONE && LiveOf(t) == LiveOf(s)
        else LiveOf(t) == e.open && !s.ChunkDataAlmostDone?)
    && (t.ChunkDataAlmostDone? ==> e.body && e.notes.Silent?)
  }

  /** The record `v` a notification reads, and where the parser goes with it. */
  predicate NoteOk(s: State, note: Note, v: View, g: Fields) {
    match note
    case MessageBegin => Starting(s) && !s.Dead?
    case HeadersComplete => InBody(g.state) && v == g.v
    case MessageComplete => v == g.v && g.state == NewMessage(v)
    case ChunkHeader => s.ChunkSizeAlmostDone? && v == g.v
    case ChunkComplete => s.ChunkDataDone? && v == g.v
  }

  /** The last notification of an arm describes the new record; a body with a length is entered and left with one. */
  predicate NotesOk(f: Fields, a: Arm) {
    && (a.e.notes.Once? ==> NoteOk(f.state, a.e.notes.note, a.e.notes.view, a.f))
    && (a.e.notes.Twice? ==>
          && (a.e.notes.note.HeadersComplete? || a.e.notes.note.ChunkComplete?)
          && a.e.notes.note2.MessageComplete? && NoteOk(f.state, MessageComplete, a.e.notes.view2, a.f))
    && (f.state.BodyIdentity? ==>
          if f.v.contentLength > 1
          then a.e.notes.Silent? && a.f == f.(v := f.v.(contentLength := f.v.contentLength - 1))
          else a.e.notes.Once? && a.e.notes.note.MessageComplete?)
    && (a.f.state.BodyIdentity? && !f.state.BodyIdentity? ==> a.e.notes.Once? && a.e.notes.note.HeadersComplete?)
    && (Starting(f.state) && a.e.notes.Silent? ==> a.f.state == f.state)
  }

  /** What every arm keeps, unless it fails. */
  predicate Good(f: Fields, a: Arm) {
    a.f.errno.OK? ==>
      && Inv(a.f) && Fits(f.state, a.e, a.f.state)
      && (a.f.nread == f.nread || a.f.nread == 0)
      && (a.f.state.ChunkSizeStart? ==> a.f.nread == 0)
      && (a.halt ==> Starting(a.f.state) && a.f.v.upgrade)
      && (f.v.ptype.Both? || a.f.v.ptype == f.v.ptype)
      && NotesOk(f, a)
  }

  // ---- building blocks ----

  function Fail(f: Fields, err: Errno): Arm { Arm(f.(errno := err), NONE, false) }

  function Go(f: Fields, s: State): Arm { Arm(f.(state := s), NONE, false) }

  /** `http_message_needs_eof` */
  predicate NeedsEof(v: View) {
    && !v.ptype.Request?
    && !(v.statusCode / 100 == 1 || v.statusCode == 204 || v.statusCode == 304 || v.flags.skipBody)
    && !(v.flags.chunked || v.contentLength != NO_LENGTH)
  }

  /** `http_should_keep_alive` */
  predicate ShouldKeepAlive(v: View) {
    && (if v.major > 0 && v.minor > 0 then !v.flags.close else v.flags.keepAlive)
    && !NeedsEof(v)
  }

  /** `NEW_MESSAGE()` in strict mode */
  function NewMessage(v: View): State {
    if !ShouldKeepAlive(v) then Dead
    else if v.ptype.Request? then StartReq else StartRes
  }

  /** A byte that completes the message: the record moves to `NEW_MESSAGE()` and `on_message_complete` runs. */
  function Complete(f: Fields): Arm {
    Arm(f.(state := NewMessage(f.v)), NONE.(notes := Once(MessageComplete, f.v)), false)
  }

  /** A notification that comes before those of the arm the byte is re-executed in (at most one). */
  function Before(note: Note, v: View, rest: Notes): Notes {
    match rest
    case Silent => Once(note, v)
    case Once(b, w) => Twice(note, v, b, w)
    case Twice(_, _, b, w) => Twice(note, v, b, w)
  }

  // ---- start of a message ----

  /** The method first guessed from a request's first letter. */
  function FirstGuess(ch: byte): Option<Method> {
    if ch == 65 then Some(ACL) else if ch == 66 then Some(BIND) else if ch == 67 then Some(CONNECT)
    else if ch == 68 then Some(DELETE) else if ch == 71 then Some(GET) else if ch == 72 then Some(HEAD)
    else if ch == 76 then Some(LOCK) else if ch == 77 then Some(MKCOL) else if ch == 78 then Some(NOTIFY)
    else if ch == 79 then Some(OPTIONS) else if ch == 80 then Some(POST) else if ch == 82 then Some(REPORT)
    else if ch == 83 then Some(SUBSCRIBE) else if ch == 84 then Some(TRACE) else if ch == 85 then Some(UNLOCK)
    else None
  }

  /** The switch on method, position and letter taken when a letter does not fit the current guess. */
  function Regress(m: Method, pos: nat, ch: byte): (r: Option<Method>)
    ensures r.Some? ==> pos <= 4
  {
    if m.POST? then
      if pos == 1 && ch == 85 then Some(PUT) else if pos == 1 && ch == 65 then Some(PATCH)
      else if pos == 1 && ch == 82 then Some(PROPFIND) else None
    else if m.PUT? then if pos == 2 && ch == 82 then Some(PURGE) else None
    else if m.CONNECT? then
      if pos == 1 && ch == 72 then Some(CHECKOUT) else if pos == 2 && ch == 80 then Some(COPY) else None
    else if m.MKCOL? then
      if pos == 1 && ch == 79 then Some(MOVE) else if pos == 1 && ch == 69 then Some(MERGE)
      else if pos == 1 && ch == 45 then Some(MSEARCH) else if pos == 2 && ch == 65 then Some(MKACTIVITY)
      else if pos == 3 && ch == 65 then Some(MKCALENDAR) else None
    else if m.SUBSCRIBE? then
      if pos == 1 && ch == 69 then Some(SEARCH) else if pos == 1 && ch == 79 then Some(SOURCE) else None
    else if m.REPORT? then if pos == 2 && ch == 66 then Some(REBIND) else None
    else if m.PROPFIND? then if pos == 4 && ch == 80 then Some(PROPPATCH) else None
    else if m.LOCK? then if pos == 1 && ch == 73 then Some(LINK) else None
    else if m.UNLOCK? then
      if pos == 2 && ch == 83 then Some(UNSUBSCRIBE) else if pos == 2 && ch == 66 then Some(UNBIND)
      else if pos == 3 && ch == 73 then Some(UNLINK) else None
    else None
  }

  /** `matcher[i]`: a C string ends with a zero byte. */
  function At(s: seq<byte>, i: nat): byte { if i < |s| then s[i] else 0 }

  function OnStartReq(f: Fields, ch: byte): (a: Arm)
    requires Inv(f) && (f.state.StartReq? || f.state.StartReqOrRes?)
    ensures Good(f, a)
  {
    var ptype := if f.state.StartReq? then f.v.ptype else Request;
    if ch == CR || ch == LF then Arm(f, NONE, false)
    else if !IsAlpha(ch) || FirstGuess(ch).None? then Fail(f, InvalidMethod)
    else
      var v := f.v.(flags := NO_FLAGS, contentLength := NO_LENGTH, ptype := ptype, meth := FirstGuess(ch).value);
      Arm(f.(v := v, index := 1, state := ReqMethod), NONE.(notes := Once(MessageBegin, v)), false)
  }

  /** A message that begins with `H`, where a response may begin. */
  function OnStartRes(f: Fields, ch: byte): (a: Arm)
    requires Inv(f) && (f.state.StartRes? || f.state.StartReqOrRes?)
    ensures Good(f, a)
  {
    if ch == CR || ch == LF then Arm(f, NONE, false)
    else if ch == 72 /* H */ then
      var v := f.v.(flags := NO_FLAGS, contentLength := NO_LENGTH);
      Arm(f.(v := v, state := if f.state.StartRes? then ResVersion(ResH) else ResOrRespH),
          NONE.(notes := Once(MessageBegin, v)), false)
    else if f.state.StartRes? then Fail(f, InvalidConstant)
    else OnStartReq(f, ch)
  }

  /** After an `H` that may begin `HTTP` or `HEAD`. */
  function OnResOrRespH(f: Fields, ch: byte): (a: Arm)
    requires Inv(f) && f.state.ResOrRespH?
    ensures Good(f, a)
  {
    if ch == 84 /* T */ then Go(f.(v := f.v.(ptype := Response)), ResVersion(ResHT))
    else if ch != 69 /* E */ then Fail(f, InvalidConstant)
    else Go(f.(v := f.v.(ptype := Request, meth := HEAD), index := 2), ReqMethod)
  }

  function OnDead(f: Fields, ch: byte): (a: Arm)
    requires Inv(f) && f.state.Dead?
    ensures Good(f, a)
    ensures a.f.state.Dead? && a.e == NONE
  {
    if ch == CR || ch == LF then Arm(f, NONE, false) else Fail(f, ClosedConnection)
  }

  // ---- status line ----

  /** The next state inside `HTTP/x.y ` of a status line; `Dead` stands for an error. */
  function ResVersionNext(s: ResVersionState, ch: byte): (t: State)
    ensures t.Dead? || t.ResVersion? || t.HeaderFieldStart? || (t.ResStatusCode? && IsNum(ch))
    ensures !t.Dead? && (s.ResHttpMajor? || s.ResHttpMinor?) ==> IsNum(ch)
  {
    match s
    case ResH => if ch != 84 then Dead else ResVersion(ResHT)
    case ResHT => if ch != 84 then Dead else ResVersion(ResHTT)
    case ResHTT => if ch != 80 /* P */ then Dead else ResVersion(ResHTTP)
    case ResHTTP => if ch != 47 /* / */ then Dead else ResVersion(ResHttpMajor)
    case ResHttpMajor => if !IsNum(ch) then Dead else ResVersion(ResHttpDot)
    case ResHttpDot => if ch != 46 /* . */ then Dead else ResVersion(ResHttpMinor)
    case ResHttpMinor => if !IsNum(ch) then Dead else ResVersion(ResHttpEnd)
    case ResHttpEnd => if ch != SP then Dead else ResVersion(ResFirstStatusCode)
    case ResFirstStatusCode => if IsNum(ch) then ResStatusCode else if ch == SP then ResVersion(s) else Dead
    case ResLineAlmostDone => if ch != LF then Dead else HeaderFieldStart
  }

  function OnResVersion(f: Fields, ch: byte): (a: Arm)
    requires f.state.ResVersion? && Inv(f)
    ensures Good(f, a)
  {
    hide ResVersionNext;
    var s := f.state.rv;
    var t := ResVersionNext(s, ch);
    if t.Dead? then
      Fail(f, if s.ResFirstStatusCode? then InvalidStatus
              else if s.ResHttpMajor? || s.ResHttpDot? || s.ResHttpMinor? || s.ResHttpEnd? then InvalidVersion
              else Strict)
    else
      Go(f.(v := f.v.(major := if s.ResHttpMajor? then ch - 48 else f.v.major,
                      minor := if s.ResHttpMinor? then ch - 48 else f.v.minor,
                      statusCode := if t.ResStatusCode? then ch - 48 else f.v.statusCode)), t)
  }

  /** The byte after the status code; the mark is set on the byte that starts the reason phrase. */
  function OnStatusStart(f: Fields, ch: byte): (a: Arm)
    requires (f.state.ResStatusStart? || f.state.ResStatusCode?) && Inv(f)
    ensures Good(f, a)
  {
    if ch == CR || ch == LF then
      Arm(f.(state := if ch == CR then ResVersion(ResLineAlmostDone) else HeaderFieldStart, index := 0),
          NONE.(empty := Some(KStatus)), false)
    else Arm(f.(state := ResStatus, index := 0), NONE.(open := Some(KStatus)), false)
  }

  function OnStatusCode(f: Fields, ch: byte): (a: Arm)
    requires f.state.ResStatusCode? && Inv(f)
    ensures Good(f, a)
  {
    if IsNum(ch) then
      var code := f.v.statusCode * 10 + (ch - 48);
      if code > 999 then Fail(f, InvalidStatus) else Arm(f.(v := f.v.(statusCode := code)), NONE, false)
    else if ch == SP then Go(f, ResStatusStart)
    else if ch == CR || ch == LF then OnStatusStart(f, ch)
    else Fail(f, InvalidStatus)
  }

  function OnStatus(f: Fields, ch: byte): (a: Arm)
    requires f.state.ResStatus? && Inv(f)
    ensures Good(f, a)
  {
    if ch == CR || ch == LF then
      Arm(f.(state := if ch == CR then ResVersion(ResLineAlmostDone) else HeaderFieldStart),
          NONE.(close := Some(KStatus)), false)
    else Arm(f, NONE, false)
  }

  // ---- request line ----

  function OnMethod(f: Fields, ch: byte): (a: Arm)
    requires f.state.ReqMethod? && Inv(f)
    ensures Good(f, a)
  {
    hide Regress;
    var want := At(MethodName(f.v.meth), f.index);
    var other := Regress(f.v.meth, f.index, ch);
    if ch == 0 then Fail(f, InvalidMethod)
    else if ch == SP && want == 0 then Go(f.(index := f.index + 1), ReqSpacesBeforeUrl)
    else if ch == want then Arm(f.(index := f.index + 1), NONE, false)
    else if (65 <= ch <= 90 || ch == 45) && other.Some? then
      Arm(f.(v := f.v.(meth := other.value), index := f.index + 1), NONE, false)
    else Fail(f, InvalidMethod)
  }

  /** `parse_url_char` on the first byte of a URL that does not belong to CONNECT. */
  function UrlFirst(ch: byte): Option<UrlState> {
    if ch == 47 /* / */ || ch == 42 /* * */ then Some(ReqPath) else if IsAlpha(ch) then Some(ReqSchema) else None
  }

  /** `parse_url_char`; `None` is its error value. */
  function UrlNext(s: UrlState, ch: byte): Option<UrlState> {
    if ch == SP || ch == CR || ch == LF || ch == HT || ch == 12 then None
    else if s.ReqSchema? then
      if IsAlpha(ch) then Some(s) else if ch == 58 /* : */ then Some(ReqSchemaSlash) else None
    else if s.ReqSchemaSlash? then if ch == 47 then Some(ReqSchemaSlashSlash) else None
    else if s.ReqSchemaSlashSlash? then if ch == 47 then Some(ReqServerStart) else None
    else if s.ReqServerWithAt? || s.ReqServerStart? || s.ReqServer? then
      if s.ReqServerWithAt? && ch == 64 /* @ */ then None
      else if ch == 47 then Some(ReqPath)
      else if ch == 63 /* ? */ then Some(ReqQueryStringStart)
      else if ch == 64 then Some(ReqServerWithAt)
      else if IsUserinfoChar(ch) || ch == 91 /* [ */ || ch == 93 /* ] */ then Some(ReqServer) else None
    else if s.ReqPath? then
      if IsUrlChar(ch) then Some(s) else if ch == 63 then Some(ReqQueryStringStart)
      else if ch == 35 /* # */ then Some(ReqFragmentStart) else None
    else if s.ReqQueryStringStart? || s.ReqQueryString? then
      if IsUrlChar(ch) || ch == 63 then Some(ReqQueryString) else if ch == 35 then Some(ReqFragmentStart) else None
    else if s.ReqFragmentStart? then
      if IsUrlChar(ch) || ch == 63 then Some(ReqFragment) else if ch == 35 then Some(s) else None
    else if IsUrlChar(ch) || ch == 63 || ch == 35 then Some(s) else None
  }

  function OnSpacesBeforeUrl(f: Fields, ch: byte): (a: Arm)
    requires f.state.ReqSpacesBeforeUrl? && Inv(f)
    ensures Good(f, a)
  {
    hide UrlNext, UrlFirst;
    if ch == SP then Arm(f, NONE, false)
    else
      var t := if f.v.meth.CONNECT? then UrlNext(ReqServerStart, ch) else UrlFirst(ch);
      if t.None? then Fail(f, InvalidUrl) else Arm(f.(state := Url(t.value)), NONE.(open := Some(KUrl)), false)
  }

  /** The URL states in which white space is an error. */
  predicate UrlMustGoOn(s: UrlState) {
    s.ReqSchema? || s.ReqSchemaSlash? || s.ReqSchemaSlashSlash? || s.ReqServerStart?
  }

  function OnUrl(f: Fields, ch: byte): (a: Arm)
    requires f.state.Url? && Inv(f)
    ensures Good(f, a)
  {
    hide UrlNext;
    if !UrlMustGoOn(f.state.u) && ch == SP then
      Arm(f.(state := ReqVersion(ReqHttpStart)), NONE.(close := Some(KUrl)), false)
    else if !UrlMustGoOn(f.state.u) && (ch == CR || ch == LF) then
      Arm(f.(v := f.v.(major := 0, minor := 9),
             state := if ch == CR then ReqVersion(ReqLineAlmostDone) else HeaderFieldStart),
          NONE.(close := Some(KUrl)), false)
    else
      var t := UrlNext(f.state.u, ch);
      if t.None? then Fail(f, InvalidUrl) else Go(f, Url(t.value))
  }

  /** The next state inside `HTTP/x.y` of a request line; `Dead` stands for an error. */
  function ReqVersionNext(s: ReqVersionState, m: Method, ch: byte): (t: State)
    ensures t.Dead? || t.ReqVersion? || t.HeaderFieldStart?
    ensures !t.Dead? && (s.ReqHttpMajor? || s.ReqHttpMinor?) ==> IsNum(ch)
  {
    match s
    case ReqHttpStart =>
      if ch == SP then ReqVersion(s) else if ch == 72 then ReqVersion(ReqHttpH)
      else if ch == 73 /* I */ && m.SOURCE? then ReqVersion(ReqHttpI) else Dead
    case ReqHttpH => if ch != 84 then Dead else ReqVersion(ReqHttpHT)
    case ReqHttpHT => if ch != 84 then Dead else ReqVersion(ReqHttpHTT)
    case ReqHttpHTT => if ch != 80 then Dead else ReqVersion(ReqHttpHTTP)
    case ReqHttpI => if ch != 67 /* C */ then Dead else ReqVersion(ReqHttpIC)
    case ReqHttpIC => if ch != 69 then Dead else ReqVersion(ReqHttpHTTP)
    case ReqHttpHTTP => if ch != 47 then Dead else ReqVersion(ReqHttpMajor)
    case ReqHttpMajor => if !IsNum(ch) then Dead else ReqVersion(ReqHttpDot)
    case ReqHttpDot => if ch != 46 then Dead else ReqVersion(ReqHttpMinor)
    case ReqHttpMinor => if !IsNum(ch) then Dead else ReqVersion(ReqHttpEnd)
    case ReqHttpEnd =>
      if ch == CR then ReqVersion(ReqLineAlmostDone) else if ch == LF then HeaderFieldStart else Dead
    case ReqLineAlmostDone => if ch != LF then Dead else HeaderFieldStart
  }

  /** The digits of the version. */
  function WithVersion(v: View, s: ReqVersionState, ch: byte): (w: View)
    requires s.ReqHttpMajor? || s.ReqHttpMinor? ==> ch >= 48
    ensures w == v.(major := w.major, minor := w.minor)
  {
    v.(major := if s.ReqHttpMajor? then ch - 48 else v.major, minor := if s.ReqHttpMinor? then ch - 48 else v.minor)
  }

  function OnReqVersion(f: Fields, ch: byte): (a: Arm)
    requires f.state.ReqVersion? && Inv(f)
    ensures Good(f, a)
  {
    hide ReqVersionNext, WithVersion;
    var s := f.state.qv;
    var t := ReqVersionNext(s, f.v.meth, ch);
    if t.Dead? then
      Fail(f, if s.ReqHttpStart? then InvalidConstant
              else if s.ReqLineAlmostDone? then LfExpected
              else if s.ReqHttpMajor? || s.ReqHttpDot? || s.ReqHttpMinor? || s.ReqHttpEnd? then InvalidVersion
              else Strict)
    else
      Go(f.(v := WithVersion(f.v, s, ch)), t)
  }

  // ---- end of the headers ----

  /** The notifications at the end of the headers or trailers. */
  predicate EndNotes(a: Arm) {
    (a.e.notes.Once? && a.e.notes.note.HeadersComplete? && a.e.notes.view == a.f.v && InBody(a.f.state))
    || (a.e.notes.Twice? && (a.e.notes.note.HeadersComplete? || a.e.notes.note.ChunkComplete?)
        && a.e.notes.note2.MessageComplete? && a.e.notes.view2 == a.f.v && a.f.state == NewMessage(a.f.v))
  }

  /** `s_message_done` */
  function OnMessageDone(f: Fields): (a: Arm)
    requires f.errno.OK? && !f.v.ptype.Both? && f.v.contentLength < TWO_64 && f.index <= 17
    ensures Inv(a.f) && Starting(a.f.state) && a.f.nread == f.nread && a.f.state == NewMessage(a.f.v) && a.f.v == f.v
    ensures a.e == NONE.(notes := Once(MessageComplete, a.f.v)) && (a.halt ==> a.f.v.upgrade)
  {
    Complete(f).(halt := f.v.upgrade)
  }

  /** `s_headers_done` */
  function OnHeadersDone(f: Fields): (a: Arm)
    requires f.errno.OK? && !f.v.ptype.Both? && f.index <= 17 && !f.v.flags.trailing
    requires f.v.contentLength < TWO_64 && (f.v.flags.contentLength <==> f.v.contentLength < NO_LENGTH)
    requires !(f.v.flags.chunked && f.v.flags.contentLength)
    ensures Inv(a.f) && (Starting(a.f.state) || InBody(a.f.state)) && !a.f.state.ChunkDataAlmostDone?
    ensures a.halt ==> Starting(a.f.state) && a.f.v.upgrade
    ensures a.e.notes.Silent? ==> InBody(a.f.state) && a.f.v == f.v && !f.v.flags.skipBody
    ensures !a.e.notes.Silent? ==> a.e.notes == Once(MessageComplete, a.f.v) && a.f.state == NewMessage(a.f.v)
    ensures a.e == NONE.(notes := a.e.notes) && a.f.nread == 0 && a.f.v.ptype == f.v.ptype
  {
    var g := f.(nread := 0);
    var v := f.v;
    var hasBody := v.flags.chunked || (v.contentLength > 0 && v.contentLength != NO_LENGTH);
    if v.upgrade && (v.meth.CONNECT? || v.flags.skipBody || !hasBody) then Complete(g).(halt := true)
    else if v.flags.skipBody then Complete(g)
    else if v.flags.chunked then Go(g, ChunkSizeStart)
    else if v.contentLength == 0 then Complete(g)
    else if v.contentLength != NO_LENGTH then Go(g, BodyIdentity)
    else if !NeedsEof(v) then Complete(g)
    else Go(g, BodyIdentityEof)
  }

  /** The message as `on_headers_complete` reads it. */
  function WithUpgrade(v: View): View {
    v.(upgrade := if v.flags.upgrade && v.flags.connUpgrade
                  then v.ptype.Request? || v.statusCode == 101 else v.meth.CONNECT?)
  }

  /** What its answer does to the record. */
  function Answered(v: View, answer: Verdict): View {
    match answer
    case Proceed => v
    case NoBody => v.(flags := v.flags.(skipBody := true))
    case NoBodyAndUpgrade => v.(upgrade := true, flags := v.flags.(skipBody := true))
  }

  /** `s_headers_almost_done`: the end of the trailers, or the end of the headers with `on_headers_complete`. */
  function OnHeadersAlmostDone(cfg: Config, f: Fields, ch: byte): (a: Arm)
    requires (f.state.HeadersAlmostDone? || f.state.HeaderFieldStart?) && Inv(f)
    ensures a.f.errno.OK? ==> Inv(a.f) && (Starting(a.f.state) || InBody(a.f.state)) && !a.f.state.ChunkDataAlmostDone?
    ensures a.f.errno.OK? ==> a.e == NONE.(notes := a.e.notes)
    ensures a.f.errno.OK? ==> (a.f.nread == f.nread || a.f.nread == 0) && a.f.v.ptype == f.v.ptype
    ensures a.f.errno.OK? && a.f.state.ChunkSizeStart? ==> a.f.nread == 0
    ensures a.f.errno.OK? && a.halt ==> Starting(a.f.state) && a.f.v.upgrade
    ensures a.f.errno.OK? ==> EndNotes(a)
  {
    hide OnHeadersDone, OnMessageDone;
    if ch != LF then Fail(f, Strict)
    else if f.v.flags.trailing then
      var d := OnMessageDone(f);
      d.(e := NONE.(notes := Before(ChunkComplete, f.v, d.e.notes)))
    else if f.v.flags.chunked && f.v.flags.contentLength then Fail(f, UnexpectedContentLength)
    else
      var v := WithUpgrade(f.v);
      var d := OnHeadersDone(f.(v := Answered(v, cfg.onHeadersComplete(v))));
      d.(e := NONE.(notes := Before(HeadersComplete, v, d.e.notes)))
  }

  // ---- header fields ----

  /** The header state a field name's first letter selects. */
  function FirstHs(c: byte): (hs: HeaderState)
    ensures FieldHs(hs)
  {
    if c == 99 /* c */ then HC
    else if c == 112 /* p */ then HMatchingProxyConnection
    else if c == 116 /* t */ then HMatchingTransferEncoding
    else if c == 117 /* u */ then HMatchingUpgrade
    else HGeneral
  }

  function OnFieldStart(cfg: Config, f: Fields, ch: byte): (a: Arm)
    requires f.state.HeaderFieldStart? && Inv(f)
    ensures a.f.errno.OK? ==> Inv(a.f) && a.e == NONE.(notes := a.e.notes, open := a.e.open)
    ensures a.f.errno.OK?
        ==> LiveOf(a.f.state) == a.e.open && a.e.open != Some(KBody) && !a.f.state.ChunkDataAlmostDone?
    ensures a.f.errno.OK? ==> (a.f.nread == f.nread || a.f.nread == 0) && a.f.v.ptype == f.v.ptype
    ensures a.f.errno.OK? && a.f.state.ChunkSizeStart? ==> a.f.nread == 0
    ensures a.f.errno.OK? && a.halt ==> Starting(a.f.state) && a.f.v.upgrade
    ensures a.f.errno.OK? ==> if a.e.notes.Silent? then InHead(a.f.state) else EndNotes(a)
  {
    hide OnHeadersAlmostDone, FirstHs;
    if ch == CR then Go(f, HeadersAlmostDone)
    else if ch == LF then OnHeadersAlmostDone(cfg, f, ch)
    else if Token(ch) == 0 then Fail(f, InvalidHeaderToken)
    else Arm(f.(index := 0, hs := FirstHs(Token(ch)), state := HeaderField), NONE.(open := Some(KField)), false)
  }

  /** One more letter of a name of length `len`: `want` is the letter the name has there. */
  function Match(hs: HeaderState, i: nat, c: byte, want: byte, len: nat, miss: HeaderState, hit: HeaderState)
    : HeaderState
  {
    if i > len || c != want then miss else if i == len - 1 then hit else hs
  }

  /** The header-state switch inside `s_header_field`, for a token byte; `i` is the index already advanced. */
  function FieldNext(hs: HeaderState, i: nat, c: byte): (t: HeaderState)
    requires FieldHs(hs)
    ensures FieldHs(t)
    ensures i <= IndexLimit(hs) + 1 <= 17 ==> i <= IndexLimit(t)
  {
    if hs.HC? then if c == 111 /* o */ then HCO else HGeneral
    else if hs.HCO? then if c == 110 /* n */ then HCON else HGeneral
    else if hs.HCON? then
      if c == 110 then HMatchingConnection else if c == 116 then HMatchingContentLength else HGeneral
    else if hs.HMatchingConnection? then Match(hs, i, c, At(CONNECTION, i), 10, HGeneral, HConnection)
    else if hs.HMatchingProxyConnection? then Match(hs, i, c, At(PROXY_CONNECTION, i), 16, HGeneral, HConnection)
    else if hs.HMatchingContentLength? then Match(hs, i, c, At(CONTENT_LENGTH, i), 14, HGeneral, HContentLength)
    else if hs.HMatchingTransferEncoding? then
      Match(hs, i, c, At(TRANSFER_ENCODING, i), 17, HGeneral, HTransferEncoding)
    else if hs.HMatchingUpgrade? then Match(hs, i, c, At(UPGRADE, i), 7, HGeneral, HUpgrade)
    else HGeneral
  }

  /** A finished name that another byte follows, or one that never matched: the index is not used any more. */
  predicate Settled(hs: HeaderState) {
    hs.HGeneral? || hs.HConnection? || hs.HContentLength? || hs.HTransferEncoding? || hs.HUpgrade?
  }

  function MatchField(f: Fields, ch: byte): (g: Fields)
    requires FieldHs(f.hs)
    ensures g == f.(hs := g.hs, index := g.index) && FieldHs(g.hs)
    ensures IndexOk(HeaderField, f.hs, f.index) ==> IndexOk(HeaderField, g.hs, g.index)
  {
    hide FieldNext;
    if f.hs.HGeneral? then f
    else if Settled(f.hs) then if ch != SP then f.(hs := HGeneral) else f
    else f.(index := f.index + 1, hs := FieldNext(f.hs, f.index + 1, Token(ch)))
  }

  function OnField(f: Fields, ch: byte): (a: Arm)
    requires f.state.HeaderField? && Inv(f)
    ensures Good(f, a)
  {
    hide MatchField, Token, FieldHs, IndexLimit;
    if Token(ch) != 0 then Arm(MatchField(f, ch), NONE, false)
    else if ch == 58 then Arm(f.(state := Discard(DiscardWs)), NONE.(close := Some(KField)), false)
    else Fail(f, InvalidHeaderToken)
  }

  // ---- header values ----

  /** The token of a Connection header that a first letter may begin. */
  function ConnectionToken(c: byte, other: HeaderState): HeaderState {
    if c == 107 /* k */ then HMatchingConnectionKeepAlive
    else if c == 99 then HMatchingConnectionClose
    else if c == 117 then HMatchingConnectionUpgrade
    else other
  }

  /** The header state a value's first byte selects (Content-Length is in `OnValueStart`). */
  function ValueStartHs(hs: HeaderState, c: byte): (t: HeaderState)
    ensures ValueHs(t) && !t.HContentLengthNum? && (t.HContentLengthWs? ==> hs == t)
  {
    if hs.HTransferEncoding? then if c == 99 then HMatchingTransferEncodingChunked else HGeneral
    else if hs.HConnection? then ConnectionToken(c, HMatchingConnectionToken)
    else if hs.HContentLengthWs? || hs.HMatchingConnectionTokenStart? then hs
    else HGeneral
  }

  function OnValueStart(f: Fields, hs: HeaderState, ch: byte): (a: Arm)
    requires f.state.Discard? || f.state.HeaderValueLws?
    requires Inv(f) && (hs.HContentLengthWs? ==> f.v.flags.contentLength)
    ensures a.f.errno.OK? ==> Inv(a.f) && a.e == NONE.(open := Some(KValue)) && a.f.state.HeaderValue? && !a.halt
    ensures a.f.errno.OK? ==> a.f.nread == f.nread && a.f.v.ptype == f.v.ptype
  {
    hide ValueStartHs, Lower, FieldHs, IndexLimit;
    var g := f.(state := HeaderValue, index := 0);
    var flags := f.v.flags;
    if hs.HContentLength? then
      if !IsNum(ch) then Fail(g, InvalidContentLength)
      else if flags.contentLength then Fail(g, UnexpectedContentLength)
      else Arm(g.(v := f.v.(flags := flags.(contentLength := true), contentLength := ch - 48), hs := HContentLengthNum),
               NONE.(open := Some(KValue)), false)
    else
      Arm(g.(v := f.v.(flags := flags.(upgrade := flags.upgrade || hs.HUpgrade?)), hs := ValueStartHs(hs, Lower(ch))),
          NONE.(open := Some(KValue)), false)
  }

  /** The flag a finished header value sets. */
  function SetFlag(flags: Flags, hs: HeaderState): Flags {
    if hs.HConnectionKeepAlive? then flags.(keepAlive := true)
    else if hs.HConnectionClose? then flags.(close := true)
    else if hs.HConnectionUpgrade? then flags.(connUpgrade := true)
    else if hs.HTransferEncodingChunked? then flags.(chunked := true)
    else flags
  }

  /** One byte of a Content-Length value: 64-bit multiply and add, wrapping, then the source's overflow test. */
  function MatchLength(f: Fields, ch: byte): (g: Fields)
    requires f.v.contentLength < TWO_64
    ensures g == f.(v := f.v.(contentLength := g.v.contentLength), hs := g.hs, errno := g.errno)
    ensures g.hs == f.hs || g.hs.HContentLengthWs?
    ensures g.errno == f.errno || g.errno.InvalidContentLength?
    ensures g.v.contentLength == f.v.contentLength
            || g.v.contentLength == f.v.contentLength * 10 + (ch - 48) < NO_LENGTH
  {
    if ch == SP then f.(hs := HContentLengthWs)
    else if f.hs.HContentLengthWs? || !IsNum(ch) then f.(errno := InvalidContentLength)
    else
      var t := (f.v.contentLength * 10 + (ch - 48)) % TWO_64;
      if (NO_LENGTH - 10) / 10 < f.v.contentLength then f.(errno := InvalidContentLength)
      else f.(v := f.v.(contentLength := t))
  }

  /** The header states that compare a value with a name, and advance the index. */
  predicate Comparing(hs: HeaderState) {
    hs.HMatchingTransferEncodingChunked? || hs.HMatchingConnectionKeepAlive? || hs.HMatchingConnectionClose?
    || hs.HMatchingConnectionUpgrade?
  }

  predicate TokenDone(hs: HeaderState) { hs.HConnectionKeepAlive? || hs.HConnectionClose? || hs.HConnectionUpgrade? }

  /** The rest of the header-state switch inside `s_header_value`; `i` is the index already advanced. */
  function ValueNext(hs: HeaderState, i: nat, ch: byte): (t: HeaderState)
    requires ValueHs(hs)
    ensures ValueHs(t) && ((t.HContentLengthNum? || t.HContentLengthWs?) ==> t == hs)
    ensures i <= IndexLimit(hs) + 1 && Comparing(hs) ==> i <= IndexLimit(t)
    ensures hs.HGeneral? ==> t.HGeneral?
    ensures !Comparing(hs) && t != hs && !t.HMatchingConnectionTokenStart? ==>
              hs.HMatchingConnectionTokenStart? || IndexLimit(t) == 17
  {
    var c := Lower(ch);
    if hs.HMatchingTransferEncodingChunked? then Match(hs, i, c, At(CHUNKED, i), 7, HGeneral, HTransferEncodingChunked)
    else if hs.HMatchingConnectionKeepAlive? then
      Match(hs, i, c, At(KEEP_ALIVE, i), 10, HMatchingConnectionToken, HConnectionKeepAlive)
    else if hs.HMatchingConnectionClose? then
      Match(hs, i, c, At(CLOSE, i), 5, HMatchingConnectionToken, HConnectionClose)
    else if hs.HMatchingConnectionUpgrade? then
      Match(hs, i, c, At(UPGRADE, i), 7, HMatchingConnectionToken, HConnectionUpgrade)
    else if hs.HMatchingConnectionTokenStart? then
      ConnectionToken(c, if c != SP && Token(c) != 0 then HMatchingConnectionToken
                         else if c == SP || c == HT then HMatchingConnectionTokenStart
                         else HGeneral)
    else if hs.HTransferEncodingChunked? then if ch != SP then HGeneral else hs
    else if (TokenDone(hs) && ch != SP) || hs.HMatchingConnectionToken? then
      if ch == 44 /* , */ then HMatchingConnectionTokenStart else HMatchingConnectionToken
    else hs
  }

  /** The index after the byte: a comparison advances it, a comma resets it. */
  function ValueIndex(hs: HeaderState, index: nat, ch: byte): (i: nat)
    requires ValueHs(hs)
    ensures IndexOk(HeaderValue, hs, index) ==> IndexOk(HeaderValue, ValueNext(hs, index + 1, ch), i)
  {
    hide ValueNext, ValueHs;
    var t := ValueNext(hs, index + 1, ch);
    if Comparing(hs) then index + 1
    else if t.HMatchingConnectionTokenStart? && !hs.HMatchingConnectionTokenStart? then 0
    else index
  }

  /** A comma ends a token of the Connection header. */
  function TokenFlags(flags: Flags, hs: HeaderState, ch: byte): (r: Flags)
    ensures r == flags.(keepAlive := r.keepAlive, close := r.close, connUpgrade := r.connUpgrade)
  {
    if ch == 44 && TokenDone(hs) then SetFlag(flags, hs) else flags
  }

  /** One byte of a value that is not a length. */
  function MatchToken(f: Fields, ch: byte): (g: Fields)
    requires ValueHs(f.hs) && !f.hs.HContentLengthNum? && !f.hs.HContentLengthWs?
    ensures g == f.(hs := g.hs, index := g.index, v := f.v.(flags := g.v.flags))
    ensures g.v.flags
        == f.v.flags.(keepAlive := g.v.flags.keepAlive, close := g.v.flags.close, connUpgrade := g.v.flags.connUpgrade)
    ensures g.hs == ValueNext(f.hs, f.index + 1, ch) && g.index == ValueIndex(f.hs, f.index, ch)
  {
    hide ValueNext, ValueIndex, ValueHs, TokenFlags;
    f.(hs := ValueNext(f.hs, f.index + 1, ch),
       index := ValueIndex(f.hs, f.index, ch),
       v := f.v.(flags := TokenFlags(f.v.flags, f.hs, ch)))
  }

  /** The header-state switch inside `s_header_value`, for a byte that is part of the value. */
  function MatchValue(f: Fields, ch: byte): (g: Fields)
    requires ValueHs(f.hs) && f.v.contentLength < TWO_64
    ensures g.state == f.state && g.lenient == f.lenient && g.nread == f.nread
    ensures g.errno == f.errno || g.errno.InvalidContentLength?
    ensures ValueHs(g.hs) && g.v.contentLength < TWO_64 && g.v.ptype == f.v.ptype
  {
    hide ValueNext, ValueIndex, MatchLength, MatchToken;
    if f.hs.HContentLengthNum? || f.hs.HContentLengthWs? then MatchLength(f, ch) else MatchToken(f, ch)
  }

  lemma MatchValueGeneral(f: Fields, ch: byte)
    requires f.hs.HGeneral? && f.v.contentLength < TWO_64
    ensures MatchValue(f, ch) == f
  {
  }

  lemma MatchValueKeeps(f: Fields, ch: byte)
    requires f.state.HeaderValue? && Inv(f)
    ensures MatchValue(f, ch).errno.OK? ==> Inv(MatchValue(f, ch))
  {
    hide ValueNext, ValueIndex, MatchLength, MatchToken;
    if !(f.hs.HContentLengthNum? || f.hs.HContentLengthWs?) { MatchTokenKeeps(f, ch); }
  }

  lemma MatchTokenKeeps(f: Fields, ch: byte)
    requires f.state.HeaderValue? && Inv(f) && !f.hs.HContentLengthNum? && !f.hs.HContentLengthWs?
    ensures Inv(MatchToken(f, ch))
  {
    hide ValueNext, ValueIndex, MatchToken;
  }

  function OnValue(f: Fields, ch: byte): (a: Arm)
    requires f.state.HeaderValue? && Inv(f)
    ensures Good(f, a)
  {
    hide MatchValue;
    MatchValueKeeps(f, ch);
    if ch == CR || ch == LF then
      Arm(f.(state := if ch == CR then HeaderAlmostDone else HeaderValueLws), NONE.(close := Some(KValue)), false)
    else if !f.lenient && !IsHeaderChar(ch) then Fail(f, InvalidHeaderToken)
    else Arm(MatchValue(f, ch), NONE, false)
  }

  /** The record once a header is complete. */
  function HeaderDone(f: Fields): (g: Fields)
    requires Inv(f) && (InValue(f.state) || f.state.Discard?)
    ensures Inv(g) && g.state.HeaderFieldStart? && g.nread == f.nread && g.v.ptype == f.v.ptype
  {
    f.(v := f.v.(flags := SetFlag(f.v.flags, f.hs)), state := HeaderFieldStart)
  }

  /** The end of an empty value. */
  function OnDiscardEnd(cfg: Config, f: Fields, ch: byte): (a: Arm)
    requires f.state.Discard? && Inv(f)
    ensures Good(f, a)
  {
    hide Inv, OnFieldStart, HeaderDone;
    if f.hs.HContentLength? then Fail(f, InvalidContentLength)
    else
      var a := OnFieldStart(cfg, HeaderDone(f), ch);
      a.(e := a.e.(empty := Some(KValue)))
  }

  /** The white space between a header's colon and its value. */
  function OnDiscard(cfg: Config, f: Fields, ch: byte): (a: Arm)
    requires f.state.Discard? && Inv(f)
    ensures Good(f, a)
  {
    hide OnValueStart, OnDiscardEnd;
    if f.state.d.DiscardWs? && !(ch == SP || ch == HT || ch == CR || ch == LF) then OnValueStart(f, f.hs, ch)
    else if f.state.d.DiscardWsAlmostDone? && ch != LF then Fail(f, Strict)
    else if f.state.d.DiscardLws? && !(ch == SP || ch == HT) then
      OnDiscardEnd(cfg, f, ch)
    else
      Go(f, Discard(if ch == SP || ch == HT then DiscardWs else if ch == CR then DiscardWsAlmostDone else DiscardLws))
  }

  /** The first byte of the line after a value that is not folded. */
  function OnValueEnd(cfg: Config, f: Fields, ch: byte): (a: Arm)
    requires f.state.HeaderValueLws? && Inv(f)
    ensures Good(f, a)
  {
    hide Inv, OnFieldStart, HeaderDone;
    OnFieldStart(cfg, HeaderDone(f), ch)
  }

  /** The next line goes on with the value. */
  function OnFolded(f: Fields, ch: byte): (a: Arm)
    requires f.state.HeaderValueLws? && Inv(f)
    ensures Good(f, a)
  {
    hide OnValueStart;
    OnValueStart(f, if f.hs.HContentLengthNum? then HContentLengthWs else f.hs, ch)
  }

  function OnValueCr(f: Fields, ch: byte): (a: Arm)
    requires f.state.HeaderAlmostDone? && Inv(f)
    ensures Good(f, a)
  {
    hide FieldHs, ValueHs, IndexLimit;
    if ch != LF then Fail(f, LfExpected) else Go(f, HeaderValueLws)
  }

  /** The line end after a header value: a folded value goes on, any other byte starts the next header. */
  function OnAfterValue(cfg: Config, f: Fields, ch: byte): (a: Arm)
    requires (f.state.HeaderAlmostDone? || f.state.HeaderValueLws?) && Inv(f)
    ensures Good(f, a)
  {
    hide Inv, Good, OnValueCr, OnFolded, OnValueEnd;
    if f.state.HeaderAlmostDone? then OnValueCr(f, ch)
    else if ch == SP || ch == HT then OnFolded(f, ch)
    else OnValueEnd(cfg, f, ch)
  }

  function OnHeaders(cfg: Config, f: Fields, ch: byte): (a: Arm)
    requires InHeaders(f.state) && Inv(f)
    ensures Good(f, a)
  {
    hide Inv, OnFieldStart, OnField, OnValue, OnHeadersAlmostDone, OnDiscard, OnAfterValue;
    if f.state.HeaderFieldStart? then OnFieldStart(cfg, f, ch)
    else if f.state.HeaderField? then OnField(f, ch)
    else if f.state.HeaderValue? then OnValue(f, ch)
    else if f.state.HeadersAlmostDone? then OnHeadersAlmostDone(cfg, f, ch)
    else if f.state.Discard? then OnDiscard(cfg, f, ch)
    else OnAfterValue(cfg, f, ch)
  }

  // ---- bodies ----

  /** One digit of a chunk size, with the source's wrapping arithmetic and overflow test. */
  function OnChunkDigit(f: Fields, ch: byte): (a: Arm)
    requires f.state.ChunkSize? && Inv(f) && Unhex(ch) != -1
    ensures Good(f, a)
    ensures a.f.errno.OK? ==> a.f == f.(v := f.v.(contentLength := f.v.contentLength * 16 + Unhex(ch)))
  {
    var t := (f.v.contentLength * 16 + Unhex(ch)) % TWO_64;
    if (NO_LENGTH - 16) / 16 < f.v.contentLength then Fail(f, InvalidContentLength)
    else Arm(f.(v := f.v.(contentLength := t)), NONE, false)
  }

  /** The line end after a chunk size: data follows, or after a zero size the trailers. */
  function OnChunkLineEnd(f: Fields): (a: Arm)
    requires f.state.ChunkSizeAlmostDone? && Inv(f)
    ensures Good(f, a) && a.f.nread == 0
  {
    var last := f.v.contentLength == 0;
    var v := if last then f.v.(flags := f.v.flags.(trailing := true)) else f.v;
    Arm(f.(nread := 0, v := v, state := if last then HeaderFieldStart else ChunkData),
        NONE.(notes := Once(ChunkHeader, v)), false)
  }

  /** The first byte of a chunk-size line; the source asserts that it is the only one counted. */
  function OnChunkStart(f: Fields, ch: byte): (a: Arm)
    requires f.state.ChunkSizeStart? && Inv(f) && f.nread == 1
    ensures Good(f, a)
  {
    assert f.v.flags.chunked;
    if Unhex(ch) == -1 then Fail(f, InvalidChunkSize)
    else Go(f.(v := f.v.(contentLength := Unhex(ch))), ChunkSize)
  }

  /** The chunk-size line. */
  function OnChunkLine(f: Fields, ch: byte): (a: Arm)
    requires InChunkLine(f.state) && Inv(f) && (f.state.ChunkSizeStart? ==> f.nread == 1)
    ensures Good(f, a)
  {
    hide OnChunkStart, OnChunkDigit, OnChunkLineEnd;
    assert f.v.flags.chunked;
    if f.state.ChunkSizeStart? then OnChunkStart(f, ch)
    else if f.state.ChunkSizeAlmostDone? then if ch != LF then Fail(f, Strict) else OnChunkLineEnd(f)
    else if ch == CR then Go(f, ChunkSizeAlmostDone)
    else if f.state.ChunkParameters? then Arm(f, NONE, false)
    else if Unhex(ch) != -1 then OnChunkDigit(f, ch)
    else if ch == 59 /* ; */ || ch == SP then Go(f, ChunkParameters)
    else Fail(f, InvalidChunkSize)
  }

  /** One byte of a chunk's data, or of the line end after it. */
  function OnChunkContent(f: Fields, ch: byte): (a: Arm)
    requires (f.state.ChunkData? || f.state.ChunkDataAlmostDone? || f.state.ChunkDataDone?) && Inv(f)
    ensures Good(f, a)
  {
    assert f.v.flags.chunked;
    if f.state.ChunkData? then
      assert f.v.contentLength != 0 && f.v.contentLength != NO_LENGTH;
      var n := f.v.contentLength - 1;
      Arm(f.(v := f.v.(contentLength := n), state := if n == 0 then ChunkDataAlmostDone else ChunkData),
          NONE.(body := true), false)
    else if f.state.ChunkDataAlmostDone? then
      assert f.v.contentLength == 0;
      if ch != CR then Fail(f, Strict) else Arm(f.(state := ChunkDataDone), NONE.(close := Some(KBody)), false)
    else if ch != LF then Fail(f, Strict)
    else Arm(f.(nread := 0, state := ChunkSizeStart), NONE.(notes := Once(ChunkComplete, f.v)), false)
  }

  /** One byte of a body that is not chunked. */
  function OnIdentity(f: Fields, ch: byte): (a: Arm)
    requires (f.state.BodyIdentity? || f.state.BodyIdentityEof?) && Inv(f)
    ensures Good(f, a) && a.f.errno.OK?
  {
    hide OnMessageDone;
    if f.state.BodyIdentityEof? then Arm(f, NONE.(body := true), false)
    else
      assert f.v.contentLength != 0 && f.v.contentLength != NO_LENGTH;
      var g := f.(v := f.v.(contentLength := f.v.contentLength - 1));
      if g.v.contentLength == 0 then
        var d := OnMessageDone(g);
        d.(e := d.e.(body := true))
      else Arm(g, NONE.(body := true), false)
  }

  // ---- the switch ----

  function OnStartLine(f: Fields, ch: byte): (a: Arm)
    requires Inv(f) && !InHeaders(f.state) && !InBody(f.state)
    ensures Good(f, a)
  {
    hide Inv, Good, OnDead, OnStartReq, OnStartRes, OnResOrRespH, OnResVersion, OnStatusCode, OnStatusStart, OnStatus,
      OnMethod, OnSpacesBeforeUrl, OnReqVersion, OnUrl;
    if f.state.Dead? then OnDead(f, ch)
    else if f.state.StartReq? then OnStartReq(f, ch)
    else if f.state.StartRes? || f.state.StartReqOrRes? then OnStartRes(f, ch)
    else if f.state.ResOrRespH? then OnResOrRespH(f, ch)
    else if f.state.ResVersion? then OnResVersion(f, ch)
    else if f.state.ResStatusCode? then OnStatusCode(f, ch)
    else if f.state.ResStatusStart? then OnStatusStart(f, ch)
    else if f.state.ResStatus? then OnStatus(f, ch)
    else if f.state.ReqMethod? then OnMethod(f, ch)
    else if f.state.ReqSpacesBeforeUrl? then OnSpacesBeforeUrl(f, ch)
    else if f.state.ReqVersion? then OnReqVersion(f, ch)
    else OnUrl(f, ch)
  }

  function Switch(cfg: Config, f: Fields, ch: byte): (a: Arm)
    requires Inv(f) && (f.state.ChunkSizeStart? ==> f.nread == 1)
    ensures Good(f, a)
  {
    hide Inv, Good, OnHeaders, OnChunkLine, OnChunkContent, OnIdentity, OnStartLine;
    if InHeaders(f.state) then OnHeaders(cfg, f, ch)
    else if InBody(f.state) then
      if InChunkLine(f.state) then OnChunkLine(f, ch)
      else if InChunk(f.state) then OnChunkContent(f, ch)
      else OnIdentity(f, ch)
    else OnStartLine(f, ch)
  }
}
