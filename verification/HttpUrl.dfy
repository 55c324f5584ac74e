/** Splitting a URL into its parts: what the two character machines assign to each part. */
module HttpUrl {
  import opened Bytes
  import opened HttpTypes
  import opened HttpArms

  /** `enum http_parser_url_fields`, in the order of the parts in a URL. */
  datatype Field = Schema | UserInfo | Host | Port | Path | Query | Fragment

  // ---- the outer machine ----

  /** The state after the first `n` bytes; `None` once a byte is refused. */
  function Scan(buf: seq<byte>, connect: bool, n: nat): Option<UrlState>
    requires 0 < n <= |buf|
  {
    if n == 1 then if connect then UrlNext(ReqServerStart, buf[0]) else UrlFirst(buf[0])
    else
      match Scan(buf, connect, n - 1)
      case None => None
      case Some(s) => UrlNext(s, buf[n - 1])
  }

  /** States in the order in which a URL passes through them. */
  function Rank(s: UrlState): nat {
    match s
    case ReqSchema => 0
    case ReqSchemaSlash => 1
    case ReqSchemaSlashSlash => 2
    case ReqServerStart => 3
    case ReqServer => 4
    case ReqServerWithAt => 4
    case ReqPath => 5
    case ReqQueryStringStart => 6
    case ReqQueryString => 7
    case ReqFragmentStart => 8
    case ReqFragment => 9
  }

  const AUTHORITY: nat := 4

  /** The rank of byte `i`. */
  function ByteRank(buf: seq<byte>, connect: bool, i: nat): nat
    requires i < |buf| && Scan(buf, connect, i + 1).Some?
  {
    Rank(Scan(buf, connect, i + 1).value)
  }

  /** The part that a rank stands for; the whole authority counts as host until it is split. */
  function FieldOfRank(r: nat): Option<Field> {
    if r == 0 then Some(Schema) else if r == AUTHORITY then Some(Host) else if r == 5 then Some(Path)
    else if r == 7 then Some(Query) else if r == 9 then Some(Fragment) else None
  }

  predicate Alive(buf: seq<byte>, connect: bool, n: nat)
    requires n <= |buf|
  {
    n > 0 ==> Scan(buf, connect, n).Some?
  }

  lemma {:induction false} AliveBefore(buf: seq<byte>, connect: bool, n: nat, m: nat)
    requires m <= n <= |buf| && Alive(buf, connect, n)
    ensures Alive(buf, connect, m)
    decreases n - m
  {
    if m < n { AliveBefore(buf, connect, n - 1, m); }
  }

  lemma NextRank(s: UrlState, ch: byte)
    ensures UrlNext(s, ch).Some? ==> Rank(s) <= Rank(UrlNext(s, ch).value)
  {
  }

  /** A URL never goes back to an earlier part. */
  lemma {:induction false} RankGrows(buf: seq<byte>, connect: bool, i: nat, j: nat)
    requires i <= j < |buf| && Alive(buf, connect, j + 1)
    ensures Alive(buf, connect, i + 1) && ByteRank(buf, connect, i) <= ByteRank(buf, connect, j)
    decreases j - i
  {
    AliveBefore(buf, connect, j + 1, i + 1);
    if i < j {
      hide UrlNext, UrlFirst;
      AliveBefore(buf, connect, j + 1, j);
      RankGrows(buf, connect, i, j - 1);
      NextRank(Scan(buf, connect, j).value, buf[j]);
    }
  }

  /** An `@` stands in the first `n` bytes of the authority. */
  predicate FoundAt(buf: seq<byte>, connect: bool, n: nat)
    requires n <= |buf|
  {
    n > 0 && (Scan(buf, connect, n) == Some(ReqServerWithAt) || FoundAt(buf, connect, n - 1))
  }

  // ---- the host machine ----

  datatype HostState =
    | UserInfoStart | UserInfoChars | HostStart | HostChars | V6Start | V6 | V6End | ZoneStart | Zone | PortStart
    | PortDigits

  /** `http_parse_host_char`; `None` is its error value. */
  function HostNext(s: HostState, ch: byte): Option<HostState> {
    match s
    case UserInfoStart => if ch == 64 /* @ */ then Some(HostStart) else if IsUserinfoChar(ch) then Some(UserInfoChars)
      else None
    case UserInfoChars => if ch == 64 then Some(HostStart) else if IsUserinfoChar(ch) then Some(UserInfoChars) else None
    case HostStart => if ch == 91 /* [ */ then Some(V6Start) else if IsHostChar(ch) then Some(HostChars) else None
    case HostChars => if IsHostChar(ch) then Some(HostChars) else if ch == 58 /* : */ then Some(PortStart) else None
    case V6End => if ch == 58 then Some(PortStart) else None
    case V6 =>
      if ch == 93 /* ] */ then Some(V6End) else if IsHex(ch) || ch == 58 || ch == 46 /* . */ then Some(V6)
      else if ch == 37 /* % */ then Some(ZoneStart) else None
    case V6Start => if IsHex(ch) || ch == 58 || ch == 46 then Some(V6) else None
    case Zone => if ch == 93 then Some(V6End) else if IsZoneChar(ch) then Some(Zone) else None
    case ZoneStart => if IsZoneChar(ch) then Some(Zone) else None
    case PortStart => if IsNum(ch) then Some(PortDigits) else None
    case PortDigits => if IsNum(ch) then Some(PortDigits) else None
  }

  /** alphanumerics and % . - _ ~ */
  predicate IsZoneChar(c: byte) { IsAlphaNum(c) || c == 37 || c == 46 || c == 45 || c == 95 || c == 126 }

  /** The state after the bytes from `from` up to `n`. */
  function HostScan(buf: seq<byte>, from: nat, at: bool, n: nat): Option<HostState>
    requires from <= n <= |buf|
    decreases n
  {
    if n == from then Some(if at then UserInfoStart else HostStart)
    else
      match HostScan(buf, from, at, n - 1)
      case None => None
      case Some(s) => HostNext(s, buf[n - 1])
  }

  function HostRank(s: HostState): nat {
    match s
    case UserInfoStart => 0
    case UserInfoChars => 1
    case HostStart => 2
    case V6Start => 3
    case HostChars => 4
    case V6 => 4
    case ZoneStart => 4
    case Zone => 4
    case V6End => 5
    case PortStart => 6
    case PortDigits => 7
  }

  /** States in which an authority may end. */
  predicate HostEnds(s: HostState) { s.HostChars? || s.V6End? || s.PortDigits? }

  function HostByteRank(buf: seq<byte>, from: nat, at: bool, i: nat): nat
    requires from <= i < |buf| && HostScan(buf, from, at, i + 1).Some?
  {
    HostRank(HostScan(buf, from, at, i + 1).value)
  }

  function FieldOfHostRank(r: nat): Option<Field> {
    if r == 1 then Some(UserInfo) else if r == 4 then Some(Host) else if r == 7 then Some(Port) else None
  }

  lemma {:induction false} HostAliveBefore(buf: seq<byte>, from: nat, at: bool, n: nat, m: nat)
    requires from <= m <= n <= |buf| && HostScan(buf, from, at, n).Some?
    ensures HostScan(buf, from, at, m).Some?
    decreases n - m
  {
    if m < n { HostAliveBefore(buf, from, at, n - 1, m); }
  }

  lemma HostNextRank(s: HostState, ch: byte)
    ensures HostNext(s, ch).Some? ==> HostRank(s) <= HostRank(HostNext(s, ch).value)
  {
  }

  lemma {:induction false} HostRankGrows(buf: seq<byte>, from: nat, at: bool, i: nat, j: nat)
    requires from <= i <= j < |buf| && HostScan(buf, from, at, j + 1).Some?
    ensures HostScan(buf, from, at, i + 1).Some? && HostByteRank(buf, from, at, i) <= HostByteRank(buf, from, at, j)
    decreases j - i
  {
    hide HostNext, HostRank;
    HostAliveBefore(buf, from, at, j + 1, i + 1);
    if i < j {
      HostAliveBefore(buf, from, at, j + 1, j);
      HostRankGrows(buf, from, at, i, j - 1);
      HostNextRank(HostScan(buf, from, at, j).value, buf[j]);
    }
  }
}
