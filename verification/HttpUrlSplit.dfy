/** `http_parser_parse_url` and `http_parse_host`. */
module HttpUrlSplit {
  import opened Bytes
  import opened HttpTypes
  import opened HttpArms
  import opened HttpBodies
  import opened HttpUrl

  /** A part of the URL: `field_data[f]`. */
  datatype Part = Part(off: nat, len: nat)

  predicate Has(fields: map<Field, Part>, f: Field, i: int) {
    f in fields && fields[f].off <= i < fields[f].off + fields[f].len
  }

  // ---- what belongs to which part ----

  function OuterField(buf: seq<byte>, connect: bool, i: nat): Option<Field>
    requires i < |buf|
  {
    match Scan(buf, connect, i + 1) case None => None case Some(s) => FieldOfRank(Rank(s))
  }

  function HostField(buf: seq<byte>, from: nat, at: bool, i: nat): Option<Field>
    requires from <= i < |buf|
  {
    match HostScan(buf, from, at, i + 1) case None => None case Some(s) => FieldOfHostRank(HostRank(s))
  }

  /** The first byte from `i` on that belongs to the authority. */
  function AuthorityFrom(buf: seq<byte>, connect: bool, i: nat): (a: nat)
    requires i <= |buf|
    ensures i <= a <= |buf| && (a < |buf| ==> OuterField(buf, connect, a) == Some(Host))
    ensures forall j | i <= j < a :: OuterField(buf, connect, j) != Some(Host)
    decreases |buf| - i
  {
    if i == |buf| || OuterField(buf, connect, i) == Some(Host) then i else AuthorityFrom(buf, connect, i + 1)
  }

  function AuthorityTo(buf: seq<byte>, connect: bool, i: nat): (b: nat)
    requires i <= |buf|
    ensures i <= b <= |buf| && (b < |buf| ==> OuterField(buf, connect, b) != Some(Host))
    ensures forall j | i <= j < b :: OuterField(buf, connect, j) == Some(Host)
    decreases |buf| - i
  {
    if i == |buf| || OuterField(buf, connect, i) != Some(Host) then i else AuthorityTo(buf, connect, i + 1)
  }

  /** The part that byte `i` belongs to; `None` for the delimiters between the parts. */
  function Label(buf: seq<byte>, connect: bool, i: nat): Option<Field>
    requires i < |buf|
  {
    var a := AuthorityFrom(buf, connect, 0);
    if OuterField(buf, connect, i) == Some(Host) && a <= i then HostField(buf, a, FoundAt(buf, connect, |buf|), i)
    else OuterField(buf, connect, i)
  }

  // ---- the loops ----

  function RankOf(f: Field): nat {
    match f case Schema => 0 case Host => 4 case Path => 5 case Query => 7 case Fragment => 9 case _ => 99
  }

  /** The first `n` bytes are in the fields they belong to. */
  predicate Outer(buf: seq<byte>, connect: bool, n: nat, fields: map<Field, Part>)
    requires n <= |buf|
  {
    && (forall f | f in fields :: fields[f].len > 0 && fields[f].off + fields[f].len <= n)
    && (forall i: nat, f: Field | i < n :: Has(fields, f, i) <==> OuterField(buf, connect, i) == Some(f))
  }

  /** The field under way is the last one, and reaches to the current byte unless a delimiter came in between. */
  predicate LastField(buf: seq<byte>, connect: bool, n: nat, fields: map<Field, Part>, last: Option<Field>)
    requires n <= |buf|
  {
    match last
    case None => fields == map[]
    case Some(f) =>
      && n > 0 && Alive(buf, connect, n)
      && f in fields && RankOf(f) <= ByteRank(buf, connect, n - 1)
      && (RankOf(f) == ByteRank(buf, connect, n - 1) ==> fields[f].off + fields[f].len == n)
      && (forall g | g in fields :: RankOf(g) <= RankOf(f))
  }

  /** `struct http_parser_url`; `fields` holds the data of the fields in `field_set`. */
  class Url {
    var port: nat
    var fields: map<Field, Part>

    constructor ()
      ensures port == 0 && fields == map[]
    {
      port, fields := 0, map[];
    }

    /** The loop over the bytes in `http_parser_parse_url`. */
    method ScanFields(buf: seq<byte>, connect: bool) returns (ok: bool, foundAt: bool)
      requires 0 < |buf| <= 0xffff && fields == map[]
      modifies this`fields
      ensures ok <==> Alive(buf, connect, |buf|)
      ensures ok ==> Outer(buf, connect, |buf|, fields) && (foundAt <==> FoundAt(buf, connect, |buf|))
    {
      hide UrlNext, UrlFirst;
      var s: Option<UrlState> := None;
      var last: Option<Field> := None;
      foundAt := false;
      for i := 0 to |buf|
        invariant i > 0 ==> s == Scan(buf, connect, i) && s.Some?
        invariant Outer(buf, connect, i, fields) && LastField(buf, connect, i, fields, last)
        invariant foundAt <==> FoundAt(buf, connect, i)
      {
        s := if i == 0 then if connect then UrlNext(ReqServerStart, buf[0]) else UrlFirst(buf[0])
          else UrlNext(s.value, buf[i]);
        assert s == Scan(buf, connect, i + 1);
        if s.None? {
          if Alive(buf, connect, |buf|) { AliveBefore(buf, connect, |buf|, i + 1); }
          return false, false;
        }
        foundAt := foundAt || s.value.ReqServerWithAt?;
        last := FieldByte(buf, connect, i, FieldOfRank(Rank(s.value)), last);
      }
      ok := true;
    }

    /** The second half of that loop's body: byte `i` goes to field `uf`, or is a delimiter. */
    method FieldByte(buf: seq<byte>, connect: bool, i: nat, uf: Option<Field>, last: Option<Field>)
        returns (now: Option<Field>)
      requires i < |buf| <= 0xffff && Alive(buf, connect, i + 1) && OuterField(buf, connect, i) == uf
      requires Outer(buf, connect, i, fields) && LastField(buf, connect, i, fields, last)
      modifies this`fields
      ensures Outer(buf, connect, i + 1, fields) && LastField(buf, connect, i + 1, fields, now)
    {
      hide Scan, Outer;
      if i > 0 { RankGrows(buf, connect, i - 1, i); }
      ghost var was := fields;
      if uf.None? {
        Delimited(buf, connect, i, fields);
        return last;
      }
      if uf == last {
        var p := fields[uf.value];
        OuterBound(buf, connect, i, fields, uf.value);
        fields := fields[uf.value := Part(p.off, (p.len + 1) % 0x1_0000)];
        Extended(buf, connect, i, was, fields, uf.value);
      } else {
        fields := fields[uf.value := Part(i % 0x1_0000, 1)];
        Opened(buf, connect, i, was, fields, uf.value);
      }
      return uf;
    }

    /** `http_parse_host` on the authority `buf[from..end]`. */
    method ParseHost(buf: seq<byte>, foundAt: bool) returns (ok: bool)
      requires |buf| <= 0xffff && Host in fields && UserInfo !in fields && Port !in fields
      requires fields[Host].off + fields[Host].len <= |buf|
      modifies this`fields
      ensures
        var from := old(fields[Host].off);
        var end := from + old(fields[Host].len);
        var s := HostScan(buf, from, foundAt, end);
        && (ok <==> s.Some? && HostEnds(s.value))
        && (ok ==> Inner(buf, from, foundAt, end, fields) && fields[Host].len > 0)
        && (ok ==> (Port in fields <==> s.value.PortDigits?))
        && (ok && Port in fields ==> fields[Port].off + fields[Port].len == end)
      ensures fields - {Host, UserInfo, Port} == old(fields) - {Host, UserInfo, Port}
      ensures ok ==> fields.Keys <= old(fields.Keys) + {UserInfo, Port} && old(fields.Keys) <= fields.Keys
    {
      hide HostNext, StepsTo, HostField, Grown, Inner, Growing;
      var from := fields[Host].off;
      var end := from + fields[Host].len;
      fields := fields[Host := Part(from, 0)];
      var s := if foundAt then UserInfoStart else HostStart;
      InnerEmpty(buf, from, foundAt, fields, s);
      for p := from to end
        invariant HostScan(buf, from, foundAt, p) == Some(s)
        invariant Inner(buf, from, foundAt, p, fields) && Growing(p, fields, s)
        invariant fields - {Host, UserInfo, Port} == old(fields) - {Host, UserInfo, Port}
        invariant fields.Keys <= old(fields.Keys) + {UserInfo, Port} && old(fields.Keys) <= fields.Keys
      {
        var next := HostNext(s, buf[p]);
        assert next == HostScan(buf, from, foundAt, p + 1);
        if next.None? {
          if HostScan(buf, from, foundAt, end).Some? { HostAliveBefore(buf, from, foundAt, end, p + 1); }
          return false;
        }
        HostSteps(s, buf[p]);
        ghost var was := fields;
        InnerBounds(buf, from, foundAt, p, fields);
        HostByte(p, s, next.value);
        InnerGrows(buf, from, foundAt, p, was, fields, s, next.value);
        s := next.value;
      }
      if HostEnds(s) { InnerEnds(buf, from, foundAt, end, fields, s); }
      return HostEnds(s);
    }

    /** The switch on the new state in the loop of `http_parse_host`. */
    method HostByte(p: nat, s: HostState, t: HostState)
      requires p < 0xffff && Growing(p, fields, s) && StepsTo(s, t)
      requires forall f | f in fields && (f == UserInfo || f == Port || f == Host) :: fields[f].len < 0xffff
      modifies this`fields
      ensures fields == Grown(old(fields), p, s, t)
    {
      match t
      case HostChars => Grow(Host, p, !s.HostChars?, fields[Host].len);
      case V6 => Grow(Host, p, !s.V6?, fields[Host].len);
      case ZoneStart => Grow(Host, p, false, fields[Host].len);
      case Zone => Grow(Host, p, false, fields[Host].len);
      case PortDigits => Grow(Port, p, !s.PortDigits?, if s.PortDigits? then fields[Port].len else 0);
      case UserInfoChars => Grow(UserInfo, p, !s.UserInfoChars?, if s.UserInfoChars? then fields[UserInfo].len else 0);
      case _ =>
    }

    /** `http_parser_parse_url` */
    method Parse(buf: seq<byte>, connect: bool) returns (ok: bool)
      requires |buf| <= 0xffff
      modifies this
      ensures ok ==> Accepted(buf, connect)
      ensures Accepted(buf, connect) ==> Labelled(buf, connect, fields)
      ensures Accepted(buf, connect) && Port in fields ==> AllDigits(PartOf(buf, fields[Port]))
      ensures Accepted(buf, connect) ==> (ok <==> Port in fields ==> Decimal(PartOf(buf, fields[Port])) <= 0xffff)
      ensures ok ==> port == if Port in fields then Decimal(PartOf(buf, fields[Port])) else 0
    {
      hide Scan, AuthorityFrom, AuthorityTo, HostScan, FoundAt, OuterField, HostField, Labelled, Outer, Inner, Label,
          Decimal;
      if |buf| == 0 { return false; }
      port, fields := 0, map[];
      var foundAt;
      ok, foundAt := ScanFields(buf, connect);
      if !ok { return false; }
      ghost var outer := fields;
      OuterHost(buf, connect, outer);
      if Schema in fields && Host !in fields { return false; }
      if Host in fields {
        ok := ParseHost(buf, foundAt);
        if !ok { return false; }
        SplitLabelled(buf, connect, outer, fields);
      } else {
        WholeLabelled(buf, connect, fields);
      }
      if Host in fields { ConnectFields(buf, connect, fields); }
      if connect && fields.Keys != {Host, Port} { return false; }
      if Port in fields {
        PortIsDigits(buf, connect, fields);
        ok, port := ParsePort(buf, fields[Port]);
      }
    }

    /** One more byte for field `f`, whose offset is set at its first byte. */
    method Grow(f: Field, p: nat, first: bool, len: nat)
      requires p <= 0xffff && len < 0xffff && (!first ==> f in fields)
      modifies this`fields
      ensures fields == old(fields)[f := Part(if first then p else old(fields)[f].off, len + 1)]
    {
      fields := fields[f := Part(if first then p % 0x1_0000 else fields[f].off, (len + 1) % 0x1_0000)];
    }
  }

  /** The bytes of the authority up to `n` are in the fields they belong to. */
  predicate Inner(buf: seq<byte>, from: nat, at: bool, n: nat, fields: map<Field, Part>)
    requires from <= n <= |buf|
  {
    && Host in fields
    && (forall f | f in fields && (f == UserInfo || f == Port) :: fields[f].len > 0)
    && (forall f | f in fields && (f == UserInfo || f == Port || f == Host) ::
          fields[f].len > 0 ==> from <= fields[f].off && fields[f].off + fields[f].len <= n)
    && (forall i: nat, f: Field | from <= i < n && (f == UserInfo || f == Port || f == Host) ::
          Has(fields, f, i) <==> HostField(buf, from, at, i) == Some(f))
  }

  /** The field under way reaches to the current byte, and later fields are empty. */
  predicate Growing(n: nat, fields: map<Field, Part>, s: HostState) {
    var r := HostRank(s);
    && Host in fields
    && (r == 1 ==> UserInfo in fields && fields[UserInfo].off + fields[UserInfo].len == n)
    && (r < 1 ==> UserInfo !in fields)
    && (r < 4 ==> fields[Host].len == 0) && (r >= 4 ==> fields[Host].len > 0)
    && (r == 4 ==> fields[Host].off + fields[Host].len == n)
    && (r < 7 ==> Port !in fields)
    && (r == 7 ==> Port in fields && fields[Port].off + fields[Port].len == n)
  }

  /** Which states can come before which. */
  predicate StepsTo(s: HostState, t: HostState) {
    && HostRank(s) <= HostRank(t) && !t.UserInfoStart?
    && (t.HostChars? ==> s.HostChars? || s.HostStart?)
    && (t.V6? ==> s.V6? || s.V6Start?)
    && (t.ZoneStart? ==> s.V6?) && (t.Zone? ==> s.ZoneStart? || s.Zone?)
    && (t.PortDigits? ==> s.PortStart? || s.PortDigits?)
    && (t.UserInfoChars? ==> s.UserInfoStart? || s.UserInfoChars?)
    && (HostRank(t) > 4 ==> HostRank(s) >= 4)
  }

  lemma HostSteps(s: HostState, ch: byte)
    requires HostNext(s, ch).Some?
    ensures StepsTo(s, HostNext(s, ch).value)
  {
  }

  /** The fields with byte `p`, which takes the host machine from `s` to `t`. */
  function Grown(was: map<Field, Part>, p: nat, s: HostState, t: HostState): (now: map<Field, Part>)
    requires Growing(p, was, s) && StepsTo(s, t)
    ensures now - {Host, UserInfo, Port} == was - {Host, UserInfo, Port}
    ensures was.Keys <= now.Keys <= was.Keys + {UserInfo, Port}
  {
    match FieldOfHostRank(HostRank(t))
    case None => was
    case Some(f) => was[f := if HostRank(s) == HostRank(t) then Part(was[f].off, was[f].len + 1) else Part(p, 1)]
  }

  lemma InnerEmpty(buf: seq<byte>, from: nat, at: bool, fields: map<Field, Part>, s: HostState)
    requires from <= |buf| && Host in fields && fields[Host].len == 0 && UserInfo !in fields && Port !in fields
    requires s.UserInfoStart? || s.HostStart?
    ensures Inner(buf, from, at, from, fields) && Growing(from, fields, s)
  {
  }

  lemma InnerBounds(buf: seq<byte>, from: nat, at: bool, n: nat, fields: map<Field, Part>)
    requires from <= n <= |buf| && Inner(buf, from, at, n, fields)
    ensures forall f | f in fields && (f == UserInfo || f == Port || f == Host) :: fields[f].len <= n
  {
  }

  lemma InnerEnds(buf: seq<byte>, from: nat, at: bool, n: nat, fields: map<Field, Part>, s: HostState)
    requires from <= n <= |buf| && Inner(buf, from, at, n, fields) && Growing(n, fields, s) && HostEnds(s)
    ensures Host in fields && fields[Host].len > 0
    ensures Port in fields <==> s.PortDigits?
    ensures Port in fields ==> fields[Port].off + fields[Port].len == n
  {
  }

  lemma GrowingOn(p: nat, was: map<Field, Part>, s: HostState, t: HostState)
    requires Growing(p, was, s) && StepsTo(s, t)
    ensures Growing(p + 1, Grown(was, p, s, t), t)
  {
  }

  /** A part of the authority that lies between `from` and `to`. */
  predicate Lies(fields: map<Field, Part>, f: Field, from: nat, to: nat) {
    f in fields && fields[f].len > 0 ==> from <= fields[f].off && fields[f].off + fields[f].len <= to
  }

  lemma GrownHas(from: nat, p: nat, was: map<Field, Part>, s: HostState, t: HostState, f: Field, i: nat)
    requires Growing(p, was, s) && StepsTo(s, t) && (f == UserInfo || f == Port || f == Host)
    requires from <= i <= p && Lies(was, f, from, p)
    ensures
      var now := Grown(was, p, s, t);
      && Lies(now, f, from, p + 1) && (f != Host && f in now ==> f in was || now[f].len > 0)
      && (Has(now, f, i) <==> if i < p then Has(was, f, i) else FieldOfHostRank(HostRank(t)) == Some(f))
  {
  }

  lemma InnerGrows(buf: seq<byte>, from: nat, at: bool, p: nat, was: map<Field, Part>, now: map<Field, Part>,
                   s: HostState, t: HostState)
    requires from <= p < |buf| && Inner(buf, from, at, p, was) && Growing(p, was, s) && StepsTo(s, t)
    requires HostScan(buf, from, at, p + 1) == Some(t) && now == Grown(was, p, s, t)
    ensures Inner(buf, from, at, p + 1, now) && Growing(p + 1, now, t)
  {
    hide HostScan, StepsTo, Has;
    GrowingOn(p, was, s, t);
    assert HostField(buf, from, at, p) == FieldOfHostRank(HostRank(t));
    hide HostField;
    forall i: nat, f: Field | from <= i < p + 1 && (f == UserInfo || f == Port || f == Host)
      ensures Has(now, f, i) <==> HostField(buf, from, at, i) == Some(f)
    {
      GrownHas(from, p, was, s, t, f, i);
    }
    forall f | f in now && (f == UserInfo || f == Port || f == Host) ensures Lies(now, f, from, p + 1) {
      GrownHas(from, p, was, s, t, f, p);
    }
  }

  // ---- the whole split ----

  function PartOf(buf: seq<byte>, p: Part): seq<byte> {
    if p.off + p.len <= |buf| then buf[p.off..p.off + p.len] else []
  }

  /** Every byte is in the field it belongs to, and in no other. */
  predicate Labelled(buf: seq<byte>, connect: bool, fields: map<Field, Part>) {
    && (forall f | f in fields :: fields[f].len > 0 && fields[f].off + fields[f].len <= |buf|)
    && (forall i: nat, f: Field | i < |buf| :: Has(fields, f, i) <==> Label(buf, connect, i) == Some(f))
  }

  /** The URLs that are accepted, but for the value of the port. */
  predicate Accepted(buf: seq<byte>, connect: bool) {
    && buf != [] && Alive(buf, connect, |buf|)
    && var a := AuthorityFrom(buf, connect, 0);
    if a == |buf| then !connect && OuterField(buf, connect, 0) != Some(Schema)
    else
      var s := HostScan(buf, a, FoundAt(buf, connect, |buf|), AuthorityTo(buf, connect, a));
      && s.Some? && HostEnds(s.value)
      && (connect ==> s.value.PortDigits? && forall i | 0 <= i < |buf| :: HostOrPort(Label(buf, connect, i)))
  }

  predicate HostOrPort(f: Option<Field>) { f.None? || f == Some(Host) || f == Some(Port) }

  /** The authority is what the scan left in the host field. */
  lemma OuterFields(buf: seq<byte>, connect: bool, fields: map<Field, Part>)
    requires buf != [] && Alive(buf, connect, |buf|) && Outer(buf, connect, |buf|, fields)
    ensures forall f | f in fields :: OuterField(buf, connect, fields[f].off) == Some(f)
    ensures UserInfo !in fields && Port !in fields
  {
    hide Scan;
    forall f | f in fields ensures OuterField(buf, connect, fields[f].off) == Some(f) {
      assert Has(fields, f, fields[f].off);
    }
  }

  lemma OuterSchema(buf: seq<byte>, connect: bool, fields: map<Field, Part>)
    requires buf != [] && Alive(buf, connect, |buf|) && Outer(buf, connect, |buf|, fields)
    ensures Schema in fields <==> OuterField(buf, connect, 0) == Some(Schema)
  {
    hide Scan;
    OuterFields(buf, connect, fields);
    if Schema in fields {
      var j := fields[Schema].off;
      AliveBefore(buf, connect, |buf|, j + 1);
      RankGrows(buf, connect, 0, j);
    }
    assert OuterField(buf, connect, 0) == Some(Schema) ==> Has(fields, Schema, 0);
  }

  lemma OuterHost(buf: seq<byte>, connect: bool, fields: map<Field, Part>)
    requires buf != [] && Alive(buf, connect, |buf|) && Outer(buf, connect, |buf|, fields)
    ensures UserInfo !in fields && Port !in fields
    ensures Schema in fields <==> OuterField(buf, connect, 0) == Some(Schema)
    ensures
      var a := AuthorityFrom(buf, connect, 0);
      if Host in fields then a < |buf| && fields[Host] == Part(a, AuthorityTo(buf, connect, a) - a) else a == |buf|
  {
    hide Scan, AuthorityFrom, AuthorityTo;
    OuterFields(buf, connect, fields);
    OuterSchema(buf, connect, fields);
    var a := AuthorityFrom(buf, connect, 0);
    if Host in fields {
      var p := fields[Host];
      assert a < |buf| && Has(fields, Host, a);
      var b := AuthorityTo(buf, connect, a);
      assert b < |buf| ==> !Has(fields, Host, b);
      assert b > a ==> Has(fields, Host, b - 1);
    } else {
      assert a < |buf| ==> Has(fields, Host, a);
    }
  }

  predicate OfHost(f: Field) { f == UserInfo || f == Host || f == Port }

  lemma SplitLabelled(buf: seq<byte>, connect: bool, outer: map<Field, Part>, fields: map<Field, Part>)
    requires buf != [] && Alive(buf, connect, |buf|) && Outer(buf, connect, |buf|, outer) && Host in outer
    requires
      var p, at := outer[Host], FoundAt(buf, connect, |buf|);
      Inner(buf, p.off, at, p.off + p.len, fields) && fields[Host].len > 0
    requires fields - {Host, UserInfo, Port} == outer - {Host, UserInfo, Port}
    ensures Labelled(buf, connect, fields)
  {
    OuterHost(buf, connect, outer);
    hide Scan, AuthorityFrom, AuthorityTo, HostScan, FoundAt, OuterField, HostField;
    var a := AuthorityFrom(buf, connect, 0);
    var b := AuthorityTo(buf, connect, a);
    forall f | f in fields ensures fields[f].len > 0 && fields[f].off + fields[f].len <= |buf| {
      SameOutside(outer, fields, f);
    }
    forall i: nat, f: Field | i < |buf| ensures Has(fields, f, i) <==> Label(buf, connect, i) == Some(f) {
      SameOutside(outer, fields, f);
      assert Has(outer, Host, i) <==> OuterField(buf, connect, i) == Some(Host);
      assert Has(outer, f, i) <==> OuterField(buf, connect, i) == Some(f);
      OuterFieldKind(buf, connect, i);
      if a <= i < b { HostFieldKind(buf, a, FoundAt(buf, connect, |buf|), i); }
    }
  }

  lemma SameOutside(outer: map<Field, Part>, fields: map<Field, Part>, f: Field)
    requires fields - {Host, UserInfo, Port} == outer - {Host, UserInfo, Port}
    ensures !OfHost(f) ==> (f in fields <==> f in outer) && (f in fields ==> fields[f] == outer[f])
  {
    var without := {Host, UserInfo, Port};
    if !OfHost(f) {
      assert f in fields ==> f in (fields - without) && (fields - without)[f] == fields[f];
      assert f in outer ==> f in (outer - without) && (outer - without)[f] == outer[f];
    }
  }

  lemma OuterFieldKind(buf: seq<byte>, connect: bool, i: nat)
    requires i < |buf|
    ensures OuterField(buf, connect, i) != Some(UserInfo) && OuterField(buf, connect, i) != Some(Port)
  {
  }

  lemma HostFieldKind(buf: seq<byte>, from: nat, at: bool, i: nat)
    requires from <= i < |buf|
    ensures var f := HostField(buf, from, at, i); f.Some? ==> OfHost(f.value)
  {
  }

  lemma WholeLabelled(buf: seq<byte>, connect: bool, fields: map<Field, Part>)
    requires buf != [] && Alive(buf, connect, |buf|) && Outer(buf, connect, |buf|, fields) && Host !in fields
    ensures Labelled(buf, connect, fields)
  {
    hide Scan, AuthorityFrom, AuthorityTo, HostScan, FoundAt, OuterField, HostField;
    forall i: nat, f: Field | i < |buf| ensures Has(fields, f, i) <==> Label(buf, connect, i) == Some(f) {
      assert Has(fields, Host, i) <==> OuterField(buf, connect, i) == Some(Host);
      assert Has(fields, f, i) <==> OuterField(buf, connect, i) == Some(f);
    }
  }

  /** Only a host and a port are set exactly if no byte belongs to another part. */
  lemma ConnectFields(buf: seq<byte>, connect: bool, fields: map<Field, Part>)
    requires Labelled(buf, connect, fields) && Host in fields
    ensures fields.Keys == {Host, Port}
        <==> Port in fields && forall i | 0 <= i < |buf| :: HostOrPort(Label(buf, connect, i))
  {
    hide Label;
    forall f | f in fields ensures Label(buf, connect, fields[f].off) == Some(f) {
      assert Has(fields, f, fields[f].off);
    }
    if fields.Keys == {Host, Port} {
      forall i | 0 <= i < |buf| ensures HostOrPort(Label(buf, connect, i)) {
        var l := Label(buf, connect, i);
        if l.Some? { assert Has(fields, l.value, i); }
      }
    }
    if Port in fields && forall i | 0 <= i < |buf| :: HostOrPort(Label(buf, connect, i)) {
      forall f | f in fields ensures f == Host || f == Port {
        assert HostOrPort(Label(buf, connect, fields[f].off));
      }
    }
  }

  lemma PortIsDigits(buf: seq<byte>, connect: bool, fields: map<Field, Part>)
    requires Labelled(buf, connect, fields) && Port in fields
    ensures AllDigits(PartOf(buf, fields[Port]))
  {
    hide Scan, AuthorityFrom, AuthorityTo, FoundAt, OuterField, HostField;
    var p := fields[Port];
    forall k | 0 <= k < p.len ensures IsNum(PartOf(buf, p)[k]) {
      var i := p.off + k;
      assert Has(fields, Port, i);
      OuterFieldKind(buf, connect, i);
      PortByte(buf, AuthorityFrom(buf, connect, 0), FoundAt(buf, connect, |buf|), i);
    }
  }

  lemma PortByte(buf: seq<byte>, from: nat, at: bool, i: nat)
    requires from <= i < |buf| && HostField(buf, from, at, i) == Some(Port)
    ensures IsNum(buf[i])
  {
  }

  method ParsePort(buf: seq<byte>, p: Part) returns (ok: bool, v: nat)
    requires p.off + p.len <= |buf| && AllDigits(PartOf(buf, p))
    ensures ok <==> Decimal(PartOf(buf, p)) <= 0xffff
    ensures ok ==> v == Decimal(PartOf(buf, p))
  {
    v := 0;
    var digits := PartOf(buf, p);
    for i := 0 to p.len
      invariant v == Decimal(digits[..i]) <= 0xffff
    {
      assert digits[..i + 1][..i] == digits[..i];
      v := v * 10 + (buf[p.off + i] - 48);
      assert v == Decimal(digits[..i + 1]);
      if v > 0xffff {
        DecimalGrows(digits, i + 1);
        return false, v;
      }
    }
    assert digits[..p.len] == digits;
    ok := true;
  }

  lemma {:induction false} DecimalGrows(digits: seq<byte>, k: nat)
    requires AllDigits(digits) && k <= |digits|
    ensures Decimal(digits[..k]) <= Decimal(digits)
    decreases |digits| - k
  {
    if k == |digits| {
      assert digits[..k] == digits;
    } else {
      DecimalGrows(digits, k + 1);
      assert digits[..k + 1][..k] == digits[..k];
    }
  }

  lemma Delimited(buf: seq<byte>, connect: bool, n: nat, fields: map<Field, Part>)
    requires n < |buf| && Outer(buf, connect, n, fields) && OuterField(buf, connect, n) == None
    ensures Outer(buf, connect, n + 1, fields)
  {
    hide OuterField;
    forall i: nat, g: Field | i < n + 1 ensures Has(fields, g, i) <==> OuterField(buf, connect, i) == Some(g) {
      assert i < n ==> (Has(fields, g, i) <==> OuterField(buf, connect, i) == Some(g));
    }
  }

  lemma OuterBound(buf: seq<byte>, connect: bool, n: nat, fields: map<Field, Part>, f: Field)
    requires n <= |buf| && Outer(buf, connect, n, fields) && f in fields
    ensures fields[f].off + fields[f].len <= n
  {
  }

  lemma Extended(buf: seq<byte>, connect: bool, n: nat, was: map<Field, Part>, now: map<Field, Part>, f: Field)
    requires n < |buf| && Outer(buf, connect, n, was) && OuterField(buf, connect, n) == Some(f)
    requires f in was && was[f].off + was[f].len == n && now == was[f := Part(was[f].off, was[f].len + 1)]
    ensures Outer(buf, connect, n + 1, now)
  {
    hide OuterField;
    forall i: nat, g: Field | i < n + 1 ensures Has(now, g, i) <==> OuterField(buf, connect, i) == Some(g) {
      assert i < n ==> (Has(was, g, i) <==> OuterField(buf, connect, i) == Some(g));
    }
  }

  lemma Opened(buf: seq<byte>, connect: bool, n: nat, was: map<Field, Part>, now: map<Field, Part>, f: Field)
    requires n < |buf| && Outer(buf, connect, n, was) && OuterField(buf, connect, n) == Some(f)
    requires f !in was && now == was[f := Part(n, 1)]
    ensures Outer(buf, connect, n + 1, now)
  {
    hide OuterField;
    forall i: nat, g: Field | i < n + 1 ensures Has(now, g, i) <==> OuterField(buf, connect, i) == Some(g) {
      assert i < n ==> (Has(was, g, i) <==> OuterField(buf, connect, i) == Some(g));
    }
  }
}
