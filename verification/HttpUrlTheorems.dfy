/** What a split URL looks like. */
module HttpUrlTheorems {
  import opened Bytes
  import opened HttpTypes
  import opened HttpArms
  import opened HttpUrl
  import opened HttpUrlSplit

  /** `: / ? # @ [ ]` */
  predicate Delimiter(c: byte) {
    c == 58 || c == 47 || c == 63 || c == 35 || c == 64 || c == 91 || c == 93
  }

  function Order(f: Field): nat {
    match f
    case Schema => 0 case UserInfo => 1 case Host => 2 case Port => 3 case Path => 4 case Query => 5 case Fragment => 6
  }

  // ---- single steps of the two machines ----

  lemma UrlStep(s: UrlState, ch: byte)
    requires UrlNext(s, ch).Some?
    ensures
      var t := UrlNext(s, ch).value;
      && (FieldOfRank(Rank(t)).None? ==> Delimiter(ch))
      && (t.ReqPath? && !s.ReqPath? ==> ch == 47)
      && (t.ReqQueryString? ==> s.ReqQueryString? || s.ReqQueryStringStart?)
      && (t.ReqQueryStringStart? ==> ch == 63)
      && (t.ReqFragment? ==> s.ReqFragment? || s.ReqFragmentStart?)
      && (t.ReqFragmentStart? ==> ch == 35)
      && (t.ReqSchema? ==> IsAlpha(ch))
      && (t.ReqPath? || t.ReqQueryString? ==> ch != 35)
      && (t.ReqPath? ==> ch != 63)
  {
  }

  lemma HostStep(s: HostState, ch: byte)
    requires HostNext(s, ch).Some?
    ensures
      var t := HostNext(s, ch).value;
      && (FieldOfHostRank(HostRank(t)).None? ==> Delimiter(ch))
      && (t.UserInfoChars? ==> IsUserinfoChar(ch) && (s.UserInfoChars? || s.UserInfoStart?))
      && (s.UserInfoChars? && !t.UserInfoChars? ==> ch == 64)
      && (t.PortDigits? ==> IsNum(ch) && (s.PortDigits? || s.PortStart?))
      && (t.PortStart? ==> ch == 58)
      && (HostRank(t) == 4 ==> ch != 64 && ch != 91 && ch != 93)
  {
  }

  // ---- the bytes of an accepted URL ----

  /** Inside the authority both machines are alive. */
  lemma InAuthority(buf: seq<byte>, connect: bool, i: nat)
    requires Accepted(buf, connect) && i < |buf|
    ensures Alive(buf, connect, i + 1)
    ensures OuterField(buf, connect, i) == Some(Host) ==>
      var a, at := AuthorityFrom(buf, connect, 0), FoundAt(buf, connect, |buf|);
      && a <= i < AuthorityTo(buf, connect, a)
      && HostScan(buf, a, at, i).Some? && HostScan(buf, a, at, i + 1).Some?
  {
    hide Scan, HostScan, AuthorityFrom, AuthorityTo, FoundAt;
    AliveBefore(buf, connect, |buf|, i + 1);
    if OuterField(buf, connect, i) == Some(Host) {
      var a, at := AuthorityFrom(buf, connect, 0), FoundAt(buf, connect, |buf|);
      var b := AuthorityTo(buf, connect, a);
      assert a <= i;
      if b <= i {
        // A byte between two bytes of the authority has the same rank.
        AliveBefore(buf, connect, |buf|, b + 1);
        RankGrows(buf, connect, a, b);
        RankGrows(buf, connect, b, i);
        assert false;
      }
      HostAliveBefore(buf, a, at, b, i);
      HostAliveBefore(buf, a, at, b, i + 1);
    }
  }

  /** Every byte that belongs to no part is a delimiter. */
  lemma UncoveredAreDelimiters(buf: seq<byte>, connect: bool, i: nat)
    requires Accepted(buf, connect) && i < |buf| && Label(buf, connect, i).None?
    ensures Delimiter(buf[i])
  {
    hide AuthorityFrom, AuthorityTo, FoundAt, UrlNext, HostNext, Accepted;
    InAuthority(buf, connect, i);
    if OuterField(buf, connect, i) == Some(Host) {
      var a, at := AuthorityFrom(buf, connect, 0), FoundAt(buf, connect, |buf|);
      HostStep(HostScan(buf, a, at, i).value, buf[i]);
    } else if i == 0 {
      if connect { UrlStep(ReqServerStart, buf[0]); }
    } else {
      AliveBefore(buf, connect, i + 1, i);
      UrlStep(Scan(buf, connect, i).value, buf[i]);
    }
  }

  /** Parts come in the order of a URL. */
  lemma PartsInOrder(buf: seq<byte>, connect: bool, i: nat, j: nat)
    requires Accepted(buf, connect) && i <= j < |buf|
    requires Label(buf, connect, i).Some? && Label(buf, connect, j).Some?
    ensures Order(Label(buf, connect, i).value) <= Order(Label(buf, connect, j).value)
  {
    hide AuthorityFrom, AuthorityTo, FoundAt, Scan, HostScan, Accepted;
    InAuthority(buf, connect, i);
    InAuthority(buf, connect, j);
    RankGrows(buf, connect, i, j);
    if OuterField(buf, connect, i) == Some(Host) && OuterField(buf, connect, j) == Some(Host) {
      HostRankGrows(buf, AuthorityFrom(buf, connect, 0), FoundAt(buf, connect, |buf|), i, j);
    }
  }

  /** The fields are inside the URL, disjoint and in order. */
  lemma FieldsInOrder(buf: seq<byte>, connect: bool, fields: map<Field, Part>, f: Field, g: Field)
    requires Accepted(buf, connect) && Labelled(buf, connect, fields)
    requires f in fields && g in fields && Order(f) < Order(g)
    ensures 0 < fields[f].len && fields[f].off + fields[f].len <= fields[g].off
    ensures 0 < fields[g].len && fields[g].off + fields[g].len <= |buf|
  {
    hide Label, Accepted;
    var last, first := fields[f].off + fields[f].len - 1, fields[g].off;
    assert Has(fields, f, last) && Has(fields, g, first);
    if first <= last { PartsInOrder(buf, connect, first, last); }
  }

  /** Where the outer parts begin and what they are made of. */
  lemma OuterFrame(buf: seq<byte>, connect: bool, i: nat)
    requires Accepted(buf, connect) && i < |buf|
    ensures
      var l, first := Label(buf, connect, i), i == 0 || Label(buf, connect, i - 1) != Label(buf, connect, i);
      && (l == Some(Schema) ==> IsAlpha(buf[i]))
      && (l == Some(Path) && first ==> buf[i] == 47 || (buf[i] == 42 && i == 0))
      && (l == Some(Path) && !first ==> buf[i] != 63 && buf[i] != 35)
      && (l == Some(Query) ==> buf[i] != 35 && i > 0)
      && (l == Some(Query) && first ==> buf[i - 1] == 63)
      && (l == Some(Fragment) ==> i > 0)
      && (l == Some(Fragment) && first ==> buf[i - 1] == 35)
  {
    hide AuthorityFrom, AuthorityTo, FoundAt, UrlNext, HostNext, Accepted, HostScan;
    InAuthority(buf, connect, i);
    LabelOutside(buf, connect, i);
    if i == 0 {
      if connect { UrlStep(ReqServerStart, buf[0]); } else { FirstByte(buf[0]); }
    } else {
      LabelOutside(buf, connect, i - 1);
      AliveBefore(buf, connect, i + 1, i);
      var s := Scan(buf, connect, i).value;
      UrlStep(s, buf[i]);
      if i > 1 {
        AliveBefore(buf, connect, i, i - 1);
        UrlStep(Scan(buf, connect, i - 1).value, buf[i - 1]);
      } else if connect {
        UrlStep(ReqServerStart, buf[0]);
      } else {
        FirstByte(buf[0]);
      }
    }
  }

  lemma FirstByte(ch: byte)
    requires UrlFirst(ch).Some?
    ensures var t := UrlFirst(ch).value; (t.ReqPath? && (ch == 47 || ch == 42)) || (t.ReqSchema? && IsAlpha(ch))
  {
  }

  lemma LabelOutside(buf: seq<byte>, connect: bool, i: nat)
    requires i < |buf|
    ensures var l := Label(buf, connect, i); (l.Some? && !OfHost(l.value) ==> l == OuterField(buf, connect, i))
    ensures var o := OuterField(buf, connect, i); (o.Some? && o != Some(Host) ==> Label(buf, connect, i) == o)
  {
    hide AuthorityFrom, AuthorityTo, FoundAt, Scan, HostScan;
    if OuterField(buf, connect, i) == Some(Host) && AuthorityFrom(buf, connect, 0) <= i {
      HostFieldKind(buf, AuthorityFrom(buf, connect, 0), FoundAt(buf, connect, |buf|), i);
    }
  }

  /** The parts of the authority: what they are made of, and the `:` before a port. */
  lemma HostFrame(buf: seq<byte>, connect: bool, i: nat)
    requires Accepted(buf, connect) && i < |buf|
    ensures
      var l := Label(buf, connect, i);
      && (l == Some(UserInfo) ==> IsUserinfoChar(buf[i]))
      && (l == Some(Host) ==> buf[i] != 64 && buf[i] != 91 && buf[i] != 93)
      && (l == Some(Port) ==> IsNum(buf[i]) && i > 0)
      && (l == Some(Port) && Label(buf, connect, i - 1) != l ==> buf[i - 1] == 58)
  {
    hide AuthorityFrom, AuthorityTo, FoundAt, UrlNext, UrlFirst, HostNext, Accepted, Scan;
    InAuthority(buf, connect, i);
    OuterFieldKind(buf, connect, i);
    var a, at := AuthorityFrom(buf, connect, 0), FoundAt(buf, connect, |buf|);
    if OuterField(buf, connect, i) == Some(Host) {
      HostStep(HostScan(buf, a, at, i).value, buf[i]);
      if Label(buf, connect, i) == Some(Port) {
        assert i > a;
        assert OuterField(buf, connect, i - 1) == Some(Host);
        HostAliveBefore(buf, a, at, i, i - 1);
        HostStep(HostScan(buf, a, at, i - 1).value, buf[i - 1]);
      }
    }
  }
}
