/** Well-formed UTF-8: the nine rows of section 4 of RFC 3629, and the same language byte by byte. */
module Utf8Table {
  import opened Bytes

  predicate In(b: byte, lo: byte, hi: byte) { lo <= b <= hi }

  predicate IsCont(b: byte) { In(b, 0x80, 0xBF) }

  /** One legal sequence: a row of the table. */
  predicate Row(r: seq<byte>) {
    || (|r| == 1 && r[0] <= 0x7F)
    || (|r| == 2 && In(r[0], 0xC2, 0xDF) && IsCont(r[1]))
    || (|r| == 3 && r[0] == 0xE0 && In(r[1], 0xA0, 0xBF) && IsCont(r[2]))
    || (|r| == 3 && In(r[0], 0xE1, 0xEC) && IsCont(r[1]) && IsCont(r[2]))
    || (|r| == 3 && r[0] == 0xED && In(r[1], 0x80, 0x9F) && IsCont(r[2]))
    || (|r| == 3 && In(r[0], 0xEE, 0xEF) && IsCont(r[1]) && IsCont(r[2]))
    || (|r| == 4 && r[0] == 0xF0 && In(r[1], 0x90, 0xBF) && IsCont(r[2]) && IsCont(r[3]))
    || (|r| == 4 && In(r[0], 0xF1, 0xF3) && IsCont(r[1]) && IsCont(r[2]) && IsCont(r[3]))
    || (|r| == 4 && r[0] == 0xF4 && In(r[1], 0x80, 0x8F) && IsCont(r[2]) && IsCont(r[3]))
  }

  /** A concatenation of legal sequences. */
  ghost predicate Legal(s: seq<byte>)
    decreases |s|
  {
    s == [] || exists n | 0 < n <= |s| :: Row(s[..n]) && Legal(s[n..])
  }

  // ---- the same, one byte at a time ----

  /** How many bytes a first byte announces, itself included; 0 for a continuation byte. */
  function Len(b: byte): nat {
    if b < 0x80 then 1 else if b < 0xC0 then 0 else if b < 0xE0 then 2 else if b < 0xF0 then 3 else 4
  }

  /** What is left of the sequence under way after `n` bytes, counting the last of them; 1 between sequences. */
  function Left(s: seq<byte>, n: nat): nat
    requires n <= |s|
  {
    if n == 0 then 1
    else if Len(s[n - 1]) > 0 then Len(s[n - 1])
    else if Left(s, n - 1) > 0 then Left(s, n - 1) - 1 else 0
  }

  /** The restrictions on a second byte: no overlong forms, no surrogates, nothing above U+10FFFF. */
  predicate SecondOk(first: byte, b: byte) {
    && first != 0xC0 && first != 0xC1
    && (first == 0xE0 ==> b >= 0xA0) && (first == 0xED ==> b <= 0x9F)
    && (first == 0xF0 ==> b >= 0x90) && (first == 0xF4 ==> b <= 0x8F)
  }

  predicate Ok(s: seq<byte>, n: nat)
    requires n < |s|
  {
    && s[n] <= 0xF4
    && (if Len(s[n]) > 0 then Left(s, n) == 1 else Left(s, n) >= 2 && n > 0 && SecondOk(s[n - 1], s[n]))
  }

  predicate AllOk(s: seq<byte>, lo: nat, hi: nat)
    requires hi <= |s|
  {
    forall j | lo <= j < hi :: Ok(s, j)
  }

  /** A row is as long as its first byte says, and its later bytes are continuation bytes. */
  lemma RowShape(r: seq<byte>)
    requires Row(r)
    ensures |r| == Len(r[0]) && r[0] <= 0xF4 && forall i | 1 <= i < |r| :: IsCont(r[i])
    ensures |r| > 1 ==> SecondOk(r[0], r[1])
  {
  }

  lemma ShapeRow(r: seq<byte>)
    requires r != [] && |r| == Len(r[0]) && r[0] <= 0xF4 && (forall i | 1 <= i < |r| :: IsCont(r[i]))
    requires |r| > 1 ==> SecondOk(r[0], r[1])
    ensures Row(r)
  {
  }

  /** The bytes of one sequence that starts at `k`. */
  predicate SequenceAt(s: seq<byte>, k: nat) {
    && k < |s| && 0 < Len(s[k]) && k + Len(s[k]) <= |s| && s[k] <= 0xF4
    && (forall i | k < i < k + Len(s[k]) :: IsCont(s[i]))
    && (Len(s[k]) > 1 ==> SecondOk(s[k], s[k + 1]))
  }

  lemma SequenceIsRow(s: seq<byte>, k: nat, n: nat)
    requires k + n <= |s| && n > 0
    ensures Row(s[k..][..n]) <==> SequenceAt(s, k) && n == Len(s[k])
  {
    var r := s[k..][..n];
    assert r == s[k..k + n];
    if Row(r) {
      RowShape(r);
      forall i | k < i < k + n ensures IsCont(s[i]) { assert s[i] == r[i - k]; }
    }
    if SequenceAt(s, k) && n == Len(s[k]) {
      forall i | 1 <= i < |r| ensures IsCont(r[i]) { assert r[i] == s[k + i]; }
      ShapeRow(r);
    }
  }

  /** Inside a sequence the count goes down. */
  lemma {:induction false} Inside(s: seq<byte>, k: nat, n: nat)
    requires k + n <= |s| && 0 < n <= Len(s[k]) && forall i | k < i < k + n :: IsCont(s[i])
    ensures Left(s, k + n) == Len(s[k]) + 1 - n
    decreases n
  {
    if n > 1 { Inside(s, k, n - 1); }
  }

  /** A sequence passes, and leaves nothing open. */
  lemma SequenceOk(s: seq<byte>, k: nat)
    requires SequenceAt(s, k) && Left(s, k) == 1
    ensures AllOk(s, k, k + Len(s[k])) && Left(s, k + Len(s[k])) == 1
  {
    Inside(s, k, Len(s[k]));
    forall j | k <= j < k + Len(s[k]) ensures Ok(s, j) {
      if j > k { Inside(s, k, j - k); }
    }
  }

  /** If every byte passes and nothing is left open, a sequence starts here. */
  lemma OkSequence(s: seq<byte>, k: nat)
    requires k < |s| && Left(s, k) == 1 && AllOk(s, k, |s|) && Left(s, |s|) == 1
    ensures SequenceAt(s, k)
  {
    assert Ok(s, k);
    var len := Len(s[k]);
    assert Left(s, k + 1) == len;
    if len > 1 {
      Second(s, k);
      if len > 2 {
        Later(s, k, 2);
        if len > 3 { Later(s, k, 3); }
      }
    }
  }

  lemma Second(s: seq<byte>, k: nat)
    requires k < |s| && Len(s[k]) > 1 && AllOk(s, k, |s|) && Left(s, |s|) == 1
    ensures k + 1 < |s| && IsCont(s[k + 1]) && SecondOk(s[k], s[k + 1])
  {
    assert Left(s, k + 1) == Len(s[k]);
    assert k + 1 < |s|;
    assert Ok(s, k + 1);
  }

  lemma Later(s: seq<byte>, k: nat, n: nat)
    requires k + n <= |s| && 0 < n < Len(s[k]) && AllOk(s, k, |s|) && Left(s, |s|) == 1
    requires forall i | k < i < k + n :: IsCont(s[i])
    ensures k + n < |s| && IsCont(s[k + n])
  {
    Inside(s, k, n);
    assert k + n < |s|;
    assert Ok(s, k + n);
  }

  /** From a boundary on, passing byte by byte is the same as being legal. */
  lemma {:induction false} LegalFrom(s: seq<byte>, k: nat)
    requires k <= |s| && Left(s, k) == 1
    ensures (AllOk(s, k, |s|) && Left(s, |s|) == 1) <==> Legal(s[k..])
    decreases |s| - k
  {
    if AllOk(s, k, |s|) && Left(s, |s|) == 1 { OkIsLegal(s, k); }
    if Legal(s[k..]) { LegalIsOk(s, k); }
  }

  lemma {:induction false} OkIsLegal(s: seq<byte>, k: nat)
    requires k <= |s| && Left(s, k) == 1 && AllOk(s, k, |s|) && Left(s, |s|) == 1
    ensures Legal(s[k..])
    decreases |s| - k
  {
    if k < |s| {
      hide Row;
      OkSequence(s, k);
      var n := Len(s[k]);
      SequenceOk(s, k);
      OkIsLegal(s, k + n);
      SequenceIsRow(s, k, n);
      assert s[k..][n..] == s[k + n..];
    }
  }

  lemma {:induction false} LegalIsOk(s: seq<byte>, k: nat)
    requires k <= |s| && Left(s, k) == 1 && Legal(s[k..])
    ensures AllOk(s, k, |s|) && Left(s, |s|) == 1
    decreases |s| - k
  {
    if k < |s| {
      hide Row;
      var n :| 0 < n <= |s[k..]| && Row(s[k..][..n]) && Legal(s[k..][n..]);
      SequenceIsRow(s, k, n);
      SequenceOk(s, k);
      assert s[k..][n..] == s[k + n..];
      LegalIsOk(s, k + n);
    }
  }

  /** Being legal is passing byte by byte with nothing left open. */
  lemma LegalBytewise(s: seq<byte>)
    ensures (AllOk(s, 0, |s|) && Left(s, |s|) == 1) <==> Legal(s)
  {
    LegalFrom(s, 0);
    assert s[0..] == s;
  }
}
