/** The scalar UTF-8 validator, which also rejects most control characters. */
module Utf8Scalar {
  import opened Bytes
  import opened Utf8Table

  /** No ASCII byte other than TAB, LF, CR and the printable ones. */
  predicate Clean(s: seq<byte>) {
    forall i | 0 <= i < |s| :: s[i] < 0x80 ==> s[i] == 0x09 || s[i] == 0x0A || s[i] == 0x0D || 0x20 <= s[i] <= 0x7E
  }

  /** A legal sequence at the front can be taken off. */
  lemma LegalStep(s: seq<byte>, n: nat)
    requires 0 < n <= |s| && Row(s[..n])
    ensures Legal(s) <==> Legal(s[n..])
  {
    RowShape(s[..n]);
    if Legal(s) {
      var m :| 0 < m <= |s| && Row(s[..m]) && Legal(s[m..]);
      RowShape(s[..m]);
      assert s[..n][0] == s[..m][0];
    }
  }

  /** How many bytes the chain of tests in the loop accepts at the front of `s`; 0 if none. */
  function Accepted(s: seq<byte>): nat
    requires s != []
  {
    if s[0] == 0x09 || s[0] == 0x0A || s[0] == 0x0D || 0x20 <= s[0] <= 0x7E then 1
    else if |s| > 1 && 0xC2 <= s[0] <= 0xDF && 0x80 <= s[1] <= 0xBF then 2
    else if |s| > 2
            && ((s[0] == 0xE0 && 0xA0 <= s[1] <= 0xBF && 0x80 <= s[2] <= 0xBF)
                || (((0xE1 <= s[0] <= 0xEC) || s[0] == 0xEE || s[0] == 0xEF) && 0x80 <= s[1] <= 0xBF
                  && 0x80 <= s[2] <= 0xBF)
                || (s[0] == 0xED && 0x80 <= s[1] <= 0x9F && 0x80 <= s[2] <= 0xBF)) then 3
    else if |s| > 3
            && ((s[0] == 0xF0 && 0x90 <= s[1] <= 0xBF && 0x80 <= s[2] <= 0xBF && 0x80 <= s[3] <= 0xBF)
                || (0xF1 <= s[0] <= 0xF3 && 0x80 <= s[1] <= 0xBF && 0x80 <= s[2] <= 0xBF && 0x80 <= s[3] <= 0xBF)
                || (s[0] == 0xF4 && 0x80 <= s[1] <= 0x8F && 0x80 <= s[2] <= 0xBF && 0x80 <= s[3] <= 0xBF)) then 4
    else 0
  }

  lemma AcceptedRow(s: seq<byte>)
    requires s != [] && Accepted(s) > 0
    ensures Accepted(s) <= |s| && Row(s[..Accepted(s)]) && Clean(s[..Accepted(s)])
  {
  }

  /** If no test accepts, no legal sequence without control characters starts here. */
  lemma NothingAccepted(s: seq<byte>)
    requires s != [] && Accepted(s) == 0
    ensures !(Legal(s) && Clean(s))
  {
    forall n | 0 < n <= |s| ensures !(Row(s[..n]) && Clean(s)) {
      NoRow(s, n);
    }
  }

  lemma NoRow(s: seq<byte>, n: nat)
    requires 0 < n <= |s| && Accepted(s) == 0
    ensures !(Row(s[..n]) && Clean(s))
  {
    var r := s[..n];
    assert forall i | 0 <= i < n :: r[i] == s[i];
  }

  /** The scalar `validate_utf8_fast`: legal sequences and no control characters but TAB, LF and CR. */
  method Validate(src: seq<byte>) returns (ok: bool)
    ensures ok <==> Legal(src) && Clean(src)
  {
    hide Legal, Row, Accepted;
    var at := 0;
    assert src[0..] == src;
    while at < |src|
      invariant at <= |src| && (Legal(src) <==> Legal(src[at..])) && Clean(src[..at])
    {
      var n := Accepted(src[at..]);
      if n == 0 {
        NothingAccepted(src[at..]);
        if Clean(src) { assert Clean(src[at..]); }
        return false;
      }
      AcceptedRow(src[at..]);
      LegalStep(src[at..], n);
      assert src[at..][n..] == src[at + n..];
      assert src[..at + n] == src[..at] + src[at..][..n];
      at := at + n;
    }
    assert src[..at] == src && src[at..] == [];
    LegalEmpty();
    return true;
  }

  lemma LegalEmpty()
    ensures Legal([])
  {
  }
}
