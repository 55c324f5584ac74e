/** The vectorised UTF-8 validator: sixteen bytes at a time, with counts carried from block to block. */
module Utf8Simd {
  import opened Bytes
  import opened Simd
  import opened Utf8Table

  /** What a block leaves for the next one. */
  datatype Processed = Processed(raw: Register, nibbles: Register, carried: Register)

  function HighNibbles(bytes: Register): (r: Register)
    ensures forall i | 0 <= i < 16 :: r[i] == bytes[i] / 16
  {
    MaskLowNibbles(ShiftRight4(bytes))
  }

  function ContinuationLengths(nibbles: Register): Register {
    Shuffle([1, 1, 1, 1, 1, 1, 1, 1, 0, 0, 0, 0, 2, 2, 3, 4], nibbles)
  }

  /** The first carry: what the byte before announced, less one. */
  function Right1(lengths: Register, carries: Register): Register {
    SubsU8(AlignRight(lengths, carries, 15), Set1(1))
  }

  function Sum(lengths: Register, carries: Register): Register { Add8(lengths, Right1(lengths, carries)) }

  function CarryContinuations(lengths: Register, carries: Register): Register {
    var sum := Sum(lengths, carries);
    Add8(sum, SubsU8(AlignRight(sum, carries, 14), Set1(2)))
  }

  function CheckSmallerThanF4(current: Register, err: Register): Register {
    Or(err, SubsU8(current, Set1(0xF4)))
  }

  function CheckContinuations(lengths: Register, carries: Register, err: Register): Register {
    Or(err, CmpEq8(CmpGtS8(carries, lengths), CmpGtS8(lengths, Set1(0))))
  }

  function CheckFirstContinuationMax(current: Register, off1: Register, err: Register): Register {
    var badED := And(CmpGtS8(current, Set1(0x9F)), CmpEq8(off1, Set1(0xED)));
    var badF4 := And(CmpGtS8(current, Set1(0x8F)), CmpEq8(off1, Set1(0xF4)));
    Or(err, Or(badED, badF4))
  }

  const INITIAL_MINS: Register :=
    [0x80, 0x80, 0x80, 0x80, 0x80, 0x80, 0x80, 0x80, 0x80, 0x80, 0x80, 0x80, 0xC2, 0x80, 0xE1, 0xF1]
  const SECOND_MINS: Register :=
    [0x80, 0x80, 0x80, 0x80, 0x80, 0x80, 0x80, 0x80, 0x80, 0x80, 0x80, 0x80, 127, 127, 0xA0, 0x90]

  function CheckOverlong(current: Register, off1: Register, nibbles: Register, previous: Register, err: Register)
    : Register
  {
    var off1Nibbles := AlignRight(nibbles, previous, 15);
    var initialUnder := CmpGtS8(Shuffle(INITIAL_MINS, off1Nibbles), off1);
    var secondUnder := CmpGtS8(Shuffle(SECOND_MINS, off1Nibbles), current);
    Or(err, And(initialUnder, secondUnder))
  }

  /** `checkUTF8Bytes`: the block's legacy, and the errors so far. */
  function CheckBlock(current: Register, previous: Processed, err: Register): (Processed, Register) {
    var nibbles := HighNibbles(current);
    var lengths := ContinuationLengths(nibbles);
    var carried := CarryContinuations(lengths, previous.carried);
    var off1 := AlignRight(current, previous.raw, 15);
    var e1 := CheckSmallerThanF4(current, err);
    var e2 := CheckContinuations(lengths, carried, e1);
    var e3 := CheckFirstContinuationMax(current, off1, e2);
    var e4 := CheckOverlong(current, off1, nibbles, previous.nibbles, e3);
    (Processed(current, nibbles, carried), e4)
  }

  // ---- one lane ----

  function Sub(a: nat, b: nat): nat { if a > b then a - b else 0 }

  /** The tests on two neighbouring bytes. */
  predicate PairOk(p: byte, c: byte) {
    && !(p == 0xED && Signed(c) > Signed(0x9F)) && !(p == 0xF4 && Signed(c) > Signed(0x8F))
    && !(Signed(INITIAL_MINS[p / 16]) > Signed(p) && Signed(SECOND_MINS[p / 16]) > Signed(c))
  }

  /** A second byte passes them exactly when the table allows it after the first. */
  lemma PairSecond(p: byte, c: byte)
    requires IsCont(c)
    ensures PairOk(p, c) <==> SecondOk(p, c)
  {
  }

  lemma PairFirst(p: byte, c: byte)
    requires p < 0xC0
    ensures PairOk(p, c)
  {
  }

  lemma LengthsAre(current: Register, k: nat)
    requires k < 16
    ensures ContinuationLengths(HighNibbles(current))[k] == Len(current[k])
  {
    var n := current[k] / 16;
    assert HighNibbles(current)[k] == n && n % 16 == n;
  }

  /** The byte before lane `k`. */
  function PrevByte(current: Register, previous: Processed, k: nat): byte
    requires k < 16
  {
    if k == 0 then previous.raw[15] else current[k - 1]
  }

  predicate LaneGood(current: Register, previous: Processed, carried: Register, k: nat)
    requires k < 16
  {
    var len := Len(current[k]);
    && current[k] <= 0xF4
    && ((Signed(carried[k]) > len) != (len > 0))
    && PairOk(PrevByte(current, previous, k), current[k])
  }

  lemma LaneSmaller(current: Register, err: Register, k: nat)
    requires k < 16
    ensures CheckSmallerThanF4(current, err)[k] == 0 <==> err[k] == 0 && current[k] <= 0xF4
  {
    hide OrByte;
  }

  lemma LaneContinuations(lengths: Register, carries: Register, err: Register, k: nat)
    requires k < 16 && lengths[k] < 128
    ensures CheckContinuations(lengths, carries, err)[k] == 0
            <==> err[k] == 0 && ((Signed(carries[k]) > lengths[k]) != (lengths[k] > 0))
  {
    hide OrByte;
  }

  lemma LaneFirstMax(current: Register, off1: Register, err: Register, k: nat)
    requires k < 16
    ensures CheckFirstContinuationMax(current, off1, err)[k] == 0
            <==> err[k] == 0 && !(off1[k] == 0xED && Signed(current[k]) > Signed(0x9F))
                 && !(off1[k] == 0xF4 && Signed(current[k]) > Signed(0x8F))
  {
    hide OrByte, AndByte;
  }

  lemma LaneOverlong(current: Register, off1: Register, nibbles: Register, previous: Register, err: Register, k: nat)
    requires k < 16 && AlignRight(nibbles, previous, 15)[k] == off1[k] / 16
    ensures CheckOverlong(current, off1, nibbles, previous, err)[k] == 0
            <==> err[k] == 0
                 && !(Signed(INITIAL_MINS[off1[k] / 16]) > Signed(off1[k])
                   && Signed(SECOND_MINS[off1[k] / 16]) > Signed(current[k]))
  {
    hide OrByte, AndByte, Signed, INITIAL_MINS, SECOND_MINS;
    var n := off1[k] / 16;
    assert n % 16 == n && n < 128;
  }

  /** Each lane reports an error exactly when it had one or is not good. */
  lemma LaneErrors(current: Register, previous: Processed, err: Register, k: nat)
    requires k < 16 && previous.nibbles[15] == previous.raw[15] / 16
    ensures var (p, e) := CheckBlock(current, previous, err);
            e[k] == 0 <==> err[k] == 0 && LaneGood(current, previous, p.carried, k)
  {
    hide CheckSmallerThanF4, CheckContinuations, CheckFirstContinuationMax, CheckOverlong, CarryContinuations,
      ContinuationLengths, HighNibbles, Signed, Len, AlignRight;
    var nibbles := HighNibbles(current);
    var lengths := ContinuationLengths(nibbles);
    var carried := CarryContinuations(lengths, previous.carried);
    var off1 := AlignRight(current, previous.raw, 15);
    var e1 := CheckSmallerThanF4(current, err);
    var e2 := CheckContinuations(lengths, carried, e1);
    var e3 := CheckFirstContinuationMax(current, off1, e2);
    LengthsAre(current, k);
    LenSmall(current[k]);
    LaneSmaller(current, err, k);
    LaneContinuations(lengths, carried, e1, k);
    LaneFirstMax(current, off1, e2, k);
    LaneOverlong(current, off1, nibbles, previous.nibbles, e3, k);
  }

  lemma LenSmall(b: byte)
    ensures Len(b) <= 4
  {
  }

  // ---- the carried counts ----

  /** What lane `k` receives from the bytes before it. */
  function Excess(lengths: Register, carries: Register, k: nat): nat
    requires k < 16
  {
    Sub(if k == 0 then carries[15] else lengths[k - 1], 1)
    + Sub(if k == 0 then carries[14] else if k == 1 then carries[15]
      else lengths[k - 2] + Sub(if k == 2 then carries[15] else lengths[k - 3], 1), 2)
  }

  predicate Small(lengths: Register, carries: Register) {
    carries[14] <= 4 && carries[15] <= 4 && forall i | 0 <= i < 16 :: lengths[i] <= 4
  }

  lemma SumIs(lengths: Register, carries: Register, k: nat)
    requires k < 16 && Small(lengths, carries)
    ensures Sum(lengths, carries)[k] == lengths[k] + Sub(if k == 0 then carries[15] else lengths[k - 1], 1)
  {
    hide AddByte;
    var right := Right1(lengths, carries)[k];
    assert right == Sub(if k == 0 then carries[15] else lengths[k - 1], 1);
  }

  lemma CarriedIs(lengths: Register, carries: Register, k: nat)
    requires k < 16 && Small(lengths, carries)
    ensures CarryContinuations(lengths, carries)[k] == lengths[k] + Excess(lengths, carries, k) <= 13
  {
    hide Sum, AddByte;
    SumIs(lengths, carries, k);
    var sum := Sum(lengths, carries);
    if k >= 2 { SumIs(lengths, carries, k - 2); }
    var right2 := SubsU8(AlignRight(sum, carries, 14), Set1(2));
    assert right2[k] == Sub(if k < 2 then carries[14 + k] else sum[k - 2], 2);
  }

  // ---- a block of a stream ----

  lemma {:induction false} LeftRange(s: seq<byte>, n: nat)
    requires n <= |s| && AllOk(s, 0, n)
    ensures 1 <= Left(s, n) <= 4
  {
    if n > 0 {
      assert Ok(s, n - 1);
      LeftRange(s, n - 1);
    }
  }

  /** What is known between two blocks: the last byte, and the counts if no byte was wrong so far. */
  predicate Linked(s: seq<byte>, i: nat, previous: Processed)
    requires i <= |s|
  {
    && previous.nibbles[15] == previous.raw[15] / 16
    && previous.raw[15] == (if i == 0 then 0 else s[i - 1])
    && (if i == 0 then previous.carried[14] == previous.carried[15] == 0
        else AllOk(s, 0, i) ==> previous.carried[15] == Left(s, i) && previous.carried[14] == Left(s, i - 1))
    && (AllOk(s, 0, i) ==> forall k | 0 <= k < 16 :: previous.carried[k] <= 9)
  }

  function LengthsOf(current: Register): Register { ContinuationLengths(HighNibbles(current)) }

  /** Before lanes 1 and later, what is received is what is left of the sequence under way. */
  lemma ExcessIs(s: seq<byte>, i: nat, previous: Processed, k: nat)
    requires i + 16 <= |s| && k < 16 && Linked(s, i, previous) && AllOk(s, 0, i + k)
    ensures var e := Excess(LengthsOf(s[i..i + 16]), previous.carried, k);
            if k == 0 then e > 0 <==> Left(s, i) > 1 else e == Left(s, i + k) - 1
  {
    hide LengthsOf, Len;
    var n, lengths := i + k, LengthsOf(s[i..i + 16]);
    LeftRange(s, n);
    if k >= 1 { LaneLength(s, i, k - 1); PastByte(s, n - 1); }
    if k >= 2 { LaneLength(s, i, k - 2); PastByte(s, n - 2); }
    if k >= 3 { LaneLength(s, i, k - 3); PastByte(s, n - 3); }
    if k == 0 && i > 0 { PastByte(s, i - 1); }
  }

  lemma LaneLength(s: seq<byte>, i: nat, k: nat)
    requires i + 16 <= |s| && k < 16
    ensures LengthsOf(s[i..i + 16])[k] == Len(s[i + k])
  {
    LengthsAre(s[i..i + 16], k);
  }

  /** A byte that passed: a first byte follows a complete sequence, any other continues one. */
  lemma PastByte(s: seq<byte>, n: nat)
    requires n < |s| && AllOk(s, 0, n + 1)
    ensures 1 <= Left(s, n) <= 4 && 1 <= Left(s, n + 1) <= 4
    ensures if Len(s[n]) > 0 then Left(s, n) == 1 && Left(s, n + 1) == Len(s[n]) else Left(s, n + 1) == Left(s, n) - 1
  {
    assert Ok(s, n);
    assert AllOk(s, 0, n);
    LeftRange(s, n);
    LeftRange(s, n + 1);
  }

  /** A lane is good exactly when its byte passes. */
  lemma LaneOk(s: seq<byte>, i: nat, previous: Processed, k: nat)
    requires i + 16 <= |s| && k < 16 && Linked(s, i, previous) && AllOk(s, 0, i + k)
    ensures var current := s[i..i + 16];
            LaneGood(current, previous, CarryContinuations(LengthsOf(current), previous.carried), k) <==> Ok(s, i + k)
  {
    hide Excess, CarryContinuations, LengthsOf, PairOk, Len, SecondOk;
    var current, n := s[i..i + 16], i + k;
    BlockSmall(s, i, previous);
    CarriedIs(LengthsOf(current), previous.carried, k);
    ExcessIs(s, i, previous, k);
    LaneLength(s, i, k);
    LenSmall(s[n]);
    LeftRange(s, n);
    var p := PrevByte(current, previous, k);
    assert p == if n == 0 then 0 else s[n - 1];
    if Len(s[n]) > 0 {
      if Left(s, n) == 1 {
        if n > 0 { BoundaryByte(s, n); }
        PairFirst(p, s[n]);
      }
    } else {
      LenZero(s[n]);
      PairSecond(p, s[n]);
    }
  }

  lemma LenZero(b: byte)
    requires Len(b) == 0
    ensures IsCont(b)
  {
  }

  /** Between sequences the byte before is not the first byte of a longer one. */
  lemma BoundaryByte(s: seq<byte>, n: nat)
    requires n <= |s| && Left(s, n) == 1 && n > 0
    ensures s[n - 1] < 0xC0
  {
  }

  lemma BlockSmall(s: seq<byte>, i: nat, previous: Processed)
    requires i + 16 <= |s| && Linked(s, i, previous) && AllOk(s, 0, i)
    ensures Small(LengthsOf(s[i..i + 16]), previous.carried)
  {
    hide LengthsOf, Len;
    var lengths := LengthsOf(s[i..i + 16]);
    forall k | 0 <= k < 16 ensures lengths[k] <= 4 {
      LaneLength(s, i, k);
      LenSmall(s[i + k]);
    }
    if i > 0 { PastByte(s, i - 1); }
  }

  lemma {:induction false} LanesOk(s: seq<byte>, i: nat, previous: Processed, k: nat)
    requires i + 16 <= |s| && k <= 16 && Linked(s, i, previous) && AllOk(s, 0, i)
    requires var current := s[i..i + 16];
             forall j | 0 <= j < k :: LaneGood(current, previous,
                 CarryContinuations(LengthsOf(current), previous.carried), j)
    ensures AllOk(s, 0, i + k)
    decreases k
  {
    hide LaneGood, CarryContinuations, LengthsOf, Linked;
    if k > 0 {
      LanesOk(s, i, previous, k - 1);
      LaneOk(s, i, previous, k - 1);
      var current := s[i..i + 16];
      assert LaneGood(current, previous, CarryContinuations(LengthsOf(current), previous.carried), k - 1);
    }
  }

  /** The counts a block leaves behind. */
  lemma CarriedLane(s: seq<byte>, i: nat, previous: Processed, k: nat)
    requires i + 16 <= |s| && k < 16 && Linked(s, i, previous) && AllOk(s, 0, i + 16)
    ensures var c := CarryContinuations(LengthsOf(s[i..i + 16]), previous.carried)[k];
            c <= 9 && (k > 0 ==> c == Left(s, i + k + 1))
  {
    hide CarryContinuations, LengthsOf, Len;
    BlockSmall(s, i, previous);
    CarriedIs(LengthsOf(s[i..i + 16]), previous.carried, k);
    ExcessIs(s, i, previous, k);
    LaneLength(s, i, k);
    PastByte(s, i + k);
    LenSmall(s[i + k]);
  }

  /** A block finds an error exactly when one of its bytes does not pass. */
  lemma BlockOk(s: seq<byte>, i: nat, previous: Processed, err: Register)
    requires i + 16 <= |s| && Linked(s, i, previous) && (TestZero(err) <==> AllOk(s, 0, i))
    ensures var (p, e) := CheckBlock(s[i..i + 16], previous, err);
            (TestZero(e) <==> AllOk(s, 0, i + 16)) && Linked(s, i + 16, p)
  {
    hide LaneGood, CarryContinuations, HighNibbles, ContinuationLengths, CheckSmallerThanF4, CheckContinuations,
      CheckFirstContinuationMax, CheckOverlong;
    var current := s[i..i + 16];
    var (p, e) := CheckBlock(current, previous, err);
    forall k | 0 <= k < 16 ensures e[k] == 0 <==> err[k] == 0 && LaneGood(current, previous, p.carried, k) {
      LaneErrors(current, previous, err, k);
    }
    if TestZero(e) { LanesOk(s, i, previous, 16); }
    if AllOk(s, 0, i + 16) {
      forall k | 0 <= k < 16 ensures LaneGood(current, previous, p.carried, k) && p.carried[k] <= 9 {
        LaneOk(s, i, previous, k);
        CarriedLane(s, i, previous, k);
      }
      CarriedLane(s, i, previous, 14);
      CarriedLane(s, i, previous, 15);
    }
  }

  // ---- the whole input ----

  /** Zero bytes after the input, up to a full block. */
  function Padded(src: seq<byte>): seq<byte> { src + seq((16 - |src| % 16) % 16, _ => 0) }

  lemma {:induction false} LeftPrefix(s: seq<byte>, t: seq<byte>, n: nat)
    requires n <= |s| <= |t| && s == t[..|s|]
    ensures Left(s, n) == Left(t, n)
  {
    if n > 0 { LeftPrefix(s, t, n - 1); }
  }

  lemma OkPrefix(s: seq<byte>, t: seq<byte>)
    requires |s| <= |t| && s == t[..|s|]
    ensures AllOk(s, 0, |s|) <==> AllOk(t, 0, |s|)
  {
    forall j | 0 <= j < |s| ensures Ok(s, j) <==> Ok(t, j) { LeftPrefix(s, t, j); }
  }

  lemma {:induction false} ZerosPass(t: seq<byte>, n: nat, m: nat)
    requires n <= m <= |t| && Left(t, n) == 1 && forall i | n <= i < m :: t[i] == 0
    ensures AllOk(t, n, m) && Left(t, m) == 1
    decreases m - n
  {
    if n < m { ZerosPass(t, n, m - 1); }
  }

  lemma ZeroOk(t: seq<byte>, n: nat)
    requires n < |t| && t[n] == 0
    ensures Ok(t, n) <==> Left(t, n) == 1
  {
  }

  /** Zeros after the input pass exactly when the input leaves nothing open. */
  lemma PaddedOk(src: seq<byte>)
    requires |src| % 16 != 0
    ensures AllOk(Padded(src), 0, |Padded(src)|) <==> AllOk(src, 0, |src|) && Left(src, |src|) == 1
  {
    var t, n := Padded(src), |src|;
    OkPrefix(src, t);
    LeftPrefix(src, t, n);
    hide Ok, Left;
    ZeroOk(t, n);
    if AllOk(t, 0, n) && Left(t, n) == 1 { ZerosPass(t, n, |t|); }
  }

  const LAST_ONLY: Register := [9, 9, 9, 9, 9, 9, 9, 9, 9, 9, 9, 9, 9, 9, 9, 1]

  lemma LastCheck(src: seq<byte>, previous: Processed, err: Register)
    requires Linked(src, |src|, previous) && (TestZero(err) <==> AllOk(src, 0, |src|))
    ensures TestZero(Or(CmpGtS8(previous.carried, LAST_ONLY), err)) <==> AllOk(src, 0, |src|) && Left(src, |src|) == 1
  {
    hide OrByte;
    var over := CmpGtS8(previous.carried, LAST_ONLY);
    var e := Or(over, err);
    forall k | 0 <= k < 16 ensures e[k] == 0 <==> over[k] == 0 && err[k] == 0 { }
    if AllOk(src, 0, |src|) {
      LeftRange(src, |src|);
      forall k | 0 <= k < 15 ensures over[k] == 0 { }
      assert over[15] == 0 <==> previous.carried[15] <= 1;
    }
    if TestZero(e) { forall k | 0 <= k < 16 ensures err[k] == 0 { assert e[k] == 0; } }
  }

  /** `validate_utf8_fast`: true exactly for a concatenation of legal sequences. */
  method Validate(src: seq<byte>) returns (ok: bool)
    ensures ok <==> Legal(src)
  {
    hide CheckBlock, Linked, AllOk, Left, Legal, Padded;
    LegalBytewise(src);
    ghost var t := Padded(src);
    var i := 0;
    var err := Set1(0);
    var previous := Processed(Set1(0), Set1(0), Set1(0));
    PaddedStart(src, previous, err);
    while i + 16 <= |src|
      invariant i % 16 == 0 && i <= |src| <= |t| && Linked(t, i, previous) && (TestZero(err) <==> AllOk(t, 0, i))
    {
      BlockOk(t, i, previous, err);
      assert src[i..i + 16] == t[i..i + 16];
      var (p, e) := CheckBlock(src[i..i + 16], previous, err);
      previous, err := p, e;
      i := i + 16;
    }
    if i < |src| {
      var buffer := seq(16, k requires 0 <= k => if i + k < |src| then src[i + k] else 0);
      PaddedEnd(src, i);
      BlockOk(t, i, previous, err);
      PaddedOk(src);
      var (p, e) := CheckBlock(buffer, previous, err);
      err := e;
    } else {
      PaddedFull(src);
      LastCheck(src, previous, err);
      err := Or(CmpGtS8(previous.carried, LAST_ONLY), err);
    }
    return TestZero(err);
  }

  lemma PaddedStart(src: seq<byte>, previous: Processed, err: Register)
    requires previous == Processed(Set1(0), Set1(0), Set1(0)) && err == Set1(0)
    ensures |src| <= |Padded(src)| && src == Padded(src)[..|src|]
    ensures Linked(Padded(src), 0, previous) && TestZero(err) && AllOk(Padded(src), 0, 0)
  {
  }

  lemma PaddedEnd(src: seq<byte>, i: nat)
    requires i % 16 == 0 && i < |src| < i + 16
    ensures |src| % 16 != 0 && |Padded(src)| == i + 16
    ensures Padded(src)[i..i + 16] == seq(16, k requires 0 <= k => if i + k < |src| then src[i + k] else 0)
  {
  }

  lemma PaddedFull(src: seq<byte>)
    requires |src| % 16 == 0
    ensures Padded(src) == src
  {
  }
}
