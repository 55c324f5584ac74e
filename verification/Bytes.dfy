/** Bytes and the few sequence helpers every other module shares. */
module Bytes {

  type byte = x: int | 0 <= x < 256

  datatype Option<+T> = None | Some(value: T)

  /** Concatenation of the pieces a stream is cut into. */
  function Concat<T>(pieces: seq<seq<T>>): seq<T> {
    if pieces == [] then [] else pieces[0] + Concat(pieces[1..])
  }

  const TWO_32: nat := 0x1_0000_0000
  const TWO_64: nat := 0x1_0000_0000_0000_0000

  /** The bytes `s` stand in `data` at `pt`. */
  predicate Stands(data: seq<byte>, pt: nat, s: seq<byte>) {
    pt + |s| <= |data| && data[pt..pt + |s|] == s
  }

  lemma StandsSplit(data: seq<byte>, pt: nat, a: seq<byte>, b: seq<byte>)
    requires Stands(data, pt, a + b)
    ensures Stands(data, pt, a) && Stands(data, pt + |a|, b)
  {
    var s := data[pt..pt + |a| + |b|];
    assert s[..|a|] == a && s[|a|..] == b;
  }

  lemma StandsIn(data: seq<byte>, pt: nat, s: seq<byte>)
    requires Stands(data, pt, s)
    ensures pt + |s| <= |data|
  {
  }

  lemma StandsAt(data: seq<byte>, pt: nat, s: seq<byte>, k: nat)
    requires Stands(data, pt, s) && k < |s|
    ensures data[pt + k] == s[k]
  {
    assert data[pt + k] == data[pt..pt + |s|][k];
  }

  lemma SliceOfSlice(s: seq<byte>, a: nat, b: nat, i: nat, j: nat)
    requires a <= b <= |s| && i <= j <= b - a
    ensures s[a..b][i..j] == s[a + i..a + j]
  {
    var t := s[a..b];
    forall k | 0 <= k < j - i ensures t[i..j][k] == s[a + i..a + j][k] {
      assert t[i + k] == s[a + i + k];
    }
  }
}
