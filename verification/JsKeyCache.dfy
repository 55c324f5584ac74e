/** The cache of decoded keys, and the text a key gets through it. */
module JsKeyCache {
  import opened Bytes
  import opened JsUtf8
  import opened JsUtf8Theorems
  import opened JsDecode

  datatype Record = Record(bytes: seq<byte>, str: text)

  // ---- a row of records ----

  /** No key is filed twice. */
  predicate Distinct(records: seq<Record>) {
    forall j, k | 0 <= j < k < |records| :: records[j].bytes != records[k].bytes
  }

  /** A key is filed with a text it has at some place. */
  ghost predicate Made(r: Record) { exists t: seq<byte> :: r.str == Decode(r.bytes + t, 0, |r.bytes|) }

  /** The records of the keys of `n` bytes. */
  ghost predicate RowOk(records: seq<Record>, n: nat) {
    Distinct(records) && forall k | 0 <= k < |records| :: |records[k].bytes| == n && Made(records[k])
  }

  function Lookup(records: seq<Record>, key: seq<byte>): Option<text> {
    if records == [] then None else if records[0].bytes == key then Some(records[0].str) else Lookup(records[1..], key)
  }

  lemma {:induction false} LookupIs(records: seq<Record>, key: seq<byte>)
    ensures
      match Lookup(records, key)
      case Some(str) => exists k | 0 <= k < |records| :: records[k] == Record(key, str)
      case None => forall k | 0 <= k < |records| :: records[k].bytes != key
    decreases |records|
  {
    if records != [] && records[0].bytes != key {
      LookupIs(records[1..], key);
      assert forall k | 0 < k < |records| :: records[k] == records[1..][k - 1];
    } else if records != [] {
      assert records[0] == Record(key, records[0].str);
    }
  }

  /** The first record of a key is the only one. */
  lemma LookupAt(records: seq<Record>, key: seq<byte>, k: nat)
    requires Distinct(records) && k < |records| && records[k].bytes == key
    ensures Lookup(records, key) == Some(records[k].str)
  {
    LookupIs(records, key);
  }

  /** The text a key of `n` bytes gets: the one it is filed with, or the one it has where it stands. */
  function KeyText(records: seq<Record>, bytes: seq<byte>, offset: nat, n: nat): text
    requires offset + n <= |bytes|
  {
    match Lookup(records, bytes[offset..offset + n])
    case Some(str) => str
    case None => Decode(bytes, offset, offset + n)
  }

  lemma MadeHere(bytes: seq<byte>, offset: nat, n: nat)
    requires offset + n <= |bytes|
    ensures Made(Record(bytes[offset..offset + n], Decode(bytes, offset, offset + n)))
  {
    hide Decode;
    var key, t := bytes[offset..offset + n], bytes[offset + n..];
    assert bytes[offset..] == key + t;
    DecodeBehind(bytes, offset, 0, n);
  }

  /** A whole key has one text, wherever it stands and whatever it is filed with. */
  lemma WholeKey(records: seq<Record>, bytes: seq<byte>, offset: nat, key: seq<byte>)
    requires RowOk(records, |key|) && Stands(bytes, offset, key) && Whole(key, 0, |key|)
    ensures KeyText(records, bytes, offset, |key|) == Decode(bytes, offset, offset + |key|) == Decode(key, 0, |key|)
  {
    hide Decode, Whole;
    var n := |key|;
    assert bytes[offset..offset + n] == key && key[0..n] == key;
    WholeIsLocal(bytes, offset, offset + n, key, 0);
    LookupIs(records, key);
    var found := Lookup(records, key);
    if found.Some? {
      var k :| 0 <= k < |records| && records[k] == Record(key, found.value);
      var t: seq<byte> :| found.value == Decode(key + t, 0, n);
      LocalExactlyWhenWhole(key);
    }
  }

  /**
    * Exactly which keys get the text they have where they stand, wherever that is and whatever the cache has seen:
    * those whose last sequence does not reach behind their end.
    */
  lemma KeyExactly(key: seq<byte>)
    requires key != []
    ensures Whole(key, 0, |key|)
       <==> forall records: seq<Record>, bytes: seq<byte>, offset: nat |
              RowOk(records, |key|) && Stands(bytes, offset, key) ::
              KeyText(records, bytes, offset, |key|) == Decode(bytes, offset, offset + |key|)
  {
    hide Decode, Whole, RowOk;
    if Whole(key, 0, |key|) {
      forall records: seq<Record>, bytes: seq<byte>, offset: nat | RowOk(records, |key|) && Stands(bytes, offset, key)
        ensures KeyText(records, bytes, offset, |key|) == Decode(bytes, offset, offset + |key|)
      {
        WholeKey(records, bytes, offset, key);
      }
    } else {
      LocalExactlyWhenWhole(key);
      var t: seq<byte> :| Decode(key + t, 0, |key|) != Decode(key, 0, |key|);
      var records := [Record(key, Decode(key + t, 0, |key|))];
      OneRecord(key, t);
      assert Stands(key, 0, key) && key[0..|key|] == key;
      assert KeyText(records, key, 0, |key|) != Decode(key, 0, |key|);
    }
  }

  lemma OneRecord(key: seq<byte>, t: seq<byte>)
    ensures RowOk([Record(key, Decode(key + t, 0, |key|))], |key|)
  {
    hide Decode;
  }

  /** `CachedKeyDecoder` */
  class KeyCache {
    const maxKeyLength: nat
    const maxLengthPerKey: nat
    var hit: nat
    var miss: nat
    var caches: seq<seq<Record>>

    /** Records are filed by length, no key is filed twice, and each has a text of its key. */
    ghost predicate Valid()
      reads this
    {
      |caches| == maxKeyLength && forall l | 0 <= l < |caches| :: RowOk(caches[l], l + 1)
    }

    constructor (maxKeyLength: nat, maxLengthPerKey: nat)
      ensures Valid() && this.maxKeyLength == maxKeyLength && this.maxLengthPerKey == maxLengthPerKey
      ensures forall l | 0 <= l < maxKeyLength :: caches[l] == []
    {
      this.maxKeyLength, this.maxLengthPerKey := maxKeyLength, maxLengthPerKey;
      hit, miss := 0, 0;
      caches := seq(maxKeyLength, _ => []);
    }

    /** `find`; every record is compared byte by byte. */
    method Find(bytes: seq<byte>, inputOffset: nat, byteLength: nat) returns (found: Option<text>)
      requires Valid() && 0 < byteLength <= maxKeyLength && inputOffset + byteLength <= |bytes|
      ensures found == Lookup(caches[byteLength - 1], bytes[inputOffset..inputOffset + byteLength])
    {
      var records := caches[byteLength - 1];
      ghost var key := bytes[inputOffset..inputOffset + byteLength];
      for i := 0 to |records|
        invariant forall k | 0 <= k < i :: records[k].bytes != key
      {
        var recordBytes := records[i].bytes;
        var j := 0;
        while j < byteLength && recordBytes[j] == bytes[inputOffset + j]
          invariant 0 <= j <= byteLength
          invariant forall k | 0 <= k < j :: recordBytes[k] == bytes[inputOffset + k]
        {
          j := j + 1;
        }
        if j == byteLength {
          assert recordBytes == key;
          LookupAt(records, key, i);
          return Some(records[i].str);
        }
        assert key[j] != recordBytes[j];
      }
      LookupIs(records, key);
      return None;
    }

    /** `store`; a full row gives up the record at an arbitrary place `at`. */
    method Store(bytes: seq<byte>, value: text) returns (ghost at: nat)
      requires Valid() && 0 < |bytes| <= maxKeyLength && Lookup(caches[|bytes| - 1], bytes).None?
      requires Made(Record(bytes, value))
      modifies this`caches
      ensures Valid()
      ensures
        var l, record := |bytes| - 1, Record(bytes, value);
        var was := old(caches[l]);
        && (if |was| < maxLengthPerKey || was == [] then at == |was| else at < |was|)
        && caches == old(caches)[l := if at == |was| then was + [record] else was[at := record]]
    {
      hide Made;
      var l := |bytes| - 1;
      var records := caches[l];
      var record := Record(bytes, value);
      LookupIs(records, bytes);
      at := |records|;
      if |records| >= maxLengthPerKey && |records| > 0 {
        var k: nat :| k < |records|;
        at, records := k, records[k := record];
      } else {
        records := records + [record];
      }
      assert RowOk(records, l + 1);
      caches := caches[l := records];
    }

    /**
      * `decode`.  A key that is cached gets the text it got then; otherwise it is decoded where it stands, and cached.
      * Whatever was decoded before and whatever was given up, a whole key gets its own text.
      */
    method DecodeKey(bytes: seq<byte>, inputOffset: nat, byteLength: nat) returns (str: text)
      requires Valid() && 0 < byteLength <= maxKeyLength && inputOffset + byteLength <= |bytes|
      modifies this
      ensures Valid()
      ensures str == old(KeyText(caches[byteLength - 1], bytes, inputOffset, byteLength))
      ensures
        var key, records := bytes[inputOffset..inputOffset + byteLength], old(caches[byteLength - 1]);
        && (Whole(key, 0, byteLength) ==> str == Decode(key, 0, byteLength))
        && Lookup(caches[byteLength - 1], key) == Some(str)
        && if Lookup(records, key).Some? then caches == old(caches) && miss == old(miss) && hit == old(hit) + 1
           else miss == old(miss) + 1 && hit == old(hit)
    {
      hide Decode, Whole, Lookup;
      var key := bytes[inputOffset..inputOffset + byteLength];
      if Whole(key, 0, byteLength) { WholeKey(caches[byteLength - 1], bytes, inputOffset, key); }
      var found := Find(bytes, inputOffset, byteLength);
      if found.Some? {
        hit := hit + 1;
        return found.value;
      }
      miss := miss + 1;
      str := DecodeJs(bytes, inputOffset, byteLength);
      MadeHere(bytes, inputOffset, byteLength);
      ghost var at := Store(key, str);
      LookupAt(caches[byteLength - 1], key, at);
    }
  }

  /** Any key keeps the text of its first decoding, whatever stands behind it later. */
  method KeyRemembered(key: seq<byte>, before: seq<byte>, later: seq<byte>) returns (first: text, second: text)
    requires key != []
    ensures first == second == Decode(key + before, 0, |key|)
  {
    hide Decode, Whole, RowOk;
    var cache := new KeyCache(|key|, 1);
    assert (key + before)[0..|key|] == key && (key + later)[0..|key|] == key;
    first := cache.DecodeKey(key + before, 0, |key|);
    second := cache.DecodeKey(key + later, 0, |key|);
  }
}
