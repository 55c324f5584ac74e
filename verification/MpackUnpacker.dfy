/** The unpacker `mp_unp_t` as the object it is, and what follows for whole buffers. */
module MpackUnpacker {
  import opened Bytes
  import opened Msgpack
  import M = Mpack
  import opened MpackAgree
  import opened MpackRoundTrip

  /** `mp_unp_t`: the buffer and a cursor, which a length that overruns the buffer moves past its end. */
  class Unpacker {
    const data: seq<byte>
    var pt: nat

    /** `mp_unp_init` */
    constructor (data: seq<byte>)
      ensures this.data == data && pt == 0
    {
      this.data := data;
      pt := 0;
    }

    /** `mp_next` */
    method Next() returns (o: M.Obj)
      modifies this
      ensures M.Read(o, pt) == M.Next(data, old(pt))
    {
      if pt >= |data| { return M.Failed(M.END); }
      var token := data[pt];
      pt := pt + 1;
      var r := M.NextAfter(data, token, pt);
      pt := r.pt;
      return r.o;
    }

    /** `mp_skip` */
    method Skip() returns (tp: M.Tp)
      modifies this
      ensures M.Skipped(tp, pt) == M.Skip(data, old(pt))
      decreases M.Rest(data, pt), 0
    {
      if pt >= |data| { return M.END; }
      var token := data[pt];
      pt := pt + 1;
      var plan := M.PlanOf(data, token, pt);
      match plan
      case Done(t) => return t;
      case Bad(t) => return t;
      case Chars(n, t, from) =>
        pt := from + n;
        if pt > |data| { return M.INCOMPLETE; }
        return t;
      case Objects(n, t, from) =>
        pt := from;
        var r := SkipAll(n);
        return if M.Positive(r) then t else r;
    }

    /** `mp_skip_n`; `NIL` stands for its normal end. */
    method SkipAll(n: nat) returns (tp: M.Tp)
      requires pt <= |data|
      modifies this
      ensures M.Skipped(tp, pt) == M.SkipN(data, old(pt), n)
      decreases M.Rest(data, pt), 1
    {
      var left := n;
      ghost var start := pt;
      while left > 0
        invariant 0 <= left && start <= pt <= |data|
        invariant M.SkipN(data, pt, left) == M.SkipN(data, start, n)
        decreases left
      {
        left := left - 1;
        tp := Skip();
        if !M.Positive(tp) { return if tp.END? then M.INCOMPLETE else tp; }
      }
      return M.NIL;
    }
  }

  /** `mp_is_valid` */
  method IsValid(data: seq<byte>) returns (ok: bool)
    ensures ok <==> M.Positive(M.Skip(data, 0).tp) && M.Skip(data, 0).pt == |data|
    ensures Clean(data, 0) ==> (ok <==> OneObject(data))
    ensures |data| < TWO_32 ==> (OneObject(data) <==> ok && Clean(data, 0))
  {
    var up := new Unpacker(data);
    var tp := up.Skip();
    ok := M.Positive(tp);
    if ok {
      tp := up.Skip();
      ok := tp.END?;
      SkipEnd(data, M.Skip(data, 0).pt);
    }
    if |data| < TWO_32 { SkipAccepts(data, 0); }
    if Clean(data, 0) { DecodersAgree(data, 0); }
  }

  /** `mp_skip` finds the end only at the end. */
  lemma SkipEnd(data: seq<byte>, pt: nat)
    ensures M.Skip(data, pt).tp.END? <==> pt >= |data|
  {
    if pt < |data| {
      hide M.PlanOf;
      var p := M.PlanOf(data, data[pt], pt + 1);
      if p.Objects? { SkipNeverEnds(data, p.from, p.n); }
    }
  }

  lemma {:induction false} SkipNeverEnds(data: seq<byte>, pt: nat, n: nat)
    requires pt <= |data|
    ensures !M.SkipN(data, pt, n).tp.END?
    decreases n
  {
    hide M.Skip;
    if n > 0 && M.Positive(M.Skip(data, pt).tp) { SkipNeverEnds(data, M.Skip(data, pt).pt, n - 1); }
  }

  /** The buffer is one complete object and nothing else. */
  predicate OneObject(data: seq<byte>) {
    Walk(data, 0).Got? && Walk(data, 0).pt == |data|
  }

  lemma PackedWalk(v: Value, rest: seq<byte>)
    requires Packable(v)
    ensures Walk(Pack(v) + rest, 0) == Got(v, |Pack(v)|)
  {
    hide Walk, Pack;
    RoundTrip(Pack(v) + rest, 0, v);
  }

  /** No encoding is a prefix of another. */
  lemma PrefixFree(v: Value, w: Value)
    requires Packable(v) && Packable(w) && Pack(v) <= Pack(w)
    ensures v == w
  {
    hide Walk, Pack;
    var rest := Pack(w)[|Pack(v)|..];
    assert Pack(w) == Pack(v) + rest && Pack(w) == Pack(w) + [];
    PackedWalk(v, rest);
    PackedWalk(w, []);
  }

  /** Of a packed value, `mp_skip` takes all, and reports every strict prefix as cut off. */
  lemma PackedPrefix(v: Value, k: nat)
    requires Packable(v) && |Pack(v)| < TWO_32 && k <= |Pack(v)|
    ensures
      var s := M.Skip(Pack(v)[..k], 0);
      if k == 0 then s.tp.END? else if k < |Pack(v)| then s.tp.INCOMPLETE? else M.Positive(s.tp) && s.pt == k
  {
    hide Walk, Pack, M.Skip, Clean;
    var data := Pack(v);
    assert data == data + [];
    PackedWalk(v, []);
    SkipAccepts(data, 0);
    DecodersAgree(data, 0);
    SkipCut(data, 0, k);
  }
}
