/** The recursive walk over nested objects against a single counter of objects still to come. */
module MpackFlat {
  import opened Bytes
  import opened Mpack
  import opened MpackAgree

  /** How many objects a header announces. */
  function Kids(o: Obj): nat {
    match o
    case OArr(n) => n
    case OMap(n) => 2 * n
    case _ => 0
  }

  /** Where the cursor is once `need` objects and everything in them are read, header by header. */
  function FlatEnd(data: seq<byte>, pt: nat, need: nat): (r: Option<nat>)
    ensures r.Some? ==> pt <= r.value && (need > 0 ==> pt < r.value <= |data|)
    decreases Rest(data, pt)
  {
    hide Next;
    if need == 0 then Some(pt)
    else
      var o, p := Next(data, pt).o, Next(data, pt).pt;
      if o.Failed? then None else FlatEnd(data, p, need - 1 + Kids(o))
  }

  lemma {:induction false} FlatSplit(data: seq<byte>, pt: nat, a: nat, b: nat)
    ensures FlatEnd(data, pt, a + b) == match FlatEnd(data, pt, a) case None => None case Some(e) => FlatEnd(data, e, b)
    decreases Rest(data, pt)
  {
    hide Next;
    if a > 0 {
      var o, p := Next(data, pt).o, Next(data, pt).pt;
      if !o.Failed? { FlatSplit(data, p, a - 1 + Kids(o), b); }
    }
  }

  /** The walk succeeds, and ends, where the counter says. */
  lemma {:induction false} FlatWalk(data: seq<byte>, pt: nat)
    ensures FlatEnd(data, pt, 1) == match Walk(data, pt) case Broken(_) => None case Got(_, e) => Some(e)
    decreases Rest(data, pt), 0
  {
    hide Next;
    var o, p := Next(data, pt).o, Next(data, pt).pt;
    match o
    case Failed(_) =>
    case OArr(n) => FlatWalkN(data, p, n);
    case OMap(n) => FlatWalkN(data, p, 2 * n);
    case _ =>
  }

  lemma {:induction false} FlatWalkN(data: seq<byte>, pt: nat, n: nat)
    requires pt <= |data|
    ensures FlatEnd(data, pt, n) == match WalkN(data, pt, n) case Broken(_) => None case Got(_, e) => Some(e)
    decreases Rest(data, pt), 1, n
  {
    hide Walk, Next;
    if n > 0 {
      FlatWalk(data, pt);
      FlatSplit(data, pt, 1, n - 1);
      var w := Walk(data, pt);
      if w.Got? { FlatWalkN(data, w.pt, n - 1); }
    }
  }
}
