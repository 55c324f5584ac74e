/** `util/queue.h`: a ring buffer over a fixed block of slots. */
module Queue {
  import opened Bytes

  /** For a position less than twice around, the remainder is one subtraction. */
  lemma Around(x: nat, sz: nat)
    requires x < 2 * sz
    ensures x % sz == if x < sz then x else x - sz
  {
    var q, r := x / sz, x % sz;
    assert x == q * sz + r;
    if q >= 2 {
      Times(q - 2, sz);
    } else if q == 1 {
      assert q * sz == sz;
    }
  }

  lemma Times(k: nat, sz: nat)
    ensures (k + 2) * sz >= 2 * sz
  {
    assert (k + 2) * sz == k * sz + 2 * sz;
  }

  lemma TakeOne<T>(c: seq<T>, i: nat)
    requires i < |c|
    ensures c[..i] + [c[i]] == c[..i + 1]
  {
  }

  lemma DropOne<T>(c: seq<T>, k: nat)
    requires k < |c|
    ensures c[k..] != [] && c[k..][1..] == c[k + 1..]
  {
  }

  lemma ShiftedNext(shifts: seq<bool>, i: nat)
    requires i < |shifts|
    ensures Shifted(shifts[..i + 1]) == Shifted(shifts[..i]) + if shifts[i] then 1 else 0
  {
    assert shifts[..i + 1][..i] == shifts[..i];
  }

  class Ring<T(0)> {
    var n: nat
    var s: nat
    const slots: array<T>

    ghost predicate Valid()
      reads this
    {
      n <= slots.Length && s < slots.Length
    }

    /** The queue as a plain sequence. */
    ghost function Contents(): (c: seq<T>)
      requires Valid()
      reads this, slots
      ensures |c| == n
    {
      seq(n, i requires 0 <= i < n && Valid() reads this, slots => slots[Place(s, i)])
    }

    /** Where the `i`-th element behind `from` is. */
    ghost function Place(from: nat, i: nat): (k: nat)
      requires i < slots.Length && from < slots.Length
      ensures k < slots.Length
    {
      if from + i < slots.Length then from + i else from + i - slots.Length
    }

    /** The elements of `c` are in the slots from `from` on. */
    ghost predicate Laid(c: seq<T>, from: nat)
      requires |c| <= slots.Length && from < slots.Length
      reads slots
    {
      forall i | 0 <= i < |c| :: c[i] == slots[Place(from, i)]
    }

    lemma ContentsLaid()
      requires Valid()
      ensures Laid(Contents(), s)
    {
    }

    /** `queue_new` */
    constructor (sz: nat)
      requires sz >= 1
      ensures Valid() && Contents() == [] && slots.Length == sz && fresh(slots)
    {
      n, s := 0, 0;
      slots := new T[sz];
    }

    /** `queue_space` */
    method Space() returns (k: nat)
      requires Valid()
      ensures k == slots.Length - |Contents()|
    {
      k := slots.Length - n;
    }

    /** `queue_get` */
    method Get(i: nat) returns (v: T)
      requires Valid() && i < n
      ensures v == Contents()[i]
    {
      Around(s + i, slots.Length);
      v := slots[(s + i) % slots.Length];
    }

    /** `queue_first` */
    method First() returns (v: Option<T>)
      requires Valid()
      ensures v == if Contents() == [] then None else Some(Contents()[0])
    {
      if n == 0 { return None; }
      var x := Get(0);
      v := Some(x);
    }

    /** `queue_last` */
    method Last() returns (v: Option<T>)
      requires Valid()
      ensures v == if Contents() == [] then None else Some(Contents()[|Contents()| - 1])
    {
      if n == 0 { return None; }
      var x := Get(n - 1);
      v := Some(x);
    }

    /** `QUEUE_push` */
    method Push(d: T)
      requires Valid() && n < slots.Length
      modifies this`n, slots
      ensures Valid() && Contents() == old(Contents()) + [d]
    {
      Around(s + n, slots.Length);
      slots[(s + n) % slots.Length] := d;
      n := n + 1;
    }

    /** `QUEUE_unshift` */
    method Unshift(d: T)
      requires Valid() && n < slots.Length
      modifies this`n, this`s, slots
      ensures Valid() && Contents() == [d] + old(Contents())
    {
      n := n + 1;
      s := (if s != 0 then s else slots.Length) - 1;
      slots[s] := d;
    }

    /** `queue_pop` */
    method Pop() returns (v: Option<T>)
      requires Valid()
      modifies this`n
      ensures Valid() && unchanged(slots)
      ensures
        var c := old(Contents());
        if c == [] then v == None && Contents() == [] else v == Some(c[|c| - 1]) && Contents() == c[..|c| - 1]
    {
      if n == 0 { return None; }
      n := n - 1;
      Around(s + n, slots.Length);
      v := Some(slots[(s + n) % slots.Length]);
    }

    /** `queue_shift` */
    method Shift() returns (v: Option<T>)
      requires Valid()
      modifies this`n, this`s
      ensures Valid() && unchanged(slots)
      ensures
        var c := old(Contents());
        if c == [] then v == None && Contents() == [] else v == Some(c[0]) && Contents() == c[1..]
    {
      if n == 0 { return None; }
      n := n - 1;
      Around(s + 1, slots.Length);
      s := (s + 1) % slots.Length;
      v := Some(slots[(if s != 0 then s else slots.Length) - 1]);
    }

    /** `queue_clear` */
    method Clear()
      requires Valid()
      modifies this`n, this`s
      ensures Valid() && Contents() == []
    {
      n, s := 0, 0;
    }

    /** `queue_each` over a body that may shift the queue once in each round: `shifts` says in which rounds it does. */
    method Each(shifts: seq<bool>) returns (visited: seq<T>)
      requires Valid() && |shifts| == n
      modifies this`n, this`s
      ensures Valid() && unchanged(slots)
      ensures visited == old(Contents())
      ensures Contents() == old(Contents())[Shifted(shifts)..]
    {
      hide Contents;
      visited := [];
      ghost var c, start := Contents(), s;
      ContentsLaid();
      var v, e := s, slots.Length;
      var end := v + n;
      ghost var wrapped, k := false, 0;
      while (v < e && v < end) || e < end
        invariant e == slots.Length && |c| == |shifts| <= e && start < e && Laid(c, start)
        invariant Valid() && unchanged(slots)
        invariant |visited| <= |c| && visited == c[..|visited|]
        invariant !wrapped ==> v == start + |visited| <= e && end == start + |c|
        invariant wrapped ==> 0 <= v == start + |visited| - e && end == start + |c| - e && v <= end <= e
        invariant k == Shifted(shifts[..|visited|]) <= |visited| && Contents() == c[k..]
        decreases |c| - |visited|
      {
        if !(v < e && v < end) {
          v := 0;
          end := end - e;
          wrapped := true;
        }
        var i := |visited|;
        assert v == Place(start, i) && slots[v] == c[i];
        TakeOne(c, i);
        ShiftedNext(shifts, i);
        visited := visited + [slots[v]];
        v := v + 1;
        if shifts[i] {
          DropOne(c, k);
          var _ := Shift();
          k := k + 1;
        }
      }
      assert shifts[..|visited|] == shifts;
    }
  }

  /** How many of the rounds shift. */
  function Shifted(shifts: seq<bool>): (k: nat)
    ensures k <= |shifts|
  {
    if shifts == [] then 0 else Shifted(shifts[..|shifts| - 1]) + if shifts[|shifts| - 1] then 1 else 0
  }
}
