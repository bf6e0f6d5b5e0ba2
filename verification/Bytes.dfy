/**
  Byte strings and the scatter/gather vectors that point into them.

  A vector is a base pointer and a length; advancing the pointer drops bytes from the
  front of `base` and leaves `len` to be set separately, as the C code does.
*/
module Bytes {

  newtype Byte = b: int | 0 <= b < 256

  type Data = seq<Byte>

  lemma SliceOfSlice(d: Data, from: nat, length: nat, done: nat, n: nat)
    requires from + length <= |d| && done + n <= length
    ensures d[from..from + length][done..done + n] == d[from + done..from + done + n]
  {
    var whole, part := d[from..from + length], d[from + done..from + done + n];
    assert |whole[done..done + n]| == |part|;
    assert forall k :: 0 <= k < n ==> whole[done..done + n][k] == part[k];
  }

  lemma TakeMore(d: Data, k: nat, n: nat)
    requires k + n <= |d|
    ensures d[..k] + d[k..][..n] == d[..k + n] && d[k..][n..] == d[k + n..]
  {
    var whole, part := d[..k + n], d[k..][..n];
    assert |d[..k] + part| == |whole|;
    assert forall i :: 0 <= i < k + n ==> (d[..k] + part)[i] == whole[i];
  }

  datatype IoVec = IoVec(base: Data, len: nat)

  type Vec = v: IoVec | v.len <= |v.base| witness IoVec([], 0)

  // The bytes a vector designates.
  function View(v: Vec): (d: Data)
    ensures |d| == v.len
  {
    v.base[..v.len]
  }

  // The vector that designates the bytes of v from position k on.
  function Advance(v: Vec, k: nat): Vec
    requires k <= v.len
  {
    IoVec(v.base[k..], v.len - k)
  }

  // The bytes that vs[lo..hi] designate, in order.
  function Gather(vs: seq<Vec>, lo: nat, hi: nat): Data
    requires lo <= hi <= |vs|
    decreases hi - lo
  {
    if lo == hi then [] else View(vs[lo]) + Gather(vs, lo + 1, hi)
  }

  lemma GatherHead(vs: seq<Vec>, lo: nat, hi: nat)
    requires lo <= hi <= |vs|
    ensures Gather(vs, lo, hi) == if lo == hi then [] else View(vs[lo]) + Gather(vs, lo + 1, hi)
  {
  }

  // Gather looks at nothing outside the range.
  lemma {:induction false} GatherFrame(vs: seq<Vec>, ws: seq<Vec>, lo: nat, hi: nat)
    requires lo <= hi <= |vs| && hi <= |ws|
    requires forall k :: lo <= k < hi ==> vs[k] == ws[k]
    ensures Gather(vs, lo, hi) == Gather(ws, lo, hi)
    decreases hi - lo
  {
    if lo < hi {
      GatherFrame(vs, ws, lo + 1, hi);
    }
  }

  // One more vector at the end adds its bytes at the end.
  lemma {:induction false} GatherSnoc(vs: seq<Vec>, lo: nat, hi: nat)
    requires lo <= hi < |vs|
    ensures Gather(vs, lo, hi + 1) == Gather(vs, lo, hi) + View(vs[hi])
    decreases hi - lo
  {
    if lo < hi {
      GatherSnoc(vs, lo + 1, hi);
    } else {
      assert Gather(vs, hi + 1, hi + 1) == [];
    }
  }

  // A vector put behind the first n ones.
  lemma GatherPut(vs: seq<Vec>, n: nat, v: Vec)
    requires n < |vs|
    ensures Gather(vs[n := v], 0, n + 1) == Gather(vs, 0, n) + View(v)
  {
    hide Gather;
    GatherFrame(vs, vs[n := v], 0, n);
    GatherSnoc(vs[n := v], 0, n);
  }

  lemma AdvanceView(v: Vec, k: nat)
    requires k <= v.len
    ensures View(Advance(v, k)) == View(v)[k..]
  {
  }

  // A partly sent first vector is advanced.
  lemma TrimFirst(vs: seq<Vec>, lo: nat, hi: nat, k: nat)
    requires lo < hi <= |vs| && k <= vs[lo].len
    ensures k <= |Gather(vs, lo, hi)|
    ensures Gather(vs[lo := Advance(vs[lo], k)], lo, hi) == Gather(vs, lo, hi)[k..]
  {
    hide Gather;
    var ws := vs[lo := Advance(vs[lo], k)];
    GatherHead(vs, lo, hi);
    GatherHead(ws, lo, hi);
    GatherFrame(vs, ws, lo + 1, hi);
    AdvanceView(vs[lo], k);
    var rest := Gather(vs, lo + 1, hi);
    assert (View(vs[lo]) + rest)[k..] == View(vs[lo])[k..] + rest;
  }
}
