/**
  Heap buckets as slices of allocations.  Splitting or copying a bucket makes another slice
  of the same allocation, and apr_brigade_write writes into the allocation of the last bucket
  of a brigade, right behind its slice.  Whether that harms other slices is decided here.
*/
module Slices {
  import opened Bytes

  const BUFF_SIZE := 8000     // APR_BUCKET_BUFF_SIZE

  // The allocations, by number.
  type Store = seq<Data>

  datatype Slice =
    | Heap(id: nat, start: nat, len: nat)
    | Immortal                               // the empty string
    | Eos

  function End(s: Slice): nat
    requires s.Heap?
  {
    s.start + s.len
  }

  function Len(s: Slice): nat {
    if s.Heap? then s.len else 0
  }

  predicate Fits(m: Store, s: Slice) {
    s.Heap? ==> s.id < |m| && End(s) <= |m[s.id]|
  }

  predicate AllFit(m: Store, bs: seq<Slice>) {
    forall k :: 0 <= k < |bs| ==> Fits(m, bs[k])
  }

  function Content(m: Store, s: Slice): (d: Data)
    requires Fits(m, s)
    ensures |d| == Len(s)
  {
    if s.Heap? then m[s.id][s.start..End(s)] else []
  }

  // The byte stream a brigade stands for.
  function Stream(m: Store, bs: seq<Slice>): Data
    requires AllFit(m, bs)
  {
    if bs == [] then [] else Content(m, bs[0]) + Stream(m, bs[1..])
  }

  lemma StreamHead(m: Store, bs: seq<Slice>)
    requires AllFit(m, bs)
    ensures Stream(m, bs) == if bs == [] then [] else Content(m, bs[0]) + Stream(m, bs[1..])
  {
  }

  lemma StreamOne(m: Store, s: Slice)
    requires Fits(m, s)
    ensures Stream(m, [s]) == Content(m, s)
  {
    assert [s][1..] == [];
  }

  lemma {:induction false} StreamAppend(m: Store, a: seq<Slice>, b: seq<Slice>)
    requires AllFit(m, a) && AllFit(m, b)
    ensures AllFit(m, a + b) && Stream(m, a + b) == Stream(m, a) + Stream(m, b)
  {
    hide Stream, Content;
    StreamHead(m, a);
    StreamHead(m, a + b);
    if a == [] {
      assert a + b == b;
    } else {
      StreamAppend(m, a[1..], b);
      assert (a + b)[0] == a[0] && (a + b)[1..] == a[1..] + b;
      Assoc(Content(m, a[0]), Stream(m, a[1..]), Stream(m, b));
    }
  }

  lemma Assoc(a: Data, b: Data, c: Data)
    ensures a + (b + c) == (a + b) + c
    ensures a + [] == a && [] + a == a
  {
  }

  // Two stores in which the slices of a brigade look alike.
  lemma {:induction false} StreamSame(m: Store, m': Store, bs: seq<Slice>)
    requires AllFit(m, bs) && AllFit(m', bs)
    requires forall k :: 0 <= k < |bs| ==> Content(m, bs[k]) == Content(m', bs[k])
    ensures Stream(m, bs) == Stream(m', bs)
  {
    if bs != [] {
      StreamSame(m, m', bs[1..]);
    }
  }

  // The stream tells its slices apart, since their lengths are known.
  lemma {:induction false} StreamTells(m: Store, m': Store, bs: seq<Slice>, k: nat)
    requires AllFit(m, bs) && AllFit(m', bs) && Stream(m, bs) == Stream(m', bs) && k < |bs|
    ensures Content(m, bs[k]) == Content(m', bs[k])
  {
    hide Content;
    StreamHead(m, bs);
    StreamHead(m', bs);
    SameParts(Content(m, bs[0]), Stream(m, bs[1..]), Content(m', bs[0]), Stream(m', bs[1..]));
    if k > 0 {
      StreamTells(m, m', bs[1..], k - 1);
    }
  }

  lemma SameParts(a: Data, b: Data, c: Data, d: Data)
    requires a + b == c + d && |a| == |c|
    ensures a == c && b == d
  {
    assert (a + b)[..|a|] == a && (c + d)[..|a|] == c && (a + b)[|a|..] == b && (c + d)[|a|..] == d;
  }

  // ----- allocations

  // Nothing is freed, and allocations keep their sizes.
  predicate Grown(m: Store, m': Store) {
    |m| <= |m'| && forall i :: 0 <= i < |m| ==> |m[i]| == |m'[i]|
  }

  lemma StillFit(m: Store, m': Store, bs: seq<Slice>)
    requires AllFit(m, bs) && Grown(m, m')
    ensures AllFit(m', bs)
  {
  }

  // New allocations leave the old ones alone.
  lemma StreamKept(m: Store, m': Store, bs: seq<Slice>)
    requires AllFit(m, bs) && m <= m'
    ensures AllFit(m', bs) && Stream(m', bs) == Stream(m, bs)
  {
    assert forall k :: 0 <= k < |bs| ==> Content(m, bs[k]) == Content(m', bs[k]);
    StreamSame(m, m', bs);
  }

  // memcpy
  function Poke(m: Store, id: nat, at: nat, str: Data): (r: Store)
    requires id < |m| && at + |str| <= |m[id]|
    ensures |r| == |m| && Grown(m, r)
  {
    m[id := m[id][..at] + str + m[id][at + |str|..]]
  }

  // The bytes at..at + n of an allocation are none of the slice.
  predicate Misses(s: Slice, id: nat, at: nat, n: nat) {
    s.Heap? && s.id == id && s.len > 0 && n > 0 ==> End(s) <= at || at + n <= s.start
  }

  lemma PokeMisses(m: Store, id: nat, at: nat, str: Data, s: Slice)
    requires id < |m| && at + |str| <= |m[id]| && Fits(m, s) && Misses(s, id, at, |str|)
    ensures Content(Poke(m, id, at, str), s) == Content(m, s)
  {
    if s.Heap? && s.id == id {
      var old1, new1 := m[id], m[id][..at] + str + m[id][at + |str|..];
      assert forall k :: s.start <= k < End(s) ==> new1[k] == old1[k];
    }
  }

  lemma PokeMissesAll(m: Store, id: nat, at: nat, str: Data, bs: seq<Slice>)
    requires id < |m| && at + |str| <= |m[id]| && AllFit(m, bs)
    requires forall k :: 0 <= k < |bs| ==> Misses(bs[k], id, at, |str|)
    ensures AllFit(Poke(m, id, at, str), bs) && Stream(Poke(m, id, at, str), bs) == Stream(m, bs)
  {
    forall k | 0 <= k < |bs|
      ensures Content(Poke(m, id, at, str), bs[k]) == Content(m, bs[k])
    {
      PokeMisses(m, id, at, str, bs[k]);
    }
    StreamSame(Poke(m, id, at, str), m, bs);
  }

  // A slice that grows over the bytes that were put behind it.
  lemma PokeBehind(m: Store, s: Slice, str: Data)
    requires s.Heap? && Fits(m, s) && End(s) + |str| <= |m[s.id]|
    ensures var m', s' := Poke(m, s.id, End(s), str), s.(len := s.len + |str|);
            Fits(m', s') && Content(m', s') == Content(m, s) + str
  {
  }

  // Copying bytes to where they are changes nothing.
  lemma PokeSame(m: Store, s: Slice)
    requires s.Heap? && Fits(m, s)
    ensures Poke(m, s.id, s.start, Content(m, s)) == m
  {
    var d := m[s.id];
    assert d[..s.start] + d[s.start..End(s)] + d[End(s)..] == d;
  }

  // ----- writing

  function Last(bs: seq<Slice>): Slice
    requires bs != []
  {
    bs[|bs| - 1]
  }

  predicate EndsInHeap(out: seq<Slice>) {
    out != [] && Last(out).Heap?
  }

  datatype Written = Written(store: Store, out: seq<Slice>)

  // A new allocation that starts with str.
  function Alloc(str: Data, size: nat): Data
    requires |str| <= size
  {
    str + seq(size - |str|, i => 0)
  }

  // apr_brigade_write without a flush function: behind the last slice when its allocation
  // has the room, otherwise into a new allocation.
  function Write(m: Store, out: seq<Slice>, str: Data): (w: Written)
    requires AllFit(m, out)
    ensures Grown(m, w.store)
  {
    var n := |out|;
    if EndsInHeap(out) then
      var t := out[n - 1];
      if |str| > |m[t.id]| - End(t) then Written(m + [str], out + [Heap(|m|, 0, |str|)])
      else Written(Poke(m, t.id, End(t), str), out[..n - 1] + [t.(len := t.len + |str|)])
    else
      var size := if |str| > BUFF_SIZE then |str| else BUFF_SIZE;
      Written(m + [Alloc(str, size)], out + [Heap(|m|, 0, |str|)])
  }

  lemma WriteFits(m: Store, out: seq<Slice>, str: Data)
    requires AllFit(m, out)
    ensures var w := Write(m, out, str); AllFit(w.store, w.out)
  {
    StillFit(m, Write(m, out, str).store, out);
  }

  // A new buffer has room for 8000 bytes, so what follows shares its bucket; what did not fit
  // gets a bucket that is full.
  lemma WritesShare(m: Store, out: seq<Slice>, a: Data, b: Data)
    requires AllFit(m, out) && !EndsInHeap(out) && |a| + |b| <= BUFF_SIZE
    ensures var w := Write(m, out, a);
            && AllFit(w.store, w.out) && |w.store| == |m| + 1
            && Write(w.store, w.out, b).out == out + [Heap(|m|, 0, |a| + |b|)]
            && |Write(w.store, w.out, b).store| == |m| + 1
  {
    WriteFits(m, out, a);
    var w := Write(m, out, a);
    assert w.out[..|out|] == out;
  }

  lemma NoRoomLeft(m: Store, out: seq<Slice>, a: Data, b: Data)
    requires AllFit(m, out) && EndsInHeap(out) && |a| > |m[Last(out).id]| - End(Last(out)) && b != []
    ensures var w := Write(m, out, a);
            && AllFit(w.store, w.out)
            && Write(w.store, w.out, b).out == out + [Heap(|m|, 0, |a|), Heap(|m| + 1, 0, |b|)]
  {
    WriteFits(m, out, a);
    assert out + [Heap(|m|, 0, |a|)] + [Heap(|m| + 1, 0, |b|)] == out + [Heap(|m|, 0, |a|), Heap(|m| + 1, 0, |b|)];
  }

  // The bytes are written behind the last slice of `out`.
  predicate InPlace(sizes: seq<nat>, out: seq<Slice>, n: nat) {
    EndsInHeap(out) && Last(out).id < |sizes| && n <= sizes[Last(out).id] - End(Last(out))
  }

  function Sizes(m: Store): (r: seq<nat>)
    ensures |r| == |m|
  {
    seq(|m|, i requires 0 <= i < |m| => |m[i]|)
  }

  // Writing the bytes of the slice e at the end of `out`, with `rest` still to come, is
  // harmless: they go to a new allocation, or to where they are, or to where no other slice
  // is looking.
  predicate Harmless(sizes: seq<nat>, out: seq<Slice>, e: Slice, rest: seq<Slice>) {
    InPlace(sizes, out, Len(e)) ==>
      var t := Last(out);
      || (e.Heap? && e.id == t.id && e.start == End(t))
      || forall k :: 0 <= k < |out + rest| ==> Misses((out + rest)[k], t.id, End(t), Len(e))
  }

  // No byte is lost, changed or moved.
  predicate Conserves(m: Store, out: seq<Slice>, e: Slice, rest: seq<Slice>, w: Written)
    requires AllFit(m, out) && Fits(m, e) && AllFit(m, rest)
  {
    && AllFit(w.store, w.out) && AllFit(w.store, rest)
    && Stream(w.store, w.out) == Stream(m, out) + Content(m, e)
    && Stream(w.store, rest) == Stream(m, rest)
  }

  lemma HarmlessConserves(m: Store, out: seq<Slice>, e: Slice, rest: seq<Slice>)
    requires AllFit(m, out) && Fits(m, e) && AllFit(m, rest) && Harmless(Sizes(m), out, e, rest)
    ensures Conserves(m, out, e, rest, Write(m, out, Content(m, e)))
  {
    hide Stream, Content, Poke, AllFit;
    if InPlace(Sizes(m), out, Len(e)) {
      var str, t, n := Content(m, e), Last(out), |out| - 1;
      AllButLast(m, out);
      assert out == out[..n] + [t];
      PokeHarmless(m, out[..n], t, e, rest);
      WriteInPlace(m, Poke(m, t.id, End(t), str), out[..n], t, str);
    } else {
      WriteElsewhere(m, out, Content(m, e), rest);
    }
  }

  lemma PokeHarmless(m: Store, front: seq<Slice>, t: Slice, e: Slice, rest: seq<Slice>)
    requires AllFit(m, front) && t.Heap? && Fits(m, t) && Fits(m, e) && AllFit(m, rest)
    requires InPlace(Sizes(m), front + [t], Len(e)) && Harmless(Sizes(m), front + [t], e, rest)
    ensures var m' := Poke(m, t.id, End(t), Content(m, e));
            && AllFit(m', front) && AllFit(m', rest)
            && Stream(m', front) == Stream(m, front) && Stream(m', rest) == Stream(m, rest)
  {
    hide Stream, Content, Poke;
    var out := front + [t];
    if e.Heap? && e.id == t.id && e.start == End(t) {
      PokeSame(m, e);
    } else {
      assert forall k :: 0 <= k < |front| ==> front[k] == (out + rest)[k];
      assert forall k :: 0 <= k < |rest| ==> rest[k] == (out + rest)[|out| + k];
      PokeMissesAll(m, t.id, End(t), Content(m, e), front);
      PokeMissesAll(m, t.id, End(t), Content(m, e), rest);
    }
  }

  // A new allocation holds the bytes.
  lemma WriteElsewhere(m: Store, out: seq<Slice>, str: Data, rest: seq<Slice>)
    requires AllFit(m, out) && AllFit(m, rest) && !InPlace(Sizes(m), out, |str|)
    ensures var w := Write(m, out, str);
            && AllFit(w.store, w.out) && AllFit(w.store, rest)
            && Stream(w.store, w.out) == Stream(m, out) + str && Stream(w.store, rest) == Stream(m, rest)
  {
    hide Stream, Content, Poke;
    var w := Write(m, out, str);
    var s := Last(w.out);
    StreamKept(m, w.store, out);
    StreamKept(m, w.store, rest);
    StreamOne(w.store, s);
    StreamAppend(w.store, out, [s]);
    AllocContent(m, str, w.store[|m|]);
  }

  lemma AllocContent(m: Store, str: Data, d: Data)
    requires str <= d
    ensures Content(m + [d], Heap(|m|, 0, |str|)) == str
  {
  }

  lemma WriteInPlace(m: Store, m': Store, front: seq<Slice>, t: Slice, str: Data)
    requires AllFit(m, front + [t]) && t.Heap? && AllFit(m', front)
    requires Fits(m, t) && End(t) + |str| <= |m[t.id]| && m' == Poke(m, t.id, End(t), str)
    requires Stream(m', front) == Stream(m, front)
    ensures var t' := t.(len := t.len + |str|);
            AllFit(m', front + [t']) && Stream(m', front + [t']) == Stream(m, front + [t]) + str
  {
    hide Stream, Poke;
    var t' := t.(len := t.len + |str|);
    assert forall k :: 0 <= k < |front| ==> front[k] == (front + [t])[k];
    PokeBehind(m, t, str);
    StreamAppend(m, front, [t]);
    StreamAppend(m', front, [t']);
    StreamOne(m, t);
    StreamOne(m', t');
    Assoc(Stream(m, front), Content(m, t), str);
  }

  // ----- exactly when writing is harmless

  // All zeros, but for one byte.
  function OneByte(sizes: seq<nat>, id: nat, at: nat): (m: Store)
    ensures |m| == |sizes|
  {
    seq(|sizes|, i requires 0 <= i < |sizes| => seq(sizes[i], j => if i == id && j == at then 1 else 0))
  }

  lemma OneByteSizes(sizes: seq<nat>, id: nat, at: nat)
    ensures Sizes(OneByte(sizes, id, at)) == sizes
  {
  }

  lemma FitsSizes(m: Store, m': Store, bs: seq<Slice>)
    requires AllFit(m, bs) && Sizes(m) == Sizes(m')
    ensures AllFit(m', bs)
  {
    assert forall i :: 0 <= i < |m| ==> Sizes(m)[i] == |m[i]| && Sizes(m')[i] == |m'[i]|;
  }

  // A write that is not harmless does harm to some contents: a one is copied over a zero.
  lemma HarmDone(m0: Store, out: seq<Slice>, e: Slice, rest: seq<Slice>) returns (m: Store)
    requires AllFit(m0, out) && Fits(m0, e) && AllFit(m0, rest) && !Harmless(Sizes(m0), out, e, rest)
    ensures Sizes(m) == Sizes(m0) && AllFit(m, out) && Fits(m, e) && AllFit(m, rest)
    ensures !Conserves(m, out, e, rest, Write(m, out, Content(m, e)))
  {
    hide Stream, Conserves, Content, Poke;
    var t := Last(out);
    var k :| 0 <= k < |out + rest| && !Misses((out + rest)[k], t.id, End(t), Len(e));
    var p := (out + rest)[k];
    var x := if p.start >= End(t) then p.start else End(t);
    var src := e.start + (x - End(t));
    m := OneByte(Sizes(m0), e.id, src);
    OneByteSizes(Sizes(m0), e.id, src);
    FitsSizes(m0, m, out);
    FitsSizes(m0, m, rest);
    FitsSizes(m0, m, [e]);
    assert Fits(m, [e][0]) && Fits(m, p);
    var w := Write(m, out, Content(m, e));
    ViewOne(m, e, src);
    ViewOne(m, p, x);
    Poked(m, t.id, End(t), Content(m, e), x);
    ViewOne(w.store, p, x);
    HarmShows(m, out, e, rest, k);
  }

  lemma HarmShows(m: Store, out: seq<Slice>, e: Slice, rest: seq<Slice>, k: nat)
    requires AllFit(m, out) && Fits(m, e) && AllFit(m, rest) && InPlace(Sizes(m), out, Len(e))
    requires k < |out + rest| && k != |out| - 1
    requires var w, p := Write(m, out, Content(m, e)), (out + rest)[k];
             Fits(w.store, p) && Content(w.store, p) != Content(m, p)
    ensures !Conserves(m, out, e, rest, Write(m, out, Content(m, e)))
  {
    hide Stream, Content, Poke;
    var w := Write(m, out, Content(m, e));
    if Conserves(m, out, e, rest, w) {
      if k < |out| {
        var n := |out| - 1;
        assert out == out[..n] + [out[n]] && w.out == out[..n] + [w.out[n]];
        AllButLast(m, out);
        AllButLast(w.store, w.out);
        FrontTells(m, out[..n], out[n], w.store, w.out[n], Content(m, e), k);
      } else {
        StreamTells(m, w.store, rest, k - |out|);
      }
      assert false;
    }
  }

  lemma ViewOne(m: Store, s: Slice, at: nat)
    requires s.Heap? && Fits(m, s) && s.start <= at < End(s)
    ensures Content(m, s)[at - s.start] == m[s.id][at]
  {
  }

  lemma Poked(m: Store, id: nat, at: nat, str: Data, x: nat)
    requires id < |m| && at + |str| <= |m[id]| && at <= x < at + |str|
    ensures Poke(m, id, at, str)[id][x] == str[x - at]
  {
  }

  lemma AllButLast(m: Store, bs: seq<Slice>)
    requires AllFit(m, bs) && bs != []
    ensures AllFit(m, bs[..|bs| - 1]) && Fits(m, bs[|bs| - 1])
  {
  }

  lemma FrontTells(m: Store, front: seq<Slice>, t: Slice, m': Store, t': Slice, str: Data, k: nat)
    requires AllFit(m, front) && Fits(m, t) && AllFit(m', front) && Fits(m', t')
    requires AllFit(m, front + [t]) && AllFit(m', front + [t'])
    requires Stream(m', front + [t']) == Stream(m, front + [t]) + str && k < |front|
    ensures Content(m', front[k]) == Content(m, front[k])
  {
    hide Content, Stream;
    StreamAppend(m, front, [t]);
    StreamAppend(m', front, [t']);
    StreamLength(m, m', front);
    Assoc(Stream(m, front), Stream(m, [t]), str);
    SameParts(Stream(m', front), Stream(m', [t']), Stream(m, front), Stream(m, [t]) + str);
    StreamTells(m, m', front, k);
  }

  lemma {:induction false} StreamLength(m: Store, m': Store, bs: seq<Slice>)
    requires AllFit(m, bs) && AllFit(m', bs)
    ensures |Stream(m, bs)| == |Stream(m', bs)|
  {
    if bs != [] {
      StreamLength(m, m', bs[1..]);
    }
  }

  // For given slices and sizes, writing conserves the bytes whatever they are if and only
  // if it is harmless.
  lemma HarmlessIff(m0: Store, out: seq<Slice>, e: Slice, rest: seq<Slice>)
    requires AllFit(m0, out) && Fits(m0, e) && AllFit(m0, rest)
    ensures Harmless(Sizes(m0), out, e, rest) <==>
              forall m: Store :: Sizes(m) == Sizes(m0) && AllFit(m, out) && Fits(m, e) && AllFit(m, rest) ==>
                Conserves(m, out, e, rest, Write(m, out, Content(m, e)))
  {
    hide Harmless, Conserves, Write;
    if Harmless(Sizes(m0), out, e, rest) {
      forall m: Store | Sizes(m) == Sizes(m0) && AllFit(m, out) && Fits(m, e) && AllFit(m, rest)
        ensures Conserves(m, out, e, rest, Write(m, out, Content(m, e)))
      {
        HarmlessConserves(m, out, e, rest);
      }
    } else {
      var m := HarmDone(m0, out, e, rest);
    }
  }

  // ----- cutting

  function Front(e: Slice, n: nat): Slice
    requires n <= Len(e)
  {
    if e.Heap? then e.(len := n) else e
  }

  function Back(e: Slice, n: nat): Slice
    requires n <= Len(e)
  {
    if e.Heap? then Heap(e.id, e.start + n, e.len - n) else e
  }

  // apr_bucket_shared_split
  lemma CutContent(m: Store, e: Slice, n: nat)
    requires Fits(m, e) && n <= Len(e)
    ensures Fits(m, Front(e, n)) && Fits(m, Back(e, n))
    ensures Content(m, Front(e, n)) == Content(m, e)[..n] && Content(m, Back(e, n)) == Content(m, e)[n..]
  {
    if e.Heap? {
      SliceOfSlice(m[e.id], e.start, e.len, 0, n);
      SliceOfSlice(m[e.id], e.start, e.len, n, e.len - n);
    }
  }

  // ----- slices in line

  predicate SameAlloc(a: Slice, b: Slice) {
    a.Heap? && b.Heap? && a.id == b.id
  }

  // The bytes of x are bytes of y.
  predicate Within(x: Slice, y: Slice) {
    x == y || (SameAlloc(x, y) && y.start <= x.start && End(x) <= End(y))
  }

  predicate Continues(e: Slice, rest: seq<Slice>) {
    rest != [] && SameAlloc(e, rest[0])
  }

  // No byte of the others lies behind the end of e in its allocation.
  ghost predicate EndsLast(e: Slice, others: seq<Slice>) {
    forall x :: x in others && SameAlloc(e, x) && Len(x) > 0 ==> End(x) <= End(e)
  }

  // Right behind e lies the next slice of `rest`, or nothing of `rest` or the others.
  ghost predicate Leads(e: Slice, rest: seq<Slice>, others: seq<Slice>) {
    e.Heap? ==>
      if Continues(e, rest) then End(e) == rest[0].start || (End(e) <= rest[0].start && EndsLast(e, others))
      else EndsLast(e, others) && forall k :: 0 <= k < |rest| ==> !SameAlloc(e, rest[k])
  }

  ghost predicate Tidy(bs: seq<Slice>, others: seq<Slice>) {
    bs == [] || (Leads(bs[0], bs[1..], others) && Tidy(bs[1..], others))
  }

  // A line may be read into `out`: what is held is in line behind it, and nothing else that
  // is to be kept lies where it will be written.
  ghost predicate InLine(out: seq<Slice>, held: seq<Slice>, others: seq<Slice>) {
    Tidy(held, out + others) && (EndsInHeap(out) ==> Leads(Last(out), held, out + others))
  }

  lemma TidyHead(bs: seq<Slice>, others: seq<Slice>)
    ensures Tidy(bs, others) <==> bs == [] || (Leads(bs[0], bs[1..], others) && Tidy(bs[1..], others))
  {
  }

  lemma InLineTidy(out: seq<Slice>, held: seq<Slice>, others: seq<Slice>)
    requires InLine(out, held, others)
    ensures Tidy(held, out + others)
  {
  }

  // The slices of one allocation follow each other.
  lemma {:induction false} TidyGrows(bs: seq<Slice>, others: seq<Slice>)
    requires Tidy(bs, others) && bs != []
    ensures forall k :: 0 < k < |bs| && SameAlloc(bs[0], bs[k]) ==> End(bs[0]) <= bs[k].start
  {
    hide EndsLast;
    var rest := bs[1..];
    if rest != [] {
      TidyGrows(rest, others);
      forall k | 0 < k < |bs| && SameAlloc(bs[0], bs[k])
        ensures End(bs[0]) <= bs[k].start
      {
        assert bs[k] == rest[k - 1];
      }
    }
  }

  // Being tidy depends on the others only where they reach far.
  lemma {:induction false} TidyOther(bs: seq<Slice>, a: seq<Slice>, b: seq<Slice>)
    requires Tidy(bs, a)
    requires forall x, k :: x in b && 0 <= k < |bs| && SameAlloc(bs[k], x) ==> x in a || End(x) <= End(bs[k])
    ensures Tidy(bs, b)
  {
    if bs != [] {
      var rest := bs[1..];
      assert forall k :: 0 <= k < |rest| ==> rest[k] == bs[k + 1];
      TidyOther(rest, a, b);
    }
  }

  // A slice that was handed out ends in front of what is held of its allocation.
  lemma TidyWith(bs: seq<Slice>, others: seq<Slice>, s: Slice, others': seq<Slice>)
    requires Tidy(bs, others) && forall k :: 0 <= k < |bs| && SameAlloc(bs[k], s) ==> End(s) <= End(bs[k])
    requires forall x :: x in others' ==> x in others || x == s
    ensures Tidy(bs, others')
  {
    TidyOther(bs, others, others');
  }

  // Slices that reach no further than the others do not matter.
  lemma {:induction false} TidyWithin(bs: seq<Slice>, a: seq<Slice>, b: seq<Slice>)
    requires Tidy(bs, a)
    requires forall x :: x in b ==> exists y :: y in a && Within(x, y)
    ensures Tidy(bs, b)
  {
    if bs != [] {
      TidyWithin(bs[1..], a, b);
    }
  }

  // Where the next slice can be written without harm.
  lemma InLineIsHarmless(m: Store, out: seq<Slice>, e: Slice, rest: seq<Slice>, others: seq<Slice>)
    requires InLine(out, [e] + rest, others)
    ensures Harmless(Sizes(m), out, e, rest + others)
  {
    var held := [e] + rest;
    assert held[1..] == rest;
    TidyGrows(held, out + others);
    if InPlace(Sizes(m), out, Len(e)) {
      var t := Last(out);
      if !(e.Heap? && e.id == t.id && e.start == End(t)) {
        forall k | 0 <= k < |out + (rest + others)|
          ensures Misses((out + (rest + others))[k], t.id, End(t), Len(e))
        {
          var p := (out + (rest + others))[k];
          if |out| <= k < |out| + |rest| {
            assert p == held[k - |out| + 1];
          } else {
            assert p in out + others;
          }
        }
      }
    }
  }

  // The next slice moves to the end of `out`.
  lemma InLineMoved(out: seq<Slice>, e: Slice, rest: seq<Slice>, others: seq<Slice>)
    requires Tidy([e] + rest, out + others)
    ensures InLine(out + [e], rest, others)
  {
    var held := [e] + rest;
    assert held[1..] == rest && held[0] == e;
    TidyGrows(held, out + others);
    assert forall k :: 0 <= k < |rest| ==> rest[k] == held[k + 1];
    TidyWith(rest, out + others, e, (out + [e]) + others);
  }

  // It is cut, and the front moves.
  lemma InLineCut(out: seq<Slice>, e: Slice, n: nat, rest: seq<Slice>, others: seq<Slice>)
    requires Tidy([e] + rest, out + others) && e.Heap? && n <= Len(e)
    ensures InLine(out + [Front(e, n)], [Back(e, n)] + rest, others)
  {
    var held, front, back := [e] + rest, Front(e, n), Back(e, n);
    var others' := (out + [front]) + others;
    assert held[1..] == rest && held[0] == e && ([back] + rest)[1..] == rest;
    TidyGrows(held, out + others);
    assert forall k :: 0 <= k < |rest| ==> rest[k] == held[k + 1];
    TidyWith(rest, out + others, front, others');
    assert forall x :: x in others' ==> x in out + others || x == front;
  }

  // A peek leaves a copy of the front in `out`.
  lemma TidyPeeked(out: seq<Slice>, e: Slice, n: nat, rest: seq<Slice>, others: seq<Slice>)
    requires Tidy([e] + rest, out + others) && e.Heap? && n <= Len(e)
    ensures Tidy([Front(e, n)] + ([Back(e, n)] + rest), (out + [Front(e, n)]) + others)
    ensures Tidy([e] + rest, (out + [e]) + others)
  {
    var front, back := Front(e, n), Back(e, n);
    InLineCut(out, e, n, rest, others);
    assert ([front] + ([back] + rest))[1..] == [back] + rest;
    var held := [e] + rest;
    TidyGrows(held, out + others);
    TidyWith(held, out + others, e, (out + [e]) + others);
  }

  // A slice without bytes does not matter.
  lemma LeadsPast(t: Slice, e: Slice, rest: seq<Slice>, others: seq<Slice>)
    requires Leads(t, [e] + rest, others) && Tidy([e] + rest, others) && Len(e) == 0
    ensures Leads(t, rest, others)
  {
    var held := [e] + rest;
    assert held[1..] == rest && held[0] == e;
    TidyGrows(held, others);
    assert forall k :: 0 <= k < |rest| ==> rest[k] == held[k + 1];
  }

  lemma InLineDropped(out: seq<Slice>, e: Slice, rest: seq<Slice>, others: seq<Slice>)
    requires InLine(out, [e] + rest, others) && Len(e) == 0
    ensures InLine(out, rest, others)
  {
    hide Leads;
    assert ([e] + rest)[1..] == rest;
    if EndsInHeap(out) {
      LeadsPast(Last(out), e, rest, out + others);
    }
  }

  // The last slice of `out` grows by what was written behind it.
  lemma InLineWritten(front: seq<Slice>, t: Slice, e: Slice, rest: seq<Slice>, others: seq<Slice>)
    requires InLine(front + [t], [e] + rest, others) && t.Heap?
    ensures InLine(front + [t.(len := t.len + Len(e))], rest, others)
  {
    var held, out, t' := [e] + rest, front + [t], t.(len := t.len + Len(e));
    var others' := (front + [t']) + others;
    assert held[1..] == rest && held[0] == e;
    TidyGrows(held, out + others);
    assert forall k :: 0 <= k < |rest| ==> rest[k] == held[k + 1];
    assert forall x :: x in others' ==> x in out + others || x == t';
    TidyWith(rest, out + others, t', others');
  }

  // A slice of an allocation that nobody else uses.
  lemma InLineFresh(out: seq<Slice>, s: Slice, rest: seq<Slice>, others: seq<Slice>)
    requires Tidy(rest, out + others)
    requires forall x :: x in out || x in rest || x in others ==> !SameAlloc(s, x)
    ensures InLine(out + [s], rest, others)
  {
    TidyWith(rest, out + others, s, (out + [s]) + others);
  }

  lemma InLineMarked(out: seq<Slice>, held: seq<Slice>, others: seq<Slice>)
    requires Tidy(held, out + others)
    ensures InLine(out + [Eos], held, others)
  {
    TidyWith(held, out + others, Eos, (out + [Eos]) + others);
  }

  // What writing does to what is in line.
  lemma InLineWrite(m: Store, out: seq<Slice>, e: Slice, rest: seq<Slice>, others: seq<Slice>)
    requires AllFit(m, out) && Fits(m, e) && AllFit(m, rest) && AllFit(m, others)
    requires InLine(out, [e] + rest, others)
    ensures InLine(Write(m, out, Content(m, e)).out, rest, others)
  {
    hide Content, Poke, Leads, Tidy;
    if InPlace(Sizes(m), out, Len(e)) {
      var n := |out| - 1;
      assert out == out[..n] + [out[n]];
      InLineWritten(out[..n], out[n], e, rest, others);
    } else {
      TidyHead([e] + rest, out + others);
      assert ([e] + rest)[1..] == rest;
      InLineFresh(out, Heap(|m|, 0, Len(e)), rest, others);
    }
  }

  // ----- what is added to a brigade

  // The last bucket may grow, and others may follow.
  predicate Extends(out: seq<Slice>, out': seq<Slice>) {
    && |out| <= |out'|
    && (out != [] ==> out'[..|out| - 1] == out[..|out| - 1] && Grows(Last(out), out'[|out| - 1]))
  }

  predicate Grows(t: Slice, t': Slice) {
    t' == t || (SameAlloc(t, t') && t'.start == t.start && t.len <= t'.len)
  }

  // The bytes added, as slices.
  function Added(out: seq<Slice>, out': seq<Slice>): seq<Slice>
    requires Extends(out, out')
  {
    var n := |out|;
    (if n > 0 && out'[n - 1] != out[n - 1] then [Back(out'[n - 1], Len(out[n - 1]))] else []) + out'[n..]
  }

  lemma ExtendsThen(a: seq<Slice>, b: seq<Slice>, c: seq<Slice>)
    requires Extends(a, b) && Extends(b, c)
    ensures Extends(a, c)
  {
    if a != [] && |b| == |a| {
      assert c[..|a| - 1] == a[..|a| - 1];
    } else if a != [] {
      var n := |a| - 1;
      assert c[..|b| - 1][n] == b[..|b| - 1][n] && c[..n] == c[..|b| - 1][..n] == b[..n];
    }
  }

  lemma ExtendsBy(out: seq<Slice>, more: seq<Slice>)
    ensures Extends(out, out + more) && Extends(out, out)
  {
    if out != [] {
      assert (out + more)[..|out| - 1] == out[..|out| - 1];
    }
  }

  lemma WriteExtends(m: Store, out: seq<Slice>, str: Data)
    requires AllFit(m, out)
    ensures Extends(out, Write(m, out, str).out)
  {
    var n := |out| - 1;
    if InPlace(Sizes(m), out, |str|) {
      var t' := out[n].(len := out[n].len + |str|);
      assert (out[..n] + [t'])[..n] == out[..n];
    } else {
      ExtendsBy(out, [Heap(|m|, 0, |str|)]);
    }
  }

  // They are the bytes by which the brigade has grown.
  lemma AddedBytes(m: Store, m': Store, out: seq<Slice>, out': seq<Slice>, got: Data)
    requires AllFit(m, out) && AllFit(m', out') && AllFit(m', out) && Extends(out, out')
    requires Stream(m', out) == Stream(m, out) && Stream(m', out') == Stream(m, out) + got
    ensures AllFit(m', Added(out, out')) && Stream(m', Added(out, out')) == got
  {
    hide Stream, Content;
    var added, n := Added(out, out'), |out|;
    if n > 0 && out'[n - 1] != out[n - 1] {
      var t, t' := out[n - 1], out'[n - 1];
      var front, back, more := out[..n - 1], Back(t', t.len), out'[n..];
      assert out == front + [t] && out' == front + ([t'] + more) && added == [back] + more;
      CutContent(m', t', t.len);
      assert Front(t', t.len) == t;
      StreamAppend(m', front, [t]);
      StreamAppend(m', front, [t'] + more);
      StreamAppend(m', [t'], more);
      StreamAppend(m', [back], more);
      StreamOne(m', t);
      StreamOne(m', t');
      StreamOne(m', back);
      GrownBy(Stream(m', front), Content(m', t'), t.len, Stream(m', more), got);
    } else {
      assert added == out'[n..] && out' == out + out'[n..];
      StreamAppend(m', out, out'[n..]);
      SameParts(Stream(m', out), Stream(m', out'[n..]), Stream(m', out), got);
    }
  }

  lemma GrownBy(a: Data, b: Data, n: nat, c: Data, got: Data)
    requires n <= |b| && a + (b + c) == (a + b[..n]) + got
    ensures b[n..] + c == got
  {
    assert b == b[..n] + b[n..];
    assert a + (b + c) == (a + b[..n]) + (b[n..] + c);
    SameParts(a + b[..n], b[n..] + c, a + b[..n], got);
  }

  // And they lie within the brigade.
  lemma AddedWithin(out: seq<Slice>, out': seq<Slice>)
    requires Extends(out, out')
    ensures forall x :: x in Added(out, out') ==> exists y :: y in out' && Within(x, y)
  {
    forall x | x in Added(out, out')
      ensures exists y :: y in out' && Within(x, y)
    {
      if x in out'[|out|..] {
        assert x in out' && Within(x, x);
      } else {
        assert out'[|out| - 1] in out' && Within(x, out'[|out| - 1]);
      }
    }
  }
}
