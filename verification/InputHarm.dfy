/**
  Where a line goes wrong: apr_brigade_split_line writes behind the last bucket of the brigade
  it is handed, whoever else may look there.  With nothing held, a line is harmless exactly
  when nobody does; after a peek, and after reads into two brigades, it is not.
*/
module InputHarm {
  import opened Bytes
  import opened Slices
  import opened Reading
  import opened InputFilter

  // ----- one turn

  // A short bucket without a line feed is copied.
  lemma ShortTurn(script: Script, c: Conf, n: nat, max: nat, str: Data)
    requires Sound(c) && c.held != [] && str == Content(c.store, c.held[0])
    requires LF !in str && 0 < |str| <= BUFF_SIZE / 4 && n + |str| < max
    ensures var w := Write(c.store, c.out, str);
            var c' := c.(store := w.store, out := w.out, held := c.held[1..]);
            Sound(c') && var r := Lines(script, c', n + |str|, max);
                         Lines(script, c, n, max) == r.(got := str + r.got)
  {
    hide Write, Content, FirstLf;
    FirstLfIs(str, |str|);
    var s := HandOver(c);
    assert Fetch(script, c) == Fetched(c, Arrived(str), []) && !s.found && s.part == str;
    WriteFits(c.store, c.out, str);
    StillFit(c.store, Write(c.store, c.out, str).store, c.held[1..]);
    var r := Lines(script, s.conf, n + |str|, max);
    assert [] + r.inflow == r.inflow;
  }

  // Nothing is held, and a short piece without a line feed comes in.
  lemma ShortArrival(script: Script, c: Conf, n: nat, max: nat, str: Data)
    requires Sound(c) && c.held == [] && c.open && script(c.at) == Arrived(str)
    requires LF !in str && 0 < |str| <= BUFF_SIZE / 4
    ensures AllFit(c.store + [Alloc(str, BUFF_SIZE)], c.out)
    ensures var c', r := Copied(c, str), Lines(script, c, n, max);
            Sound(c') && if n + |str| >= max then r == Lined(c', true, str, str)
                         else
                           var r' := Lines(script, c', n + |str|, max);
                           r == r'.(got := str + r'.got, inflow := str + r'.inflow)
  {
    hide Fetch, HandOver, Write, Content;
    StreamKept(c.store, c.store + [Alloc(str, BUFF_SIZE)], c.out);
    var c1, c' := Fetch(script, c).conf, Copied(c, str);
    Arrival(script, c, str);
    ShortStep(c1, str);
    WriteFits(c1.store, c.out, str);
    assert HandOver(c1).conf == c';
  }

  lemma Arrival(script: Script, c: Conf, str: Data)
    requires Sound(c) && c.held == [] && c.open && script(c.at) == Arrived(str) && 0 < |str| <= BUFF_SIZE
    ensures var m, s := c.store + [Alloc(str, BUFF_SIZE)], Heap(|c.store|, 0, |str|);
            Fetch(script, c) == Fetched(c.(store := m, held := [s], at := c.at + 1), Arrived(str), str)
  {
  }

  // A short bucket without a line feed is copied.
  lemma ShortStep(c: Conf, str: Data)
    requires Sound(c) && c.held != [] && str == Content(c.store, c.held[0])
    requires LF !in str && 0 < |str| <= BUFF_SIZE / 4
    ensures var w := Write(c.store, c.out, str);
            HandOver(c) == Step(c.(store := w.store, out := w.out, held := c.held[1..]), false, str)
  {
    hide Write, Content, FirstLf;
    FirstLfIs(str, |str|);
  }

  // It arrives in an allocation of its own, from where it is copied.
  function Copied(c: Conf, str: Data): Conf
    requires Sound(c) && |str| <= BUFF_SIZE
  {
    StreamKept(c.store, c.store + [Alloc(str, BUFF_SIZE)], c.out);
    var w := Write(c.store + [Alloc(str, BUFF_SIZE)], c.out, str);
    c.(store := w.store, out := w.out, at := c.at + 1)
  }

  lemma NothingMore(script: Script, c: Conf, n: nat, max: nat)
    requires Sound(c) && c.held == [] && c.open && script(c.at) == WouldBlock
    ensures Lines(script, c, n, max) == Lined(c.(at := c.at + 1), true, [], [])
  {
  }

  // ----- nothing held: exactly when a line is harmless

  // A socket that never stops sending ones.
  function Ones(): Script {
    i => Arrived([1])
  }

  // The byte at `at` of allocation id is a one.
  predicate OneAt(m: Store, id: nat, at: nat) {
    id < |m| && at < |m[id]| && m[id][at] == 1
  }

  lemma WriteOne(m: Store, out: seq<Slice>, id: nat, at: nat)
    requires AllFit(m, out) && id < |m| && at < |m[id]|
    ensures var w := Write(m, out, [1]);
            && (OneAt(m, id, at) ==> OneAt(w.store, id, at))
            && (EndsInHeap(out) && Last(out).id == id && End(Last(out)) == at ==> OneAt(w.store, id, at))
            && (EndsInHeap(out) && Last(out).id == id && End(Last(out)) < at ==>
                  EndsInHeap(w.out) && Last(w.out) == Last(out).(len := Last(out).len + 1)
                  && id < |w.store| && |w.store[id]| == |m[id]|)
  {
  }

  // A one is never overwritten by anything else.
  lemma {:induction false} OnesStay(c: Conf, n: nat, id: nat, at: nat)
    requires Sound(c) && c.held == [] && c.open && n < HUGE_STRING_LEN && OneAt(c.store, id, at)
    ensures OneAt(Lines(Ones(), c, n, HUGE_STRING_LEN).conf.store, id, at)
    decreases HUGE_STRING_LEN - n
  {
    hide Lines, Write;
    ShortArrival(Ones(), c, n, HUGE_STRING_LEN, [1]);
    WriteOne(c.store + [Alloc([1], BUFF_SIZE)], c.out, id, at);
    if n + 1 < HUGE_STRING_LEN {
      OnesStay(Copied(c, [1]), n + 1, id, at);
    }
  }

  // Ones fill the room behind the last bucket.
  lemma {:induction false} OnesFill(c: Conf, n: nat, at: nat)
    requires Sound(c) && c.held == [] && c.open && EndsInHeap(c.out)
    requires End(Last(c.out)) <= at < |c.store[Last(c.out).id]| && n + (at - End(Last(c.out))) < HUGE_STRING_LEN
    ensures OneAt(Lines(Ones(), c, n, HUGE_STRING_LEN).conf.store, Last(c.out).id, at)
    decreases at - End(Last(c.out))
  {
    hide Lines, Write;
    var id, c' := Last(c.out).id, Copied(c, [1]);
    ShortArrival(Ones(), c, n, HUGE_STRING_LEN, [1]);
    WriteOne(c.store + [Alloc([1], BUFF_SIZE)], c.out, id, at);
    if n + 1 < HUGE_STRING_LEN {
      if End(Last(c.out)) == at {
        OnesStay(c', n + 1, id, at);
      } else {
        OnesFill(c', n + 1, at);
      }
    }
  }

  lemma {:induction false} LinesBounded(script: Script, c: Conf, n: nat, max: nat)
    requires Sound(c) && Bounded(c.store)
    ensures Bounded(Lines(script, c, n, max).conf.store)
    decreases if n < max then max - n else 0, |c.held|, c.open
  {
    hide Fetch, HandOver, Sound, Bounded;
    if !Exhausted(c) {
      var f := Fetch(script, c);
      FetchBounded(script, c);
      if f.rv.Arrived? {
        var s := HandOver(f.conf);
        PartBounded(script, c);
        if !(s.found || n + |s.part| >= max) {
          LinesGoOn(script, c);
          LinesBounded(script, s.conf, n + |s.part|, max);
        }
      }
    }
  }

  // That is so of all allocations the filter ever makes.
  lemma CallBounded(script: Script, c: Conf, started: bool, mode: Mode, block: bool, n: nat)
    requires Sound(c) && Bounded(c.store)
    ensures Bounded(FilterCall(script, c, started, mode, block, n).conf.store)
  {
    hide Lines, UpTo;
    var c1 := Prepared(c, started);
    NormalizedFits(c.store, c.held);
    if !Exhausted(c1) {
      LinesBounded(script, c1, 0, HUGE_STRING_LEN);
      UpToBounded(script, c1, mode, block, n);
    }
  }

  lemma UpToBounded(script: Script, c: Conf, mode: Mode, block: bool, n: nat)
    requires Sound(c) && !Exhausted(c) && Bounded(c.store)
    ensures Bounded(UpTo(script, c, mode, block, n).conf.store)
  {
    hide Served, Content;
  }

  function Zeros(sizes: seq<nat>): (m: Store)
    ensures Sizes(m) == sizes
  {
    var m := seq(|sizes|, i requires 0 <= i < |sizes| => seq(sizes[i], _ => 0));
    assert Sizes(m) == sizes;
    m
  }

  // A line into a brigade that is not in line changes something, for some bytes.
  lemma LineHarms(c: Conf, started: bool, block: bool, n: nat, others: seq<Slice>) returns (m: Store)
    requires Sound(c) && AllFit(c.store, others) && c.held == [] && (c.open || !started)
    requires Bounded(c.store)
    requires !InLine(c.out, [], others)
    ensures Sizes(m) == Sizes(c.store) && Sound(c.(store := m))
    ensures var r := FilterCall(Ones(), c.(store := m), started, GetLine, block, n);
            !Same(m, r.conf.store, c.out + others)
  {
    hide Lines;
    m := Zeros(Sizes(c.store));
    FitsSizes(c.store, m, c.out);
    FitsSizes(c.store, m, others);
    var t, all := Last(c.out), c.out + others;
    var k :| 0 <= k < |all| && SameAlloc(t, all[k]) && Len(all[k]) > 0 && End(all[k]) > End(t);
    var x := all[k];
    var at := if x.start >= End(t) then x.start else End(t);
    var c1 := c.(store := m, open := true);
    OnesFill(c1, 0, at);
    var r := Lines(Ones(), c1, 0, HUGE_STRING_LEN);
    if Same(m, r.conf.store, all) {
      ViewOne(m, x, at);
      ViewOne(r.conf.store, x, at);
      assert false;
    }
  }

  // With nothing held, a call for a line into `out` keeps every byte of it and of the others,
  // and loses none, whatever the bytes are and whatever comes in, if and only if none of them
  // lies behind the last bucket of `out`.
  lemma LineSafeIff(c: Conf, started: bool, block: bool, n: nat, others: seq<Slice>)
    requires Sound(c) && AllFit(c.store, others) && c.held == [] && (c.open || !started)
    requires Bounded(c.store)
    ensures (EndsInHeap(c.out) ==> EndsLast(Last(c.out), c.out + others)) <==>
              forall script: Script, m: Store :: Sizes(m) == Sizes(c.store) && Sound(c.(store := m)) ==>
                var r := FilterCall(script, c.(store := m), started, GetLine, block, n);
                CallKept(GetLine, c.(store := m), r.conf, r.got, r.inflow, c.out + others)
  {
    hide FilterCall;
    if InLine(c.out, [], others) {
      forall script: Script, m: Store | Sizes(m) == Sizes(c.store) && Sound(c.(store := m))
        ensures var r := FilterCall(script, c.(store := m), started, GetLine, block, n);
                CallKept(GetLine, c.(store := m), r.conf, r.got, r.inflow, c.out + others)
      {
        FitsSizes(c.store, m, others);
        FilterKeeps(script, c.(store := m), started, GetLine, block, n, c.out + others);
      }
    } else {
      var m := LineHarms(c, started, block, n, others);
      var r := FilterCall(Ones(), c.(store := m), started, GetLine, block, n);
      assert !CallKept(GetLine, c.(store := m), r.conf, r.got, r.inflow, c.out + others);
    }
  }

  // ----- two runs that go wrong

  const ABCDEF: Data := [97, 98, 99, 100, 101, 102]
  const XY: Data := [120, 121]

  // The first call reads or peeks at a part of what comes in.
  lemma FirstCall(script: Script, mode: Mode, block: bool, n: nat, d: Data)
    requires mode != GetLine && 0 < n < |d| <= BUFF_SIZE && script(0) == Arrived(d)
    ensures var r := FilterCall(script, Conf([], [], [], false, 0), false, mode, block, n);
            var front, back := Heap(0, 0, n), Heap(0, n, |d| - n);
            && r.conf == Conf([Alloc(d, BUFF_SIZE)], [front],
                              if mode == Speculative then [front, back] else [back], true, 1)
            && r.rv == Ok && r.got == d[..n] && r.inflow == d
  {
    var c := Conf([], [], [], true, 0);
    var f := Fetch(script, c);
    assert f == Fetched(Conf([Alloc(d, BUFF_SIZE)], [], [Heap(0, 0, |d|)], true, 1), Arrived(d), d);
    assert f.conf.held[1..] == [];
  }

  // Reading all that is held.
  lemma RestCall(script: Script, m: Store, block: bool, s: Slice, at: nat)
    requires s.Heap? && Fits(m, s) && s.len > 0
    ensures FilterCall(script, Conf(m, [], [s], true, at), true, ReadBytes, block, s.len)
         == Called(Conf(m, [s], [], true, at), Ok, Content(m, s), [])
  {
    var c := Conf(m, [], [s], true, at);
    assert Normalized([s]) == [s] && [s][1..] == [];
    assert Front(s, s.len) == s && Content(m, s)[..s.len] == Content(m, s);
  }

  // The first allocation begins with these bytes.
  ghost predicate Begins(m: Store, d: Data) {
    m != [] && |m[0]| == BUFF_SIZE && |d| <= BUFF_SIZE && m[0][..|d|] == d
  }

  lemma BeginsContent(m: Store, d: Data, at: nat, n: nat)
    requires Begins(m, d) && at + n <= |d|
    ensures Fits(m, Heap(0, at, n)) && Content(m, Heap(0, at, n)) == d[at..at + n]
    ensures Stream(m, [Heap(0, at, n)]) == d[at..at + n]
  {
    assert m[0][0..0 + |d|] == m[0][..|d|];
    SliceOfSlice(m[0], 0, |d|, at, n);
    StreamOne(m, Heap(0, at, n));
  }

  function Overlay(d: Data, at: nat, str: Data): Data
    requires at <= |d|
  {
    d[..at] + str + if at + |str| < |d| then d[at + |str|..] else []
  }

  lemma WriteOver(m: Store, d: Data, n: nat, str: Data)
    requires Begins(m, d) && n <= |d| && n + |str| <= BUFF_SIZE
    ensures AllFit(m, [Heap(0, 0, n)])
    ensures var w := Write(m, [Heap(0, 0, n)], str);
            w.out == [Heap(0, 0, n + |str|)] && Begins(w.store, Overlay(d, n, str))
  {
    var out, w := [Heap(0, 0, n)], Write(m, [Heap(0, 0, n)], str);
    assert out[..0] + [Heap(0, 0, n + |str|)] == [Heap(0, 0, n + |str|)];
    assert forall k :: 0 <= k < |d| ==> m[0][k] == m[0][..|d|][k] == d[k];
    assert w.store[0] == m[0][..n] + str + m[0][n + |str|..];
    var tail := if n + |str| < |d| then d[n + |str|..] else [];
    assert m[0][n + |str|..][..|tail|] == tail;
  }

  // READBYTES 2 into q, READBYTES the rest into r, GETLINE into q: the first read left q in
  // line with what is held, which is nothing, but r is in the way.
  method LineAfterReads(f: CoreInput, q: Output, r: Output, block: bool) returns (ghost was: Data)
    requires f.Valid() && !f.started && f.mem.store == [] && f.src.at == 0
    requires q != r && q.buckets == [] && r.buckets == []
    requires var s := f.src.script; s(0) == Arrived(ABCDEF) && s(1) == Arrived(XY) && s(2) == WouldBlock
    modifies f, f.src, f.mem, q, r
    ensures f.Valid() && r.buckets == [Heap(0, 2, 4)] && q.buckets == [Heap(0, 0, 4)]
    ensures was == ABCDEF[2..]
    ensures AllFit(f.mem.store, r.buckets) && Stream(f.mem.store, r.buckets) == XY + ABCDEF[4..]
  {
    hide FilterCall, Content, Stream, Write, Tidy, CallKept, CutAt;
    var rv;
    ghost var got, inflow;
    ghost var script := f.src.script;
    FirstCall(script, ReadBytes, block, 2, ABCDEF);
    rv, got, inflow := f.Filter(q, ReadBytes, block, 2, []);
    ghost var m := f.mem.store;
    assert Begins(m, ABCDEF);
    BeginsContent(m, ABCDEF, 2, 4);
    RestCall(script, m, block, Heap(0, 2, 4), 1);
    rv, got, inflow := f.Filter(r, ReadBytes, block, 4, []);
    was := Stream(m, r.buckets);
    LineOver(script, m, block);
    rv, got, inflow := f.Filter(q, GetLine, block, 0, []);
  }

  lemma LineOver(script: Script, m: Store, block: bool)
    requires m == [Alloc(ABCDEF, BUFF_SIZE)] && script(1) == Arrived(XY) && script(2) == WouldBlock
    ensures AllFit(m, [Heap(0, 0, 2)])
    ensures InLine([Heap(0, 0, 2)], [], []) && !InLine([Heap(0, 0, 2)], [], [Heap(0, 2, 4)])
    ensures var c := FilterCall(script, Conf(m, [Heap(0, 0, 2)], [], true, 1), true, GetLine, block, 0).conf;
            && c.out == [Heap(0, 0, 4)] && Fits(c.store, Heap(0, 2, 4))
            && Stream(c.store, [Heap(0, 2, 4)]) == XY + ABCDEF[4..]
  {
    hide Lines, Write, Content, Stream;
    var c := Conf(m, [Heap(0, 0, 2)], [], true, 1);
    assert Heap(0, 2, 4) in [Heap(0, 0, 2)] + [Heap(0, 2, 4)];
    var m1 := m + [Alloc(XY, BUFF_SIZE)];
    assert Begins(m, ABCDEF) && Begins(m1, ABCDEF);
    ShortArrival(script, c, 0, HUGE_STRING_LEN, XY);
    WriteOver(m1, ABCDEF, 2, XY);
    NothingMore(script, Copied(c, XY), 2, HUGE_STRING_LEN);
    BeginsContent(Copied(c, XY).store, Overlay(ABCDEF, 2, XY), 2, 4);
    assert Overlay(ABCDEF, 2, XY)[2..6] == XY + ABCDEF[4..];
  }

  // A peek at two bytes and a line into the same brigade: "cd" is lost.
  method PeekThenLine(f: CoreInput, out: Output, block: bool) returns (ghost got: Data)
    requires f.Valid() && !f.started && f.mem.store == [] && f.src.at == 0 && out.buckets == []
    requires f.src.script(0) == Arrived(ABCDEF) && f.src.script(1) == WouldBlock
    modifies f, f.src, f.mem, out
    ensures f.Valid() && f.held == [] && AllFit(f.mem.store, out.buckets)
    ensures f.src.pulled == old(f.src.pulled) + ABCDEF && got == ABCDEF[..2] + ABCDEF[..2] + ABCDEF[4..]
    ensures Stream(f.mem.store, out.buckets) == ABCDEF[..2] + got
  {
    hide FilterCall, Content, Stream, Write, Tidy, CallKept, CutAt;
    var rv;
    ghost var inflow;
    ghost var script := f.src.script;
    FirstCall(script, Speculative, block, 2, ABCDEF);
    rv, got, inflow := f.Filter(out, Speculative, block, 2, []);
    LineOverPeek(script, f.mem.store, block);
    rv, got, inflow := f.Filter(out, GetLine, block, 0, []);
    Assoc(f.src.pulled, [], []);
  }

  lemma LineOverPeek(script: Script, m: Store, block: bool)
    requires m == [Alloc(ABCDEF, BUFF_SIZE)] && script(1) == WouldBlock
    ensures AllFit(m, [Heap(0, 0, 2)]) && AllFit(m, [Heap(0, 0, 2), Heap(0, 2, 4)])
    ensures var c := Conf(m, [Heap(0, 0, 2)], [Heap(0, 0, 2), Heap(0, 2, 4)], true, 1);
            var r := FilterCall(script, c, true, GetLine, block, 0);
            && r.inflow == [] && r.got == ABCDEF[..2] + ABCDEF[..2] + ABCDEF[4..]
            && r.conf.held == [] && AllFit(r.conf.store, r.conf.out)
            && Stream(r.conf.store, r.conf.out) == ABCDEF[..2] + r.got
  {
    hide Lines, Write, Content, Stream;
    var a, b := Heap(0, 0, 2), Heap(0, 2, 4);
    var ab, abef := ABCDEF[..2], ABCDEF[..2] + ABCDEF[4..];
    assert Begins(m, ABCDEF);
    BeginsContent(m, ABCDEF, 0, 2);
    var c := Conf(m, [a], [a, b], true, 1);
    NormalizedSame([a, b]);
    assert [a, b][1..] == [b] && [b][1..] == [];
    ShortTurn(script, c, 0, HUGE_STRING_LEN, ab);
    WriteOver(m, ABCDEF, 2, ab);
    assert Overlay(ABCDEF, 2, ab) == ab + abef;
    LineOverRest(script, Write(m, [a], ab).store);
  }

  lemma LineOverRest(script: Script, m: Store)
    requires Begins(m, ABCDEF[..2] + (ABCDEF[..2] + ABCDEF[4..])) && script(1) == WouldBlock
    ensures Sound(Conf(m, [Heap(0, 0, 4)], [Heap(0, 2, 4)], true, 1))
    ensures var abef := ABCDEF[..2] + ABCDEF[4..];
            var r := Lines(script, Conf(m, [Heap(0, 0, 4)], [Heap(0, 2, 4)], true, 1), 2, HUGE_STRING_LEN);
            && r.ok && r.inflow == [] && r.got == abef && r.conf.held == [] && AllFit(r.conf.store, r.conf.out)
            && Stream(r.conf.store, r.conf.out) == ABCDEF[..2] + (ABCDEF[..2] + abef)
  {
    hide Lines, Write, Content, Stream;
    var out, b := [Heap(0, 0, 4)], Heap(0, 2, 4);
    var ab, abef := ABCDEF[..2], ABCDEF[..2] + ABCDEF[4..];
    var c, all := Conf(m, out, [b], true, 1), ab + (ab + abef);
    assert [b][1..] == [];
    BeginsContent(m, ab + abef, 2, 4);
    assert (ab + abef)[2..6] == abef;
    WriteOver(m, ab + abef, 4, abef);
    ShortTurn(script, c, 2, HUGE_STRING_LEN, abef);
    var w := Write(m, out, abef);
    assert Overlay(ab + abef, 4, abef) == all;
    BeginsContent(w.store, all, 0, 8);
    NothingMore(script, Conf(w.store, w.out, [], true, 1), 6, HUGE_STRING_LEN);
    assert all[0..8] == all;
  }
}
