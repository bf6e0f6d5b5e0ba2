/**
  Runs of the input filter: any number of calls into any number of brigades.  No byte that
  was handed out changes afterwards, and none is lost, as long as every line goes to a
  brigade that is in line with all that was handed out, as a clean brigade always is.
*/
module InputRuns {
  import opened Bytes
  import opened Slices
  import opened Reading
  import opened InputFilter

  // A call, the number of the brigade it goes to, and whether that is emptied before.
  datatype Request = Request(mode: Mode, block: bool, n: nat, brigade: nat, clean: bool)

  // What the filter holds, the brigades, all slices handed out so far to any of them, those
  // handed out for good, in order, and all bytes that came from the socket.
  datatype State = State(store: Store, held: seq<Slice>, open: bool, at: nat, started: bool,
                         brigades: seq<seq<Slice>>, handed: seq<Slice>, taken: seq<Slice>, pulled: Data)

  ghost predicate Fit(s: State) {
    && Plain(s.held) && AllFit(s.store, s.held) && AllFit(s.store, s.handed)
    && (forall x :: x in s.taken ==> x in s.handed)
    && forall j :: 0 <= j < |s.brigades| ==> forall x :: x in s.brigades[j] ==> x in s.handed
  }

  // What is held and what was handed out do not get in each other's way.
  ghost predicate InOrder(s: State) {
    Fit(s) && Tidy(s.held, s.handed)
  }

  predicate Possible(s: State, rq: Request) {
    rq.brigade < |s.brigades| && (rq.mode != GetLine ==> rq.n > 0)
  }

  function Before(s: State, rq: Request): Conf
    requires Possible(s, rq)
  {
    Conf(s.store, if rq.clean then [] else s.brigades[rq.brigade], s.held, s.open, s.at)
  }

  lemma BeforeFits(s: State, rq: Request)
    requires Fit(s) && Possible(s, rq)
    ensures Sound(Before(s, rq)) && AllFit(s.store, s.taken)
    ensures forall x :: x in Before(s, rq).out ==> x in s.handed
  {
    FitsIn(s.store, s.handed, Before(s, rq).out);
    FitsIn(s.store, s.handed, s.taken);
  }

  lemma FitsIn(m: Store, a: seq<Slice>, b: seq<Slice>)
    requires AllFit(m, a) && forall x :: x in b ==> x in a
    ensures AllFit(m, b)
  {
    forall k | 0 <= k < |b|
      ensures Fits(m, b[k])
    {
      assert b[k] in a;
    }
  }

  function After(s: State, rq: Request, r: Called): State
    requires Possible(s, rq) && Extends(Before(s, rq).out, r.conf.out)
  {
    var added := Added(Before(s, rq).out, r.conf.out);
    State(r.conf.store, r.conf.held, r.conf.open, r.conf.at, true, s.brigades[rq.brigade := r.conf.out],
          s.handed + (r.conf.out + added), if rq.mode == Speculative then s.taken else s.taken + added,
          s.pulled + r.inflow)
  }

  function Does(script: Script, s: State, rq: Request): State
    requires Fit(s) && Possible(s, rq)
  {
    BeforeFits(s, rq);
    var c := Before(s, rq);
    FilterExtends(script, c, s.started, rq.mode, rq.block, rq.n);
    After(s, rq, FilterCall(script, c, s.started, rq.mode, rq.block, rq.n))
  }

  lemma DoesFit(script: Script, s: State, rq: Request)
    requires Fit(s) && Possible(s, rq)
    ensures var s' := Does(script, s, rq); Fit(s') && |s'.brigades| == |s.brigades|
  {
    hide FilterCall;
    BeforeFits(s, rq);
    var c := Before(s, rq);
    var r := FilterCall(script, c, s.started, rq.mode, rq.block, rq.n);
    FilterExtends(script, c, s.started, rq.mode, rq.block, rq.n);
    StillFit(s.store, r.conf.store, s.handed);
    AddedWithin(c.out, r.conf.out);
    AddedFits(r.conf.store, r.conf.out, Added(c.out, r.conf.out));
  }

  lemma AddedFits(m: Store, out: seq<Slice>, added: seq<Slice>)
    requires AllFit(m, out) && forall x :: x in added ==> exists y :: y in out && Within(x, y)
    ensures AllFit(m, out + added)
  {
    forall k | 0 <= k < |added|
      ensures Fits(m, added[k])
    {
      assert added[k] in added;
    }
  }

  ghost predicate AllPossible(s: State, rqs: seq<Request>) {
    forall k :: 0 <= k < |rqs| ==> Possible(s, rqs[k])
  }

  function Run(script: Script, s: State, rqs: seq<Request>): State
    requires Fit(s) && AllPossible(s, rqs)
    decreases |rqs|
  {
    if rqs == [] then s
    else
      DoesFit(script, s, rqs[0]);
      Run(script, Does(script, s, rqs[0]), rqs[1..])
  }

  // A line goes to a brigade that is in line with all that was handed out.
  ghost predicate LineInLine(s: State, rq: Request)
    requires Possible(s, rq)
  {
    rq.mode == GetLine ==> InLine(Before(s, rq).out, s.held, s.handed)
  }

  ghost predicate LinesInLine(script: Script, s: State, rqs: seq<Request>)
    requires Fit(s) && AllPossible(s, rqs)
    decreases |rqs|
  {
    if rqs == [] then true
    else
      DoesFit(script, s, rqs[0]);
      LineInLine(s, rqs[0]) && LinesInLine(script, Does(script, s, rqs[0]), rqs[1..])
  }

  // What was handed out for good, as it looks now, and what is held are all that came in.
  ghost predicate Balanced(s: State, origin: Data)
    requires Fit(s)
  {
    AllFit(s.store, s.taken) && Stream(s.store, s.taken) + Stream(s.store, s.held) == origin + s.pulled
  }

  lemma StepTidy(script: Script, s: State, rq: Request)
    requires InOrder(s) && Possible(s, rq) && LineInLine(s, rq)
    ensures InOrder(Does(script, s, rq))
  {
    hide FilterCall, InLine, Tidy, CallKept;
    DoesFit(script, s, rq);
    BeforeFits(s, rq);
    var c := Before(s, rq);
    var r := FilterCall(script, c, s.started, rq.mode, rq.block, rq.n);
    FilterExtends(script, c, s.started, rq.mode, rq.block, rq.n);
    AddedWithin(c.out, r.conf.out);
    TidyOther(s.held, s.handed, c.out + s.handed);
    FilterKeeps(script, c, s.started, rq.mode, rq.block, rq.n, s.handed);
    TidyAdded(r.conf.held, s.handed, r.conf.out, Added(c.out, r.conf.out));
  }

  lemma TidyAdded(held: seq<Slice>, handed: seq<Slice>, out: seq<Slice>, added: seq<Slice>)
    requires Tidy(held, out + handed) && forall x :: x in added ==> exists y :: y in out && Within(x, y)
    ensures Tidy(held, handed + (out + added))
  {
    var a := out + handed;
    forall x | x in handed + (out + added)
      ensures exists y :: y in a && Within(x, y)
    {
      if x in a {
        assert Within(x, x);
      } else {
        var y :| y in out && Within(x, y);
        assert y in a;
      }
    }
    TidyWithin(held, a, handed + (out + added));
  }

  lemma SameIn(m: Store, m': Store, a: seq<Slice>, b: seq<Slice>)
    requires Same(m, m', a) && forall x :: x in b ==> x in a
    ensures Same(m, m', b)
  {
    forall k | 0 <= k < |b|
      ensures Fits(m, b[k]) && Fits(m', b[k]) && Content(m, b[k]) == Content(m', b[k])
    {
      assert b[k] in a;
    }
  }

  // No byte that was handed out changes, and none is lost.
  lemma StepKeeps(script: Script, s: State, rq: Request, origin: Data)
    requires InOrder(s) && Possible(s, rq) && LineInLine(s, rq) && Balanced(s, origin)
    ensures var s' := Does(script, s, rq);
            Same(s.store, s'.store, s.handed) && Fit(s') && Balanced(s', origin)
  {
    hide FilterCall, InLine, Tidy, Stream, Content, Same, Added, Extends;
    DoesFit(script, s, rq);
    BeforeFits(s, rq);
    var c := Before(s, rq);
    var r := FilterCall(script, c, s.started, rq.mode, rq.block, rq.n);
    FilterExtends(script, c, s.started, rq.mode, rq.block, rq.n);
    FilterKeeps(script, c, s.started, rq.mode, rq.block, rq.n, s.handed);
    SameIn(s.store, r.conf.store, s.handed, c.out);
    SameIn(s.store, r.conf.store, s.handed, s.taken);
    SameStream(s.store, r.conf.store, c.out);
    SameStream(s.store, r.conf.store, s.taken);
    var added := Added(c.out, r.conf.out);
    AddedBytes(s.store, r.conf.store, c.out, r.conf.out, r.got);
    StreamAppend(r.conf.store, s.taken, added);
    var taken, held' := Stream(s.store, s.taken), Stream(r.conf.store, r.conf.held);
    Assoc(taken, r.got, held');
    Assoc(taken, Stream(s.store, s.held), r.inflow);
    Assoc(origin, s.pulled, r.inflow);
  }

  lemma SameStream(m: Store, m': Store, bs: seq<Slice>)
    requires Same(m, m', bs)
    ensures AllFit(m, bs) && AllFit(m', bs) && Stream(m', bs) == Stream(m, bs)
  {
    StreamSame(m, m', bs);
  }

  // Whatever is asked for, in whatever order: no byte that was ever handed out changes, and
  // the bytes handed out for good, as they look at the end, followed by those still held,
  // are the bytes that came in.
  lemma {:induction false} RunConserves(script: Script, s: State, rqs: seq<Request>, origin: Data)
    requires InOrder(s) && AllPossible(s, rqs) && LinesInLine(script, s, rqs) && Balanced(s, origin)
    ensures var s' := Run(script, s, rqs);
            InOrder(s') && Same(s.store, s'.store, s.handed) && Balanced(s', origin)
    decreases |rqs|
  {
    hide Fit, Does, LineInLine, Tidy, Balanced, Same;
    if rqs == [] {
      SelfSame(s);
    } else {
      DoesFit(script, s, rqs[0]);
      StepTidy(script, s, rqs[0]);
      StepKeeps(script, s, rqs[0], origin);
      var s1 := Does(script, s, rqs[0]);
      RunConserves(script, s1, rqs[1..], origin);
      HandedStay(script, s, rqs[0]);
      SameFront(s1.store, Run(script, s1, rqs[1..]).store, s1.handed, s.handed);
      SameThen(s.store, s1.store, Run(script, s, rqs).store, s.handed);
    }
  }

  lemma SelfSame(s: State)
    requires Fit(s)
    ensures Same(s.store, s.store, s.handed)
  {
  }

  lemma HandedStay(script: Script, s: State, rq: Request)
    requires Fit(s) && Possible(s, rq)
    ensures s.handed <= Does(script, s, rq).handed
  {
  }

  lemma SameFront(m: Store, m': Store, a: seq<Slice>, b: seq<Slice>)
    requires Same(m, m', a) && b <= a
    ensures Same(m, m', b)
  {
    SameIn(m, m', a, b);
  }

  // ap_rgetline_core empties its brigade before every call, and so is always in line.
  lemma {:induction false} CleanLines(script: Script, s: State, rqs: seq<Request>)
    requires InOrder(s) && AllPossible(s, rqs)
    requires forall k :: 0 <= k < |rqs| && rqs[k].mode == GetLine ==> rqs[k].clean
    ensures LinesInLine(script, s, rqs)
    decreases |rqs|
  {
    hide Does, Fit, Tidy;
    if rqs != [] {
      assert [] + s.handed == s.handed;
      DoesFit(script, s, rqs[0]);
      StepTidy(script, s, rqs[0]);
      CleanLines(script, Does(script, s, rqs[0]), rqs[1..]);
    }
  }

  // ----- the same with the filter itself

  ghost predicate Shows(s: State, f: CoreInput, outs: seq<Output>)
    reads f, f.src, f.mem, outs
  {
    && |s.brigades| == |outs| && (forall j :: 0 <= j < |outs| ==> s.brigades[j] == outs[j].buckets)
    && s.store == f.mem.store && s.held == f.held && s.open == f.open && s.at == f.src.at
    && s.started == f.started && s.pulled == f.src.pulled
  }

  ghost predicate Distinct(outs: seq<Output>) {
    forall i, j :: 0 <= i < j < |outs| ==> outs[i] != outs[j]
  }

  method Perform(f: CoreInput, outs: seq<Output>, rq: Request, ghost s: State) returns (ghost s': State)
    requires f.Valid() && Fit(s) && Possible(s, rq) && Shows(s, f, outs) && Distinct(outs)
    modifies f, f.src, f.mem, outs[rq.brigade]
    ensures f.Valid() && s' == Does(f.src.script, s, rq) && Fit(s') && Shows(s', f, outs)
  {
    hide FilterCall, CallKept, Tidy, Slices.InLine, Fit, CutAt, Added, Extends;
    s' := Does(f.src.script, s, rq);
    DoesFit(f.src.script, s, rq);
    BeforeFits(s, rq);
    FilterExtends(f.src.script, Before(s, rq), s.started, rq.mode, rq.block, rq.n);
    var out := outs[rq.brigade];
    if rq.clean {
      out.buckets := [];
    }
    assert f.Now(out) == Before(s, rq);
    var rv;
    ghost var got, inflow;
    rv, got, inflow := f.Filter(out, rq.mode, rq.block, rq.n, []);
  }

  // Any number of calls.
  method ReadAll(f: CoreInput, outs: seq<Output>, rqs: seq<Request>, ghost s: State, ghost origin: Data)
    returns (ghost s': State)
    requires f.Valid() && Fit(s) && AllPossible(s, rqs) && Shows(s, f, outs) && Distinct(outs)
    modifies f, f.src, f.mem, outs
    ensures f.Valid() && s' == Run(f.src.script, s, rqs) && Fit(s') && Shows(s', f, outs)
    ensures InOrder(s) && LinesInLine(f.src.script, s, rqs) && Balanced(s, origin) ==>
              InOrder(s') && Same(s.store, f.mem.store, s.handed) && Balanced(s', origin)
  {
    hide Does, Fit, Tidy, Balanced, LinesInLine;
    s' := s;
    ghost var script := f.src.script;
    var k := 0;
    assert rqs[0..] == rqs;
    while k < |rqs|
      invariant k <= |rqs| && f.Valid() && Fit(s') && AllPossible(s', rqs[k..]) && Shows(s', f, outs)
      invariant Run(script, s', rqs[k..]) == Run(script, s, rqs)
    {
      assert rqs[k..][1..] == rqs[k + 1..];
      DoesFit(script, s', rqs[k]);
      s' := Perform(f, outs, rqs[k], s');
      k := k + 1;
    }
    if InOrder(s) && LinesInLine(script, s, rqs) && Balanced(s, origin) {
      RunConserves(script, s, rqs, origin);
    }
  }

  // Peek at up to n bytes, then read up to m: a non-empty peek is what the read returns
  // first, without touching the network again, whatever the blocking modes.  What was handed
  // out by the peek stays as it is.
  method PeekThenRead(f: CoreInput, peeked: Output, taken: Output, n: nat, m: nat, block1: bool, block2: bool)
    returns (ghost peek: Data, ghost read: Data, ghost inflow: Data)
    requires f.Valid() && n > 0 && m > 0 && peeked != taken
    requires AllFit(f.mem.store, peeked.buckets) && AllFit(f.mem.store, taken.buckets)
    modifies f, f.src, f.mem, peeked, taken
    ensures f.Valid() && AllFit(f.mem.store, peeked.buckets) && AllFit(f.mem.store, taken.buckets)
    ensures |peek| <= n && (old(f.held != [] && Len(f.held[0]) > 0) ==> peek != [])
    ensures Stream(f.mem.store, peeked.buckets) == old(Stream(f.mem.store, peeked.buckets)) + peek
    ensures Stream(f.mem.store, taken.buckets) == old(Stream(f.mem.store, taken.buckets)) + read
    ensures peek != [] ==> read == Take(peek, m)
    ensures peek != [] && m == n ==> read == peek
    ensures peek != [] ==> f.src.pulled == old(f.src.pulled) + inflow
                           && read + f.Buffered() == old(f.Buffered()) + inflow
  {
    hide Stream, Content, FilterCall, Tidy, Slices.InLine, CutAt;
    var rv;
    ghost var later;
    ghost var pulled0, buffer0, store0 := f.src.pulled, f.Buffered(), f.mem.store;
    rv, peek, inflow := f.Filter(peeked, Speculative, block1, n, []);
    ghost var pulled1, store1 := f.src.pulled, f.mem.store;
    StreamKept(store0, store1, taken.buckets);
    rv, read, later := f.Filter(taken, ReadBytes, block2, m, []);
    StreamKept(store1, f.mem.store, peeked.buckets);
    if peek != [] {
      Assoc(pulled1, later, []);
      Assoc(buffer0 + inflow, [], []);
    }
  }

  // A caller that empties its brigade first is in line with all that was handed out, if
  // that was so with what is held.
  lemma CleanBrigade(f: CoreInput, out: Output, others: seq<Slice>)
    requires f.Valid() && out.buckets == []
    ensures f.InLine(out, []) && (f.InLine(out, others) <==> Tidy(f.held, others))
  {
    var none: seq<Slice> := [];
    assert none + none == none && none + others == others;
  }
}
