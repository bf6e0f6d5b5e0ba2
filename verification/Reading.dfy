/**
  What a call of the input filter does, as functions of what is held, of the brigade handed
  in, of the memory that heap buckets are slices of, and of what the socket will answer; and
  what such a call keeps.
*/
module Reading {
  import opened Bytes
  import opened Slices

  const HUGE_STRING_LEN := 8192
  const LF: Byte := 10

  // What the socket answers when it is read.  End of file is data without bytes.
  datatype Recv = Arrived(data: Data) | WouldBlock | Failed

  type Script = nat -> Recv

  // apr_socket_recv, as the socket bucket uses it
  function Answer(script: Script, at: nat): Recv {
    match script(at)
    case Arrived(d) => Arrived(Take(d, BUFF_SIZE))
    case other => other
  }

  function Take(d: Data, n: nat): Data {
    if n < |d| then d[..n] else d
  }

  datatype Mode = GetLine | ReadBytes | Speculative

  datatype Status = Ok | Eof | Error

  // The memory, the brigade handed in, the data buckets of ctx->b, whether ctx->b ends with
  // the socket bucket, and how often the socket has been read.
  datatype Conf = Conf(store: Store, out: seq<Slice>, held: seq<Slice>, open: bool, at: nat)

  // Heap buckets, and what the socket turns into at its end: all there is besides the socket.
  predicate Plain(bs: seq<Slice>) {
    forall k :: 0 <= k < |bs| ==> !bs[k].Eos?
  }

  predicate NoneEmpty(bs: seq<Slice>) {
    forall k :: 0 <= k < |bs| ==> Len(bs[k]) > 0
  }

  predicate Sound(c: Conf) {
    Plain(c.held) && AllFit(c.store, c.out) && AllFit(c.store, c.held)
  }

  predicate Exhausted(c: Conf) {
    c.held == [] && !c.open
  }

  ghost function Held(c: Conf): Data
    requires Sound(c)
  {
    Stream(c.store, c.held)
  }

  ghost function Out(c: Conf): Data
    requires Sound(c)
  {
    Stream(c.store, c.out)
  }

  // ----- reading the first bucket

  datatype Fetched = Fetched(conf: Conf, rv: Recv, inflow: Data)

  // apr_bucket_read on the first bucket: the socket turns into data followed by the socket,
  // or into an empty bucket at end of file.
  function Fetch(script: Script, c: Conf): (f: Fetched)
    requires Sound(c) && !Exhausted(c)
    ensures Sound(f.conf) && f.conf.out == c.out && c.store <= f.conf.store
    ensures if f.rv.Arrived? then f.conf.held != [] && f.rv.data == Content(f.conf.store, f.conf.held[0])
            else f.conf == c.(at := c.at + 1) && f.inflow == []
  {
    if c.held != [] then Fetched(c, Arrived(Content(c.store, c.held[0])), [])
    else
      match Answer(script, c.at)
      case Arrived(d) =>
        if d == [] then Fetched(c.(held := [Immortal], open := false, at := c.at + 1), Arrived([]), [])
        else
          var s := Heap(|c.store|, 0, |d|);
          AllocContent(c.store, d, Alloc(d, BUFF_SIZE));
          Fetched(c.(store := c.store + [Alloc(d, BUFF_SIZE)], held := [s], at := c.at + 1), Arrived(d), d)
      case other => Fetched(c.(at := c.at + 1), other, [])
  }

  // ----- one step of a line

  // memchr
  function FirstLf(d: Data): (n: nat)
    ensures n <= |d| && LF !in d[..n] && (n < |d| ==> d[n] == LF)
  {
    if d == [] || d[0] == LF then 0
    else
      var n := 1 + FirstLf(d[1..]);
      assert d[..n] == [d[0]] + d[1..][..n - 1];
      n
  }

  datatype Step = Step(conf: Conf, found: bool, part: Data)

  // One turn of apr_brigade_split_line: the first bucket goes to the caller, up to and
  // including a line feed if there is one; short buckets are copied together.
  function HandOver(c: Conf): (s: Step)
    requires Sound(c) && c.held != []
    ensures Sound(s.conf) && Grown(c.store, s.conf.store)
    ensures s.conf.open == c.open && s.conf.at == c.at && (!s.found ==> s.conf.held == c.held[1..])
    ensures if s.found then s.part != [] && s.part[|s.part| - 1] == LF && LF !in s.part[..|s.part| - 1]
            else LF !in s.part && s.part == Content(c.store, c.held[0])
  {
    var e, rest, str := c.held[0], c.held[1..], Content(c.store, c.held[0]);
    var pos := FirstLf(str);
    assert str[..|str|] == str;
    if pos < |str| then
      CutContent(c.store, e, pos + 1);
      assert str[..pos + 1][..pos] == str[..pos];
      Step(c.(out := c.out + [Front(e, pos + 1)], held := [Back(e, pos + 1)] + rest), true, str[..pos + 1])
    else if |str| > BUFF_SIZE / 4 then Step(c.(out := c.out + [e], held := rest), false, str)
    else if str != [] then
      var w := Write(c.store, c.out, str);
      WriteFits(c.store, c.out, str);
      StillFit(c.store, w.store, rest);
      Step(c.(store := w.store, out := w.out, held := rest), false, str)
    else Step(c.(held := rest), false, [])
  }

  // ----- a line

  datatype Lined = Lined(conf: Conf, ok: bool, got: Data, inflow: Data)

  // apr_brigade_split_line with n bytes read so far.
  function Lines(script: Script, c: Conf, n: nat, max: nat): (r: Lined)
    requires Sound(c)
    ensures Sound(r.conf) && Grown(c.store, r.conf.store)
    decreases if n < max then max - n else 0, |c.held|, c.open
  {
    if Exhausted(c) then Lined(c, true, [], [])
    else
      var f := Fetch(script, c);
      match f.rv
      case WouldBlock => Lined(f.conf, true, [], [])
      case Failed => Lined(f.conf, false, [], [])
      case Arrived(_) =>
        var s := HandOver(f.conf);
        if s.found || n + |s.part| >= max then Lined(s.conf, true, s.part, f.inflow)
        else
          var r := Lines(script, s.conf, n + |s.part|, max);
          r.(got := s.part + r.got, inflow := f.inflow + r.inflow)
  }

  // ----- reading and peeking

  datatype Called = Called(conf: Conf, rv: Status, got: Data, inflow: Data)

  // What is left of a cut bucket and those behind it.
  function Beyond(e: Slice, n: nat, rest: seq<Slice>): seq<Slice>
    requires n <= Len(e)
  {
    if n == Len(e) then rest else [Back(e, n)] + rest
  }

  // Hand over the first n bytes, or a copy of them.
  function Served(c: Conf, mode: Mode, n: nat): (c': Conf)
    requires Sound(c) && c.held != [] && n <= Len(c.held[0])
    ensures Sound(c') && c'.store == c.store
  {
    var e, rest := c.held[0], c.held[1..];
    CutContent(c.store, e, n);
    if n == 0 then c
    else
      c.(out := c.out + [Front(e, n)],
         held := (if mode == Speculative then [Front(e, n)] else []) + Beyond(e, n, rest))
  }

  // The branch for AP_MODE_READBYTES and AP_MODE_SPECULATIVE.
  function UpTo(script: Script, c: Conf, mode: Mode, block: bool, n: nat): (r: Called)
    requires Sound(c) && !Exhausted(c)
    ensures Sound(r.conf) && c.store <= r.conf.store
  {
    var f := Fetch(script, c);
    match f.rv
    case WouldBlock => Called(f.conf, Ok, [], [])
    case Failed => Called(f.conf, Error, [], [])
    case Arrived(str) =>
      if block && str == [] then
        var out := if mode == ReadBytes then f.conf.out + [Eos] else f.conf.out;
        Called(f.conf.(out := out, held := f.conf.held[1..]), Ok, [], f.inflow)
      else
        var k := if |str| < n then |str| else n;
        Called(Served(f.conf, mode, k), Ok, str[..k], f.inflow)
  }

  // ----- one call

  function Normalized(bs: seq<Slice>): seq<Slice> {
    if bs == [] then []
    else if Len(bs[0]) > 0 then [bs[0]] + Normalized(bs[1..])
    else Normalized(bs[1..])
  }

  // The first call brings in the socket; empty buckets are dropped.
  function Prepared(c: Conf, started: bool): Conf {
    if started && Exhausted(c) then c else c.(open := c.open || !started, held := Normalized(c.held))
  }

  lemma {:induction false} NormalizedFits(m: Store, bs: seq<Slice>)
    requires AllFit(m, bs)
    ensures AllFit(m, Normalized(bs)) && NoneEmpty(Normalized(bs)) && Stream(m, Normalized(bs)) == Stream(m, bs)
    ensures Plain(bs) ==> Plain(Normalized(bs))
  {
    hide Stream, Content;
    StreamHead(m, bs);
    if bs != [] {
      NormalizedFits(m, bs[1..]);
      var rest := Normalized(bs[1..]);
      if Len(bs[0]) > 0 {
        StreamHead(m, [bs[0]] + rest);
        assert ([bs[0]] + rest)[1..] == rest;
      } else {
        Assoc(Stream(m, rest), [], []);
      }
    }
  }

  lemma {:induction false} NormalizedSame(bs: seq<Slice>)
    requires NoneEmpty(bs)
    ensures Normalized(bs) == bs
  {
    if bs != [] {
      NormalizedSame(bs[1..]);
    }
  }

  // ap_core_input_filter
  function FilterCall(script: Script, c: Conf, started: bool, mode: Mode, block: bool, n: nat): (r: Called)
    requires Sound(c)
    ensures Sound(r.conf) && Grown(c.store, r.conf.store)
  {
    NormalizedFits(c.store, c.held);
    var c1 := Prepared(c, started);
    if Exhausted(c1) then Called(c1, Eof, [], [])
    else if mode == GetLine then
      var r := Lines(script, c1, 0, HUGE_STRING_LEN);
      Called(r.conf, if r.ok then Ok else Error, r.got, r.inflow)
    else UpTo(script, c1, mode, block, n)
  }

  // ----- what a call keeps

  // The slices look as they did.
  ghost predicate Same(m: Store, m': Store, bs: seq<Slice>) {
    && AllFit(m, bs) && AllFit(m', bs)
    && forall k :: 0 <= k < |bs| ==> Content(m, bs[k]) == Content(m', bs[k])
  }

  lemma SameThen(m: Store, m1: Store, m2: Store, bs: seq<Slice>)
    requires Same(m, m1, bs) && Same(m1, m2, bs)
    ensures Same(m, m2, bs)
  {
  }

  lemma SameGrown(m: Store, m': Store, bs: seq<Slice>)
    requires AllFit(m, bs) && m <= m'
    ensures Same(m, m', bs)
  {
  }

  // What was held and what came in is handed over or still held, and nothing else changes.
  ghost predicate Kept(c: Conf, c': Conf, got: Data, inflow: Data, others: seq<Slice>) {
    && Sound(c) && Sound(c') && got + Held(c') == Held(c) + inflow && Out(c') == Out(c) + got
    && Same(c.store, c'.store, others)
  }

  lemma KeptThen(c: Conf, c1: Conf, c2: Conf, got1: Data, in1: Data, got2: Data, in2: Data, others: seq<Slice>)
    requires Kept(c, c1, got1, in1, others) && Kept(c1, c2, got2, in2, others)
    ensures Kept(c, c2, got1 + got2, in1 + in2, others)
  {
    hide Same, Held, Out, Sound;
    SameThen(c.store, c1.store, c2.store, others);
    Assoc(got1, got2, Held(c2));
    Assoc(got1, Held(c1), in2);
    Assoc(Held(c), in1, in2);
    Assoc(Out(c), got1, got2);
  }

  lemma NotShared(m: Store, bs: seq<Slice>, others: seq<Slice>, s: Slice)
    requires AllFit(m, bs) && AllFit(m, others) && s.Heap? && s.id >= |m|
    ensures forall x :: x in bs || x in others ==> !SameAlloc(s, x)
  {
  }

  // Reading the first bucket.
  lemma FetchKeeps(script: Script, c: Conf, others: seq<Slice>)
    requires Sound(c) && !Exhausted(c) && AllFit(c.store, others)
    ensures var f := Fetch(script, c);
            && Kept(c, f.conf, [], f.inflow, others)
            && (InLine(c.out, c.held, others) ==> InLine(f.conf.out, f.conf.held, others))
            && (Tidy(c.held, c.out + others) ==> Tidy(f.conf.held, f.conf.out + others))
            && (Tidy(c.held, []) ==> Tidy(f.conf.held, []))
  {
    hide Content, Stream;
    var f := Fetch(script, c);
    SameGrown(c.store, f.conf.store, others);
    StreamKept(c.store, f.conf.store, c.out);
    StreamHead(c.store, []);
    Assoc(Stream(c.store, c.out), [], []);
    Assoc(Stream(c.store, c.held), [], []);
    if c.held == [] && f.rv.Arrived? {
      StreamOne(f.conf.store, f.conf.held[0]);
      ArrivesInLine(c, f.conf.held[0], others);
    }
  }

  lemma ArrivesInLine(c: Conf, s: Slice, others: seq<Slice>)
    requires Sound(c) && AllFit(c.store, others) && (s.Heap? ==> s.id >= |c.store|)
    ensures InLine(c.out, [], others) ==> InLine(c.out, [s], others)
    ensures Tidy([s], c.out + others) && Tidy([s], [])
  {
    if s.Heap? {
      NotShared(c.store, c.out, others, s);
    }
    assert [s][1..] == [];
  }

  // One step of a line.
  lemma HandOverKeeps(c: Conf, others: seq<Slice>)
    requires Sound(c) && c.held != [] && AllFit(c.store, others) && InLine(c.out, c.held, others)
    ensures var s := HandOver(c);
            Kept(c, s.conf, s.part, [], others) && InLine(s.conf.out, s.conf.held, others)
  {
    hide Content, Stream, InLine;
    var e, rest, s := c.held[0], c.held[1..], HandOver(c);
    assert c.held == [e] + rest;
    StreamHead(c.store, c.held);
    Assoc(Stream(c.store, c.held), [], []);
    if s.found {
      InLineTidy(c.out, c.held, others);
      StepCut(c, |s.part|, others);
    } else if Len(e) > BUFF_SIZE / 4 {
      SameGrown(c.store, c.store, others);
      StreamOne(c.store, e);
      StreamAppend(c.store, c.out, [e]);
      InLineTidy(c.out, c.held, others);
      InLineMoved(c.out, e, rest, others);
    } else if Len(e) > 0 {
      StepWritten(c, others);
    } else {
      SameGrown(c.store, c.store, others);
      Assoc(Stream(c.store, c.out), [], []);
      InLineDropped(c.out, e, rest, others);
    }
  }

  // The front of the first bucket is handed over.
  lemma StepCut(c: Conf, n: nat, others: seq<Slice>)
    requires Sound(c) && c.held != [] && AllFit(c.store, others) && 0 < n <= Len(c.held[0])
    ensures var e, rest := c.held[0], c.held[1..];
            var c' := c.(out := c.out + [Front(e, n)], held := [Back(e, n)] + rest);
            && Sound(c') && Content(c.store, e)[..n] + Held(c') == Held(c)
            && Out(c') == Out(c) + Content(c.store, e)[..n] && Kept(c, c', Content(c.store, e)[..n], [], others)
            && (Tidy(c.held, c.out + others) ==> InLine(c'.out, c'.held, others))
  {
    hide Content, Stream, InLine, Tidy;
    var e, rest := c.held[0], c.held[1..];
    assert c.held == [e] + rest;
    CutContent(c.store, e, n);
    StreamHead(c.store, c.held);
    StreamOne(c.store, Front(e, n));
    StreamOne(c.store, Back(e, n));
    StreamAppend(c.store, c.out, [Front(e, n)]);
    StreamAppend(c.store, [Back(e, n)], rest);
    TakeMore(Content(c.store, e), 0, n);
    Halves(Content(c.store, e), n, Stream(c.store, rest));
    Assoc(Stream(c.store, c.held), [], []);
    SameGrown(c.store, c.store, others);
    if Tidy(c.held, c.out + others) {
      InLineCut(c.out, e, n, rest, others);
    }
  }

  lemma Halves(d: Data, n: nat, rest: Data)
    requires n <= |d|
    ensures d[..n] + (d[n..] + rest) == d + rest && d[..|d|] == d
  {
    assert d[..n] + d[n..] == d;
  }

  // Its bytes are copied behind what was handed over.
  lemma StepWritten(c: Conf, others: seq<Slice>)
    requires Sound(c) && c.held != [] && AllFit(c.store, others) && InLine(c.out, c.held, others)
    ensures var str := Content(c.store, c.held[0]);
            var w := Write(c.store, c.out, str);
            var c' := c.(store := w.store, out := w.out, held := c.held[1..]);
            Kept(c, c', str, [], others) && InLine(c'.out, c'.held, others)
  {
    hide Content, Stream, InLine, Write, Harmless;
    var e, rest, m := c.held[0], c.held[1..], c.store;
    var w := Write(m, c.out, Content(m, e));
    assert c.held == [e] + rest;
    WriteFits(m, c.out, Content(m, e));
    StreamHead(m, c.held);
    Assoc(Stream(m, c.held), [], []);
    FitTogether(m, rest, others);
    InLineIsHarmless(m, c.out, e, rest, others);
    InLineWrite(m, c.out, e, rest, others);
    HarmlessConserves(m, c.out, e, rest + others);
    OthersSame(m, w.store, rest, others);
  }

  lemma FitTogether(m: Store, a: seq<Slice>, b: seq<Slice>)
    requires AllFit(m, a) && AllFit(m, b)
    ensures AllFit(m, a + b)
  {
  }

  lemma OthersSame(m: Store, m': Store, rest: seq<Slice>, others: seq<Slice>)
    requires AllFit(m, rest + others) && AllFit(m', rest + others)
    requires Stream(m, rest + others) == Stream(m', rest + others)
    ensures Same(m, m', others) && Same(m, m', rest) && Stream(m', rest) == Stream(m, rest)
  {
    hide Content, Stream;
    var all := rest + others;
    forall k | 0 <= k < |all|
      ensures Content(m, all[k]) == Content(m', all[k])
    {
      StreamTells(m, m', all, k);
    }
    assert forall k :: 0 <= k < |rest| ==> rest[k] == all[k];
    assert forall k :: 0 <= k < |others| ==> others[k] == all[|rest| + k];
    StreamSame(m, m', rest);
  }

  // Each turn hands over bytes, or drops a bucket, or finds the end of the file.
  lemma LinesGoOn(script: Script, c: Conf)
    requires Sound(c) && !Exhausted(c) && Fetch(script, c).rv.Arrived?
    ensures var s := HandOver(Fetch(script, c).conf);
            !s.found && s.part == [] ==> |s.conf.held| < |c.held| || (s.conf.held == c.held && c.open && !s.conf.open)
  {
  }

  // A line into a brigade that is in line loses and changes nothing, and leaves it in line.
  lemma {:induction false} LinesKeep(script: Script, c: Conf, n: nat, max: nat, others: seq<Slice>)
    requires Sound(c) && AllFit(c.store, others) && InLine(c.out, c.held, others)
    ensures var r := Lines(script, c, n, max);
            Kept(c, r.conf, r.got, r.inflow, others) && InLine(r.conf.out, r.conf.held, others)
    decreases if n < max then max - n else 0, |c.held|, c.open
  {
    hide InLine, Kept, Fetch, HandOver, Sound, AllFit, Grown;
    NothingKept(c, others);
    if !Exhausted(c) {
      var f := Fetch(script, c);
      FetchKeeps(script, c, others);
      if f.rv.Arrived? {
        KeptFits(c, f.conf, [], f.inflow, others);
        HandOverKeeps(f.conf, others);
        var s := HandOver(f.conf);
        KeptThen(c, f.conf, s.conf, [], f.inflow, s.part, [], others);
        Assoc(s.part, [], []);
        Assoc(f.inflow, [], []);
        if !(s.found || n + |s.part| >= max) {
          LinesGoOn(script, c);
          KeptFits(c, s.conf, s.part, f.inflow, others);
          LinesKeep(script, s.conf, n + |s.part|, max, others);
          var r := Lines(script, s.conf, n + |s.part|, max);
          KeptThen(c, s.conf, r.conf, s.part, f.inflow, r.got, r.inflow, others);
        }
      }
    }
  }

  lemma NothingKept(c: Conf, others: seq<Slice>)
    requires Sound(c) && AllFit(c.store, others)
    ensures Kept(c, c, [], [], others)
  {
    Assoc(Held(c), [], []);
    Assoc(Out(c), [], []);
    SameGrown(c.store, c.store, others);
  }

  lemma KeptFits(c: Conf, c': Conf, got: Data, inflow: Data, others: seq<Slice>)
    requires Kept(c, c', got, inflow, others)
    ensures Sound(c') && AllFit(c'.store, others)
  {
  }

  // ----- what lines look like

  // No byte is held, and the file has ended or the socket has last reported EAGAIN.
  ghost predicate Dry(script: Script, c: Conf) {
    && (forall k :: 0 <= k < |c.held| ==> Len(c.held[k]) == 0)
    && (c.open ==> c.at > 0 && script(c.at - 1) == WouldBlock)
  }

  // At most one line feed, and only at the end.
  ghost predicate LineLike(got: Data) {
    forall k :: 0 <= k < |got| - 1 ==> got[k] != LF
  }

  // Neither a whole line nor as much as a call may take.
  ghost predicate Unfinished(got: Data, max: nat) {
    (got == [] || got[|got| - 1] != LF) && |got| < max
  }

  // A whole line, or as much as a call may take, or all there is.
  ghost predicate LineShape(got: Data, max: nat, ok: bool, dry: bool) {
    LineLike(got) && (ok && Unfinished(got, max) ==> dry)
  }

  lemma {:induction false} LinesAreLines(script: Script, c: Conf, n: nat, max: nat)
    requires Sound(c) && n < max
    ensures var r := Lines(script, c, n, max);
            LineShape(r.got, max - n, r.ok, r.conf.held == [] && Dry(script, r.conf))
    decreases max - n, |c.held|, c.open
  {
    hide Fetch, HandOver, Sound, LineShape, LineLike, Grown, Dry;
    LineBegins(max - n);
    if !Exhausted(c) {
      var f := Fetch(script, c);
      if f.rv.Arrived? {
        var s := HandOver(f.conf);
        if s.found || n + |s.part| >= max {
          LineEnds(s, max - n, s.conf.held == [] && Dry(script, s.conf));
        } else {
          LinesGoOn(script, c);
          LinesAreLines(script, s.conf, n + |s.part|, max);
          var r := Lines(script, s.conf, n + |s.part|, max);
          LineGoesOn(s.part, r.got, max - n, r.ok, r.conf.held == [] && Dry(script, r.conf));
        }
      } else {
        NothingFetched(script, c, max - n);
      }
    } else {
      EndIsDry(script, c);
    }
  }

  lemma EndIsDry(script: Script, c: Conf)
    requires Exhausted(c)
    ensures Dry(script, c)
  {
  }

  lemma LineBegins(max: nat)
    ensures LineShape([], max, true, true) && LineShape([], max, false, true)
  {
  }

  lemma NothingFetched(script: Script, c: Conf, max: nat)
    requires Sound(c) && !Exhausted(c)
    ensures var f := Fetch(script, c);
            !f.rv.Arrived? ==>
              LineShape([], max, f.rv.WouldBlock?, f.conf.held == [] && Dry(script, f.conf))
  {
  }

  lemma LineEnds(s: Step, max: nat, dry: bool)
    requires if s.found then s.part != [] && s.part[|s.part| - 1] == LF && LF !in s.part[..|s.part| - 1]
             else LF !in s.part && |s.part| >= max
    ensures LineShape(s.part, max, true, dry)
  {
    if s.found {
      var front := s.part[..|s.part| - 1];
      assert forall k :: 0 <= k < |front| ==> front[k] == s.part[k] && front[k] in front;
    }
  }

  lemma LineGoesOn(part: Data, got: Data, max: nat, ok: bool, dry: bool)
    requires LF !in part && |part| < max && LineShape(got, max - |part|, ok, dry)
    ensures LineShape(part + got, max, ok, dry)
  {
    var all := part + got;
    assert forall k :: 0 <= k < |part| ==> all[k] == part[k] && part[k] in part;
    assert forall k :: |part| <= k < |all| ==> all[k] == got[k - |part|];
  }

  // What is held stays tidy by itself, whatever brigade the line goes to.
  lemma {:induction false} LinesTidy(script: Script, c: Conf, n: nat, max: nat)
    requires Sound(c) && Tidy(c.held, [])
    ensures Tidy(Lines(script, c, n, max).conf.held, [])
    decreases if n < max then max - n else 0, |c.held|, c.open
  {
    hide Fetch, HandOver, Sound, Tidy, Grown;
    if !Exhausted(c) {
      var f := Fetch(script, c);
      FetchTidy(script, c);
      if f.rv.Arrived? {
        var s := HandOver(f.conf);
        HandOverTidy(f.conf);
        if !(s.found || n + |s.part| >= max) {
          LinesGoOn(script, c);
          LinesTidy(script, s.conf, n + |s.part|, max);
        }
      }
    }
  }

  lemma FetchTidy(script: Script, c: Conf)
    requires Sound(c) && !Exhausted(c) && Tidy(c.held, [])
    ensures Tidy(Fetch(script, c).conf.held, [])
  {
    FetchKeeps(script, c, []);
  }

  lemma HandOverTidy(c: Conf)
    requires Sound(c) && c.held != []
    ensures Tidy(c.held, []) ==> Tidy(HandOver(c).conf.held, [])
  {
    var e, rest, s := c.held[0], c.held[1..], HandOver(c);
    if Tidy(c.held, []) && s.found {
      var none: seq<Slice> := [];
      var front := none + [Front(e, |s.part|)];
      assert c.held == [e] + rest && none + none == none;
      InLineCut(none, e, |s.part|, rest, none);
      InLineTidy(front, s.conf.held, none);
      TidyOther(s.conf.held, front + none, none);
    }
  }

  // ----- what reading and peeking keep

  // What one call does: it pulls `inflow` from the network, and hands `got` to the caller,
  // taken out of the buffer or, when peeking, copied from its front.
  ghost predicate Call(mode: Mode, buffer: Data, inflow: Data, got: Data, buffer': Data) {
    if mode == Speculative then buffer' == buffer + inflow && got <= buffer'
    else got + buffer' == buffer + inflow
  }

  ghost predicate CallKept(mode: Mode, c: Conf, c': Conf, got: Data, inflow: Data, others: seq<Slice>) {
    && Sound(c) && Sound(c') && Call(mode, Held(c), inflow, got, Held(c')) && Out(c') == Out(c) + got
    && Same(c.store, c'.store, others)
  }

  lemma KeptCall(c: Conf, c1: Conf, c2: Conf, in1: Data, in2: Data, mode: Mode, got: Data, others: seq<Slice>)
    requires Kept(c, c1, [], in1, others) && CallKept(mode, c1, c2, got, in2, others) && (in1 == [] || in2 == [])
    ensures CallKept(mode, c, c2, got, in1 + in2, others)
    ensures in1 + in2 == if in1 == [] then in2 else in1
  {
    hide Same, Held, Out, Sound;
    SameThen(c.store, c1.store, c2.store, others);
    Assoc(Held(c1), [], []);
    Assoc(Held(c), in1, in2);
    Assoc(Out(c), [], []);
    Assoc(in1, [], []);
    Assoc(in2, [], []);
  }

  lemma ServeKeeps(c: Conf, mode: Mode, n: nat, others: seq<Slice>)
    requires Sound(c) && c.held != [] && n <= Len(c.held[0]) && AllFit(c.store, others) && mode != GetLine
    ensures var c', got := Served(c, mode, n), Content(c.store, c.held[0])[..n];
            && CallKept(mode, c, c', got, [], others)
            && (Tidy(c.held, c.out + others) ==> Tidy(c'.held, c'.out + others))
            && (mode == ReadBytes && InLine(c.out, c.held, others) ==> InLine(c'.out, c'.held, others))
            && (mode == ReadBytes && n > 0 && Tidy(c.held, c.out + others) ==> InLine(c'.out, c'.held, others))
  {
    hide Content, Stream, InLine, Tidy;
    SameGrown(c.store, c.store, others);
    if n == 0 {
      Assoc(Stream(c.store, c.held), [], []);
      Assoc(Stream(c.store, c.out), [], []);
      assert Content(c.store, c.held[0])[..0] == [];
    } else if mode == ReadBytes {
      ReadKeeps(c, n, others);
    } else {
      PeekKeeps(c, n, others);
    }
  }

  lemma ReadKeeps(c: Conf, n: nat, others: seq<Slice>)
    requires Sound(c) && c.held != [] && 0 < n <= Len(c.held[0]) && AllFit(c.store, others)
    ensures var c', got := Served(c, ReadBytes, n), Content(c.store, c.held[0])[..n];
            && CallKept(ReadBytes, c, c', got, [], others)
            && (Tidy(c.held, c.out + others) ==> Tidy(c'.held, c'.out + others) && InLine(c'.out, c'.held, others))
            && (InLine(c.out, c.held, others) ==> InLine(c'.out, c'.held, others))
  {
    hide Content, Stream, InLine, Tidy;
    var e, rest, c' := c.held[0], c.held[1..], Served(c, ReadBytes, n);
    assert c.held == [e] + rest && [] + Beyond(e, n, rest) == Beyond(e, n, rest);
    if n < Len(e) {
      StepCut(c, n, others);
    } else {
      assert Front(e, n) == e && Content(c.store, e)[..n] == Content(c.store, e);
      SameGrown(c.store, c.store, others);
      StreamHead(c.store, c.held);
      Assoc(Stream(c.store, c.held), [], []);
      StreamOne(c.store, e);
      StreamAppend(c.store, c.out, [e]);
      if Tidy(c.held, c.out + others) {
        InLineMoved(c.out, e, rest, others);
      }
    }
    if InLine(c.out, c.held, others) {
      InLineTidy(c.out, c.held, others);
    }
    if Tidy(c.held, c.out + others) {
      InLineTidy(c'.out, c'.held, others);
    }
  }

  lemma PeekKeeps(c: Conf, n: nat, others: seq<Slice>)
    requires Sound(c) && c.held != [] && 0 < n <= Len(c.held[0]) && AllFit(c.store, others)
    ensures var c', got := Served(c, Speculative, n), Content(c.store, c.held[0])[..n];
            && CallKept(Speculative, c, c', got, [], others)
            && (Tidy(c.held, c.out + others) ==> Tidy(c'.held, c'.out + others))
  {
    hide Content, Stream, Tidy;
    var e, rest, c' := c.held[0], c.held[1..], Served(c, Speculative, n);
    var front, got := Front(e, n), Content(c.store, e)[..n];
    assert c.held == [e] + rest && c'.held == [front] + Beyond(e, n, rest);
    CutContent(c.store, e, n);
    SameGrown(c.store, c.store, others);
    StreamHead(c.store, c.held);
    StreamOne(c.store, front);
    StreamAppend(c.store, c.out, [front]);
    StreamAppend(c.store, [front], Beyond(e, n, rest));
    Halves(Content(c.store, e), n, Stream(c.store, rest));
    Assoc(Stream(c.store, c.held), [], []);
    if n < Len(e) {
      StreamOne(c.store, Back(e, n));
      StreamAppend(c.store, [Back(e, n)], rest);
    }
    if Tidy(c.held, c.out + others) {
      TidyPeeked(c.out, e, n, rest, others);
    }
  }

  lemma UpToKeeps(script: Script, c: Conf, mode: Mode, block: bool, n: nat, others: seq<Slice>)
    requires Sound(c) && !Exhausted(c) && NoneEmpty(c.held) && AllFit(c.store, others) && mode != GetLine
    ensures var r := UpTo(script, c, mode, block, n);
            && CallKept(mode, c, r.conf, r.got, r.inflow, others)
            && (Tidy(c.held, c.out + others) ==> Tidy(r.conf.held, r.conf.out + others))
            && (mode == ReadBytes && InLine(c.out, c.held, others) ==> InLine(r.conf.out, r.conf.held, others))
            && (mode == ReadBytes && r.got != [] && Tidy(c.held, c.out + others) ==>
                  InLine(r.conf.out, r.conf.held, others))
  {
    hide Content, Stream, InLine, Tidy, CallKept, Kept, Served;
    var f, r := Fetch(script, c), UpTo(script, c, mode, block, n);
    FetchKeeps(script, c, others);
    if !f.rv.Arrived? {
      NothingCalled(f.conf, mode, others);
      KeptCall(c, f.conf, f.conf, f.inflow, [], mode, [], others);
    } else if block && f.rv.data == [] {
      EndKeeps(f.conf, mode, others);
      KeptCall(c, f.conf, r.conf, f.inflow, [], mode, [], others);
    } else {
      KeptFits(c, f.conf, [], f.inflow, others);
      var k := if |f.rv.data| < n then |f.rv.data| else n;
      ServeKeeps(f.conf, mode, k, others);
      KeptCall(c, f.conf, r.conf, f.inflow, [], mode, r.got, others);
    }
  }

  lemma NothingCalled(c: Conf, mode: Mode, others: seq<Slice>)
    requires Sound(c) && AllFit(c.store, others)
    ensures CallKept(mode, c, c, [], [], others)
  {
    Assoc(Held(c), [], []);
    Assoc(Out(c), [], []);
    SameGrown(c.store, c.store, others);
  }

  // A blocking read of nothing ends the stream.
  lemma EndKeeps(c: Conf, mode: Mode, others: seq<Slice>)
    requires Sound(c) && |c.held| == 1 && Len(c.held[0]) == 0 && AllFit(c.store, others) && mode != GetLine
    ensures var c' := c.(out := if mode == ReadBytes then c.out + [Eos] else c.out, held := c.held[1..]);
            && CallKept(mode, c, c', [], [], others) && Tidy(c'.held, c'.out + others)
            && (InLine(c.out, c.held, others) ==> InLine(c'.out, c'.held, others))
  {
    assert c.held == [c.held[0]] + [];
    StreamOne(c.store, c.held[0]);
    StreamOne(c.store, Eos);
    StreamAppend(c.store, c.out, [Eos]);
    Assoc(Out(c), [], []);
    SameGrown(c.store, c.store, others);
    if InLine(c.out, c.held, others) {
      InLineDropped(c.out, c.held[0], [], others);
      InLineMarked(c.out, [], others);
    }
  }

  lemma UpToTidy(script: Script, c: Conf, mode: Mode, block: bool, n: nat)
    requires Sound(c) && !Exhausted(c) && Tidy(c.held, []) && mode != GetLine
    ensures Tidy(UpTo(script, c, mode, block, n).conf.held, [])
  {
    hide Content, Stream, Tidy, Fetch, Served, Sound;
    var f := Fetch(script, c);
    FetchTidy(script, c);
    if f.rv.Arrived? {
      if block && f.rv.data == [] {
        TidyHead(f.conf.held, []);
      } else {
        ServedTidy(f.conf, mode, if |f.rv.data| < n then |f.rv.data| else n);
      }
    }
  }

  lemma ServedTidy(c: Conf, mode: Mode, n: nat)
    requires Sound(c) && c.held != [] && n <= Len(c.held[0]) && Tidy(c.held, []) && mode != GetLine
    ensures Tidy(Served(c, mode, n).held, [])
  {
    hide Content, Stream, InLine, Tidy, CallKept;
    var none: seq<Slice> := [];
    var c1 := c.(out := none);
    assert none + none == none;
    ServeKeeps(c1, mode, n, none);
    SubTidy(Served(c1, mode, n).held, Served(c1, mode, n).out + none);
  }

  lemma SubTidy(bs: seq<Slice>, others: seq<Slice>)
    requires Tidy(bs, others)
    ensures Tidy(bs, [])
  {
    TidyOther(bs, others, []);
  }

  // ----- what a call keeps

  lemma {:induction false} NormalizedHas(bs: seq<Slice>, k: nat)
    requires k < |Normalized(bs)|
    ensures Normalized(bs)[k] in bs
  {
    if Len(bs[0]) == 0 {
      NormalizedHas(bs[1..], k);
    } else if k > 0 {
      NormalizedHas(bs[1..], k - 1);
    }
  }

  // Dropping the empty buckets leaves a brigade tidy.
  lemma {:induction false} NormalizedTidy(bs: seq<Slice>, others: seq<Slice>)
    requires Tidy(bs, others)
    ensures Tidy(Normalized(bs), others)
    ensures forall t: Slice :: Leads(t, bs, others) ==> Leads(t, Normalized(bs), others)
  {
    hide Leads, Tidy;
    TidyHead(bs, others);
    if bs != [] {
      var e, rest := bs[0], bs[1..];
      assert bs == [e] + rest;
      NormalizedTidy(rest, others);
      if Len(e) > 0 {
        var bs' := [e] + Normalized(rest);
        assert bs'[1..] == Normalized(rest);
        TidyHead(bs', others);
        forall t: Slice | Leads(t, bs, others)
          ensures Leads(t, bs', others)
        {
          TidyGrows(bs, others);
          LeadsHead(t, e, rest, Normalized(rest), others);
        }
      } else {
        forall t: Slice | Leads(t, bs, others)
          ensures Leads(t, rest, others)
        {
          LeadsPast(t, e, rest, others);
        }
      }
    }
  }

  // What follows the next slice does not matter, if there is less of it.
  lemma LeadsHead(t: Slice, e: Slice, rest: seq<Slice>, rest': seq<Slice>, others: seq<Slice>)
    requires Leads(t, [e] + rest, others) && rest' == Normalized(rest)
    ensures Leads(t, [e] + rest', others)
  {
    var a, b := [e] + rest, [e] + rest';
    forall k | 0 < k < |b|
      ensures b[k] in a
    {
      NormalizedHas(rest, k - 1);
    }
  }

  lemma PreparedKeeps(c: Conf, started: bool, others: seq<Slice>)
    requires Sound(c) && AllFit(c.store, others)
    ensures var c' := Prepared(c, started);
            && Kept(c, c', [], [], others) && (!Exhausted(c') ==> NoneEmpty(c'.held))
            && (Tidy(c.held, c.out + others) ==> Tidy(c'.held, c'.out + others))
            && (InLine(c.out, c.held, others) ==> InLine(c'.out, c'.held, others))
            && (Tidy(c.held, []) ==> Tidy(c'.held, []))
  {
    hide Tidy, Leads, Stream, Content;
    NothingKept(c, others);
    NormalizedFits(c.store, c.held);
    if Tidy(c.held, c.out + others) {
      NormalizedTidy(c.held, c.out + others);
    }
    if Tidy(c.held, []) {
      NormalizedTidy(c.held, []);
    }
  }

  // A call loses nothing and changes nothing that was handed out before, when a line goes to
  // a brigade that is in line; reading and peeking are harmless anywhere.
  lemma FilterKeeps(script: Script, c: Conf, started: bool, mode: Mode, block: bool, n: nat, others: seq<Slice>)
    requires Sound(c) && AllFit(c.store, others)
    requires mode == GetLine ==> InLine(c.out, c.held, others)
    ensures var r := FilterCall(script, c, started, mode, block, n);
            && CallKept(mode, c, r.conf, r.got, r.inflow, others)
            && (Tidy(c.held, c.out + others) ==> Tidy(r.conf.held, r.conf.out + others))
            && (mode != Speculative && InLine(c.out, c.held, others) ==> InLine(r.conf.out, r.conf.held, others))
            && (mode == ReadBytes && r.got != [] && Tidy(c.held, c.out + others) ==>
                  InLine(r.conf.out, r.conf.held, others))
  {
    hide InLine, Tidy, Stream, Content, Kept, CallKept, Sound, AllFit, Prepared, Lines, UpTo;
    var c1, r := Prepared(c, started), FilterCall(script, c, started, mode, block, n);
    PreparedKeeps(c, started, others);
    KeptFits(c, c1, [], [], others);
    if Exhausted(c1) {
      NothingCalled(c1, mode, others);
      KeptCall(c, c1, c1, [], [], mode, [], others);
    } else if mode == GetLine {
      LinesKeep(script, c1, 0, HUGE_STRING_LEN, others);
      KeptLine(c, c1, r.conf, r.got, r.inflow, others);
      InLineTidy(r.conf.out, r.conf.held, others);
    } else {
      UpToKeeps(script, c1, mode, block, n, others);
      KeptCall(c, c1, r.conf, [], r.inflow, mode, r.got, others);
    }
  }

  lemma KeptLine(c: Conf, c1: Conf, c2: Conf, got: Data, inflow: Data, others: seq<Slice>)
    requires Kept(c, c1, [], [], others) && Kept(c1, c2, got, inflow, others)
    ensures CallKept(GetLine, c, c2, got, inflow, others)
  {
    KeptThen(c, c1, c2, [], [], got, inflow, others);
    assert [] + got == got && [] + inflow == inflow;
  }

  // What is held stays tidy by itself.
  lemma FilterTidy(script: Script, c: Conf, started: bool, mode: Mode, block: bool, n: nat)
    requires Sound(c) && Tidy(c.held, [])
    ensures Tidy(FilterCall(script, c, started, mode, block, n).conf.held, [])
  {
    hide InLine, Tidy, Stream, Content, Kept, Prepared, Lines, UpTo;
    var c1 := Prepared(c, started);
    PreparedKeeps(c, started, []);
    KeptFits(c, c1, [], [], []);
    if !Exhausted(c1) {
      if mode == GetLine {
        LinesTidy(script, c1, 0, HUGE_STRING_LEN);
      } else {
        UpToTidy(script, c1, mode, block, n);
      }
    }
  }

  // ----- what a call hands over

  // What a peek at n bytes makes of what is held.
  predicate CutAt(bs: seq<Slice>, n: nat, bs': seq<Slice>)
    requires bs != [] && n < Len(bs[0])
  {
    bs' == [Front(bs[0], n), Back(bs[0], n)] + bs[1..]
  }

  // A read or a peek gives the front of the first bucket; only when nothing is held it asks
  // the network, and then everything that came in is there to be taken.
  lemma FilterServes(script: Script, c: Conf, started: bool, mode: Mode, block: bool, n: nat)
    requires Sound(c) && mode != GetLine
    ensures var r := FilterCall(script, c, started, mode, block, n);
            && c.store <= r.conf.store && |r.got| <= n && (r.rv == Eof <==> Exhausted(Prepared(c, started)))
            && (n > 0 && r.rv == Ok && r.got == [] ==> Dry(script, r.conf))
            && (r.inflow != [] ==> r.rv == Ok && r.got == Take(r.inflow, n))
            && (c.held != [] && Len(c.held[0]) > 0 ==>
                  && r.inflow == [] && r.rv == Ok && r.conf.at == c.at
                  && r.got == Take(Content(c.store, c.held[0]), n))
  {
    hide Content, Stream, UpTo, Dry;
    var c1 := Prepared(c, started);
    NormalizedFits(c.store, c.held);
    if !Exhausted(c1) {
      UpToServes(script, c1, mode, block, n);
    }
  }

  lemma UpToServes(script: Script, c: Conf, mode: Mode, block: bool, n: nat)
    requires Sound(c) && !Exhausted(c) && NoneEmpty(c.held)
    ensures var r := UpTo(script, c, mode, block, n);
            && |r.got| <= n && r.rv != Eof && (n > 0 && r.rv == Ok && r.got == [] ==> Dry(script, r.conf))
            && (r.inflow != [] ==> r.rv == Ok && r.got == Take(r.inflow, n))
            && (c.held != [] && Len(c.held[0]) > 0 ==>
                  && r.inflow == [] && r.rv == Ok && r.conf.at == c.at
                  && r.got == Take(Content(c.store, c.held[0]), n))
  {
    hide Content, Stream;
    var f := Fetch(script, c);
    if f.rv.Arrived? {
      TakeAll(f.rv.data, n);
    }
  }

  // A successful read or peek gives nothing when the socket would block, or at the end of the
  // file; there a blocking read hands over an EOS bucket, and after it all calls report EOF.
  lemma FilterEnds(script: Script, c: Conf, mode: Mode, block: bool, n: nat)
    requires Sound(c) && n > 0 && mode != GetLine
    ensures var r := FilterCall(script, c, true, mode, block, n);
            r.rv == Ok && r.got == [] ==>
              && r.conf.out == (if block && !r.conf.open && mode == ReadBytes then c.out + [Eos] else c.out)
              && (r.conf.open ==> r.conf.at > 0 && script(r.conf.at - 1) == WouldBlock)
              && (!r.conf.open ==>
                    && r.conf.at > 0 && Answer(script, r.conf.at - 1) == Arrived([])
                    && forall mode', block', n' :: FilterCall(script, r.conf, true, mode', block', n').rv == Eof)
  {
    hide Stream, Content, Lines;
    var c1, r := Prepared(c, true), FilterCall(script, c, true, mode, block, n);
    NormalizedFits(c.store, c.held);
    if r.rv == Ok && r.got == [] {
      if c1.held != [] {
        TakeAll(Content(c1.store, c1.held[0]), n);
      }
      assert c1.held == [] && c1.open;
    }
  }

  // A call is an error exactly if it has read the socket and its last answer was a failure.
  lemma FilterErrors(script: Script, c: Conf, started: bool, mode: Mode, block: bool, n: nat)
    requires Sound(c)
    ensures var r := FilterCall(script, c, started, mode, block, n);
            r.rv == Error <==> r.conf.at > c.at && script(r.conf.at - 1) == Failed
  {
    hide Lines, UpTo;
    var c1 := Prepared(c, started);
    NormalizedFits(c.store, c.held);
    if !Exhausted(c1) {
      LinesFail(script, c1, 0, HUGE_STRING_LEN);
      UpToFails(script, c1, mode, block, n);
    }
  }

  // How often the socket was read, and whether its last answer was a failure.
  ghost predicate FailedSince(script: Script, at: nat, at': nat, failed: bool) {
    at <= at' && (failed <==> at' > at && script(at' - 1) == Failed)
  }

  lemma {:induction false} LinesFail(script: Script, c: Conf, n: nat, max: nat)
    requires Sound(c)
    ensures var r := Lines(script, c, n, max); FailedSince(script, c.at, r.conf.at, !r.ok)
    decreases if n < max then max - n else 0, |c.held|, c.open
  {
    hide Fetch, HandOver, Sound, Grown;
    if !Exhausted(c) {
      FetchAsks(script, c);
      var f := Fetch(script, c);
      if f.rv.Arrived? {
        var s := HandOver(f.conf);
        if !(s.found || n + |s.part| >= max) {
          LinesGoOn(script, c);
          LinesFail(script, s.conf, n + |s.part|, max);
        }
      }
    }
  }

  lemma FetchAsks(script: Script, c: Conf)
    requires Sound(c) && !Exhausted(c)
    ensures var f := Fetch(script, c); FailedSince(script, c.at, f.conf.at, f.rv == Failed)
    ensures var f := Fetch(script, c); f.rv == WouldBlock ==> script(f.conf.at - 1) != Failed
  {
  }

  lemma UpToFails(script: Script, c: Conf, mode: Mode, block: bool, n: nat)
    requires Sound(c) && !Exhausted(c)
    ensures var r := UpTo(script, c, mode, block, n); FailedSince(script, c.at, r.conf.at, r.rv == Error)
  {
    hide Fetch, Served, Sound;
    FetchAsks(script, c);
    ServedAsks(Fetch(script, c).conf, mode, n);
  }

  lemma ServedAsks(c: Conf, mode: Mode, n: nat)
    requires Sound(c)
    ensures forall k: nat :: c.held != [] && k <= Len(c.held[0]) ==> Served(c, mode, k).at == c.at
  {
  }

  // When nothing is held, a socket that has nothing to say leaves all as it is: without an
  // error if it would block, and with one if it fails.
  lemma NothingComes(script: Script, c: Conf, started: bool, mode: Mode, block: bool, n: nat)
    requires Sound(c) && c.held == [] && (c.open || !started) && !Answer(script, c.at).Arrived?
    ensures FilterCall(script, c, started, mode, block, n)
         == Called(c.(open := true, at := c.at + 1), if script(c.at) == WouldBlock then Ok else Error, [], [])
  {
  }

  // A line grows by data only.
  lemma {:induction false} LinesAddData(script: Script, c: Conf, n: nat, max: nat)
    requires Sound(c)
    ensures var r := Lines(script, c, n, max); GrowsByData(c.out, r.conf.out)
    decreases if n < max then max - n else 0, |c.held|, c.open
  {
    hide Fetch, HandOver, Sound, Grown;
    if !Exhausted(c) {
      var f := Fetch(script, c);
      if f.rv.Arrived? {
        var s := HandOver(f.conf);
        HandOverAddsData(f.conf);
        if !(s.found || n + |s.part| >= max) {
          LinesGoOn(script, c);
          LinesAddData(script, s.conf, n + |s.part|, max);
          LinesExtend(script, s.conf, n + |s.part|, max);
          DataThen(c.out, s.conf.out, Lines(script, s.conf, n + |s.part|, max).conf.out);
        }
      }
    }
  }

  ghost predicate GrowsByData(out: seq<Slice>, out': seq<Slice>) {
    |out| <= |out'| && forall k :: |out| <= k < |out'| ==> Len(out'[k]) > 0
  }

  lemma DataThen(a: seq<Slice>, b: seq<Slice>, c: seq<Slice>)
    requires GrowsByData(a, b) && GrowsByData(b, c) && Extends(b, c)
    ensures GrowsByData(a, c)
  {
    forall k | |a| <= k < |b| - 1
      ensures c[k] == b[k]
    {
      assert c[..|b| - 1][k] == b[..|b| - 1][k];
    }
  }

  lemma HandOverAddsData(c: Conf)
    requires Sound(c) && c.held != []
    ensures GrowsByData(c.out, HandOver(c).conf.out)
  {
    hide Content, FirstLf;
  }

  // A long bucket is not copied: its front, or all of it, moves.
  lemma LongBucketStays(c: Conf)
    requires Sound(c) && c.held != [] && (Len(c.held[0]) > BUFF_SIZE / 4 || LF in Content(c.store, c.held[0]))
    ensures var s, e := HandOver(c), c.held[0];
            && s.conf.store == c.store && s.conf.out == c.out + [Front(e, |s.part|)] && |s.part| <= Len(e)
            && (LF in Content(c.store, e) ==> s.found && s.conf.held == [Back(e, |s.part|)] + c.held[1..])
  {
    hide Content, FirstLf;
    var str := Content(c.store, c.held[0]);
    assert str[..|str|] == str;
  }

  // ----- the length limit

  // No allocation is larger than a bucket.
  ghost predicate Bounded(m: Store) {
    forall i :: 0 <= i < |m| ==> |m[i]| <= BUFF_SIZE
  }

  // A line stops at the first bucket with which it is long enough.
  lemma {:induction false} LineLimit(script: Script, c: Conf, n: nat, max: nat)
    requires Sound(c) && Bounded(c.store) && n < max
    ensures |Lines(script, c, n, max).got| < max - n + BUFF_SIZE
    decreases max - n, |c.held|, c.open
  {
    hide Fetch, HandOver, Sound, Grown;
    if !Exhausted(c) {
      var f := Fetch(script, c);
      if f.rv.Arrived? {
        var s := HandOver(f.conf);
        PartBounded(script, c);
        if !(s.found || n + |s.part| >= max) {
          LinesGoOn(script, c);
          LineLimit(script, s.conf, n + |s.part|, max);
        }
      }
    }
  }

  lemma FetchBounded(script: Script, c: Conf)
    requires Sound(c) && Bounded(c.store) && !Exhausted(c)
    ensures Bounded(Fetch(script, c).conf.store)
  {
  }

  lemma PartBounded(script: Script, c: Conf)
    requires Sound(c) && Bounded(c.store) && !Exhausted(c) && Fetch(script, c).rv.Arrived?
    ensures var s := HandOver(Fetch(script, c).conf); |s.part| <= BUFF_SIZE && Bounded(s.conf.store)
  {
    hide FirstLf, Content;
    FetchBounded(script, c);
  }

  lemma TakeAll(d: Data, n: nat)
    ensures Take(d, n) == d[..if |d| < n then |d| else n]
  {
    assert d[..|d|] == d;
  }

  lemma ServedPeek(c: Conf, n: nat)
    requires Sound(c) && c.held != [] && 0 < n <= Len(c.held[0])
    ensures n < Len(c.held[0]) ==> CutAt(c.held, n, Served(c, Speculative, n).held)
    ensures var e, c' := c.held[0], Served(c, Speculative, n);
            && c'.held != [] && Content(c'.store, c'.held[0]) == Content(c.store, e)[..n]
            && c'.out == c.out + [c'.held[0]]
  {
    CutContent(c.store, c.held[0], n);
  }

  // A peek is a copy of what is then held first, and cuts the first bucket if need be.
  lemma FilterPeeks(script: Script, c: Conf, started: bool, block: bool, n: nat)
    requires Sound(c)
    ensures var r := FilterCall(script, c, started, Speculative, block, n);
            && (r.got != [] ==> r.conf.held != [] && Content(r.conf.store, r.conf.held[0]) == r.got
                                && r.conf.out == c.out + [r.conf.held[0]])
            && (c.held != [] && NoneEmpty(c.held) && 0 < n < Len(c.held[0]) ==>
                  CutAt(c.held, n, r.conf.held) && r.conf.store == c.store)
  {
    hide Content, Stream, UpTo;
    var c1 := Prepared(c, started);
    NormalizedFits(c.store, c.held);
    if NoneEmpty(c.held) {
      NormalizedSame(c.held);
    }
    if !Exhausted(c1) {
      UpToPeeks(script, c1, block, n);
    }
  }

  lemma UpToPeeks(script: Script, c: Conf, block: bool, n: nat)
    requires Sound(c) && !Exhausted(c)
    ensures var r := UpTo(script, c, Speculative, block, n);
            && (r.got != [] ==> r.conf.held != [] && Content(r.conf.store, r.conf.held[0]) == r.got
                                && r.conf.out == c.out + [r.conf.held[0]])
            && (c.held != [] && 0 < n < Len(c.held[0]) ==>
                  CutAt(c.held, n, r.conf.held) && r.conf.store == c.store)
  {
    hide Content, Stream, Served;
    var f, r := Fetch(script, c), UpTo(script, c, Speculative, block, n);
    if r.got != [] {
      ServedPeek(f.conf, |r.got|);
    }
  }

  lemma FilterLines(script: Script, c: Conf, started: bool, block: bool, n: nat)
    requires Sound(c)
    ensures var r := FilterCall(script, c, started, GetLine, block, n);
            && LineShape(r.got, HUGE_STRING_LEN, r.rv == Ok, r.conf.held == [] && Dry(script, r.conf))
            && (r.rv == Eof <==> Exhausted(Prepared(c, started)))
  {
    hide Lines, LineShape;
    NormalizedFits(c.store, c.held);
    var c1 := Prepared(c, started);
    if Exhausted(c1) {
      LineBegins(HUGE_STRING_LEN);
      EndIsDry(script, c1);
    } else {
      LinesAreLines(script, c1, 0, HUGE_STRING_LEN);
    }
  }

  // ----- the two together

  lemma CallKeeps(script: Script, c: Conf, started: bool, mode: Mode, block: bool, n: nat, others: seq<Slice>)
    requires Sound(c) && AllFit(c.store, others) && Tidy(c.held, [])
    ensures var r := FilterCall(script, c, started, mode, block, n);
            && Tidy(r.conf.held, [])
            && (mode != GetLine || InLine(c.out, c.held, others) ==>
                  CallKept(mode, c, r.conf, r.got, r.inflow, others))
            && (mode != Speculative && InLine(c.out, c.held, others) ==> InLine(r.conf.out, r.conf.held, others))
            && (mode == ReadBytes && r.got != [] && Tidy(c.held, c.out + others) ==>
                  InLine(r.conf.out, r.conf.held, others))
            && ((mode != GetLine && Tidy(c.held, c.out + others)) || InLine(c.out, c.held, others) ==>
                  Tidy(r.conf.held, r.conf.out + others))
  {
    hide InLine, Tidy, FilterCall, CallKept;
    FilterTidy(script, c, started, mode, block, n);
    if mode != GetLine || InLine(c.out, c.held, others) {
      FilterKeeps(script, c, started, mode, block, n, others);
    }
    if InLine(c.out, c.held, others) {
      InLineTidy(c.out, c.held, others);
    }
  }

  lemma CallServes(script: Script, c: Conf, started: bool, mode: Mode, block: bool, n: nat)
    requires Sound(c)
    ensures var r := FilterCall(script, c, started, mode, block, n);
            && (r.rv == Eof <==> Exhausted(Prepared(c, started)))
            && (mode != GetLine ==>
                  && c.store <= r.conf.store && |r.got| <= n
                  && (n > 0 && r.rv == Ok && r.got == [] ==> Dry(script, r.conf))
                  && (r.inflow != [] ==> r.rv == Ok && r.got == Take(r.inflow, n))
                  && (c.held != [] && Len(c.held[0]) > 0 ==>
                        && r.inflow == [] && r.rv == Ok && r.conf.at == c.at
                        && r.got == Take(Content(c.store, c.held[0]), n)))
            && (mode == Speculative ==>
                  && (r.got != [] ==> r.conf.held != [] && Content(r.conf.store, r.conf.held[0]) == r.got
                                      && r.conf.out == c.out + [r.conf.held[0]])
                  && (c.held != [] && NoneEmpty(c.held) && 0 < n < Len(c.held[0]) ==>
                        CutAt(c.held, n, r.conf.held) && r.conf.store == c.store))
            && (mode == GetLine ==>
                  && LineLike(r.got)
                  && (r.rv == Ok && Unfinished(r.got, HUGE_STRING_LEN) ==> r.conf.held == [] && Dry(script, r.conf)))
  {
    hide FilterCall, Prepared, Content, CutAt, Dry;
    if mode == GetLine {
      FilterLines(script, c, started, block, n);
    } else {
      FilterServes(script, c, started, mode, block, n);
      FilterPeeks(script, c, started, block, n);
    }
  }

  // ----- what a call adds to the brigade

  lemma HandOverExtends(c: Conf)
    requires Sound(c) && c.held != []
    ensures Extends(c.out, HandOver(c).conf.out)
  {
    hide Content, Write;
    var s := HandOver(c);
    WriteExtends(c.store, c.out, Content(c.store, c.held[0]));
    ExtendsBy(c.out, []);
    ExtendsBy(c.out, [Front(c.held[0], if s.found then |s.part| else 0)]);
    ExtendsBy(c.out, [c.held[0]]);
  }

  lemma {:induction false} LinesExtend(script: Script, c: Conf, n: nat, max: nat)
    requires Sound(c)
    ensures Extends(c.out, Lines(script, c, n, max).conf.out)
    decreases if n < max then max - n else 0, |c.held|, c.open
  {
    hide Fetch, HandOver, Sound, Extends, Grown;
    ExtendsBy(c.out, []);
    if !Exhausted(c) {
      var f := Fetch(script, c);
      if f.rv.Arrived? {
        var s := HandOver(f.conf);
        HandOverExtends(f.conf);
        if !(s.found || n + |s.part| >= max) {
          LinesGoOn(script, c);
          LinesExtend(script, s.conf, n + |s.part|, max);
          ExtendsThen(c.out, s.conf.out, Lines(script, s.conf, n + |s.part|, max).conf.out);
        }
      }
    }
  }

  lemma UpToExtends(script: Script, c: Conf, mode: Mode, block: bool, n: nat)
    requires Sound(c) && !Exhausted(c)
    ensures Extends(c.out, UpTo(script, c, mode, block, n).conf.out)
  {
    hide Extends, Content, Sound, AllFit;
    var f := Fetch(script, c);
    ExtendsBy(c.out, []);
    ExtendsBy(c.out, [Eos]);
    if f.rv.Arrived? {
      var k := if |f.rv.data| < n then |f.rv.data| else n;
      ExtendsBy(c.out, [Front(f.conf.held[0], k)]);
    }
  }

  lemma FilterExtends(script: Script, c: Conf, started: bool, mode: Mode, block: bool, n: nat)
    requires Sound(c)
    ensures Extends(c.out, FilterCall(script, c, started, mode, block, n).conf.out)
  {
    hide Extends, Lines, UpTo;
    var c1 := Prepared(c, started);
    NormalizedFits(c.store, c.held);
    ExtendsBy(c.out, []);
    if !Exhausted(c1) {
      if mode == GetLine {
        LinesExtend(script, c1, 0, HUGE_STRING_LEN);
      } else {
        UpToExtends(script, c1, mode, block, n);
      }
    }
  }
}
