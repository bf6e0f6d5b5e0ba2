/**
  ap_core_input_filter: the reading side.  Bytes come from a socket bucket at the end of a
  brigade that is kept between calls; a call consumes a line, consumes up to n bytes, or
  peeks at up to n bytes.  Heap buckets are slices of shared allocations.  Each method does
  what a function of module Reading says.
*/
module InputFilter {
  import opened Bytes
  import opened Slices
  import opened Reading

  // The socket, with everything it is going to answer.
  class Source {
    const script: Script
    var at: nat                 // how often it has been read
    ghost var pulled: Data      // everything read so far

    constructor (script: Script)
      ensures this.script == script && at == 0 && pulled == []
    {
      this.script, at, pulled := script, 0, [];
    }

    // apr_socket_recv, as the socket bucket uses it
    method Recv() returns (rv: Recv)
      modifies this
      ensures rv == Answer(script, old(at)) && at == old(at) + 1
      ensures pulled == old(pulled) + if rv.Arrived? then rv.data else []
    {
      rv := Answer(script, at);
      at, pulled := at + 1, pulled + if rv.Arrived? then rv.data else [];
    }
  }

  // The memory that heap buckets are slices of.
  class Allocator {
    var store: Store

    constructor ()
      ensures store == []
    {
      store := [];
    }
  }

  class Output {
    var buckets: seq<Slice>

    constructor ()
      ensures buckets == []
    {
      buckets := [];
    }

    method Add(e: Slice)
      modifies this
      ensures buckets == old(buckets) + [e]
    {
      buckets := buckets + [e];
    }
  }

  lemma {:induction false} NormalizedDrop(bs: seq<Slice>, i: nat)
    requires i < |bs| && Len(bs[i]) == 0
    ensures Normalized(bs[..i] + bs[i + 1..]) == Normalized(bs) && !NoneEmpty(bs)
  {
    if i > 0 {
      var rest, bs' := bs[1..], bs[..i] + bs[i + 1..];
      NormalizedDrop(rest, i - 1);
      assert bs'[1..] == rest[..i - 1] + rest[i..] && bs'[0] == bs[0];
    } else {
      assert bs[..0] + bs[1..] == bs[1..];
    }
  }

  // The part of BRIGADE_NORMALIZE that matters here: drop the empty data buckets.
  method Normalize(ghost m: Store, bs: seq<Slice>) returns (bs': seq<Slice>)
    requires Plain(bs) && AllFit(m, bs)
    ensures bs' == Normalized(bs) && NoneEmpty(bs')
    ensures Plain(bs') && AllFit(m, bs') && Stream(m, bs') == Stream(m, bs)
    ensures bs != [] && Len(bs[0]) > 0 ==> bs' != [] && bs'[0] == bs[0]
    ensures NoneEmpty(bs) ==> bs' == bs
  {
    hide Stream, Normalized;
    bs' := bs;
    var i := 0;
    while i < |bs'|
      invariant i <= |bs'| && Normalized(bs') == Normalized(bs)
      invariant NoneEmpty(bs'[..i])
      invariant bs != [] && Len(bs[0]) > 0 ==> bs' != [] && bs'[0] == bs[0]
      invariant NoneEmpty(bs) ==> bs' == bs
      decreases |bs'| - i
    {
      if Len(bs'[i]) > 0 {
        assert bs'[..i + 1] == bs'[..i] + [bs'[i]];
        i := i + 1;
      } else {
        NormalizedDrop(bs', i);
        assert (bs'[..i] + bs'[i + 1..])[..i] == bs'[..i];
        bs' := bs'[..i] + bs'[i + 1..];
      }
    }
    assert bs' == bs'[..i];
    NormalizedSame(bs');
    NormalizedFits(m, bs);
  }

  // The cut falls inside the first bucket of `right`.
  lemma CutInside(m: Store, left: seq<Slice>, right: seq<Slice>, n: nat)
    requires AllFit(m, left) && AllFit(m, right) && right != [] && n <= Len(right[0])
    ensures var all, l, r := Stream(m, left) + Stream(m, right), left + [Front(right[0], n)],
                             [Back(right[0], n)] + right[1..];
            && AllFit(m, l) && AllFit(m, r) && |Stream(m, left)| + n <= |all|
            && Stream(m, l) == all[..|Stream(m, left)| + n] && Stream(m, r) == all[|Stream(m, left)| + n..]
  {
    hide Stream, Content;
    var front, back := Front(right[0], n), Back(right[0], n);
    CutContent(m, right[0], n);
    StreamHead(m, right);
    StreamAppend(m, left, [front]);
    StreamOne(m, front);
    StreamAppend(m, [back], right[1..]);
    StreamOne(m, back);
    Pieces(Stream(m, left), Content(m, right[0]), n, Stream(m, right[1..]));
  }

  lemma Pieces(a: Data, b: Data, n: nat, c: Data)
    requires n <= |b|
    ensures (a + (b + c))[..|a| + n] == a + b[..n]
    ensures (a + (b + c))[|a| + n..] == b[n..] + c
  {
  }

  // The cut falls right behind the first bucket of `right`.
  lemma CutAfter(m: Store, left: seq<Slice>, right: seq<Slice>)
    requires AllFit(m, left) && AllFit(m, right) && right != []
    ensures var l := left + [right[0]];
            && AllFit(m, l) && AllFit(m, right[1..]) && |Stream(m, l)| == |Stream(m, left)| + Len(right[0])
            && Stream(m, l) + Stream(m, right[1..]) == Stream(m, left) + Stream(m, right)
  {
    hide Stream, Content;
    StreamHead(m, right);
    StreamOne(m, right[0]);
    StreamAppend(m, left, [right[0]]);
    Assoc(Stream(m, left), Content(m, right[0]), Stream(m, right[1..]));
  }

  lemma NoSlices(m: Store)
    ensures AllFit(m, []) && Stream(m, []) == []
  {
  }

  // apr_brigade_partition: find the place `point` bytes into the brigade, splitting a
  // bucket when it falls inside one.
  method Partition(m: Store, bs: seq<Slice>, point: nat) returns (left: seq<Slice>, right: seq<Slice>)
    requires Plain(bs) && AllFit(m, bs) && point <= |Stream(m, bs)|
    ensures AllFit(m, left) && AllFit(m, right)
    ensures Stream(m, left) == Stream(m, bs)[..point] && Stream(m, right) == Stream(m, bs)[point..]
    ensures point == 0 ==> left == [] && right == bs
    ensures 0 < point && bs != [] && point <= Len(bs[0]) ==>
              left == [Front(bs[0], point)] && right == Beyond(bs[0], point, bs[1..])
  {
    hide Stream, Content, AllFit;
    NoSlices(m);
    if point == 0 {
      return [], bs;
    }
    left, right := [], bs;
    var togo := point;
    Assoc(Stream(m, bs), [], []);
    while true
      invariant AllFit(m, left) && AllFit(m, right) && 0 < togo <= |Stream(m, right)|
      invariant |Stream(m, left)| + togo == point && Stream(m, left) + Stream(m, right) == Stream(m, bs)
      invariant if left == [] then right == bs else point > Len(bs[0])
      invariant bs != []
      decreases |right|
    {
      StreamHead(m, right);
      var e := right[0];
      CutInside(m, left, right, if togo < Len(e) then togo else Len(e));
      CutAfter(m, left, right);
      if togo < Len(e) {
        left, right := left + [Front(e, togo)], [Back(e, togo)] + right[1..];
        return;
      }
      left, right := left + [e], right[1..];
      if togo == Len(e) {
        FrontsAndBacks(Stream(m, left), Stream(m, right), Stream(m, bs));
        return;
      }
      togo := togo - Len(e);
    }
  }

  lemma FrontsAndBacks(a: Data, b: Data, all: Data)
    requires a + b == all
    ensures a == all[..|a|] && b == all[|a|..]
  {
  }

  // memchr finds the first line feed and no other.
  lemma FirstLfIs(d: Data, n: nat)
    requires n <= |d| && LF !in d[..n] && (n < |d| ==> d[n] == LF)
    ensures FirstLf(d) == n
  {
    var k := FirstLf(d);
    assert forall j :: 0 <= j < n ==> d[..n][j] == d[j];
    assert forall j :: 0 <= j < k ==> d[..k][j] == d[j];
  }

  method IndexOfLf(str: Data) returns (pos: nat)
    ensures pos == FirstLf(str) <= |str| && LF !in str[..pos]
    ensures pos < |str| ==> str[pos] == LF
  {
    hide FirstLf;
    pos := 0;
    while pos < |str| && str[pos] != LF
      invariant pos <= |str| && LF !in str[..pos]
    {
      pos := pos + 1;
    }
    FirstLfIs(str, pos);
  }

  // A loop that has read `got`, with `inflow` from the network, and has the rest before it.
  ghost predicate GoesOn(whole: Lined, got: Data, inflow: Data, rest: Lined) {
    whole == rest.(got := got + rest.got, inflow := inflow + rest.inflow)
  }

  lemma LineStart(whole: Lined)
    ensures GoesOn(whole, [], [], whole)
  {
    assert [] + whole.got == whole.got && [] + whole.inflow == whole.inflow;
  }

  // The loop ends here, or this turn of it hands over a bucket.
  lemma LineStops(script: Script, c: Conf, n: nat, max: nat, whole: Lined, got: Data, inflow: Data)
    requires Sound(c) && GoesOn(whole, got, inflow, Lines(script, c, n, max))
    ensures Exhausted(c) ==> whole == Lined(c, true, got, inflow)
    ensures !Exhausted(c) ==>
              var f := Fetch(script, c);
              !f.rv.Arrived? ==> whole == Lined(f.conf, f.rv == WouldBlock, got, inflow)
  {
    hide Fetch, HandOver, Sound, Grown;
    Assoc(got, [], []);
    Assoc(inflow, [], []);
  }

  lemma LineTurn(script: Script, c: Conf, n: nat, max: nat, whole: Lined, got: Data, inflow: Data)
    requires Sound(c) && GoesOn(whole, got, inflow, Lines(script, c, n, max))
    requires !Exhausted(c) && Fetch(script, c).rv.Arrived?
    ensures var f := Fetch(script, c);
            var s := HandOver(f.conf);
            if s.found || n + |s.part| >= max then whole == Lined(s.conf, true, got + s.part, inflow + f.inflow)
            else GoesOn(whole, got + s.part, inflow + f.inflow, Lines(script, s.conf, n + |s.part|, max))
  {
    hide Fetch, HandOver, Sound, Grown;
    var f := Fetch(script, c);
    var s := HandOver(f.conf);
    if !s.found && n + |s.part| < max {
      var r := Lines(script, s.conf, n + |s.part|, max);
      Assoc(got, s.part, r.got);
      Assoc(inflow, f.inflow, r.inflow);
    }
  }

  // What the two parts of a cut within the first bucket become.
  lemma ServedAs(c: Conf, mode: Mode, n: nat, left: seq<Slice>, right: seq<Slice>)
    requires Sound(c) && c.held != [] && n <= Len(c.held[0])
    requires n == 0 ==> left == [] && right == c.held
    requires n > 0 ==> left == [Front(c.held[0], n)] && right == Beyond(c.held[0], n, c.held[1..])
    ensures Served(c, mode, n)
         == c.(out := c.out + left, held := if mode == Speculative then left + right else right)
  {
    assert [] + right == right && c.out + [] == c.out;
  }

  lemma EndsEmpty(script: Script, c: Conf, started: bool, mode: Mode, block: bool, n: nat)
    requires Sound(c)
    ensures var r := FilterCall(script, c, started, mode, block, n);
            && (r.rv == Eof ==> Exhausted(r.conf) && r.got == [] && r.inflow == [])
            && (started && Exhausted(c) ==> r.rv == Eof)
  {
    hide Lines;
  }

  class CoreInput {
    const src: Source
    const mem: Allocator
    var held: seq<Slice>      // the data buckets of ctx->b
    var open: bool            // ctx->b ends with the socket bucket
    var started: bool         // ctx != NULL

    constructor (src: Source, mem: Allocator)
      ensures this.src == src && this.mem == mem && Valid() && held == [] && !started
    {
      this.src, this.mem, held, open, started := src, mem, [], false, false;
    }

    ghost predicate Valid()
      reads this, mem
    {
      Holding() && Tidy(held, []) && (!started ==> held == [] && !open)
    }

    ghost predicate Holding()
      reads `held, mem
    {
      Plain(held) && AllFit(mem.store, held)
    }

    ghost function Buffered(): Data
      requires Holding()
      reads `held, mem
    {
      Stream(mem.store, held)
    }

    // Everything that decides what a call into this brigade does.
    ghost function Now(out: Output): Conf
      reads this, src, mem, out
    {
      Conf(mem.store, out.buckets, held, open, src.at)
    }

    // What is held is in line behind the brigade handed in, and none of the others is in the way.
    ghost predicate InLine(out: Output, others: seq<Slice>)
      reads `held, out
    {
      Slices.InLine(out.buckets, held, others)
    }

    predicate Empty()
      reads this
    {
      held == [] && !open
    }

    // apr_bucket_read on the first bucket: the socket turns into data followed by the
    // socket, or into an empty bucket at end of file.
    method ReadHead(ghost out: Output) returns (rv: Recv, ghost inflow: Data)
      requires Sound(Now(out)) && !Empty()
      modifies this`held, this`open, src, mem
      ensures Sound(Now(out)) && src.pulled == old(src.pulled) + inflow
      ensures Fetched(Now(out), rv, inflow) == Fetch(src.script, old(Now(out)))
    {
      inflow := [];
      Assoc(src.pulled, [], []);
      if held != [] {
        return Arrived(Content(mem.store, held[0])), inflow;
      }
      rv := src.Recv();
      if rv.Arrived? {
        var str := rv.data;
        inflow := str;
        held := [if str != [] then Heap(|mem.store|, 0, |str|) else Immortal];
        open := str != [];
        if str != [] {
          mem.store := mem.store + [Alloc(str, BUFF_SIZE)];
        }
      }
    }

    // ap_core_input_filter: the call does what FilterCall says.  What was handed out before
    // stays as it is, unless a line goes to a brigade that is not in line.
    method Filter(out: Output, mode: Mode, block: bool, readbytes: nat, ghost others: seq<Slice>)
      returns (rv: Status, ghost got: Data, ghost inflow: Data)
      requires Valid() && AllFit(mem.store, out.buckets) && (mode != GetLine ==> readbytes > 0)
      requires AllFit(mem.store, others)
      modifies this, src, mem, out
      ensures Called(Now(out), rv, got, inflow)
           == FilterCall(src.script, old(Now(out)), old(started), mode, block, readbytes)
      ensures Valid() && started && AllFit(mem.store, out.buckets) && Grown(old(mem.store), mem.store)
      ensures src.pulled == old(src.pulled) + inflow
      ensures mode != GetLine || old(InLine(out, others)) ==>
                CallKept(mode, old(Now(out)), Now(out), got, inflow, others)
      ensures mode != Speculative && old(InLine(out, others)) ==> InLine(out, others)
      ensures mode == ReadBytes && got != [] && Tidy(old(held), old(out.buckets) + others) ==> InLine(out, others)
      ensures (mode != GetLine && Tidy(old(held), old(out.buckets) + others)) || old(InLine(out, others)) ==>
                Tidy(held, out.buckets + others)
      ensures mode != GetLine ==> old(mem.store) <= mem.store
      ensures rv == Error <==> src.at > old(src.at) && src.script(src.at - 1) == Failed
      ensures old(held == [] && (open || !started)) && src.script(old(src.at)) == WouldBlock ==>
                && rv == Ok && got == [] && inflow == [] && src.at == old(src.at) + 1
                && out.buckets == old(out.buckets) && held == [] && open && mem.store == old(mem.store)
      ensures rv == Eof ==> Empty() && got == [] && inflow == []
      ensures old(started && Empty()) ==> rv == Eof
      ensures mode != GetLine ==> |got| <= readbytes && (inflow != [] ==> rv == Ok && got == Take(inflow, readbytes))
      ensures mode != GetLine && rv == Ok && got == [] ==> Dry(src.script, Now(out))
      ensures mode == GetLine ==>
                && LineLike(got)
                && (rv == Ok && Unfinished(got, HUGE_STRING_LEN) ==> held == [] && Dry(src.script, Now(out)))
      ensures mode == Speculative && got != [] ==>
                held != [] && Content(mem.store, held[0]) == got && out.buckets == old(out.buckets) + [held[0]]
      ensures mode != GetLine && old(held != [] && Len(held[0]) > 0) ==>
                && inflow == [] && src.at == old(src.at) && rv == Ok
                && got == Take(old(Content(mem.store, held[0])), readbytes)
      ensures mode == Speculative && old(held != [] && NoneEmpty(held) && readbytes < Len(held[0])) ==>
                CutAt(old(held), readbytes, held) && mem.store == old(mem.store)
    {
      hide FilterCall, Stream, Content, CallKept, Tidy, Slices.InLine, LineLike, Unfinished, CutAt, Dry, AllFit, Plain;
      CallKeeps(src.script, Now(out), started, mode, block, readbytes, others);
      CallServes(src.script, Now(out), started, mode, block, readbytes);
      EndsEmpty(src.script, Now(out), started, mode, block, readbytes);
      FilterErrors(src.script, Now(out), started, mode, block, readbytes);
      if held == [] && (open || !started) && src.script(src.at) == WouldBlock {
        NothingComes(src.script, Now(out), started, mode, block, readbytes);
      }
      rv, got, inflow := Branch(out, mode, block, readbytes);
    }

    method Branch(out: Output, mode: Mode, block: bool, readbytes: nat)
      returns (rv: Status, ghost got: Data, ghost inflow: Data)
      requires Valid() && AllFit(mem.store, out.buckets) && (mode != GetLine ==> readbytes > 0)
      modifies this, src, mem, out
      ensures Called(Now(out), rv, got, inflow)
           == FilterCall(src.script, old(Now(out)), old(started), mode, block, readbytes)
      ensures started && src.pulled == old(src.pulled) + inflow
    {
      hide Prepared, Lines, UpTo, Stream, Content, Tidy;
      got, inflow := [], [];
      Assoc(src.pulled, [], []);
      var more := Ready(out);
      if !more {
        return Eof, got, inflow;
      }
      if mode == GetLine {
        rv, got, inflow := SplitLine(out, HUGE_STRING_LEN);
      } else {
        rv, got, inflow := ReadUpTo(out, mode, block, readbytes);
      }
    }

    // Is there anything to read from?  The first call brings in the socket.
    method Ready(ghost out: Output) returns (more: bool)
      requires Valid()
      modifies this
      ensures Holding() && started && Now(out) == Prepared(old(Now(out)), old(started))
      ensures (more <==> !Empty()) && (more ==> NoneEmpty(held)) && Buffered() == old(Buffered())
      ensures old(started && Empty()) ==> !more
    {
      if !started {
        started, open := true, true;
      } else if Empty() {
        return false;
      }
      DropEmpty();
      more := !Empty();
    }

    // BRIGADE_NORMALIZE on what is held.
    method DropEmpty()
      requires Holding()
      modifies this`held
      ensures Holding() && NoneEmpty(held) && Buffered() == old(Buffered()) && held == Normalized(old(held))
    {
      hide Stream;
      held := Normalize(mem.store, held);
    }

    // The branch for AP_MODE_READBYTES and AP_MODE_SPECULATIVE.
    method ReadUpTo(out: Output, mode: Mode, block: bool, readbytes: nat)
      returns (rv: Status, ghost got: Data, ghost inflow: Data)
      requires Sound(Now(out)) && !Empty() && mode != GetLine && readbytes > 0
      modifies this`held, this`open, src, mem, out
      ensures Sound(Now(out)) && src.pulled == old(src.pulled) + inflow
      ensures Called(Now(out), rv, got, inflow) == UpTo(src.script, old(Now(out)), mode, block, readbytes)
    {
      hide Fetch, Served, Content;
      got := [];
      var rc;
      rc, inflow := ReadHead(out);
      if rc == WouldBlock {
        return Ok, got, inflow;
      }
      if rc == Failed {
        return Error, got, inflow;
      }
      var str := rc.data;
      if block && str == [] {
        held := held[1..];
        if mode == ReadBytes {
          out.Add(Eos);
        }
        return Ok, got, inflow;
      }
      got := Serve(out, mode, if |str| < readbytes then |str| else readbytes);
      return Ok, got, inflow;
    }

    // Cut the first n bytes off, hand them or a copy of them to the caller, and put back
    // what was there.
    method Serve(out: Output, mode: Mode, n: nat) returns (ghost got: Data)
      requires Sound(Now(out)) && held != [] && n <= Len(held[0]) && mode != GetLine
      modifies this`held, out
      ensures Now(out) == Served(old(Now(out)), mode, n) && Sound(Now(out))
      ensures got == old(Content(mem.store, held[0]))[..n]
    {
      hide Stream, Content, Served;
      got := Content(mem.store, held[0])[..n];
      StreamHead(mem.store, held);
      var left, right := Partition(mem.store, held, n);
      ServedAs(Now(out), mode, n, left, right);
      out.buckets := out.buckets + left;
      held := if mode == Speculative then left + right else right;
    }

    // The first bucket goes to the caller, up to and including a line feed if there is one;
    // short buckets are copied together.
    method HandOverLine(out: Output, str: Data) returns (found: bool, ghost part: Data)
      requires Sound(Now(out)) && held != [] && Content(mem.store, held[0]) == str
      modifies this`held, mem, out
      ensures Step(Now(out), found, part) == HandOver(old(Now(out))) && Sound(Now(out))
    {
      hide Content, FirstLf, Write;
      var pos := IndexOfLf(str);
      found := pos < |str|;
      var e := held[0];
      if found {
        part := str[..pos + 1];
        out.Add(Front(e, pos + 1));
        held := [Back(e, pos + 1)] + held[1..];
        return;
      }
      part := str;
      held := held[1..];
      if |str| > BUFF_SIZE / 4 {
        out.Add(e);
      } else if |str| > 0 {
        var w := Write(mem.store, out.buckets, str);
        mem.store, out.buckets := w.store, w.out;
      }
    }

    // apr_brigade_split_line, with EAGAIN reported as success by its caller.
    method SplitLine(out: Output, maxbytes: nat) returns (rv: Status, ghost got: Data, ghost inflow: Data)
      requires Sound(Now(out))
      modifies this`held, this`open, src, mem, out
      ensures Sound(Now(out)) && src.pulled == old(src.pulled) + inflow && rv != Eof
      ensures Lined(Now(out), rv == Ok, got, inflow) == Lines(src.script, old(Now(out)), 0, maxbytes)
    {
      hide Fetch, HandOver, Lines, Content, GoesOn;
      ghost var pulled0, whole := src.pulled, Lines(src.script, Now(out), 0, maxbytes);
      rv, got, inflow := Ok, [], [];
      Assoc(src.pulled, [], []);
      LineStart(whole);
      var readbytes := 0;
      while !Empty()
        invariant Sound(Now(out)) && src.pulled == pulled0 + inflow && rv == Ok
        invariant GoesOn(whole, got, inflow, Lines(src.script, Now(out), readbytes, maxbytes))
        decreases if readbytes < maxbytes then maxbytes - readbytes else 0, |held|, open
      {
        LineStops(src.script, Now(out), readbytes, maxbytes, whole, got, inflow);
        ghost var c := Now(out);
        var rc, found;
        ghost var more, part;
        rc, more := ReadHead(out);
        Assoc(pulled0, inflow, more);
        Assoc(inflow, more, []);
        if !rc.Arrived? {
          return if rc == WouldBlock then Ok else Error, got, inflow;
        }
        LineTurn(src.script, c, readbytes, maxbytes, whole, got, inflow);
        LinesGoOn(src.script, c);
        inflow := inflow + more;
        found, part := HandOverLine(out, rc.data);
        got := got + part;
        if found {
          return;
        }
        readbytes := readbytes + |rc.data|;
        if readbytes >= maxbytes {
          return;
        }
      }
      LineStops(src.script, Now(out), readbytes, maxbytes, whole, got, inflow);
    }
  }
}
