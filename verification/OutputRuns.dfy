/**
  Whole runs of the output filter: any number of calls, each one as CoreOutput.Write
  promises, and the flush that ends a connection.
*/
module OutputRuns {
  import opened Bytes
  import opened Network
  import opened Buckets
  import opened OutputFilter

  // ap_flush_conn: a FLUSH and an EOC bucket, after which nothing stays set aside.
  method FlushConn(out: CoreOutput, keepalive: bool) returns (rv: Result, ghost io: seq<Io>)
    requires out.Valid()
    modifies out, out.sock, out.sock.host
    ensures out.Valid() && out.sock.host.log == old(out.sock.host.log) + io
    ensures !out.aborted && Clean(io) ==>
              Stream(out.saved) == [] && out.sock.wire == old(out.sock.wire + Stream(out.saved))
    ensures out.aborted <==> old(out.aborted) || (Fails(io) && io[|io| - 1].rv != EAgain)
    ensures old(out.aborted) ==> io == []
  {
    var bb := new Brigade([Flush, Eoc]);
    assert Stream(bb.buckets) == [] by {
      StreamAppend([Flush], [Eoc]);
      StreamOne(Flush);
      StreamOne(Eoc);
      assert [Flush, Eoc] == [Flush] + [Eoc];
    }
    ghost var all := out.saved + bb.buckets;
    assert Last(all) == Eoc;
    ghost var held := Stream(out.saved);
    rv, io := out.Write(bb, keepalive);
    assert held + [] == held;
    assert held[..|held|] == held;
  }

  // A bucket that forces output - a FLUSH, an EOC, or a large file unless it ends a response
  // on a keep-alive connection - leaves nothing in front of it unsent, as long as no call of
  // the operating system fails.
  method WriteForced(out: CoreOutput, bb: Brigade, keepalive: bool, ghost i: nat)
    returns (rv: Result, ghost io: seq<Io>)
    requires out.Valid() && AllValid(bb.buckets) && ClosesAtEnd(bb.buckets)
    requires i < |bb.buckets| && Forces(bb.buckets[i], Holds(bb.buckets, keepalive))
    modifies out, out.sock, out.sock.host, bb
    ensures out.Valid() && out.sock.host.log == old(out.sock.host.log) + io
    ensures !out.aborted && Clean(io) ==>
              old(out.sock.wire + Stream(out.saved) + Stream(bb.buckets[..i + 1])) <= out.sock.wire
  {
    hide Stream, Lag, Sent;
    ghost var saved, input, hold := out.saved, bb.buckets, Holds(bb.buckets, keepalive);
    ghost var wire := out.sock.wire;
    rv, io := out.Write(bb, keepalive);
    if !out.aborted && Clean(io) {
      Whole(wire, Stream(saved) + Stream(input), Sent(io));
      ForcedIsOut(wire, saved, input, i, hold, out.sock.wire, Stream(out.saved));
    }
  }

  lemma Whole(wire: Data, due: Data, n: nat)
    requires n <= |due|
    ensures (wire + due[..n]) + due[n..] == wire + due
  {
    assert due[..n] + due[n..] == due;
  }

  lemma ForcedIsOut(wire: Data, saved: seq<Bucket>, input: seq<Bucket>, i: nat, hold: bool, wire': Data, held: Data)
    requires i < |input| && Forces(input[i], hold) && |held| <= Lag(saved + input, hold)
    requires wire' + held == wire + (Stream(saved) + Stream(input))
    ensures wire + Stream(saved) + Stream(input[..i + 1]) <= wire'
  {
    hide Stream, Lag;
    var front, back := input[..i + 1], input[i + 1..];
    assert saved + input == (saved + front) + back && Last(saved + front) == input[i] && input == front + back;
    LagAfter(saved + front, back, hold);
    StreamAppend(front, back);
    Three(wire, Stream(saved), Stream(front), Stream(back));
    Shorter(wire', held, wire + Stream(saved) + Stream(front), Stream(back));
  }

  lemma Three(a: Data, b: Data, c: Data, d: Data)
    ensures a + (b + (c + d)) == (a + b + c) + d
  {
  }

  lemma {:induction false} LagAfter(a: seq<Bucket>, c: seq<Bucket>, hold: bool)
    requires a != [] && Forces(Last(a), hold)
    ensures Lag(a + c, hold) <= |Stream(c)|
  {
    if c == [] {
      assert a + c == a;
    } else {
      var init, e := c[..|c| - 1], Last(c);
      LagAfter(a, init, hold);
      assert a + c == (a + init) + [e] && c == init + [e];
      LagSnoc(a + init, e, hold);
      StreamAppend(init, [e]);
      StreamOne(e);
    }
  }

  // Of two splits of one sequence, the one with the shorter back has the longer front.
  lemma Shorter(a: Data, b: Data, c: Data, d: Data)
    requires a + b == c + d && |b| <= |d|
    ensures c <= a
  {
    assert c == (c + d)[..|c|] == (a + b)[..|c|] == a[..|c|];
  }

  // One call of a run: the bytes passed in, the calls of the operating system, the result.
  datatype Event = Event(input: Data, io: seq<Io>, rv: Result)

  ghost predicate Run(states: seq<Snapshot>, events: seq<Event>) {
    && |states| == |events| + 1
    && forall k :: 0 <= k < |events| ==> Step(states[k], events[k], states[k + 1])
  }

  ghost predicate Step(s: Snapshot, e: Event, s': Snapshot) {
    Call(s, e.input, e.io, e.rv, s')
  }

  // Everything passed in, in order.
  function Passed(events: seq<Event>): Data {
    if events == [] then [] else Passed(events[..|events| - 1]) + events[|events| - 1].input
  }

  ghost function Kept(s: Snapshot): Data {
    s.wire + s.held
  }

  lemma RunInit(states: seq<Snapshot>, events: seq<Event>)
    requires Run(states, events) && events != []
    ensures Run(states[..|events|], events[..|events| - 1])
    ensures Step(states[|events| - 1], events[|events| - 1], states[|events|])
  {
  }

  // No call of the operating system fails during the run.
  ghost predicate NoFailure(events: seq<Event>) {
    forall k :: 0 <= k < |events| ==> Clean(events[k].io)
  }

  // What one call does to the bytes on the wire and those set aside.
  lemma StepKeeps(s: Snapshot, e: Event, s': Snapshot)
    requires Step(s, e, s')
    ensures s.wire <= s'.wire <= Kept(s) + e.input
    ensures |Kept(s')| <= |Kept(s)| + |e.input|
    ensures !s.aborted && Clean(e.io) ==> Kept(s') == Kept(s) + e.input && !s'.aborted
    ensures !s.aborted && !Clean(e.io) ==> |Kept(s')| < |Kept(s)| + |e.input| && s'.held == []
  {
    hide Sent;
    var due, n := s.held + e.input, Sent(e.io);
    assert s.wire + due == Kept(s) + e.input;
    if !s.aborted {
      Whole(s.wire, due, n);
      assert due[..n] <= due;
    }
  }

  // Conservation: as long as no call of the operating system fails, what is on the wire
  // followed by what is set aside is what was there at the start followed by everything
  // passed in.
  lemma {:induction false} RunConserves(states: seq<Snapshot>, events: seq<Event>)
    requires Run(states, events) && !states[0].aborted && NoFailure(events)
    ensures Kept(states[|events|]) == Kept(states[0]) + Passed(events)
    ensures states[0].wire <= states[|events|].wire
    ensures !states[|events|].aborted
  {
    hide Call;
    if events != [] {
      var n := |events| - 1;
      RunInit(states, events);
      RunConserves(states[..n + 1], events[..n]);
      assert Clean(events[n].io);
      StepKeeps(states[n], events[n], states[n + 1]);
      assert Kept(states[0]) + Passed(events[..n]) + events[n].input == Kept(states[0]) + Passed(events);
    }
  }

  // An aborted connection never changes again.
  lemma {:induction false} AbortedIsFinal(states: seq<Snapshot>, events: seq<Event>, i: nat, j: nat)
    requires Run(states, events) && i <= j <= |events|
    requires states[i].aborted
    ensures states[j] == states[i]
    decreases j
  {
    if i < j {
      AbortedIsFinal(states, events, i, j - 1);
      assert Step(states[j - 1], events[j - 1], states[j]);
    }
  }

  // After the first failure, if it is not EAGAIN, the wire is a proper prefix of the stream
  // passed in up to then, and stays what it is.
  lemma CutKeepsPrefix(states: seq<Snapshot>, events: seq<Event>, at: nat, later: nat)
    requires Run(states, events) && at < later <= |events| && !states[0].aborted
    requires NoFailure(events[..at]) && !Clean(events[at].io) && events[at].io[|events[at].io| - 1].rv != EAgain
    ensures states[later] == states[at + 1]
    ensures states[later].wire < Kept(states[0]) + Passed(events[..at + 1])
    ensures states[later].held == [] && states[later].aborted
  {
    assert Run(states[..at + 1], events[..at]);
    RunConserves(states[..at + 1], events[..at]);
    var s, s', e := states[at], states[at + 1], events[at];
    assert Step(s, e, s');
    StepKeeps(s, e, s');
    AbortedIsFinal(states, events, at + 1, later);
    assert events[..at + 1][..at] == events[..at];
    assert Kept(states[0]) + Passed(events[..at]) + e.input == Kept(states[0]) + Passed(events[..at + 1]);
  }

  // ----- where conservation fails

  // A call loses nothing if no call of the operating system fails, or if the connection is
  // aborted already and nothing is passed in.
  ghost predicate Spares(s: Snapshot, e: Event) {
    if s.aborted then e.input == [] else Clean(e.io)
  }

  ghost predicate AllSpare(states: seq<Snapshot>, events: seq<Event>)
    requires |states| > |events|
  {
    forall k :: 0 <= k < |events| ==> Spares(states[k], events[k])
  }

  lemma SparesIff(s: Snapshot, e: Event, s': Snapshot)
    requires Step(s, e, s')
    ensures |Kept(s')| <= |Kept(s)| + |e.input|
    ensures Spares(s, e) ==> Kept(s') == Kept(s) + e.input
    ensures !Spares(s, e) ==> |Kept(s')| < |Kept(s)| + |e.input|
  {
    StepKeeps(s, e, s');
    assert Kept(s) + [] == Kept(s);
  }

  // Over every run, whatever fails, conservation holds exactly when each call loses nothing.
  lemma {:induction false} ConservedIff(states: seq<Snapshot>, events: seq<Event>)
    requires Run(states, events)
    ensures Kept(states[|events|]) == Kept(states[0]) + Passed(events) <==> AllSpare(states, events)
    ensures !AllSpare(states, events) ==> |Kept(states[|events|])| < |Kept(states[0])| + |Passed(events)|
  {
    hide Call, Kept, Spares;
    if events != [] {
      var n := |events| - 1;
      RunInit(states, events);
      ConservedIff(states[..n + 1], events[..n]);
      SparesIff(states[n], events[n], states[n + 1]);
      SparesAlso(states, events);
      assert Kept(states[0]) + Passed(events[..n]) + events[n].input == Kept(states[0]) + Passed(events);
    }
  }

  lemma SparesAlso(states: seq<Snapshot>, events: seq<Event>)
    requires |states| > |events| > 0
    ensures var n := |events| - 1;
            AllSpare(states, events) <==> AllSpare(states[..n + 1], events[..n]) && Spares(states[n], events[n])
  {
    hide Spares;
    var n := |events| - 1;
    assert forall k :: 0 <= k < n ==> states[..n + 1][k] == states[k] && events[..n][k] == events[k];
  }

  lemma FirstFailure(events: seq<Event>) returns (k: nat)
    requires !NoFailure(events)
    ensures k < |events| && NoFailure(events[..k]) && !Clean(events[k].io)
  {
    k := 0;
    while Clean(events[k].io)
      invariant k < |events| && forall i :: 0 <= i < k ==> Clean(events[i].io)
      decreases |events| - k
    {
      k := k + 1;
    }
  }

  // So from an open connection the stream is conserved exactly when no send, seek or read
  // fails in the whole run.
  lemma ConservedIffNoFailure(states: seq<Snapshot>, events: seq<Event>)
    requires Run(states, events) && !states[0].aborted
    ensures Kept(states[|events|]) == Kept(states[0]) + Passed(events) <==> NoFailure(events)
  {
    hide Call, Kept;
    ConservedIff(states, events);
    if NoFailure(events) {
      RunConserves(states, events);
    } else {
      var k := FirstFailure(events);
      assert Run(states[..k + 1], events[..k]);
      RunConserves(states[..k + 1], events[..k]);
      assert !Spares(states[k], events[k]);
    }
  }

  // The calls of the operating system in a run.
  function Calls(events: seq<Event>): seq<Io> {
    if events == [] then [] else Calls(events[..|events| - 1]) + events[|events| - 1].io
  }

  lemma {:induction false} CallsClean(events: seq<Event>)
    ensures Clean(Calls(events)) <==> NoFailure(events)
  {
    hide Clean;
    if events == [] {
      NoCallsClean();
    } else {
      var n := |events| - 1;
      CallsClean(events[..n]);
      CleanAppend(Calls(events[..n]), events[n].io);
      assert NoFailure(events) <==> NoFailure(events[..n]) && Clean(events[n].io);
    }
  }

  lemma NoCallsClean()
    ensures Clean([])
  {
  }

  lemma CleanAppend(a: seq<Io>, b: seq<Io>)
    ensures Clean(a + b) <==> Clean(a) && Clean(b)
  {
    assert forall k :: 0 <= k < |a| ==> (a + b)[k] == a[k];
    assert forall k :: 0 <= k < |b| ==> (a + b)[|a| + k] == b[k];
  }

  lemma RunSnoc(states: seq<Snapshot>, events: seq<Event>, e: Event, s': Snapshot)
    requires Run(states, events) && Step(states[|events|], e, s')
    ensures Run(states + [s'], events + [e]) && Calls(events + [e]) == Calls(events) + e.io
  {
    hide Call, Step;
    assert (events + [e])[..|events|] == events;
  }

  // One call after another: brigades written to an open connection arrive, byte for byte and
  // as far as they are not set aside, exactly when no call of the operating system fails.
  method WriteAll(out: CoreOutput, bbs: seq<Brigade>, keepalive: seq<bool>)
    returns (ghost states: seq<Snapshot>, ghost events: seq<Event>)
    requires out.Valid() && |keepalive| == |bbs| && forall i, j :: 0 <= i < j < |bbs| ==> bbs[i] != bbs[j]
    requires forall k :: 0 <= k < |bbs| ==> AllValid(bbs[k].buckets) && ClosesAtEnd(bbs[k].buckets)
    modifies out, out.sock, out.sock.host, bbs
    ensures out.Valid() && Run(states, events) && |events| == |bbs|
    ensures states[0] == old(out.Now()) && states[|bbs|] == out.Now()
    ensures forall k :: 0 <= k < |bbs| ==> events[k].input == old(Stream(bbs[k].buckets))
    ensures out.sock.host.log == old(out.sock.host.log) + Calls(events)
    ensures !old(out.aborted) ==>
              (Kept(out.Now()) == old(Kept(out.Now())) + Passed(events) <==> Clean(Calls(events)))
  {
    hide Stream, Call, Lag, Calm, Fits, Clean, Calls;
    states, events := [out.Now()], [];
    ghost var log := out.sock.host.log;
    AtBeginning(log, states);
    for k := 0 to |bbs|
      invariant out.Valid() && Run(states, events) && |events| == k
      invariant states[0] == old(out.Now()) && states[k] == out.Now()
      invariant forall j :: 0 <= j < k ==> events[j].input == old(Stream(bbs[j].buckets))
      invariant forall j :: k <= j < |bbs| ==> bbs[j].buckets == old(bbs[j].buckets)
      invariant out.sock.host.log == log + Calls(events)
    {
      ghost var input := Stream(bbs[k].buckets);
      var rv;
      ghost var io;
      rv, io := out.Write(bbs[k], keepalive[k]);
      ghost var e := Event(input, io, rv);
      RunSnoc(states, events, e, out.Now());
      Longer(log, Calls(events), io);
      states, events := states + [out.Now()], events + [e];
    }
    if !old(out.aborted) {
      ConservedIffNoFailure(states, events);
      CallsClean(events);
    }
  }

  lemma AtBeginning(log: seq<Io>, states: seq<Snapshot>)
    requires |states| == 1
    ensures Run(states, []) && log + Calls([]) == log
  {
  }

  lemma Longer(log: seq<Io>, a: seq<Io>, b: seq<Io>)
    ensures (log + a) + b == log + (a + b)
  {
  }

  // EAGAIN at the first send: if not everything may be set aside, the call reports success,
  // sends nothing and forgets everything.
  method EagainForgets(out: CoreOutput, bb: Brigade, keepalive: bool) returns (rv: Result)
    requires out.Valid() && !out.aborted && AllValid(bb.buckets) && ClosesAtEnd(bb.buckets)
    requires out.sock.host.Next().rv == EAgain && out.sock.host.Next().count == 0
    requires Lag(out.saved + bb.buckets, Holds(bb.buckets, keepalive)) < |Stream(out.saved + bb.buckets)|
    modifies out, out.sock, out.sock.host, bb
    ensures out.Valid() && rv == Ok && !out.aborted && bb.buckets == []
    ensures out.sock.wire == old(out.sock.wire) && Stream(out.saved) == []
    ensures out.sock.host.log == old(out.sock.host.log) + [Io(EAgain, 0)]
  {
    ghost var log, host := out.sock.host.log, out.sock.host;
    StreamAppend(out.saved, bb.buckets);
    ghost var io;
    rv, io := out.Write(bb, keepalive);
    FirstFails(log, io, host.log, host.script);
    assert out.sock.wire == old(out.sock.wire);
  }

  lemma CleanFront(io: seq<Io>, n: nat)
    requires n <= |io|
    ensures Clean(io[..n]) <==> forall k :: 0 <= k < n ==> io[k].rv == Success
  {
    assert forall k :: 0 <= k < n ==> io[..n][k] == io[k];
  }

  // A call that made no progress, or whose first call was to fail, made only that one.
  lemma FirstFails(log: seq<Io>, io: seq<Io>, log': seq<Io>, script: nat -> Answer)
    requires log' == log + io && (Clean(io) || Fails(io)) && (Clean(io) ==> Sent(io) > 0)
    requires script(|log|).rv != Success && script(|log|).count == 0
    requires forall k :: 0 <= k < |log'| ==>
               log'[k].rv == script(k).rv && (log'[k].rv != Success ==> log'[k].sent <= script(k).count)
    ensures io == [Io(script(|log|).rv, 0)] && Sent(io) == 0
  {
    hide Clean, Fails, Sent;
    NoIo();
    assert io != [];
    assert log'[|log|] == io[0];
    OneCall(io);
    NextCall([], [], io[0].rv, 0);
    assert [] + [io[0]] == [io[0]];
  }

  lemma NoIo()
    ensures Clean([]) && Sent([]) == 0
  {
  }

  lemma OneCall(io: seq<Io>)
    requires io != [] && io[0].rv != Success && (Clean(io) || Fails(io))
    ensures io == [io[0]]
  {
    CleanFront(io, |io| - 1);
  }

  // One byte and a FLUSH, offered to a socket that answers EAGAIN: success is reported, and
  // the byte is neither on the wire nor set aside.
  method EagainDropsData(keepalive: bool) returns (out: CoreOutput, rv: Result)
    ensures fresh(out) && fresh(out.sock)
    ensures rv == Ok && out.sock.wire == [] && Stream(out.saved) == [] && !out.aborted
    ensures out.sock.host.log == [Io(EAgain, 0)]
  {
    var host := new Host(k => Answer(EAgain, 0, 0));
    var sock := new Socket(host);
    out := new CoreOutput(sock);
    var bb := new Brigade([Memory([7]), Flush]);
    OneByte(keepalive);
    assert out.saved + bb.buckets == bb.buckets;
    rv := EagainForgets(out, bb, keepalive);
    assert [] + [Io(EAgain, 0)] == [Io(EAgain, 0)];
  }

  lemma OneByte(keepalive: bool)
    ensures var bs := [Memory([7]), Flush];
            AllValid(bs) && ClosesAtEnd(bs) && Stream(bs) == [7] && Lag(bs, Holds(bs, keepalive)) == 0
  {
    var bs := [Memory([7]), Flush];
    assert bs == [Memory([7])] + [Flush] && Last(bs) == Flush;
    StreamAppend([Memory([7])], [Flush]);
    StreamOne(Memory([7]));
    StreamOne(Flush);
  }
}
