/**
  ap_core_output_filter: batches of buckets are collected into at most 16 vectors, one
  file and 16 trailing vectors, and each batch is either sent or set aside.

  The position of the walk over a brigade is kept as a split of the brigade: the buckets
  before the current one (`seen`) and the current one with those after it (`rest`).
*/
module OutputFilter {
  import opened Bytes
  import opened Network
  import opened Senders
  import opened Buckets

  const MAX_IOVEC_TO_WRITE := 16

  // ----- what must go out and what may wait

  // Buckets that force everything up to them onto the wire.  `hold` says that the brigade
  // ends a response on a keep-alive connection.
  predicate Forces(b: Bucket, hold: bool) {
    b.Flush? || b.Eoc? || (Large(b) && !hold)
  }

  // The number of bytes after the last forcing bucket.
  ghost function Lag(bs: seq<Bucket>, hold: bool): nat {
    if bs == [] || Forces(Last(bs), hold) then 0
    else Lag(bs[..|bs| - 1], hold) + |Payload(Last(bs))|
  }

  lemma LagSnoc(bs: seq<Bucket>, e: Bucket, hold: bool)
    ensures Lag(bs + [e], hold) == if Forces(e, hold) then 0 else Lag(bs, hold) + |Payload(e)|
  {
    assert (bs + [e])[..|bs|] == bs;
  }

  // Only the lag of a prefix matters to the lag of the whole.
  lemma {:induction false} LagCongruent(a: seq<Bucket>, a': seq<Bucket>, c: seq<Bucket>, hold: bool)
    requires Lag(a, hold) == Lag(a', hold)
    ensures Lag(a + c, hold) == Lag(a' + c, hold)
  {
    if c == [] {
      assert a + c == a && a' + c == a';
    } else {
      var init, e := c[..|c| - 1], Last(c);
      LagCongruent(a, a', init, hold);
      assert a + c == (a + init) + [e] && a' + c == (a' + init) + [e];
      LagSnoc(a + init, e, hold);
      LagSnoc(a' + init, e, hold);
    }
  }

  lemma {:induction false} LagOfSuffix(a: seq<Bucket>, c: seq<Bucket>, hold: bool)
    ensures Lag(c, hold) <= Lag(a + c, hold)
  {
    if c != [] {
      var init, e := c[..|c| - 1], Last(c);
      LagOfSuffix(a, init, hold);
      assert a + c == (a + init) + [e] && c == init + [e];
      LagSnoc(a + init, e, hold);
    }
  }

  // Without a forcing bucket everything may lag.
  lemma {:induction false} LagIsAll(bs: seq<Bucket>, hold: bool)
    requires forall k :: 0 <= k < |bs| ==> !Forces(bs[k], hold)
    ensures Lag(bs, hold) == |Stream(bs)|
  {
    if bs != [] {
      var init, e := bs[..|bs| - 1], Last(bs);
      LagIsAll(init, hold);
      assert bs == init + [e];
      StreamAppend(init, [e]);
      StreamOne(e);
    }
  }

  // Brigades that are set aside without touching the socket: under 8000 bytes, nothing
  // that can block or forces output, and at most one large file, only when it may be
  // held, with no more than 16 loaded buckets after it.
  ghost predicate Calm(bs: seq<Bucket>, hold: bool) {
    |Stream(bs)| < MIN_BYTES_TO_WRITE && Fits(bs, hold, false, MAX_IOVEC_TO_WRITE)
  }

  ghost predicate Fits(bs: seq<Bucket>, hold: bool, hasFile: bool, room: nat) {
    bs == [] ||
    (var e := bs[0];
     && !e.Pipe? && !e.Flush? && !e.Eoc?
     && if Large(e) then hold && !hasFile && Fits(bs[1..], hold, true, MAX_IOVEC_TO_WRITE)
        else if hasFile && Payload(e) != [] then room > 0 && Fits(bs[1..], hold, true, room - 1)
        else Fits(bs[1..], hold, hasFile, room))
  }

  // ----- one batch

  class Batch {
    const vec: array<Vec>
    const trailers: array<Vec>
    var nvec: nat
    var nvecTrailers: nat
    var nbytes: nat
    var fd: File?
    var flen: nat
    var foffset: nat

    constructor ()
      ensures Valid() && fresh(vec) && fresh(trailers)
      ensures Content() == [] && nvec == nvecTrailers == 0 && fd == null
    {
      vec, trailers := new Vec[MAX_IOVEC_TO_WRITE], new Vec[MAX_IOVEC_TO_WRITE];
      nvec, nvecTrailers, nbytes := 0, 0, 0;
      fd, flen, foffset := null, 0, 0;
    }

    ghost predicate Valid()
      reads this, vec, trailers
    {
      && vec != trailers
      && nvec <= vec.Length == MAX_IOVEC_TO_WRITE && nvecTrailers <= trailers.Length == MAX_IOVEC_TO_WRITE
      && nbytes == |Gather(vec[..], 0, nvec)| + |Gather(trailers[..], 0, nvecTrailers)|
      && (fd == null ==> nvecTrailers == 0 && flen == 0)
      && (fd != null ==> flen > 0 && foffset + flen <= |fd.contents|)
    }

    ghost function Body(): Data
      requires Valid()
      reads this, vec, trailers
    {
      if fd == null then [] else fd.contents[foffset..foffset + flen]
    }

    // The bytes the batch will send: vectors, then the file, then the trailers.
    ghost function Content(): Data
      requires Valid()
      reads this, vec, trailers
    {
      SendfileStream(Gather(vec[..], 0, nvec), Body(), Gather(trailers[..], 0, nvecTrailers))
    }

    ghost function At(seen: seq<Bucket>, rest: seq<Bucket>, block: bool, merged: bool): Walk
      requires Valid()
      reads this, vec, trailers
    {
      Walk(seen, rest, block, merged, Content(), nvec, nvecTrailers, fd != null)
    }

    method AddVector(str: Data)
      requires Valid() && fd == null && nvec < MAX_IOVEC_TO_WRITE
      modifies this`nvec, this`nbytes, vec
      ensures Valid() && Content() == old(Content()) + str && nvec == old(nvec) + 1
    {
      hide Gather;
      var v: Vec := IoVec(str, |str|);
      assert View(v) == str;
      GatherPut(vec[..], nvec, v);
      GatherHead(trailers[..], 0, 0);
      vec[nvec] := v;
      assert vec[..] == old(vec[..])[nvec := v];
      nvec := nvec + 1;
      nbytes := nbytes + |str|;
    }

    method AddTrailer(str: Data)
      requires Valid() && fd != null && nvecTrailers < MAX_IOVEC_TO_WRITE
      modifies this`nvecTrailers, this`nbytes, trailers
      ensures Valid() && Content() == old(Content()) + str && nvecTrailers == old(nvecTrailers) + 1
    {
      hide Gather;
      var v: Vec := IoVec(str, |str|);
      assert View(v) == str;
      GatherPut(trailers[..], nvecTrailers, v);
      trailers[nvecTrailers] := v;
      assert trailers[..] == old(trailers[..])[nvecTrailers := v];
      nvecTrailers := nvecTrailers + 1;
      nbytes := nbytes + |str|;
    }

    method SetFile(fd: File, start: nat, len: nat)
      requires Valid() && this.fd == null
      requires 0 < len && start + len <= |fd.contents|
      modifies this`fd, this`flen, this`foffset
      ensures Valid() && Content() == old(Content()) + fd.contents[start..start + len]
      ensures this.fd == fd
    {
      this.fd, flen, foffset := fd, len, start;
    }

    // After coalescing, one vector holds everything collected so far.
    method Restart(str: Data)
      requires Valid() && fd == null
      modifies this`nvec, this`nbytes, vec
      ensures Valid() && Content() == str && nvec == 1
    {
      nvec, nbytes := 0, 0;
      AddVector(str);
    }
  }

  // Buckets that can lie before the current one: plain data, or a large file.
  predicate Passed(b: Bucket, hasFile: bool) {
    Readable(b) || (hasFile && Large(b))
  }

  predicate AllPassed(bs: seq<Bucket>, hasFile: bool) {
    forall k :: 0 <= k < |bs| ==> Passed(bs[k], hasFile)
  }

  predicate OneLarge(bs: seq<Bucket>) {
    forall i, j :: 0 <= i < j < |bs| ==> !(Large(bs[i]) && Large(bs[j]))
  }

  predicate AllReadable(bs: seq<Bucket>) {
    AllPassed(bs, false)
  }

  // Copy the buckets collected so far into one heap bucket.  When an earlier round already
  // made one, its allocation is reused (the ring surgery of lines 672-673 leaves exactly
  // that bucket in the temporary brigade).  Below 8000 bytes it never overflows, so the
  // temporary brigade ends up with a single bucket.
  method Coalesce(seen: seq<Bucket>, merged: bool) returns (temp: seq<Bucket>)
    requires seen != [] && AllReadable(seen)
    requires |Stream(seen)| < MIN_BYTES_TO_WRITE
    requires merged ==> seen[0].Heap? && seen[0].alloc == BUFF_SIZE
    ensures temp == [Heap(Stream(seen), BUFF_SIZE)]
  {
    hide Stream;
    var b := seen;
    ghost var acc: Data := [];
    temp := [];
    StreamHead(seen);
    if merged {
      temp, b, acc := [seen[0]], seen[1..], seen[0].bytes;
    }
    AppendStep(Stream(seen), [], []);
    while b != []
      invariant acc + Stream(b) == Stream(seen)
      invariant if temp == [] then acc == [] && b != [] else temp == [Heap(acc, BUFF_SIZE)]
      invariant AllReadable(b)
      decreases |b|
    {
      StreamHead(b);
      var rv, str, repl := Read(b[0], true);
      AppendStep(acc, str, Stream(b[1..]));
      assert |acc + str| < BUFF_SIZE;
      temp := BrigadeWrite(temp, str);
      acc := acc + str;
      b := b[1..];
    }
    StreamHead(b);
    AppendStep(acc, [], []);
  }

  lemma AppendStep(acc: Data, str: Data, rest: Data)
    ensures acc + (str + rest) == (acc + str) + rest
    ensures acc + [] == acc && [] + str == str
  {
  }

  lemma LagOfRead(seen: seq<Bucket>, e: Bucket, repl: seq<Bucket>, hold: bool)
    requires 1 <= |repl| <= 2
    requires !Forces(e, hold) && forall k :: 0 <= k < |repl| ==> !Forces(repl[k], hold)
    requires Stream(repl) == Payload(e)
    ensures Lag(seen + repl, hold) == Lag(seen + [e], hold)
  {
    hide Lag, Stream;
    LagSnoc(seen, e, hold);
    if |repl| == 1 {
      assert repl == [repl[0]];
      StreamOne(repl[0]);
      LagSnoc(seen, repl[0], hold);
    } else {
      LagOfTwo(seen, repl[0], repl[1], hold);
      assert repl == [repl[0]] + [repl[1]];
    }
  }

  lemma LagOfTwo(seen: seq<Bucket>, a: Bucket, b: Bucket, hold: bool)
    requires !Forces(a, hold) && !Forces(b, hold)
    ensures Lag(seen + ([a] + [b]), hold) == Lag(seen, hold) + |Stream([a] + [b])|
  {
    hide Lag, Stream;
    LagSnoc(seen, a, hold);
    LagSnoc(seen + [a], b, hold);
    assert seen + ([a] + [b]) == (seen + [a]) + [b];
    StreamOne(a);
    StreamOne(b);
    StreamAppend([a], [b]);
  }

  lemma CoalesceLag(seen: seq<Bucket>, rest: seq<Bucket>, hold: bool)
    requires AllReadable(seen)
    ensures Lag([Heap(Stream(seen), BUFF_SIZE)] + rest, hold) == Lag(seen + rest, hold)
  {
    var one := Heap(Stream(seen), BUFF_SIZE);
    LagIsAll(seen, hold);
    LagSnoc([], one, hold);
    assert [] + [one] == [one];
    LagCongruent([one], seen, rest, hold);
  }

  // The walk moves past one bucket.
  lemma MovePast(seen: seq<Bucket>, rest: seq<Bucket>)
    requires rest != []
    ensures (seen + [rest[0]]) + rest[1..] == seen + rest
    ensures Stream(seen + [rest[0]]) == Stream(seen) + Payload(rest[0])
    ensures Stream(seen + [rest[0]]) + Stream(rest[1..]) == Stream(seen) + Stream(rest)
    ensures Weights(rest) == Weight(rest[0]) + Weights(rest[1..])
  {
    hide Lag, Stream, Weights;
    StreamHead(rest);
    WeightsHead(rest);
    StreamAppend(seen, [rest[0]]);
    StreamOne(rest[0]);
    Regroup(Stream(seen), Payload(rest[0]), Stream(rest[1..]));
  }

  // The constants of one round over a brigade: the brigade, whether it may be held, and
  // the blocking mode the round starts with.
  datatype Round = Round(input: seq<Bucket>, hold: bool, entered: bool)

  // Where the walk stands: at the head of `rest`, with the batch so far.
  datatype Walk = Walk(seen: seq<Bucket>, rest: seq<Bucket>, block: bool, merged: bool,
                       content: Data, nvec: nat, nvecTrailers: nat, hasFile: bool)

  // No byte and no forcing bucket is lost or moved.
  ghost predicate Accounts(r: Round, w: Walk) {
    && w.content == Stream(w.seen)
    && w.content + Stream(w.rest) == Stream(r.input)
    && Lag(w.seen + w.rest, r.hold) == Lag(r.input, r.hold)
    && Weights(w.rest) <= Weights(r.input) && (w.seen != [] ==> Weights(w.rest) < Weights(r.input))
  }

  // A calm brigade leaves no reason to split.
  ghost predicate Roomy(r: Round, w: Walk) {
    Calm(r.input, r.hold) ==>
      && w.nvecTrailers <= MAX_IOVEC_TO_WRITE
      && Fits(w.rest, r.hold, w.hasFile, MAX_IOVEC_TO_WRITE - w.nvecTrailers)
      && (w.hasFile ==> r.hold)
  }

  // A pipe, or what has been read from it.
  ghost predicate Waiting(bs: seq<Bucket>) {
    bs != [] && (bs[0].Pipe? || Readable(bs[0]))
  }

  // Only the first bucket is ever read blocking: then nothing is collected that would wait.
  ghost predicate Shape(r: Round, w: Walk) {
    && r.input != []
    && AllPassed(w.seen, w.hasFile) && OneLarge(w.seen)
    && AllValid(w.seen) && AllValid(w.rest) && ClosesAtEnd(w.rest)
    && (if w.rest != [] then Last(w.rest).Eos? == Last(r.input).Eos? else w.seen != [] && !Last(r.input).Eos?)
    && (w.nvec > 0 || w.hasFile ==> w.seen != [])
    && (if w.seen == [] then w.block == r.entered && (w.block ==> Waiting(w.rest)) else !w.block)
    && (w.merged ==> w.seen != [] && w.seen[0].Heap? && w.seen[0].alloc == BUFF_SIZE)
  }

  ghost predicate Walking(r: Round, w: Walk) {
    Accounts(r, w) && Roomy(r, w) && Shape(r, w)
  }

  // A read turns the current bucket into data, possibly followed by the rest of a pipe.
  ghost predicate ReadsInto(e: Bucket, repl: seq<Bucket>) {
    && !e.Flush? && !Closing(e) && !Large(e)
    && 1 <= |repl| <= 2 && Readable(repl[0]) && (|repl| == 2 ==> repl[1].Pipe? && e.Pipe?)
    && Stream(repl) == Payload(e) && Weights(repl) <= Weight(e)
    && (!e.Pipe? ==> |repl| == 1)
  }

  lemma ReadStep(r: Round, w: Walk, repl: seq<Bucket>)
    requires Walking(r, w) && w.rest != [] && ReadsInto(w.rest[0], repl)
    ensures Walking(r, w.(rest := repl + w.rest[1..]))
  {
    ReadAccounts(r, w, repl);
    ReadRoomy(r, w, repl);
    ReadShape(r, w, repl);
  }

  lemma ReadAccounts(r: Round, w: Walk, repl: seq<Bucket>)
    requires Accounts(r, w) && w.rest != [] && ReadsInto(w.rest[0], repl)
    ensures Accounts(r, w.(rest := repl + w.rest[1..]))
  {
    StreamAppend(repl, w.rest[1..]);
    WeightsAppend(repl, w.rest[1..]);
    ReadLag(w.seen, w.rest, repl, r.hold);
  }

  lemma ReadLag(seen: seq<Bucket>, rest: seq<Bucket>, repl: seq<Bucket>, hold: bool)
    requires rest != [] && ReadsInto(rest[0], repl)
    ensures Lag(seen + (repl + rest[1..]), hold) == Lag(seen + rest, hold)
  {
    hide Lag, Stream, Weights;
    LagOfRead(seen, rest[0], repl, hold);
    LagCongruent(seen + repl, seen + [rest[0]], rest[1..], hold);
    assert seen + (repl + rest[1..]) == (seen + repl) + rest[1..];
    assert seen + rest == (seen + [rest[0]]) + rest[1..];
  }

  lemma ReadRoomy(r: Round, w: Walk, repl: seq<Bucket>)
    requires Roomy(r, w) && w.rest != [] && ReadsInto(w.rest[0], repl)
    ensures Roomy(r, w.(rest := repl + w.rest[1..]))
  {
    if Calm(r.input, r.hold) {
      StreamOne(repl[0]);
      assert repl == [repl[0]];
      assert (repl + w.rest[1..])[1..] == w.rest[1..];
    }
  }

  lemma ReadShape(r: Round, w: Walk, repl: seq<Bucket>)
    requires Shape(r, w) && w.rest != [] && ReadsInto(w.rest[0], repl)
    ensures Shape(r, w.(rest := repl + w.rest[1..]))
  {
  }

  // A pipe that has nothing yet was read without blocking.
  lemma NotReady(r: Round, w: Walk)
    requires Walking(r, w) && w.rest != [] && w.rest[0].Pipe? && !w.block
    ensures Walking(r, w.(block := false)) && !Calm(r.input, r.hold)
    ensures w.seen == [] ==> !r.entered
  {
  }

  // The walk moves past a bucket whose bytes joined the batch.
  ghost predicate Moves(w: Walk, w': Walk) {
    && w.rest != [] && Passed(w.rest[0], w'.hasFile)
    && w'.seen == w.seen + [w.rest[0]] && w'.rest == w.rest[1..]
    && w'.merged == w.merged && w'.content == w.content + Payload(w.rest[0])
    && w'.hasFile == (w.hasFile || Large(w.rest[0])) && (Large(w.rest[0]) ==> !w.hasFile)
    && w'.nvecTrailers == (if w.hasFile && Payload(w.rest[0]) != [] then w.nvecTrailers + 1 else w.nvecTrailers)
    && (!w.hasFile ==> w.nvecTrailers == 0) && !w'.block
    && w'.nvecTrailers <= MAX_IOVEC_TO_WRITE
  }

  lemma MoveStep(r: Round, w: Walk, w': Walk)
    requires Walking(r, w) && Moves(w, w')
    ensures Walking(r, w') && Weights(w'.rest) < Weights(w.rest)
  {
    MoveAccounts(r, w, w');
    MoveRoomy(r, w, w');
    MoveShape(r, w, w');
  }

  lemma MoveAccounts(r: Round, w: Walk, w': Walk)
    requires Accounts(r, w) && Moves(w, w')
    ensures Accounts(r, w') && Weights(w'.rest) < Weights(w.rest)
  {
    MovePast(w.seen, w.rest);
  }

  lemma MoveRoomy(r: Round, w: Walk, w': Walk)
    requires Roomy(r, w) && Moves(w, w')
    ensures Roomy(r, w')
  {
  }

  lemma MoveShape(r: Round, w: Walk, w': Walk)
    requires Shape(r, w) && Moves(w, w')
    ensures Shape(r, w')
  {
  }

  lemma CoalesceStep(r: Round, w: Walk)
    requires Walking(r, w) && w.seen != [] && !w.hasFile && w.nvecTrailers == 0
    ensures Walking(r, w.(seen := [Heap(w.content, BUFF_SIZE)], block := false, merged := true, nvec := 1))
  {
    hide Lag, Stream, Weights, Calm, Fits;
    CoalesceLag(w.seen, w.rest, r.hold);
    StreamOne(Heap(w.content, BUFF_SIZE));
  }

  // What happens to the current bucket.
  datatype Visit = Taken | Revisit | Split

  // The branch for buckets that are read into vectors.
  method TakeData(batch: Batch, ghost r: Round, seen: seq<Bucket>, rest: seq<Bucket>, block: bool, merged: bool)
    returns (visit: Visit, seen': seq<Bucket>, rest': seq<Bucket>, block': bool, merged': bool, last: Bucket)
    requires batch.Valid() && Walking(r, batch.At(seen, rest, block, merged))
    requires rest != [] && !Closing(rest[0]) && !rest[0].Flush? && !Large(rest[0])
    modifies batch, batch.vec, batch.trailers
    ensures batch.Valid()
    ensures Walking(r, batch.At(seen', rest', if visit == Split then false else block', merged'))
    ensures if visit == Split
            then rest' != [] && !Calm(r.input, r.hold) && !Closing(last) && (seen' == [] ==> block' && !r.entered)
                 && (block' ==> rest'[0].Pipe?)
            else seen' != [] && last == Last(seen')
    ensures visit == Taken ==> Weights(rest') < Weights(rest)
    ensures visit == Revisit ==> Weights(rest') <= Weights(rest) && old(batch.nvec) == MAX_IOVEC_TO_WRITE > batch.nvec
  {
    hide Lag, Calm, Stream, Walking, Weights;
    ghost var w := batch.At(seen, rest, block, merged);
    Whereabouts(r, w);
    WeightsHead(rest);
    var rv, str, repl := Read(rest[0], block);
    if rv == EAgain {
      NotReady(r, w);
      return Split, seen, rest, true, merged, rest[0];
    }
    ReadStep(r, w, repl);
    rest' := repl + rest[1..];
    WeightsAppend(repl, rest[1..]);
    visit, seen', rest', merged', last := Place(batch, r, seen, rest', block, merged, str);
    block' := false;
  }

  // All vectors are in use, but for too few bytes: start over with one merged bucket.
  method Squeeze(batch: Batch, ghost r: Round, seen: seq<Bucket>, ghost rest: seq<Bucket>, ghost block: bool,
      merged: bool)
    returns (seen': seq<Bucket>)
    requires batch.Valid() && Walking(r, batch.At(seen, rest, block, merged))
    requires batch.fd == null && 0 < batch.nvec && batch.nbytes < MIN_BYTES_TO_WRITE
    modifies batch, batch.vec
    ensures batch.Valid() && Walking(r, batch.At(seen', rest, false, true))
    ensures |seen'| == 1 && batch.nvec == 1
  {
    ghost var w := batch.At(seen, rest, block, merged);
    CoalesceStep(r, w);
    seen' := Coalesce(seen, merged);
    batch.Restart(seen'[0].bytes);
  }

  method TakeFile(batch: Batch, ghost r: Round, seen: seq<Bucket>, rest: seq<Bucket>, ghost block: bool,
      ghost merged: bool)
    requires batch.Valid() && Walking(r, batch.At(seen, rest, block, merged))
    requires batch.fd == null && rest != [] && Large(rest[0])
    modifies batch
    ensures batch.Valid() && Walking(r, batch.At(seen + [rest[0]], rest[1..], block, merged))
    ensures Weights(rest[1..]) < Weights(rest)
  {
    ghost var w := batch.At(seen, rest, block, merged);
    batch.SetFile(rest[0].fd, rest[0].start, rest[0].len);
    MoveStep(r, w, batch.At(seen + [rest[0]], rest[1..], block, merged));
  }

  // The bucket has been read; its bytes go where there is room for them.
  method Place(batch: Batch, ghost r: Round, seen: seq<Bucket>, rest: seq<Bucket>, ghost block: bool, merged: bool,
      str: Data)
    returns (visit: Visit, seen': seq<Bucket>, rest': seq<Bucket>, merged': bool, last: Bucket)
    requires batch.Valid() && Walking(r, batch.At(seen, rest, block, merged))
    requires rest != [] && Readable(rest[0]) && Payload(rest[0]) == str
    modifies batch, batch.vec, batch.trailers
    ensures batch.Valid()
    ensures Walking(r, batch.At(seen', rest', if visit == Split then false else false, merged'))
    ensures seen' != []
    ensures if visit == Split then rest' != [] && !Calm(r.input, r.hold) && !Closing(last) else last == Last(seen')
    ensures visit == Taken ==> Weights(rest') < Weights(rest)
    ensures visit == Revisit ==> rest' == rest && old(batch.nvec) == MAX_IOVEC_TO_WRITE > batch.nvec
  {
    hide Calm, Lag, Walking;
    if str != [] && batch.fd == null && batch.nvec == MAX_IOVEC_TO_WRITE {
      visit, seen', rest', merged', last := Overflow(batch, r, seen, rest, block, merged);
    } else if str != [] && batch.fd != null && batch.nvecTrailers == MAX_IOVEC_TO_WRITE {
      NoRoom(r, batch.At(seen, rest, block, merged), 0);
      visit, seen', rest', merged', last := Split, seen, rest, merged, rest[0];
    } else {
      Append(batch, r, seen, rest, block, merged, str);
      visit, seen', rest', merged', last := Taken, seen + [rest[0]], rest[1..], merged, rest[0];
    }
  }

  // No vector is free: with enough bytes the brigade is split, and otherwise the buckets
  // collected so far are coalesced.
  method Overflow(batch: Batch, ghost r: Round, seen: seq<Bucket>, rest: seq<Bucket>, ghost block: bool, merged: bool)
    returns (visit: Visit, seen': seq<Bucket>, rest': seq<Bucket>, merged': bool, last: Bucket)
    requires batch.Valid() && Walking(r, batch.At(seen, rest, block, merged))
    requires rest != [] && Readable(rest[0]) && Payload(rest[0]) != []
    requires batch.fd == null && batch.nvec == MAX_IOVEC_TO_WRITE
    modifies batch, batch.vec, batch.trailers
    ensures batch.Valid() && visit != Taken
    ensures Walking(r, batch.At(seen', rest', if visit == Split then false else false, merged'))
    ensures seen' != [] && rest' == rest
    ensures if visit == Split then !Calm(r.input, r.hold) && !Closing(last) else last == Last(seen')
    ensures visit == Revisit ==> batch.nvec < MAX_IOVEC_TO_WRITE
  {
    NoRoom(r, batch.At(seen, rest, block, merged), batch.nbytes);
    if batch.nbytes >= MIN_BYTES_TO_WRITE {
      return Split, seen, rest, merged, rest[0];
    }
    seen' := Squeeze(batch, r, seen, rest, block, merged);
    return Revisit, seen', rest, true, seen'[0];
  }

  // A calm brigade never overflows the trailers, nor the vectors with enough bytes.
  lemma NoRoom(r: Round, w: Walk, nbytes: nat)
    requires Walking(r, w) && w.rest != [] && Readable(w.rest[0]) && Payload(w.rest[0]) != []
    requires if w.hasFile then w.nvecTrailers == MAX_IOVEC_TO_WRITE else w.nvec > 0 && |w.content| == nbytes
    ensures w.seen != [] && Walking(r, w.(block := false))
    ensures w.hasFile || nbytes >= MIN_BYTES_TO_WRITE ==> !Calm(r.input, r.hold)
  {
  }

  // The bytes of the current bucket go to a free vector or trailer.
  method Append(batch: Batch, ghost r: Round, ghost seen: seq<Bucket>, ghost rest: seq<Bucket>, ghost block: bool,
      ghost merged: bool, str: Data)
    requires batch.Valid() && Walking(r, batch.At(seen, rest, block, merged))
    requires rest != [] && Readable(rest[0]) && Payload(rest[0]) == str
    requires str == [] || (if batch.fd == null then batch.nvec < MAX_IOVEC_TO_WRITE
                           else batch.nvecTrailers < MAX_IOVEC_TO_WRITE)
    modifies batch, batch.vec, batch.trailers
    ensures batch.Valid() && Walking(r, batch.At(seen + [rest[0]], rest[1..], false, merged))
    ensures Weights(rest[1..]) < Weights(rest)
  {
    ghost var w := batch.At(seen, rest, block, merged);
    if str == [] {
      AppendStep(w.content, [], []);
      MoveStep(r, w, batch.At(seen + [rest[0]], rest[1..], false, merged));
    } else if batch.fd == null {
      batch.AddVector(str);
      MoveStep(r, w, batch.At(seen + [rest[0]], rest[1..], false, merged));
    } else {
      batch.AddTrailer(str);
      MoveStep(r, w, batch.At(seen + [rest[0]], rest[1..], false, merged));
    }
  }

  // What one round leaves: `seen` is the batch, `more` the part for another round (NULL is
  // the empty brigade), `last` the bucket looked at last.
  ghost predicate Collected(r: Round, seen: seq<Bucket>, more: seq<Bucket>, last: Bucket, block: bool, content: Data,
      hasFile: bool)
  {
    && CollectedBytes(r, seen, more, content)
    && CollectedShape(r, seen, more, last, hasFile)
    && (more != [] ==>
          Weights(more) < Weights(r.input) || (Weights(more) == Weights(r.input) && block && !r.entered))
    && (Calm(r.input, r.hold) ==> more == [] && !last.Flush? && !last.Eoc? && (hasFile ==> r.hold))
    && (more != [] && block ==> more[0].Pipe?)
  }

  ghost predicate CollectedBytes(r: Round, seen: seq<Bucket>, more: seq<Bucket>, content: Data) {
    && content == Stream(seen)
    && content + Stream(more) == Stream(r.input)
    && Lag(seen + more, r.hold) == Lag(r.input, r.hold)
  }

  ghost predicate CollectedShape(r: Round, seen: seq<Bucket>, more: seq<Bucket>, last: Bucket, hasFile: bool) {
    && r.input != []
    && AllValid(seen) && AllValid(more) && ClosesAtEnd(more)
    && if more != []
       then !Closing(last) && Last(more).Eos? == Last(r.input).Eos?
       else seen != [] && last == Last(seen) && last.Eos? == Last(r.input).Eos?
            && AllPassed(seen[..|seen| - 1], hasFile) && OneLarge(seen)
            && (Passed(last, hasFile) || Closing(last) || last.Flush?)
  }

  lemma EndAtMarker(r: Round, w: Walk)
    requires Walking(r, w) && w.rest != [] && (Closing(w.rest[0]) || w.rest[0].Flush?)
    ensures Closing(w.rest[0]) ==> w.rest == [w.rest[0]]
    ensures Collected(r, w.seen + [w.rest[0]], w.rest[1..], w.rest[0], w.block, w.content, w.hasFile)
  {
    MarkerBytes(r, w);
    MarkerShape(r, w);
    MarkerRoomy(r, w);
  }

  lemma MarkerRoomy(r: Round, w: Walk)
    requires Roomy(r, w) && w.rest != [] && (Closing(w.rest[0]) ==> |w.rest| == 1)
    requires Closing(w.rest[0]) || w.rest[0].Flush?
    ensures Calm(r.input, r.hold) ==> w.rest[1..] == [] && w.rest[0].Eos? && (w.hasFile ==> r.hold)
  {
  }

  lemma MarkerShape(r: Round, w: Walk)
    requires Shape(r, w) && w.rest != [] && (Closing(w.rest[0]) || w.rest[0].Flush?)
    ensures Closing(w.rest[0]) ==> w.rest == [w.rest[0]]
    ensures CollectedShape(r, w.seen + [w.rest[0]], w.rest[1..], w.rest[0], w.hasFile)
  {
    assert (w.seen + [w.rest[0]])[..|w.seen|] == w.seen;
  }

  // A marker carries no bytes.
  lemma MarkerBytes(r: Round, w: Walk)
    requires Accounts(r, w) && w.rest != [] && Payload(w.rest[0]) == []
    ensures CollectedBytes(r, w.seen + [w.rest[0]], w.rest[1..], w.content)
    ensures Weights(w.rest[1..]) < Weights(r.input)
  {
    MovePast(w.seen, w.rest);
    AppendStep(w.content, [], []);
  }

  lemma EndAtSplit(r: Round, w: Walk, last: Bucket, block: bool)
    requires Walking(r, w) && w.rest != [] && !Closing(last) && !Calm(r.input, r.hold)
    requires (w.seen == [] ==> block && !r.entered) && (block ==> w.rest[0].Pipe?)
    ensures Collected(r, w.seen, w.rest, last, block, w.content, w.hasFile)
  {
  }

  lemma EndOfBrigade(r: Round, w: Walk)
    requires Walking(r, w) && w.rest == []
    ensures Collected(r, w.seen, [], Last(w.seen), w.block, w.content, w.hasFile)
  {
    assert Passed(Last(w.seen), w.hasFile);
  }

  lemma StartWalk(r: Round)
    requires r.input != [] && AllValid(r.input) && ClosesAtEnd(r.input) && (r.entered ==> r.input[0].Pipe?)
    ensures Walking(r, Walk([], r.input, r.entered, false, [], 0, 0, false))
  {
    assert [] + r.input == r.input;
  }

  // What a walk knows of the place where it is.
  lemma Whereabouts(r: Round, w: Walk)
    requires Walking(r, w)
    ensures if w.rest == [] then w.seen != [] else Valid(w.rest[0])
    ensures w.rest != [] && Closing(w.rest[0]) ==> w.rest == [w.rest[0]] && w.rest[1..] == []
    ensures w.rest != [] && Large(w.rest[0]) && w.hasFile ==> !Calm(r.input, r.hold) && w.seen != []
    ensures w.seen != [] ==> !w.block
  {
  }

  // One round: gather vectors and at most one file, until the brigade ends or something
  // splits it.
  method Collect(batch: Batch, input: seq<Bucket>, entered: bool, ghost hold: bool)
    returns (seen: seq<Bucket>, more: seq<Bucket>, last: Bucket, block: bool)
    requires batch.Valid() && batch.Content() == [] && batch.nvec == batch.nvecTrailers == 0 && batch.fd == null
    requires input != [] && AllValid(input) && ClosesAtEnd(input) && (entered ==> input[0].Pipe?)
    modifies batch, batch.vec, batch.trailers
    ensures batch.Valid()
    ensures Collected(Round(input, hold, entered), seen, more, last, block, batch.Content(), batch.fd != null)
  {
    hide Lag, Walking, Collected, Calm, Fits, Stream;
    ghost var r := Round(input, hold, entered);
    seen, more, block, last := [], [], entered, input[0];
    var rest := input;
    var merged := false;
    StartWalk(r);
    while rest != []
      invariant batch.Valid() && Walking(r, batch.At(seen, rest, block, merged))
      invariant rest == [] ==> seen != [] && last == Last(seen)
      decreases Weights(rest), batch.nvec == MAX_IOVEC_TO_WRITE
    {
      var e := rest[0];
      last := e;
      ghost var w := batch.At(seen, rest, block, merged);
      Whereabouts(r, w);
      if Closing(e) {
        EndAtMarker(r, w);
        seen := seen + rest;
        return;
      } else if e.Flush? {
        EndAtMarker(r, w);
        seen, more := seen + [e], rest[1..];
        return;
      } else if Large(e) {
        if batch.fd != null {
          EndAtSplit(r, w, e, block);
          more := rest;
          return;
        }
        TakeFile(batch, r, seen, rest, block, merged);
        seen, rest := seen + [e], rest[1..];
      } else {
        var visit;
        visit, seen, rest, block, merged, last := TakeData(batch, r, seen, rest, block, merged);
        if visit == Split {
          EndAtSplit(r, batch.At(seen, rest, false, merged), last, block);
          more := rest;
          return;
        }
      }
    }
    EndOfBrigade(r, batch.At(seen, [], block, merged));
  }

  // ----- sending or keeping a batch

  method SendBatch(sock: Socket, batch: Batch) returns (rv: Status, bytesSent: nat, ghost io: seq<Io>)
    requires sock.host.Valid() && batch.Valid()
    modifies sock, sock.host, batch.vec, batch.trailers
    ensures sock.host.Valid() && sock.host.log == old(sock.host.log) + io
    ensures SentAll(old(sock.wire), old(batch.Content()), rv, bytesSent, sock.wire, io)
    ensures rv != Success ==> Sent(io) < |old(batch.Content())|
    ensures if batch.fd != null && batch.fd.sendfileEnabled then sock.sendfiles > old(sock.sendfiles)
            else sock.sendfiles == old(sock.sendfiles)
  {
    hide Sent, Pushed, Gather, SendfileStream;
    if batch.fd != null {
      var hdtr := new Hdtr(batch.vec, batch.nvec, batch.trailers, batch.nvecTrailers);
      if batch.fd.sendfileEnabled {
        rv, bytesSent, io := SendfileItAll(sock, batch.fd, hdtr, batch.foffset, batch.flen, batch.nbytes + batch.flen);
      } else {
        rv, bytesSent, io := EmulateSendfile(sock, batch.fd, hdtr, batch.foffset, batch.flen);
      }
    } else {
      GatherHead(batch.trailers[..], 0, 0);
      OnlyVectors(Gather(batch.vec[..], 0, batch.nvec));
      rv, bytesSent, io := WritevItAll(sock, batch.vec, batch.nvec, batch.nbytes);
    }
  }

  lemma OnlyVectors(head: Data)
    ensures SendfileStream(head, [], []) == head
  {
  }

  // Before a finished response is kept, everything but its first file is pulled into
  // memory.  By then all of it is there already, so nothing changes and nothing can fail.
  method PullIn(bs: seq<Bucket>) returns (bs': seq<Bucket>)
    requires AllValid(bs) && AllPassed(bs, true) && OneLarge(bs)
    ensures bs' == bs
  {
    bs' := [];
    var fileSaved := false;
    for k := 0 to |bs|
      invariant bs' == bs[..k]
      invariant fileSaved == exists j :: 0 <= j < k && Large(bs[j])
    {
      if bs[k].FileRange? && !fileSaved {
        fileSaved := true;
        bs' := bs' + [bs[k]];
      } else {
        var rv, data, repl := Read(bs[k], true);
        bs' := bs' + repl;
      }
    }
  }

  // ----- the filter

  // A batch that is kept is all there was, and nothing in it forces output.
  lemma KeepStep(r: Round, seen: seq<Bucket>, more: seq<Bucket>, last: Bucket, block: bool, content: Data,
      hasFile: bool, keepalive: bool)
    requires Collected(r, seen, more, last, block, content, hasFile)
    requires !last.Eoc? && ((!hasFile && more == [] && !last.Flush?) || (last.Eos? && keepalive))
    requires last.Eos? && keepalive ==> r.hold
    ensures seen != [] && last == Last(seen)
    ensures var kept := if last.Eos? then seen[..|seen| - 1] else seen;
            && AllValid(kept) && AllPassed(kept, true) && OneLarge(kept)
            && Stream(kept) == content == Stream(r.input)
            && Lag(r.input, r.hold) == |content|
  {
    hide Stream, Lag, Calm, Fits;
    KeptStream(seen, last, more);
    NothingForces(seen, last, hasFile, r.hold);
    LagIsAll(seen, r.hold);
    KeptShape(r, seen, more, last, hasFile);
    AppendStep(content, [], []);
  }

  // The buckets that are kept, with or without the last one.
  lemma KeptShape(r: Round, seen: seq<Bucket>, more: seq<Bucket>, last: Bucket, hasFile: bool)
    requires CollectedShape(r, seen, more, last, hasFile) && more == [] && (Passed(last, hasFile) || last.Eos?)
    ensures var kept := if last.Eos? then seen[..|seen| - 1] else seen;
            AllValid(kept) && AllPassed(kept, true) && OneLarge(kept)
  {
    var init := seen[..|seen| - 1];
    forall k | 0 <= k < |seen| - 1
      ensures Passed(seen[k], true)
    {
      assert Passed(init[k], hasFile);
    }
  }

  lemma KeptStream(seen: seq<Bucket>, last: Bucket, more: seq<Bucket>)
    requires seen != [] && last == Last(seen)
    ensures Payload(last) == [] ==> Stream(seen[..|seen| - 1]) == Stream(seen)
    ensures more == [] ==> seen + more == seen && Stream(more) == []
  {
    var init := seen[..|seen| - 1];
    assert seen == init + [last];
    StreamAppend(init, [last]);
    StreamOne(last);
    AppendStep(Stream(init), [], []);
  }

  lemma NothingForces(seen: seq<Bucket>, last: Bucket, hasFile: bool, hold: bool)
    requires seen != [] && last == Last(seen) && AllPassed(seen[..|seen| - 1], hasFile) && !Forces(last, hold)
    requires hasFile ==> hold
    ensures forall k :: 0 <= k < |seen| ==> !Forces(seen[k], hold)
  {
    forall k | 0 <= k < |seen|
      ensures !Forces(seen[k], hold)
    {
      if k < |seen| - 1 {
        assert Passed(seen[..|seen| - 1][k], hasFile);
      }
    }
  }

  // What is left when a batch is sent.
  ghost predicate Remains(r: Round, content: Data, more: seq<Bucket>, block: bool) {
    && content + Stream(more) == Stream(r.input)
    && Lag(more, r.hold) <= Lag(r.input, r.hold)
    && AllValid(more) && ClosesAtEnd(more)
    && (more != [] ==>
          && r.input != [] && Last(more).Eos? == Last(r.input).Eos?
          && (Weights(more) < Weights(r.input) || (Weights(more) == Weights(r.input) && block && !r.entered))
          && (block ==> more[0].Pipe?))
  }

  // A batch that is sent is a prefix of what there was; the rest can only lag less.
  lemma SendStep(r: Round, seen: seq<Bucket>, more: seq<Bucket>, last: Bucket, block: bool, content: Data,
      hasFile: bool)
    requires Collected(r, seen, more, last, block, content, hasFile)
    ensures Remains(r, content, more, block)
  {
    LagOfSuffix(seen, more, r.hold);
  }

  class Brigade {
    var buckets: seq<Bucket>

    constructor (buckets: seq<Bucket>)
      ensures this.buckets == buckets
    {
      this.buckets := buckets;
    }
  }

  datatype Result = Ok | ConnAborted

  // What can be observed of the filter between calls.
  datatype Snapshot = Snapshot(wire: Data, held: Data, aborted: bool)

  // The calls of the operating system stop at the first one that fails.
  predicate Fails(io: seq<Io>) {
    io != [] && Clean(io[..|io| - 1]) && io[|io| - 1].rv != Success
  }

  // One call, seen from outside: `due` is what was set aside followed by the byte stream
  // of the brigade passed in, and `io` the calls of the operating system it made.  While
  // those succeed nothing is lost; the first failure loses what has not been sent, silently
  // if it is EAGAIN.
  ghost predicate Outcome(wire: Data, due: Data, io: seq<Io>, rv: Result, s': Snapshot) {
    && Sent(io) <= |due| && s'.wire == wire + due[..Sent(io)]
    && if Clean(io) then
         rv == Ok && !s'.aborted && s'.held == due[Sent(io)..] && |s'.held| < MIN_BYTES_TO_WRITE
       else
         var again := io[|io| - 1].rv == EAgain;
         && Fails(io) && Sent(io) < |due| && s'.held == []
         && s'.aborted == !again && rv == if again then Ok else ConnAborted
  }

  ghost predicate Call(s: Snapshot, input: Data, io: seq<Io>, rv: Result, s': Snapshot) {
    if s.aborted then io == [] && s' == s && rv == ConnAborted
    else Outcome(s.wire, s.held + input, io, rv, s')
  }

  class CoreOutput {
    const sock: Socket
    var saved: seq<Bucket>       // ctx->b
    var aborted: bool            // c->aborted

    constructor (sock: Socket)
      requires sock.host.Valid()
      ensures this.sock == sock && saved == [] && !aborted && Valid()
    {
      this.sock, saved, aborted := sock, [], false;
    }

    // Nothing that ends or flushes a stream is ever set aside.
    ghost predicate Valid()
      reads this, sock.host
    {
      && sock.host.Valid() && AllValid(saved)
      && (forall k :: 0 <= k < |saved| ==> !Closing(saved[k]) && !saved[k].Flush?)
      && |Stream(saved)| < MIN_BYTES_TO_WRITE
    }

    ghost function Now(): Snapshot
      reads this, sock
    {
      Snapshot(sock.wire, Stream(saved), aborted)
    }

    method Write(bb: Brigade, keepalive: bool) returns (rv: Result, ghost io: seq<Io>)
      requires Valid() && AllValid(bb.buckets) && ClosesAtEnd(bb.buckets)
      modifies this, sock, sock.host, bb
      ensures Valid() && bb.buckets == [] && sock.host.log == old(sock.host.log) + io
      ensures Call(old(Now()), old(Stream(bb.buckets)), io, rv, Now())
      ensures (rv == ConnAborted <==> aborted) && (old(aborted) ==> aborted)
      ensures aborted || |Stream(saved)| <= Lag(old(saved + bb.buckets), Holds(old(bb.buckets), keepalive))
      ensures old(Calm(saved + bb.buckets, Holds(bb.buckets, keepalive))) ==> io == []
    {
      ghost var hold := Holds(bb.buckets, keepalive);
      StreamAppend(saved, bb.buckets);
      var b := saved + bb.buckets;
      bb.buckets := [];
      if aborted {
        return ConnAborted, [];
      }
      saved := [];
      rv, io := Drain(b, keepalive, hold);
    }

    // The passes over the brigade.
    method Drain(input: seq<Bucket>, keepalive: bool, ghost hold: bool) returns (rv: Result, ghost io: seq<Io>)
      requires sock.host.Valid() && saved == [] && !aborted
      requires AllValid(input) && ClosesAtEnd(input)
      requires input != [] ==> hold == Holds(input, keepalive)
      modifies this, sock, sock.host
      ensures Valid() && sock.host.log == old(sock.host.log) + io
      ensures Outcome(old(sock.wire), Stream(input), io, rv, Now())
      ensures |Stream(saved)| <= Lag(input, hold)
      ensures Calm(input, hold) ==> io == []
    {
      hide Lag, Calm, Fits, Stream, Sent, Clean, EndsWith;
      ghost var w0, log := sock.wire, sock.host.log;
      var b := input;
      ghost var done: Data := [];
      var block := false;
      rv, io := Ok, [];
      StreamHead([]);
      AtStart(w0, Stream(input), log);
      while b != []
        invariant sock.host.Valid() && saved == [] && !aborted
        invariant AllValid(b) && ClosesAtEnd(b)
        invariant b != [] ==> hold == Holds(b, keepalive)
        invariant sock.wire == w0 + done && done + Stream(b) == Stream(input)
        invariant sock.host.log == log + io && Clean(io) && Sent(io) == |done|
        invariant Lag(b, hold) <= Lag(input, hold) && (b != [] && block ==> b[0].Pipe?)
        invariant Calm(input, hold) ==> b == input && done == [] && io == []
        decreases Weights(b), !block
      {
        var status, kept, more;
        ghost var content, now, wire := [], [], sock.wire;
        kept, status, more, block, content, now := Pass(b, keepalive, block, hold);
        if kept {
          AllIsWell(w0, done, content, io, Now());
          return;
        }
        AfterPass(log, w0, done, io, content, Stream(more), status, wire, sock.wire, now);
        io := io + now;
        if status != Success {
          rv := SendFailed(status, w0, Stream(input), io);
          return;
        }
        done := done + content;
        b := more;
      }
      AllIsWell(w0, done, [], io, Now());
    }

    // A send that failed: the connection is given up, except after EAGAIN.
    method SendFailed(status: Status, ghost wire: Data, ghost due: Data, ghost io: seq<Io>) returns (rv: Result)
      requires sock.host.Valid() && saved == [] && !aborted
      requires status != Success && EndsWith(io, status)
      requires Sent(io) < |due| && sock.wire == wire + due[..Sent(io)]
      modifies this`aborted
      ensures Valid() && saved == [] && Outcome(wire, due, io, rv, Now())
    {
      if status != EAgain {
        aborted := true;
        return ConnAborted;
      }
      return Ok;
    }

    // A kept brigade loses its EOS bucket, and its data is pulled in.
    method Keep(ghost r: Round, seen: seq<Bucket>, ghost more: seq<Bucket>, last: Bucket, ghost block: bool,
        ghost content: Data, ghost hasFile: bool, ghost keepalive: bool)
      requires Collected(r, seen, more, last, block, content, hasFile)
      requires !last.Eoc? && ((!hasFile && more == [] && !last.Flush?) || (last.Eos? && keepalive))
      requires r.input != [] && r.hold == Holds(r.input, keepalive)
      requires sock.host.Valid() && |content| < MIN_BYTES_TO_WRITE
      modifies this`saved
      ensures Valid() && content == Stream(saved) == Stream(r.input) && |content| == Lag(r.input, r.hold)
    {
      hide Collected, Lag, Stream, AllPassed, OneLarge, AllValid;
      EosHolds(r, seen, more, last, block, content, hasFile, keepalive);
      KeepStep(r, seen, more, last, block, content, hasFile, keepalive);
      var kept := seen;
      if last.Eos? {
        kept := PullIn(seen[..|seen| - 1]);
      }
      NothingEnds(kept);
      saved := kept;
    }

    // One pass: collect a batch, then keep it or send it.
    method Pass(b: seq<Bucket>, keepalive: bool, entered: bool, ghost hold: bool)
      returns (kept: bool, status: Status, more: seq<Bucket>, block: bool, ghost content: Data, ghost io: seq<Io>)
      requires sock.host.Valid() && saved == [] && !aborted
      requires b != [] && AllValid(b) && ClosesAtEnd(b) && hold == Holds(b, keepalive) && (entered ==> b[0].Pipe?)
      modifies this`saved, sock, sock.host
      ensures sock.host.Valid() && sock.host.log == old(sock.host.log) + io
      ensures kept ==> Valid() && content == Stream(saved) == Stream(b) && |content| == Lag(b, hold)
                       && sock.wire == old(sock.wire) && io == []
      ensures !kept ==> saved == [] && Remains(Round(b, hold, entered), content, more, block)
                        && Pushed(old(sock.wire), content, status, sock.wire, io)
                        && (status != Success ==> Sent(io) < |content|)
      ensures Calm(b, hold) ==> kept
    {
      hide Stream, Lag, Calm, Collected, Remains, Pushed, Sent;
      var batch := new Batch();
      ghost var r := Round(b, hold, entered);
      var seen, last;
      seen, more, last, block := Collect(batch, b, entered, hold);
      content := batch.Content();
      CalmIsKept(r, seen, more, last, block, content, batch.fd != null);
      status, io := Success, [];
      kept := batch.nbytes + batch.flen < MIN_BYTES_TO_WRITE && !last.Eoc?
              && ((batch.fd == null && more == [] && !last.Flush?) || (last.Eos? && keepalive));
      if kept {
        Keep(r, seen, more, last, block, content, batch.fd != null, keepalive);
      } else {
        SendStep(r, seen, more, last, block, content, batch.fd != null);
        var sent;
        status, sent, io := SendBatch(sock, batch);
      }
    }
  }

  lemma NothingEnds(bs: seq<Bucket>)
    requires AllPassed(bs, true)
    ensures forall k :: 0 <= k < |bs| ==> !Closing(bs[k]) && !bs[k].Flush?
  {
  }

  lemma EosHolds(r: Round, seen: seq<Bucket>, more: seq<Bucket>, last: Bucket, block: bool, content: Data,
      hasFile: bool, keepalive: bool)
    requires Collected(r, seen, more, last, block, content, hasFile) && r.hold == Holds(r.input, keepalive)
    ensures last.Eos? && keepalive ==> r.hold
  {
  }

  lemma CalmIsKept(r: Round, seen: seq<Bucket>, more: seq<Bucket>, last: Bucket, block: bool, content: Data,
      hasFile: bool)
    requires Collected(r, seen, more, last, block, content, hasFile)
    ensures Calm(r.input, r.hold) ==>
              && |content| < MIN_BYTES_TO_WRITE && more == [] && !last.Flush? && !last.Eoc?
              && (hasFile ==> r.hold) && last.Eos? == Last(r.input).Eos?
  {
  }

  lemma AtStart(w0: Data, total: Data, log: seq<Io>)
    ensures w0 + [] == w0 && [] + total == total && log + [] == log
    ensures Clean([]) && Sent([]) == 0
  {
  }

  // No call has failed, and what has not been sent is set aside.
  lemma AllIsWell(w0: Data, done: Data, rest: Data, io: seq<Io>, s': Snapshot)
    requires Clean(io) && Sent(io) == |done| && |rest| < MIN_BYTES_TO_WRITE
    requires s' == Snapshot(w0 + done, rest, false)
    ensures Outcome(w0, done + rest, io, Ok, s')
  {
    assert (done + rest)[..|done|] == done && (done + rest)[|done|..] == rest;
  }

  // A pass that sent its batch, or part of it.
  lemma AfterPass(log: seq<Io>, w0: Data, done: Data, io: seq<Io>, content: Data, rest: Data, rv: Status, wire: Data,
      wire': Data, now: seq<Io>)
    requires Clean(io) && Sent(io) == |done| && wire == w0 + done
    requires Pushed(wire, content, rv, wire', now)
    ensures (log + io) + now == log + (io + now) && done + (content + rest) == (done + content) + rest
    ensures EndsWith(io + now, rv) && Sent(io + now) == Sent(io) + Sent(now)
    ensures wire' == w0 + (done + (content + rest))[..Sent(io + now)]
    ensures rv == Success ==> Clean(io + now) && wire' == w0 + (done + content) && Sent(io + now) == |done + content|
  {
    hide Sent, Clean;
    MoreCalls(log, io, now, rv);
    Prefixes(w0, done, content, rest, Sent(now));
  }

  lemma Prefixes(w0: Data, done: Data, content: Data, rest: Data, k: nat)
    requires k <= |content|
    ensures (w0 + done) + content[..k] == w0 + (done + (content + rest))[..|done| + k]
    ensures k == |content| ==> (w0 + done) + content[..k] == w0 + (done + content)
  {
    assert (done + (content + rest))[..|done| + k] == done + content[..k];
    assert content[..|content|] == content;
  }

  // The brigade ends a response on a keep-alive connection.
  ghost predicate Holds(bs: seq<Bucket>, keepalive: bool) {
    keepalive && bs != [] && Last(bs).Eos?
  }
}
