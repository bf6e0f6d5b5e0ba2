/**
  Bucket brigades: a brigade is a sequence of buckets, and every operation here says what
  it does to the bytes the brigade stands for.
*/
module Buckets {
  import opened Bytes
  import opened Network

  const BUFF_SIZE := 8000            // APR_BUCKET_BUFF_SIZE
  const MIN_BYTES_TO_WRITE := 8000   // AP_MIN_BYTES_TO_WRITE
  const MIN_SENDFILE_BYTES := 256    // AP_MIN_SENDFILE_BYTES

  datatype Bucket =
    | Memory(bytes: Data)
    | Heap(bytes: Data, alloc: nat)                // alloc is the size of the allocation
    | FileRange(fd: File, start: nat, len: nat)
    | Pipe(chunks: seq<Data>)                      // what successive reads will yield
    | Eos
    | Eoc
    | Flush
    | Meta

  // A file bucket stays within its file.
  ghost predicate Valid(b: Bucket) {
    b.FileRange? ==> b.start + b.len <= |b.fd.contents|
  }

  ghost predicate AllValid(bs: seq<Bucket>) {
    forall k :: 0 <= k < |bs| ==> Valid(bs[k])
  }

  function Concat(chunks: seq<Data>): Data {
    if chunks == [] then [] else chunks[0] + Concat(chunks[1..])
  }

  ghost function Payload(b: Bucket): Data {
    match b
    case Memory(bytes) => bytes
    case Heap(bytes, _) => bytes
    case FileRange(fd, start, len) => if Valid(b) then fd.contents[start..start + len] else []
    case Pipe(chunks) => Concat(chunks)
    case _ => []
  }

  // The byte stream a brigade stands for.
  ghost function Stream(bs: seq<Bucket>): Data {
    if bs == [] then [] else Payload(bs[0]) + Stream(bs[1..])
  }

  lemma StreamHead(b: seq<Bucket>)
    ensures Stream(b) == if b == [] then [] else Payload(b[0]) + Stream(b[1..])
  {
  }

  lemma {:induction false} StreamAppend(a: seq<Bucket>, b: seq<Bucket>)
    ensures Stream(a + b) == Stream(a) + Stream(b)
  {
    hide Stream;
    StreamHead(a);
    StreamHead(a + b);
    if a == [] {
      assert a + b == b;
    } else {
      StreamAppend(a[1..], b);
      assert (a + b)[0] == a[0] && (a + b)[1..] == a[1..] + b;
      Regroup(Payload(a[0]), Stream(a[1..]), Stream(b));
    }
  }

  lemma Regroup(a: Data, b: Data, c: Data)
    ensures a + (b + c) == (a + b) + c
  {
  }

  predicate Readable(b: Bucket) {
    b.Memory? || b.Heap? || b.Meta?
  }

  // A file worth handing to sendfile.
  predicate Large(b: Bucket) {
    b.FileRange? && b.len >= MIN_SENDFILE_BYTES
  }

  predicate Closing(b: Bucket) {
    b.Eos? || b.Eoc?
  }

  // End-of-stream and end-of-connection buckets occur only at the very end.
  ghost predicate ClosesAtEnd(bs: seq<Bucket>) {
    forall k :: 0 <= k < |bs| - 1 ==> !Closing(bs[k])
  }

  function Last(bs: seq<Bucket>): Bucket
    requires bs != []
  {
    bs[|bs| - 1]
  }

  // An upper bound on the number of times the bucket, or what it turns into, is visited.
  function Weight(b: Bucket): nat {
    if b.Pipe? then |b.chunks| + 2 else 1
  }

  function Weights(bs: seq<Bucket>): nat {
    if bs == [] then 0 else Weight(bs[0]) + Weights(bs[1..])
  }

  lemma WeightsHead(bs: seq<Bucket>)
    requires bs != []
    ensures Weights(bs) == Weight(bs[0]) + Weights(bs[1..])
  {
  }

  lemma StreamOne(b: Bucket)
    ensures Stream([b]) == Payload(b) && Weights([b]) == Weight(b)
  {
    assert [b][1..] == [];
  }

  lemma {:induction false} WeightsAppend(a: seq<Bucket>, b: seq<Bucket>)
    ensures Weights(a + b) == Weights(a) + Weights(b)
  {
    if a == [] {
      assert a + b == b;
    } else {
      WeightsAppend(a[1..], b);
      assert (a + b)[1..] == a[1..] + b;
    }
  }

  // apr_bucket_read on a bucket that is neither a marker nor a large file: the bucket
  // becomes plain data in place, with the rest of a pipe inserted after it.  Only a pipe
  // read without blocking can report that nothing is available yet.
  method Read(b: Bucket, block: bool) returns (rv: Status, data: Data, repl: seq<Bucket>)
    requires Valid(b) && !Closing(b) && !b.Flush? && !Large(b)
    ensures rv == Success || (rv == EAgain && b.Pipe? && !block)
    ensures rv == Success && !b.Pipe? ==> |repl| == 1 && data == Payload(b)
    ensures Readable(b) ==> rv == Success && repl == [b]
    ensures rv == Success ==>
              && 1 <= |repl| <= 2 && Readable(repl[0])
              && (|repl| == 2 ==> repl[1].Pipe? && b.Pipe?)
              && AllValid(repl) && Payload(repl[0]) == data
              && Stream(repl) == Payload(b) && Weights(repl) <= Weight(b)
  {
    rv := Success;
    match b
    case Pipe(chunks) =>
      var ready := *;
      if !block && !ready {
        return EAgain, [], [];
      }
      if chunks == [] {
        data, repl := [], [Memory([])];
      } else {
        data := chunks[0];
        repl := [Heap(data, BUFF_SIZE), Pipe(chunks[1..])];
        assert repl[1..] == [Pipe(chunks[1..])];
        StreamOne(repl[1]);
      }
    case FileRange(fd, start, len) =>
      data := fd.contents[start..start + len];
      var mapped := *;
      repl := [if mapped then Memory(data) else Heap(data, len)];
      StreamOne(repl[0]);
    case Meta =>
      data, repl := [], [b];
      StreamOne(b);
    case Memory(bytes) =>
      data, repl := bytes, [b];
      StreamOne(b);
    case Heap(bytes, _) =>
      data, repl := bytes, [b];
      StreamOne(b);
  }

  // apr_brigade_write without a flush function: append to the allocation of a trailing
  // heap bucket when there is room, otherwise start a new heap bucket.
  function BrigadeWrite(bs: seq<Bucket>, str: Data): seq<Bucket> {
    var hasHeap := bs != [] && Last(bs).Heap?;
    var remaining: int := if hasHeap then Last(bs).alloc - |Last(bs).bytes| else BUFF_SIZE;
    if |str| > remaining then
      bs + [Heap(str, |str|)]
    else if !hasHeap then
      bs + [Heap(str, BUFF_SIZE)]
    else
      bs[..|bs| - 1] + [Last(bs).(bytes := Last(bs).bytes + str)]
  }

  // Whatever the layout, writing appends to the byte stream.
  lemma WriteAppends(bs: seq<Bucket>, str: Data)
    ensures Stream(BrigadeWrite(bs, str)) == Stream(bs) + str
  {
    hide Stream;
    var out := BrigadeWrite(bs, str);
    if |out| == |bs| {
      var front, last := bs[..|bs| - 1], Last(bs);
      assert bs == front + [last] && out == front + [Last(out)];
      StreamAppend(front, [last]);
      StreamAppend(front, [Last(out)]);
      StreamOne(last);
      StreamOne(Last(out));
    } else {
      assert out == bs + [Last(out)];
      StreamAppend(bs, [Last(out)]);
      StreamOne(Last(out));
    }
  }
}
