/**
  The three routines that push bytes until everything is sent or an error stops them:
  writev_it_all, sendfile_it_all and emulate_sendfile.  Each repairs its own vectors in
  place after a short write.
*/
module Senders {
  import opened Bytes
  import opened Network

  // What "send it all" promises: some prefix of the stream reached the wire, all of it when
  // the call succeeds, and it fails exactly as the last of the calls it made did.
  ghost predicate Pushed(before: Data, stream: Data, rv: Status, after: Data, io: seq<Io>) {
    && Sent(io) <= |stream| && after == before + stream[..Sent(io)]
    && EndsWith(io, rv) && (rv == Success ==> Sent(io) == |stream|)
  }

  // The reported count never exceeds what was sent, and is exact on success.
  ghost predicate SentAll(before: Data, stream: Data, rv: Status, reported: nat, after: Data, io: seq<Io>) {
    Pushed(before, stream, rv, after, io) && reported <= Sent(io) && (rv == Success ==> reported == Sent(io))
  }

  // No call has failed so far, and a prefix of the stream is on the wire.
  ghost predicate Progress(before: Data, stream: Data, wire: Data, io: seq<Io>) {
    Clean(io) && Sent(io) <= |stream| && wire == before + stream[..Sent(io)]
  }

  lemma NoCalls(before: Data, stream: Data, log: seq<Io>)
    ensures Progress(before, stream, before, []) && log + [] == log
    ensures Sent([]) == 0 && stream[0..] == stream
  {
  }

  // A transfer continues where the previous ones stopped.
  lemma Continue(before: Data, stream: Data, wire: Data, log: seq<Io>, io: seq<Io>, rv: Status, sent: nat, wire': Data)
    requires Progress(before, stream, wire, io) && Accepts(wire, stream[Sent(io)..], rv, sent, wire')
    ensures var io' := io + [Io(rv, sent)];
            && (log + io) + [Io(rv, sent)] == log + io' && Sent(io') == Sent(io) + sent <= |stream|
            && stream[Sent(io)..][sent..] == stream[Sent(io')..]
            && (rv == Success ==> Progress(before, stream, wire', io'))
            && (rv != Success || Sent(io') == |stream| ==> Pushed(before, stream, rv, wire', io'))
            && (Sent(io) < |stream| ==> if rv == Success then sent > 0 else Sent(io') < |stream|)
  {
    hide Sent;
    NextCall(log, io, rv, sent);
    TakeMore(stream, Sent(io), sent);
    assert before + (stream[..Sent(io)] + stream[Sent(io)..][..sent]) == wire';
  }

  lemma AllSent(before: Data, stream: Data, wire: Data, io: seq<Io>)
    requires Progress(before, stream, wire, io) && Sent(io) == |stream|
    ensures Pushed(before, stream, Success, wire, io)
  {
  }

  method WritevItAll(s: Socket, vec: array<Vec>, nvec: nat, len: nat)
    returns (rv: Status, nbytes: nat, ghost io: seq<Io>)
    requires s.host.Valid() && nvec <= vec.Length
    requires len == |Gather(vec[..], 0, nvec)|
    modifies s, s.host, vec
    ensures s.host.Valid() && s.host.log == old(s.host.log) + io
    ensures s.sendfiles == old(s.sendfiles)
    ensures SentAll(old(s.wire), old(Gather(vec[..], 0, nvec)), rv, nbytes, s.wire, io)
    ensures nbytes == Sent(io) && (rv != Success ==> nbytes < len)
  {
    hide Gather, Sent, Progress, Pushed;
    ghost var stream := Gather(vec[..], 0, nvec);
    ghost var before, log := s.wire, s.host.log;
    var bytesWritten := 0;
    var i := 0;
    nbytes, io := 0, [];
    NoCalls(before, stream, log);
    while bytesWritten != len
      invariant i <= nvec && nbytes == bytesWritten == Sent(io) <= len
      invariant bytesWritten < len ==> Gather(vec[..], i, nvec) == stream[bytesWritten..]
      invariant Progress(before, stream, s.wire, io)
      invariant s.host.Valid() && s.host.log == log + io && s.sendfiles == old(s.sendfiles)
      decreases len - bytesWritten
    {
      ghost var wire := s.wire;
      var n;
      rv, n := s.Sendv(vec, i, nvec);
      Continue(before, stream, wire, log, io, rv, n, s.wire);
      io := io + [Io(rv, n)];
      nbytes := nbytes + n;
      bytesWritten := bytesWritten + n;
      if rv != Success {
        return;
      }
      if bytesWritten < len {
        GatherHead(vec[..], i, nvec);
        i := Repair(vec, i, nvec, n);
      }
    }
    rv := Success;
    AllSent(before, stream, s.wire, io);
  }

  // The adjustment in the loop of writev_it_all after n bytes of vec[i0..nvec] have gone:
  // whole vectors are skipped, the first partly sent one is advanced.
  method Repair(vec: array<Vec>, i0: nat, nvec: nat, n: nat) returns (i: nat)
    requires i0 < nvec <= vec.Length
    requires n < |Gather(vec[..], i0, nvec)|
    modifies vec
    ensures i0 <= i < nvec
    ensures Gather(vec[..], i, nvec) == old(Gather(vec[..], i0, nvec))[n..]
  {
    hide Gather;
    ghost var vs := vec[..];
    ghost var all := Gather(vs, i0, nvec);
    i := i0;
    var cnt := vec[i].len;
    while n >= cnt && i + 1 < nvec
      invariant i0 <= i < nvec && vec[..] == vs
      invariant vs[i].len <= cnt && cnt - vs[i].len <= n
      invariant Gather(vs, i, nvec) == all[cnt - vs[i].len..]
    {
      DropFirst(vs, i, nvec, all, cnt - vs[i].len);
      i := i + 1;
      cnt := cnt + vec[i].len;
    }
    ghost var start := cnt - vs[i].len;
    NotPastEnd(vs, i, nvec, all, start, n);
    if n < cnt {
      CutFirst(vs, i, nvec, all, start, n - start);
      vec[i] := IoVec(vec[i].base[vec[i].len - (cnt - n)..], cnt - n);
      assert vec[..] == vs[i := Advance(vs[i], n - start)];
    }
  }

  // The last vector is never skipped.
  lemma NotPastEnd(vs: seq<Vec>, i: nat, nvec: nat, all: Data, start: nat, n: nat)
    requires i < nvec <= |vs| && start <= |all| && Gather(vs, i, nvec) == all[start..] && n < |all|
    ensures i + 1 == nvec ==> n < start + vs[i].len
  {
    hide Gather;
    GatherHead(vs, i, nvec);
    GatherHead(vs, i + 1, nvec);
  }

  // apr_hdtr_t: header and trailer vectors around a file, as windows into two arrays.
  class Hdtr {
    const headers: array<Vec>
    const trailers: array<Vec>
    var h0: nat           // hdtr->headers, as an index
    var numHeaders: nat
    var t0: nat           // hdtr->trailers, as an index
    var numTrailers: nat

    constructor (headers: array<Vec>, numHeaders: nat, trailers: array<Vec>, numTrailers: nat)
      requires numHeaders <= headers.Length && numTrailers <= trailers.Length
      requires headers != trailers
      ensures Valid() && h0 == 0 && t0 == 0
      ensures this.headers == headers && this.numHeaders == numHeaders
      ensures this.trailers == trailers && this.numTrailers == numTrailers
    {
      this.headers, this.numHeaders, h0 := headers, numHeaders, 0;
      this.trailers, this.numTrailers, t0 := trailers, numTrailers, 0;
    }

    ghost predicate Valid()
      reads this
    {
      h0 + numHeaders <= headers.Length && t0 + numTrailers <= trailers.Length && headers != trailers
    }

    ghost function Head(): Data
      requires Valid()
      reads this, headers
    {
      Gather(headers[..], h0, h0 + numHeaders)
    }

    ghost function Tail(): Data
      requires Valid()
      reads this, trailers
    {
      Gather(trailers[..], t0, t0 + numTrailers)
    }
  }

  // The loops at the "skip over" steps of sendfile_it_all: drop the first `left` bytes of
  // a window of vectors and report how many of them were not there to drop.
  method SkipSent(vec: array<Vec>, at: nat, num: nat, left: nat) returns (at': nat, num': nat, left': nat)
    requires at + num <= vec.Length
    modifies vec
    ensures at' + num' == at + num
    ensures left' <= left && left - left' <= |old(Gather(vec[..], at, at + num))|
    ensures left' > 0 ==> left - left' == |old(Gather(vec[..], at, at + num))|
    ensures Gather(vec[..], at', at' + num') == old(Gather(vec[..], at, at + num))[left - left'..]
  {
    hide Gather;
    ghost var cur := vec[..];
    ghost var all := Gather(cur, at, at + num);
    at', num', left' := at, num, left;
    while left' > 0 && num' > 0
      invariant at' + num' == at + num && left' <= left
      invariant vec[..] == cur && left - left' <= |all|
      invariant Gather(cur, at', at + num) == all[left - left'..]
      decreases left' > 0, num'
    {
      if left' >= vec[at'].len {
        DropFirst(cur, at', at + num, all, left - left');
        left', num', at' := left' - vec[at'].len, num' - 1, at' + 1;
      } else {
        CutFirst(cur, at', at + num, all, left - left', left');
        vec[at'] := IoVec(vec[at'].base[left'..], vec[at'].len - left');
        cur := cur[at' := Advance(cur[at'], left')];
        left' := 0;
      }
    }
    GatherHead(cur, at', at + num);
  }

  lemma DropFirst(vs: seq<Vec>, lo: nat, hi: nat, all: Data, done: nat)
    requires lo < hi <= |vs| && done <= |all| && Gather(vs, lo, hi) == all[done..]
    ensures done + vs[lo].len <= |all| && Gather(vs, lo + 1, hi) == all[done + vs[lo].len..]
  {
    hide Gather;
    GatherHead(vs, lo, hi);
    assert all[done..][vs[lo].len..] == all[done + vs[lo].len..];
  }

  lemma CutFirst(vs: seq<Vec>, lo: nat, hi: nat, all: Data, done: nat, k: nat)
    requires lo < hi <= |vs| && done <= |all| && Gather(vs, lo, hi) == all[done..] && k <= vs[lo].len
    ensures done + k <= |all| && Gather(vs[lo := Advance(vs[lo], k)], lo, hi) == all[done + k..]
  {
    hide Gather;
    TrimFirst(vs, lo, hi, k);
    assert all[done..][k..] == all[done + k..];
  }

  // What is still to be sent, as the loop of sendfile_it_all keeps it.
  ghost function Pending(fd: File, hdtr: Hdtr, offset: nat, fileLeft: nat): Data
    requires hdtr.Valid() && offset + fileLeft <= |fd.contents|
    reads hdtr, hdtr.headers, hdtr.trailers
  {
    SendfileStream(hdtr.Head(), fd.contents[offset..offset + fileLeft], hdtr.Tail())
  }

  // The three "skip over" steps after a short sendfile.
  method SkipAll(fd: File, hdtr: Hdtr, offset: nat, fileLeft: nat, sent: nat) returns (offset': nat, fileLeft': nat)
    requires hdtr.Valid() && offset + fileLeft <= |fd.contents|
    requires sent <= |Pending(fd, hdtr, offset, fileLeft)|
    modifies hdtr, hdtr.headers, hdtr.trailers
    ensures hdtr.Valid() && offset' + fileLeft' <= |fd.contents|
    ensures Pending(fd, hdtr, offset', fileLeft') == old(Pending(fd, hdtr, offset, fileLeft))[sent..]
  {
    hide Gather, SendfileStream;
    ghost var head, body, tail := hdtr.Head(), fd.contents[offset..offset + fileLeft], hdtr.Tail();
    offset', fileLeft' := offset, fileLeft;
    var tmplen;
    hdtr.h0, hdtr.numHeaders, tmplen := SkipSent(hdtr.headers, hdtr.h0, hdtr.numHeaders, sent);
    if tmplen <= fileLeft {
      offset' := offset + tmplen;
      fileLeft' := fileLeft - tmplen;
      assert fd.contents[offset'..offset' + fileLeft'] == body[tmplen..];
      DropFrom(head, body, tail, sent - tmplen, tmplen, 0);
      return;
    }
    tmplen := tmplen - fileLeft;
    fileLeft' := 0;
    offset' := 0;
    ghost var inTail := tmplen;
    hdtr.t0, hdtr.numTrailers, tmplen := SkipSent(hdtr.trailers, hdtr.t0, hdtr.numTrailers, tmplen);
    DropFrom(head, body, tail, |head|, |body|, inTail);
  }

  lemma DropFrom(head: Data, body: Data, tail: Data, h: nat, b: nat, t: nat)
    requires h <= |head| && b <= |body| && t <= |tail|
    requires b > 0 ==> h == |head|
    requires t > 0 ==> h == |head| && b == |body|
    ensures SendfileStream(head, body, tail)[h + b + t..] == SendfileStream(head[h..], body[b..], tail[t..])
  {
  }

  // One attempt at all that is pending.
  method SendPending(s: Socket, fd: File, hdtr: Hdtr, offset: nat, fileLeft: nat)
    returns (rv: Status, n: nat, ghost sent: nat)
    requires s.host.Valid() && hdtr.Valid() && offset + fileLeft <= |fd.contents|
    modifies s, s.host
    ensures s.host.Valid() && s.host.log == old(s.host.log) + [Io(rv, sent)] && s.sendfiles == old(s.sendfiles) + 1
    ensures Accepts(old(s.wire), Pending(fd, hdtr, offset, fileLeft), rv, sent, s.wire)
    ensures if rv == Success then n == sent else n <= sent
  {
    rv, n, sent := s.Sendfile(fd, hdtr.headers, hdtr.h0, hdtr.h0 + hdtr.numHeaders, offset, fileLeft,
        hdtr.trailers, hdtr.t0, hdtr.t0 + hdtr.numTrailers);
  }

  method SendfileItAll(s: Socket, fd: File, hdtr: Hdtr, fileOffset: nat, fileBytesLeft: nat, totalBytesLeft: nat)
    returns (rv: Status, bytesSent: nat, ghost io: seq<Io>)
    requires s.host.Valid() && hdtr.Valid()
    requires fileOffset + fileBytesLeft <= |fd.contents|
    requires totalBytesLeft == |Pending(fd, hdtr, fileOffset, fileBytesLeft)|
    modifies s, s.host, hdtr, hdtr.headers, hdtr.trailers
    ensures s.host.Valid() && s.host.log == old(s.host.log) + io
    ensures s.sendfiles > old(s.sendfiles)
    ensures SentAll(old(s.wire), old(Pending(fd, hdtr, fileOffset, fileBytesLeft)), rv, bytesSent, s.wire, io)
    ensures rv != Success && totalBytesLeft > 0 ==> Sent(io) < totalBytesLeft
  {
    hide Sent, Progress, Pushed, Pending, Accepts;
    ghost var stream := Pending(fd, hdtr, fileOffset, fileBytesLeft);
    ghost var before, log := s.wire, s.host.log;
    var offset: nat, fileLeft: nat, total: nat := fileOffset, fileBytesLeft, totalBytesLeft;
    bytesSent, io := 0, [];
    rv := Success;
    NoCalls(before, stream, log);
    while true
      invariant hdtr.Valid() && offset + fileLeft <= |fd.contents|
      invariant Sent(io) == bytesSent && total == |stream| - bytesSent && (totalBytesLeft > 0 ==> total > 0)
      invariant Progress(before, stream, s.wire, io)
      invariant Pending(fd, hdtr, offset, fileLeft) == stream[bytesSent..]
      invariant s.host.Valid() && s.host.log == log + io && s.sendfiles >= old(s.sendfiles)
      decreases total
    {
      ghost var wire := s.wire;
      var tmplen: nat;
      ghost var sent;
      rv, tmplen, sent := SendPending(s, fd, hdtr, offset, fileLeft);
      Continue(before, stream, wire, log, io, rv, sent, s.wire);
      io := io + [Io(rv, sent)];
      bytesSent := bytesSent + tmplen;
      total := total - tmplen;
      if total == 0 || rv != Success {
        return;
      }
      offset, fileLeft := SkipAll(fd, hdtr, offset, fileLeft, tmplen);
    }
  }

  // Two routines in a row, the second only after the success of the first.
  lemma PushedThen(log: seq<Io>, w0: Data, a: Data, w1: Data, ioA: seq<Io>, b: Data, rv: Status, w2: Data,
      ioB: seq<Io>)
    requires Pushed(w0, a, Success, w1, ioA) && Pushed(w1, b, rv, w2, ioB)
    ensures Pushed(w0, a + b, rv, w2, ioA + ioB) && Sent(ioA + ioB) == Sent(ioA) + Sent(ioB)
    ensures Sent(ioA) == |a| && (log + ioA) + ioB == log + (ioA + ioB)
  {
    hide Sent;
    MoreCalls(log, ioA, ioB, rv);
    assert (w0 + a) + b[..Sent(ioB)] == w0 + (a + b)[..|a| + Sent(ioB)];
    assert a[..|a|] == a;
  }

  // After a failure the rest of the stream makes no difference.
  lemma PushedShort(w0: Data, a: Data, rv: Status, w1: Data, io: seq<Io>, b: Data)
    requires Pushed(w0, a, rv, w1, io) && rv != Success
    ensures Pushed(w0, a + b, rv, w1, io)
  {
    assert a[..Sent(io)] == (a + b)[..Sent(io)];
  }

  method EmulateSendfile(s: Socket, fd: File, hdtr: Hdtr, offset: nat, length: nat)
    returns (rv: Status, nbytes: nat, ghost io: seq<Io>)
    requires s.host.Valid() && hdtr.Valid() && hdtr.h0 == hdtr.t0 == 0
    requires offset + length <= |fd.contents|
    modifies s, s.host, hdtr.headers, hdtr.trailers
    ensures s.host.Valid() && s.host.log == old(s.host.log) + io
    ensures s.sendfiles == old(s.sendfiles)
    ensures SentAll(old(s.wire), old(Pending(fd, hdtr, offset, length)), rv, nbytes, s.wire, io)
    ensures rv != Success && length > 0 ==> Sent(io) < |old(Pending(fd, hdtr, offset, length))|
  {
    hide Gather, Sent, Pushed;
    ghost var w0, log := s.wire, s.host.log;
    ghost var head, body, tail := hdtr.Head(), fd.contents[offset..offset + length], hdtr.Tail();
    rv, nbytes, io := SendVectors(s, hdtr.headers, hdtr.numHeaders);
    if rv != Success {
      PushedShort(w0, head, rv, s.wire, io, body + tail);
      assert head + (body + tail) == SendfileStream(head, body, tail);
      return;
    }
    var bytesSent: nat;
    ghost var w1, more := s.wire, [];
    rv, bytesSent, more := SeekAndSend(s, fd, offset, length);
    PushedThen(log, w0, head, w1, io, body, rv, s.wire, more);
    nbytes, io := nbytes + bytesSent, io + more;
    if rv != Success {
      PushedShort(w0, head + body, rv, s.wire, io, tail);
      return;
    }
    w1 := s.wire;
    rv, bytesSent, more := SendVectors(s, hdtr.trailers, hdtr.numTrailers);
    PushedThen(log, w0, head + body, w1, io, tail, rv, s.wire, more);
    nbytes, io := nbytes + bytesSent, io + more;
  }

  // The header and trailer steps of emulate_sendfile.
  method SendVectors(s: Socket, vec: array<Vec>, num: nat) returns (rv: Status, nbytes: nat, ghost io: seq<Io>)
    requires s.host.Valid() && num <= vec.Length
    modifies s, s.host, vec
    ensures s.host.Valid() && s.host.log == old(s.host.log) + io
    ensures s.sendfiles == old(s.sendfiles)
    ensures Pushed(old(s.wire), old(Gather(vec[..], 0, num)), rv, s.wire, io)
    ensures nbytes == Sent(io) && (rv != Success ==> nbytes < |old(Gather(vec[..], 0, num))|)
  {
    rv, nbytes, io := Success, 0, [];
    if num > 0 {
      var sendlen := SumLengths(vec, num);
      rv, nbytes, io := WritevItAll(s, vec, num, sendlen);
    }
  }

  // The seek and the file loop of emulate_sendfile.
  method SeekAndSend(s: Socket, fd: File, offset: nat, length: nat) returns (rv: Status, nbytes: nat, ghost io: seq<Io>)
    requires s.host.Valid() && offset + length <= |fd.contents|
    modifies s, s.host
    ensures s.host.Valid() && s.host.log == old(s.host.log) + io
    ensures s.sendfiles == old(s.sendfiles)
    ensures Pushed(old(s.wire), fd.contents[offset..offset + length], rv, s.wire, io)
    ensures nbytes == Sent(io) && (rv != Success && length > 0 ==> nbytes < length)
  {
    hide Sent, Pushed;
    ghost var w0, log, body := s.wire, s.host.log, fd.contents[offset..offset + length];
    var reader := new Reader(s.host, fd);
    rv := reader.Seek(offset);
    nbytes, io := 0, [Io(rv, 0)];
    Quiet(w0, body, rv);
    if rv == Success {
      ghost var more;
      rv, nbytes, more := SendRange(s, reader, length);
      PushedThen(log, w0, [], w0, io, body, rv, s.wire, more);
      assert [] + body == body;
      io := io + more;
    }
  }

  // A call that sends nothing.
  lemma Quiet(w0: Data, body: Data, rv: Status)
    ensures Sent([Io(rv, 0)]) == 0
    ensures Pushed(w0, if rv == Success then [] else body, rv, w0, [Io(rv, 0)])
  {
    NextCall([], [], rv, 0);
    assert [] + [Io(rv, 0)] == [Io(rv, 0)];
    assert w0 + body[..0] == w0;
  }

  method SumLengths(vec: array<Vec>, n: nat) returns (sum: nat)
    requires n <= vec.Length
    ensures sum == |Gather(vec[..], 0, n)|
  {
    sum := 0;
    for i := 0 to n
      invariant sum == |Gather(vec[..], 0, i)|
    {
      GatherSnoc(vec[..], 0, i);
      sum := sum + vec[i].len;
    }
  }

  const BUFFER_SIZE := 8192

  // The loop over the file: read a buffer full, send it out, repeat.
  method SendRange(s: Socket, fd: Reader, length: nat) returns (rv: Status, nbytes: nat, ghost io: seq<Io>)
    requires s.host.Valid() && fd.host == s.host && fd.pos + length <= |fd.file.contents|
    modifies s, s.host, fd
    ensures s.host.Valid() && s.host.log == old(s.host.log) + io
    ensures s.sendfiles == old(s.sendfiles)
    ensures Pushed(old(s.wire), fd.file.contents[old(fd.pos)..old(fd.pos) + length], rv, s.wire, io)
    ensures nbytes == Sent(io) && (rv != Success ==> nbytes < length)
  {
    hide Sent, Pushed;
    ghost var w0, log, from := s.wire, s.host.log, fd.pos;
    ghost var stream := fd.file.contents[from..from + length];
    var buffer := new Byte[BUFFER_SIZE];
    var togo: nat := length;
    rv, nbytes, io := Success, 0, [];
    NothingYet(w0, stream, log);
    while togo > 0
      invariant 0 <= togo <= length && fd.pos == from + length - togo
      invariant Pushed(w0, stream[..length - togo], Success, s.wire, io)
      invariant nbytes == Sent(io) == length - togo
      invariant s.host.Valid() && s.host.log == log + io && s.sendfiles == old(s.sendfiles)
    {
      ghost var done, wire := length - togo, s.wire;
      ghost var more;
      var chunk, sent: nat;
      rv, chunk, sent, more := SendChunk(s, fd, buffer, if togo > BUFFER_SIZE then BUFFER_SIZE else togo);
      NextChunk(log, w0, fd.file.contents, from, length, done, chunk, wire, io, rv, s.wire, more);
      nbytes, io := nbytes + sent, io + more;
      if rv != Success {
        return;
      }
      togo := togo - chunk;
    }
    rv := Success;
    assert stream[..length] == stream;
  }

  lemma NothingYet(w0: Data, stream: Data, log: seq<Io>)
    ensures Pushed(w0, stream[..0], Success, w0, []) && Sent([]) == 0 && log + [] == log
  {
    assert stream[..0] == [] && w0 + [] == w0;
  }

  // After one more chunk, whole or in part.
  lemma NextChunk(log: seq<Io>, w0: Data, d: Data, from: nat, length: nat, done: nat, n: nat, w1: Data, io: seq<Io>,
      rv: Status, w2: Data, more: seq<Io>)
    requires from + length <= |d| && done + n <= length
    requires Pushed(w0, d[from..from + length][..done], Success, w1, io)
    requires Pushed(w1, d[from + done..from + done + n], rv, w2, more)
    ensures Sent(io + more) == Sent(io) + Sent(more) && (log + io) + more == log + (io + more)
    ensures rv == Success ==> Pushed(w0, d[from..from + length][..done + n], Success, w2, io + more)
    ensures rv != Success ==> Pushed(w0, d[from..from + length], rv, w2, io + more)
  {
    hide Sent, Pushed;
    var stream := d[from..from + length];
    PushedThen(log, w0, stream[..done], w1, io, d[from + done..from + done + n], rv, w2, more);
    SliceOfSlice(d, from, length, done, n);
    assert stream[..done] + stream[done..done + n] == stream[..done + n];
    if rv != Success {
      PushedShort(w0, stream[..done + n], rv, w2, io + more, stream[done + n..]);
      assert stream[..done + n] + stream[done + n..] == stream;
    }
  }

  // One turn of the loop: a failed read sends nothing.
  method SendChunk(s: Socket, fd: Reader, buffer: array<Byte>, n: nat)
    returns (rv: Status, chunk: nat, nbytes: nat, ghost io: seq<Io>)
    requires s.host.Valid() && fd.host == s.host
    requires 0 < n <= buffer.Length && fd.pos + n <= |fd.file.contents|
    modifies s, s.host, fd, buffer
    ensures s.host.Valid() && s.host.log == old(s.host.log) + io
    ensures s.sendfiles == old(s.sendfiles)
    ensures 0 < chunk <= n && (rv == Success ==> fd.pos == old(fd.pos) + chunk)
    ensures Pushed(old(s.wire), fd.file.contents[old(fd.pos)..old(fd.pos) + chunk], rv, s.wire, io)
    ensures nbytes == Sent(io) && if rv == Success then nbytes == chunk else nbytes < chunk
  {
    hide Sent, Pushed;
    ghost var w0, log, pos := s.wire, s.host.log, fd.pos;
    var sendlen;
    rv, sendlen := fd.Read(buffer, n);
    chunk, nbytes, io := if rv == Success then sendlen else n, 0, [Io(rv, 0)];
    Quiet(w0, fd.file.contents[pos..pos + chunk], rv);
    if rv == Success {
      ghost var stream, more := buffer[..sendlen], [];
      rv, nbytes, more := SendBuffer(s, buffer, sendlen);
      PushedThen(log, w0, [], w0, io, stream, rv, s.wire, more);
      assert [] + stream == stream;
      io := io + more;
    }
  }

  // The inner loop: o walks the buffer until it is sent or an error stops it.
  method SendBuffer(s: Socket, buffer: array<Byte>, size: nat) returns (rv: Status, nbytes: nat, ghost io: seq<Io>)
    requires s.host.Valid() && size <= buffer.Length
    modifies s, s.host
    ensures s.host.Valid() && s.host.log == old(s.host.log) + io
    ensures s.sendfiles == old(s.sendfiles)
    ensures Pushed(old(s.wire), buffer[..size], rv, s.wire, io)
    ensures nbytes == Sent(io) && if rv == Success then nbytes == size else nbytes < size
  {
    hide Sent, Progress, Pushed;
    ghost var w0, log, stream := s.wire, s.host.log, buffer[..size];
    var sendlen, o := size, 0;
    rv, nbytes, io := Success, 0, [];
    NoCalls(w0, stream, log);
    while rv == Success && sendlen > 0
      invariant o + sendlen == size && nbytes == Sent(io)
      invariant if rv == Success then nbytes == o && Progress(w0, stream, s.wire, io)
                else nbytes < size && Pushed(w0, stream, rv, s.wire, io)
      invariant s.host.Valid() && s.host.log == log + io && s.sendfiles == old(s.sendfiles)
      decreases rv == Success, sendlen
    {
      ghost var wire := s.wire;
      assert buffer[o..size] == stream[o..];
      var bytesSent;
      rv, bytesSent := s.Send(buffer, o, o + sendlen);
      Continue(w0, stream, wire, log, io, rv, bytesSent, s.wire);
      nbytes, io := nbytes + bytesSent, io + [Io(rv, bytesSent)];
      if rv == Success {
        sendlen := sendlen - bytesSent;
        o := o + bytesSent;
      }
    }
    if rv == Success {
      AllSent(w0, stream, s.wire, io);
    }
  }

  // The fast path refines the simple one: from equal wires and the same headers, file
  // range and trailers, two runs in which no call fails succeed and leave equal wires and
  // equal counts, and in every other case one wire is a prefix of the other.
  method SendBothWays(fast: Socket, simple: Socket, fd: File, headers: seq<Vec>, trailers: seq<Vec>, offset: nat,
      length: nat)
    returns (fastRv: Status, fastCount: nat, simpleRv: Status, simpleCount: nat, ghost fastIo: seq<Io>,
        ghost simpleIo: seq<Io>)
    requires fast != simple && fast.wire == simple.wire && fast.host != simple.host
    requires fast.host.Valid() && simple.host.Valid() && offset + length <= |fd.contents|
    modifies fast, simple, fast.host, simple.host
    ensures fast.host.log == old(fast.host.log) + fastIo && simple.host.log == old(simple.host.log) + simpleIo
    ensures (fastRv == Success <==> Clean(fastIo)) && (simpleRv == Success <==> Clean(simpleIo))
    ensures fastRv == Success && simpleRv == Success ==>
              fast.wire == simple.wire && fastCount == simpleCount
    ensures fast.wire <= simple.wire || simple.wire <= fast.wire
  {
    hide Gather, SendfileStream, Sent;
    ghost var w0 := fast.wire;
    var hdtr := MakeHdtr(headers, trailers);
    var h := SumLengths(hdtr.headers, |headers|);
    var t := SumLengths(hdtr.trailers, |trailers|);
    ghost var stream := Pending(fd, hdtr, offset, length);
    fastRv, fastCount, fastIo := SendfileItAll(fast, fd, hdtr, offset, length, h + length + t);
    hdtr := MakeHdtr(headers, trailers);
    assert Pending(fd, hdtr, offset, length) == stream;
    simpleRv, simpleCount, simpleIo := EmulateSendfile(simple, fd, hdtr, offset, length);
    BothPrefixes(w0, stream, Sent(fastIo), Sent(simpleIo));
  }

  lemma BothPrefixes(w: Data, stream: Data, i: nat, j: nat)
    requires i <= |stream| && j <= |stream|
    ensures w + stream[..i] <= w + stream[..j] || w + stream[..j] <= w + stream[..i]
  {
    if i <= j {
      assert stream[..i] <= stream[..j];
    } else {
      assert stream[..j] <= stream[..i];
    }
  }

  method MakeHdtr(headers: seq<Vec>, trailers: seq<Vec>) returns (hdtr: Hdtr)
    ensures fresh(hdtr) && fresh(hdtr.headers) && fresh(hdtr.trailers)
    ensures hdtr.Valid() && hdtr.h0 == hdtr.t0 == 0
    ensures hdtr.numHeaders == |headers| && hdtr.numTrailers == |trailers|
    ensures hdtr.Head() == Gather(headers, 0, |headers|) && hdtr.Tail() == Gather(trailers, 0, |trailers|)
  {
    var hs := new Vec[|headers|](i requires 0 <= i < |headers| => headers[i]);
    var ts := new Vec[|trailers|](i requires 0 <= i < |trailers| => trailers[i]);
    assert hs[..] == headers && ts[..] == trailers;
    hdtr := new Hdtr(hs, |headers|, ts, |trailers|);
  }
}
