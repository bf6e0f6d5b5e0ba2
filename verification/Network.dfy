/**
  The outside world of the filters: a socket that accepts any prefix of what it is
  offered, and an open file that hands out any non-empty prefix of what it is asked for.
  The script that decides is arbitrary, so what is proved holds for all schedules of short
  reads, short writes and failures.
*/
module Network {
  import opened Bytes

  datatype Status = Success | EAgain | Failure

  // What the operating system will answer to a call: a status, how many bytes it moves, as
  // far as there are that many, and how many it admits to after a failure.
  datatype Answer = Answer(rv: Status, count: nat, told: nat)

  // What a call came to: its status and the number of bytes it put on the wire.
  datatype Io = Io(rv: Status, sent: nat)

  // The operating system.  It answers sends, seeks and reads one after the other as a script
  // says, whatever that is, and the log keeps what they came to.
  class Host {
    const script: nat -> Answer
    var log: seq<Io>

    constructor (script: nat -> Answer)
      ensures this.script == script && log == [] && Valid()
    {
      this.script, log := script, [];
    }

    ghost predicate Valid()
      reads this
    {
      forall k :: 0 <= k < |log| ==>
        log[k].rv == script(k).rv && (log[k].rv != Success ==> log[k].sent <= script(k).count)
    }

    function Next(): Answer
      reads this
    {
      script(|log|)
    }

    // `len` bytes are offered to the network.
    method Transfer(len: nat) returns (a: Answer, n: nat)
      requires Valid()
      modifies this
      ensures Valid() && a == old(Next()) && n == Moved(a, len)
      ensures log == old(log) + [Io(a.rv, n)]
    {
      a := Next();
      n := Moved(a, len);
      log := log + [Io(a.rv, n)];
    }

    // A call that sends nothing.
    method Ask() returns (a: Answer)
      requires Valid()
      modifies this
      ensures Valid() && a == old(Next()) && log == old(log) + [Io(a.rv, 0)]
    {
      a := Next();
      log := log + [Io(a.rv, 0)];
    }
  }

  // How many of `len` bytes a call moves: some when it succeeds, not all when it fails.
  function Moved(a: Answer, len: nat): (n: nat)
    ensures n <= len
    ensures len > 0 ==> if a.rv == Success then n > 0 else n < len
  {
    if len == 0 then 0
    else if a.rv != Success then Min(a.count, len - 1)
    else if a.count == 0 then 1
    else Min(a.count, len)
  }

  function Min(a: nat, b: nat): nat {
    if a < b then a else b
  }

  // ----- sequences of calls

  // All of the bytes that some calls put on the wire.
  function Sent(io: seq<Io>): nat {
    if io == [] then 0 else Sent(io[..|io| - 1]) + io[|io| - 1].sent
  }

  predicate Clean(io: seq<Io>) {
    forall k :: 0 <= k < |io| ==> io[k].rv == Success
  }

  // The calls a routine makes that stops at the first failure and returns its status.
  predicate EndsWith(io: seq<Io>, rv: Status) {
    if rv == Success then Clean(io)
    else io != [] && Clean(io[..|io| - 1]) && io[|io| - 1].rv == rv
  }

  lemma NextCall(log: seq<Io>, io: seq<Io>, rv: Status, n: nat)
    requires Clean(io)
    ensures (log + io) + [Io(rv, n)] == log + (io + [Io(rv, n)])
    ensures Sent(io + [Io(rv, n)]) == Sent(io) + n && EndsWith(io + [Io(rv, n)], rv)
  {
    assert (io + [Io(rv, n)])[..|io|] == io;
  }

  lemma {:induction false} SentAppend(a: seq<Io>, b: seq<Io>)
    ensures Sent(a + b) == Sent(a) + Sent(b)
  {
    if b == [] {
      assert a + b == a;
    } else {
      SentAppend(a, b[..|b| - 1]);
      assert (a + b)[..|a + b| - 1] == a + b[..|b| - 1];
    }
  }

  // One routine after another.
  lemma MoreCalls(log: seq<Io>, a: seq<Io>, b: seq<Io>, rv: Status)
    requires Clean(a) && EndsWith(b, rv)
    ensures (log + a) + b == log + (a + b)
    ensures Sent(a + b) == Sent(a) + Sent(b) && EndsWith(a + b, rv)
  {
    SentAppend(a, b);
    if b != [] {
      assert (a + b)[..|a + b| - 1] == a + b[..|b| - 1];
    }
  }

  // What one transfer does to the wire: it sends the first `sent` bytes of `stream`.
  ghost predicate Accepts(before: Data, stream: Data, rv: Status, sent: nat, after: Data) {
    && sent <= |stream|
    && after == before + stream[..sent]
    && (stream != [] ==> if rv == Success then sent > 0 else sent < |stream|)
  }

  class Socket {
    const host: Host
    ghost var wire: Data
    ghost var sendfiles: nat      // how often apr_socket_sendfile has been called

    constructor (host: Host)
      ensures this.host == host && wire == [] && sendfiles == 0
    {
      this.host, wire, sendfiles := host, [], 0;
    }

    // apr_socket_sendv on vec[lo..hi]
    method Sendv(vec: array<Vec>, lo: nat, hi: nat) returns (rv: Status, n: nat)
      requires host.Valid() && lo <= hi <= vec.Length
      modifies this, host
      ensures host.Valid() && host.log == old(host.log) + [Io(rv, n)]
      ensures Accepts(old(wire), Gather(vec[..], lo, hi), rv, n, wire) && sendfiles == old(sendfiles)
    {
      var stream := Gather(vec[..], lo, hi);
      var a;
      a, n := host.Transfer(|stream|);
      rv := a.rv;
      wire := wire + stream[..n];
    }

    // apr_socket_send on buffer[lo..hi]
    method Send(buffer: array<Byte>, lo: nat, hi: nat) returns (rv: Status, n: nat)
      requires host.Valid() && lo <= hi <= buffer.Length
      modifies this, host
      ensures host.Valid() && host.log == old(host.log) + [Io(rv, n)]
      ensures Accepts(old(wire), buffer[lo..hi], rv, n, wire) && sendfiles == old(sendfiles)
    {
      var a;
      a, n := host.Transfer(hi - lo);
      rv := a.rv;
      wire := wire + buffer[lo..hi][..n];
    }

    // apr_socket_sendfile: headers, then a range of the file, then trailers.  After an
    // error the reported count may be lower than the number of bytes that left.
    method Sendfile(file: File, headers: array<Vec>, h0: nat, h1: nat, offset: nat, len: nat, trailers: array<Vec>,
        t0: nat, t1: nat)
      returns (rv: Status, n: nat, ghost sent: nat)
      requires host.Valid() && h0 <= h1 <= headers.Length && t0 <= t1 <= trailers.Length
      requires offset + len <= |file.contents|
      modifies this, host
      ensures host.Valid() && host.log == old(host.log) + [Io(rv, sent)]
      ensures Accepts(old(wire),
                      SendfileStream(Gather(headers[..], h0, h1), file.contents[offset..offset + len],
                                     Gather(trailers[..], t0, t1)),
                      rv, sent, wire)
      ensures (if rv == Success then n == sent else n <= sent) && sendfiles == old(sendfiles) + 1
    {
      var stream := SendfileStream(Gather(headers[..], h0, h1), file.contents[offset..offset + len],
                                   Gather(trailers[..], t0, t1));
      var a, k := host.Transfer(|stream|);
      rv := a.rv;
      n := if rv == Success then k else Min(a.told, k);
      sent := k;
      wire, sendfiles := wire + stream[..k], sendfiles + 1;
    }
  }

  function SendfileStream(headers: Data, body: Data, trailers: Data): (r: Data)
    ensures |r| == |headers| + |body| + |trailers|
  {
    headers + body + trailers
  }

  // What a file descriptor leads to.
  class File {
    const contents: Data
    const sendfileEnabled: bool

    constructor (contents: Data, sendfileEnabled: bool)
      ensures this.contents == contents && this.sendfileEnabled == sendfileEnabled
    {
      this.contents, this.sendfileEnabled := contents, sendfileEnabled;
    }
  }

  // A file together with its read position.
  class Reader {
    const host: Host
    const file: File
    var pos: nat

    constructor (host: Host, file: File)
      ensures this.host == host && this.file == file
    {
      this.host, this.file := host, file;
      pos := *;
    }

    // apr_file_seek
    method Seek(offset: nat) returns (rv: Status)
      requires host.Valid()
      modifies this, host
      ensures host.Valid() && host.log == old(host.log) + [Io(rv, 0)]
      ensures rv == Success ==> pos == offset
    {
      var a := host.Ask();
      rv := a.rv;
      if rv == Success {
        pos := offset;
      }
    }

    // apr_file_read in front of the end of the file: up to n bytes into the front of the
    // buffer, and at least one if it succeeds.
    method Read(buffer: array<Byte>, n: nat) returns (rv: Status, got: nat)
      requires host.Valid() && 0 < n <= buffer.Length && pos < |file.contents|
      modifies this, host, buffer
      ensures host.Valid() && host.log == old(host.log) + [Io(rv, 0)]
      ensures got <= n
      ensures rv == Success ==> got > 0 && pos == old(pos) + got <= |file.contents|
                                && buffer[..got] == file.contents[old(pos)..pos]
    {
      var a := host.Ask();
      rv, got := a.rv, 0;
      if rv == Success {
        got := Moved(a, Min(n, |file.contents| - pos));
        var from := pos;
        forall k | 0 <= k < got {
          buffer[k] := file.contents[from + k];
        }
        pos := pos + got;
      }
    }
  }
}
