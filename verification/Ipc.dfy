/** The parent/init synchronisation channel (`src/runtime/ipc.rs`).

Frames are `[tag][length, 32 bits little endian][payload]` on a byte stream that
may split and merge writes at will.
*/
module Ipc {
  import opened Bytes
  import opened Wrappers

  datatype Frame = Frame(tag: byte, payload: seq<byte>)

  const TAG_ERROR: byte := 0x45
  const TAG_EXIT: byte := 0x58

  const MAX_PAYLOAD := 65536
  const U32 := 0x1_0000_0000

  // -------------------------------------------------------------------------
  // The format
  // -------------------------------------------------------------------------

  /** The size check of `send`: the length is cast to 32 bits before it is
      compared with the limit. */
  predicate SendAccepts(payload: seq<byte>) {
    |payload| % U32 <= MAX_PAYLOAD
  }

  function FrameBytes(f: Frame): seq<byte> {
    [f.tag] + LE32(|f.payload|) + f.payload
  }

  function StreamOf(frames: seq<Frame>): seq<byte> {
    if frames == [] then [] else FrameBytes(frames[0]) + StreamOf(frames[1..])
  }

  datatype Received = Eof | Broken | Got(frame: Frame, rest: seq<byte>)

  /** One `recv` on a stream that holds `s` and then ends. */
  function Receive(s: seq<byte>): (r: Received)
    ensures r.Got? ==> |r.rest| < |s|
  {
    if s == [] then Eof
    else if |s| < 5 then Broken
    else
      var len := FromLE32(s[1..5]);
      if len > MAX_PAYLOAD || |s| < 5 + len then Broken
      else Got(Frame(s[0], s[5..5 + len]), s[5 + len..])
  }

  datatype Ending = CleanEof | Error

  /** Repeated `recv` until the stream ends or breaks. */
  function ReceiveAll(s: seq<byte>): (seq<Frame>, Ending)
    decreases |s|
  {
    match Receive(s)
    case Eof => ([], CleanEof)
    case Broken => ([], Error)
    case Got(f, rest) =>
      var (fs, e) := ReceiveAll(rest);
      ([f] + fs, e)
  }

  // -------------------------------------------------------------------------
  // Properties of the format
  // -------------------------------------------------------------------------

  lemma HeaderReads(f: Frame, rest: seq<byte>)
    ensures var s := FrameBytes(f) + rest;
            && |FrameBytes(f)| == 5 + |f.payload|
            && |s| >= 5 && s[0] == f.tag
            && FromLE32(s[1..5]) == |f.payload| % U32
            && s[5..] == f.payload + rest
  {
    LE32RoundTrip(|f.payload|);
    assert (FrameBytes(f) + rest)[1..5] == LE32(|f.payload|);
  }

  /** A frame that `send` accepts is received as it was sent if and only if its
      payload really is within the limit.  A payload of 2^32 bytes or more can
      pass the check, because the length has been cut to 32 bits by then, and
      then arrives shortened. */
  lemma AcceptedFrameArrives(f: Frame, rest: seq<byte>)
    requires SendAccepts(f.payload)
    ensures Receive(FrameBytes(f) + rest) == Got(f, rest) <==> |f.payload| <= MAX_PAYLOAD
  {
    HeaderReads(f, rest);
    var s := FrameBytes(f) + rest;
    var len := |f.payload| % U32;
    assert s[5..5 + len] == f.payload[..len];
    if |f.payload| <= MAX_PAYLOAD {
      assert s[5 + len..] == rest;
      assert f.payload[..len] == f.payload;
    }
  }

  /** The shortest payload that is accepted and does not arrive. */
  lemma OversizedPayloadIsAccepted(payload: seq<byte>)
    requires |payload| == U32
    ensures SendAccepts(payload)
    ensures Receive(FrameBytes(Frame(TAG_ERROR, payload))) == Got(Frame(TAG_ERROR, []), payload)
  {
    var f := Frame(TAG_ERROR, payload);
    HeaderReads(f, []);
    assert FrameBytes(f) + [] == FrameBytes(f);
    assert payload + [] == payload;
  }

  /** A frame that announces more than the limit ends the stream with an error, however
      much of it is there. */
  lemma OverlongFrameIsRefused(f: Frame, rest: seq<byte>)
    requires |f.payload| % U32 > MAX_PAYLOAD
    ensures Receive(FrameBytes(f) + rest) == Broken && ReceiveAll(FrameBytes(f) + rest) == ([], Error)
  {
    HeaderReads(f, rest);
  }

  ghost predicate Sendable(frames: seq<Frame>) {
    forall i :: 0 <= i < |frames| ==> |frames[i].payload| <= MAX_PAYLOAD
  }

  /** How many whole frames the first `k` bytes of the stream hold. */
  ghost function WholeFrames(frames: seq<Frame>, k: nat): (n: nat)
    ensures n <= |frames|
  {
    if frames == [] || k < |FrameBytes(frames[0])| then 0
    else 1 + WholeFrames(frames[1..], k - |FrameBytes(frames[0])|)
  }

  /** A stream cut after `k` bytes delivers exactly the frames that were sent in
      full before the cut, unchanged and in order.  It then ends cleanly if and
      only if the cut is at a frame boundary; inside a frame it is an error,
      never a shorter frame. */
  lemma CutStream(frames: seq<Frame>, k: nat)
    requires Sendable(frames)
    requires k <= |StreamOf(frames)|
    ensures var n := WholeFrames(frames, k);
            && |StreamOf(frames[..n])| <= k
            && (n < |frames| ==> k < |StreamOf(frames[..n + 1])|)
            && ReceiveAll(StreamOf(frames)[..k])
               == (frames[..n], if k == |StreamOf(frames[..n])| then CleanEof else Error)
  {
    CutPosition(frames, k);
    CutDelivers(frames, k);
  }

  lemma {:induction false} CutPosition(frames: seq<Frame>, k: nat)
    requires k <= |StreamOf(frames)|
    ensures var n := WholeFrames(frames, k);
            && |StreamOf(frames[..n])| <= k
            && (n < |frames| ==> k < |StreamOf(frames[..n + 1])|)
  {
    hide FrameBytes;
    if frames != [] {
      var first := |FrameBytes(frames[0])|;
      if k < first {
        assert frames[..1] == [frames[0]];
      } else {
        var n := WholeFrames(frames, k);
        CutPosition(frames[1..], k - first);
        PrefixStream(frames, n);
        if n < |frames| {
          PrefixStream(frames, n + 1);
        }
      }
    }
  }

  lemma {:induction false} CutDelivers(frames: seq<Frame>, k: nat)
    requires Sendable(frames)
    requires k <= |StreamOf(frames)|
    ensures var n := WholeFrames(frames, k);
            ReceiveAll(StreamOf(frames)[..k])
            == (frames[..n], if k == |StreamOf(frames[..n])| then CleanEof else Error)
  {
    hide Receive, FrameBytes;
    var s := StreamOf(frames)[..k];
    if frames == [] {
      EmptyStream();
    } else {
      var f := FrameBytes(frames[0]);
      if k < |f| {
        assert s == f[..k];
        CutFrame(frames[0], k);
      } else {
        var tail := StreamOf(frames[1..])[..k - |f|];
        assert s == f + tail;
        CutDelivers(frames[1..], k - |f|);
        AcceptedFrameArrives(frames[0], tail);
        var n := WholeFrames(frames, k);
        PrefixStream(frames, n);
        assert frames[..n] == [frames[0]] + frames[1..][..n - 1];
      }
    }
  }

  lemma EmptyStream()
    ensures Receive([]) == Eof
  {
  }

  lemma PrefixStream(frames: seq<Frame>, n: nat)
    requires 1 <= n <= |frames|
    ensures StreamOf(frames[..n]) == FrameBytes(frames[0]) + StreamOf(frames[1..][..n - 1])
  {
    assert frames[..n][1..] == frames[1..][..n - 1];
  }

  lemma CutFrame(f: Frame, k: nat)
    requires |f.payload| <= MAX_PAYLOAD && k < |FrameBytes(f)|
    ensures Receive(FrameBytes(f)[..k]) == if k == 0 then Eof else Broken
  {
    HeaderReads(f, []);
    assert FrameBytes(f) + [] == FrameBytes(f);
    if k >= 5 {
      assert FrameBytes(f)[..k][1..5] == FrameBytes(f)[1..5];
    }
  }

  /** Every frame sequence is delivered exactly, followed by a clean end. */
  lemma WholeStream(frames: seq<Frame>)
    requires Sendable(frames)
    ensures ReceiveAll(StreamOf(frames)) == (frames, CleanEof)
  {
    hide ReceiveAll, FrameBytes, WholeFrames, StreamOf;
    var s := StreamOf(frames);
    CutStream(frames, |s|);
    assert s[..|s|] == s;
    var n := WholeFrames(frames, |s|);
    if n < |frames| {
      StreamSplit(frames, n + 1);
    }
    assert frames[..|frames|] == frames;
  }

  lemma {:induction false} StreamSplit(frames: seq<Frame>, n: nat)
    requires n <= |frames|
    ensures StreamOf(frames) == StreamOf(frames[..n]) + StreamOf(frames[n..])
  {
    if n == 0 {
      assert frames[..0] == [] && frames[0..] == frames;
    } else {
      hide FrameBytes;
      StreamSplit(frames[1..], n - 1);
      PrefixStream(frames, n);
      assert frames[1..][n - 1..] == frames[n..];
      Regroup(FrameBytes(frames[0]), StreamOf(frames[1..][..n - 1]), StreamOf(frames[n..]));
    }
  }

  // -------------------------------------------------------------------------
  // The implementation, over a kernel that splits transfers
  // -------------------------------------------------------------------------

  /** What the kernel does with one `read` or `write`: move some bytes, be
      interrupted by a signal, or fail. */
  datatype Event = Move(n: nat) | Interrupt | Fault

  datatype Io = Done(count: nat) | Eintr | Errno

  /** The reading end.  `schedule` is what the kernel will do with the next
      reads; any finite sequence of short reads, interruptions and errors is
      possible, after which reads deliver whatever is asked for. */
  class Reader {
    var data: seq<byte>
    var schedule: seq<Event>

    constructor (stream: seq<byte>, events: seq<Event>)
      ensures data == stream && schedule == events
    {
      data := stream;
      schedule := events;
    }

    /** `read(2)`: at most `max` bytes, and none only at the end of the stream. */
    method Read(max: nat) returns (io: Io, bytes: seq<byte>)
      requires max > 0
      modifies this
      ensures io.Done? ==> |bytes| == io.count <= max && old(data) == bytes + data
      ensures io.Done? ==> (io.count == 0 <==> old(data) == [])
      ensures !io.Done? ==> data == old(data)
      ensures |schedule| <= |old(schedule)|
      ensures io.Eintr? ==> |schedule| < |old(schedule)|
    {
      bytes := [];
      var want := max;
      if |schedule| > 0 {
        var e := schedule[0];
        schedule := schedule[1..];
        match e
        case Interrupt => return Eintr, [];
        case Fault => return Errno, [];
        case Move(n) => want := if n == 0 then 1 else if n < max then n else max;
      }
      var n := if want < |data| then want else |data|;
      bytes := data[..n];
      data := data[n..];
      io := Done(n);
    }

    /** `read_exact`: `Ok(None)` is the end of the stream at a boundary.  The
        ghost result tells whether a read failed outright. */
    method ReadExact(n: nat) returns (r: Result<Option<seq<byte>>>, ghost fault: bool)
      modifies this
      ensures fault ==> r.Err?
      ensures !fault && n <= |old(data)| ==> r == Ok(Some(old(data)[..n])) && data == old(data)[n..]
      ensures !fault && n > |old(data)| ==> r == if old(data) == [] then Ok(None) else Err
      ensures r == Ok(None) ==> data == []
    {
      fault := false;
      var out: seq<byte> := [];
      while |out| < n
        invariant old(data) == out + data
        invariant |out| <= n
        decreases |schedule|, n - |out|
      {
        var io, bytes := Read(n - |out|);
        match io
        case Eintr =>
        case Errno => return Err, true;
        case Done(count) =>
          if count == 0 {
            return if |out| == 0 then Ok(None) else Err, false;
          }
          out := out + bytes;
      }
      r := Ok(Some(out));
    }

    method Recv() returns (r: Result<Option<Frame>>, ghost fault: bool)
      modifies this
      ensures fault ==> r.Err?
      ensures !fault ==>
        match Receive(old(data)) {
          case Eof => r == Ok(None) && data == []
          case Broken => r == Err
          case Got(f, rest) => r == Ok(Some(f)) && data == rest
        }
    {
      var head;
      head, fault := ReadExact(5);
      if head.Err? {
        return Err, fault;
      }
      if head.value.None? {
        return Ok(None), fault;
      }
      var h := head.value.value;
      assert h == old(data)[..5] && h[1..5] == old(data)[1..5];
      var len := FromLE32(h[1..5]);
      if len > MAX_PAYLOAD {
        return Err, fault;
      }
      var payload: seq<byte> := [];
      if len > 0 {
        var p;
        p, fault := ReadExact(len);
        if p.Err? || p.value.None? {
          return Err, fault;
        }
        payload := p.value.value;
      }
      assert !fault && |old(data)| >= 5 + len ==>
        payload == old(data)[5..5 + len] && data == old(data)[5 + len..];
      r := Ok(Some(Frame(h[0], payload)));
    }

    /** Receive until the channel ends: however the kernel splits the transfer,
        the frames are those of the stream, and an outright failure only drops
        later ones. */
    method Drain() returns (frames: seq<Frame>, ending: Ending, ghost fault: bool)
      modifies this
      ensures !fault ==> (frames, ending) == ReceiveAll(old(data))
      ensures fault ==> ending == Error && frames <= ReceiveAll(old(data)).0
    {
      hide Receive;
      frames := [];
      ghost var (all, end) := ReceiveAll(data);
      while true
        invariant all == frames + ReceiveAll(data).0 && end == ReceiveAll(data).1
        decreases |data|
      {
        var r;
        r, fault := Recv();
        assert frames + [] == frames;
        if r.Err? {
          return frames, Error, fault;
        }
        if r.value.None? {
          return frames, CleanEof, fault;
        }
        frames := frames + [r.value.value];
      }
    }
  }

  /** The writing end; `sent` is what has reached the stream. */
  class Writer {
    var sent: seq<byte>
    var schedule: seq<Event>

    constructor (events: seq<Event>)
      ensures sent == [] && schedule == events
    {
      sent := [];
      schedule := events;
    }

    /** `write(2)` of a non-empty buffer; a count of zero is a closed peer. */
    method Write(buf: seq<byte>) returns (io: Io)
      requires buf != []
      modifies this
      ensures io.Done? ==> io.count <= |buf| && sent == old(sent) + buf[..io.count]
      ensures !io.Done? ==> sent == old(sent)
      ensures |schedule| <= |old(schedule)|
      ensures io.Eintr? ==> |schedule| < |old(schedule)|
    {
      var n := |buf|;
      if |schedule| > 0 {
        var e := schedule[0];
        schedule := schedule[1..];
        match e
        case Interrupt => return Eintr;
        case Fault => return Errno;
        case Move(m) => n := if m < |buf| then m else |buf|;
      }
      sent := sent + buf[..n];
      io := Done(n);
    }

    /** `write_all`: everything is sent, or a prefix and an error. */
    method WriteAll(buf: seq<byte>) returns (ok: bool)
      modifies this
      ensures old(sent) <= sent && sent[|old(sent)|..] <= buf
      ensures ok ==> sent == old(sent) + buf
    {
      var rest := buf;
      ghost var done := 0;
      while rest != []
        invariant done <= |buf| && rest == buf[done..]
        invariant sent == old(sent) + buf[..done]
        decreases |schedule|, |rest|
      {
        var io := Write(rest);
        match io
        case Eintr =>
        case Errno => return false;
        case Done(n) =>
          assert buf[..done] + rest[..n] == buf[..done + n];
          if n == 0 {
            return false;
          }
          rest := rest[n..];
          done := done + n;
      }
      ok := true;
    }

    /** `send`. */
    method Send(tag: byte, payload: seq<byte>) returns (ok: bool)
      modifies this
      ensures old(sent) <= sent && sent[|old(sent)|..] <= FrameBytes(Frame(tag, payload))
      ensures ok ==> SendAccepts(payload) && sent == old(sent) + FrameBytes(Frame(tag, payload))
      ensures !SendAccepts(payload) ==> !ok && sent == old(sent)
    {
      if |payload| % U32 > MAX_PAYLOAD {
        return false;
      }
      ok := WriteAll([tag] + LE32(|payload|) + payload);
    }
  }
}
