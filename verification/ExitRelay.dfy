/** How the workload's wait status reaches the recorded exit code:
`ExitStatus::from_raw` in init, the EXIT frame, and `wait_for_exit` in the parent
(`src/sys/process.rs`, `src/runtime/init.rs`, `src/runtime/supervisor.rs`). */
module ExitRelay {
  import opened Bytes
  import opened Wrappers
  import opened Ipc

  datatype ExitStatus = ExitStatus(code: Option<int>, signal: Option<int>)

  predicate IsI32(i: int) {
    -0x8000_0000 <= i < 0x8000_0000
  }

  /** `ExitStatus::from_raw`, with the macros of `sys::ffi` as they are written:
      `status & 0x7f` on a two's complement number is its residue. */
  function FromRaw(status: int): ExitStatus {
    if status % 128 == 0 then ExitStatus(Some(status / 256 % 256), None)
    else if (status % 128 + 1) / 2 > 0 then ExitStatus(None, Some(status % 128))
    else ExitStatus(None, None)
  }

  /** Shell convention. */
  function ExitCode(e: ExitStatus): int {
    if e.code.Some? then e.code.value
    else if e.signal.Some? then 128 + e.signal.value
    else 255
  }

  // -------------------------------------------------------------------------
  // What a wait status stands for
  // -------------------------------------------------------------------------

  /** The two ways a process ends, by the number the kernel makes of each. */
  datatype End = Exits(code: int) | Killed(signal: int, core: bool)

  predicate IsEnd(e: End) {
    match e
    case Exits(code) => 0 <= code < 256
    case Killed(signal, _) => 0 < signal < 127
  }

  function WaitStatus(e: End): int {
    match e
    case Exits(code) => code * 256
    case Killed(signal, core) => signal + if core then 128 else 0
  }

  function StatusOf(e: End): ExitStatus {
    match e
    case Exits(code) => ExitStatus(Some(code), None)
    case Killed(signal, _) => ExitStatus(None, Some(signal))
  }

  /** What a shell reports. */
  function ShellCode(e: End): int {
    match e
    case Exits(code) => code
    case Killed(signal, _) => 128 + signal
  }

  lemma WaitStatusIsRead(e: End)
    requires IsEnd(e)
    ensures FromRaw(WaitStatus(e)) == StatusOf(e)
    ensures ExitCode(FromRaw(WaitStatus(e))) == ShellCode(e)
    ensures 0 <= ShellCode(e) < 256
  {
  }

  // -------------------------------------------------------------------------
  // The EXIT payload
  // -------------------------------------------------------------------------

  function I32Bytes(i: int): seq<byte>
    requires IsI32(i)
  {
    LE32(if i < 0 then i + U32 else i)
  }

  function FromI32Bytes(b: seq<byte>): int
    requires |b| == 4
  {
    var n: int := FromLE32(b);
    if n >= 0x8000_0000 then n - U32 else n
  }

  function ExitPayload(code: int, signal: int): seq<byte>
    requires IsI32(code) && IsI32(signal)
  {
    I32Bytes(code) + I32Bytes(signal)
  }

  function ParseExit(payload: seq<byte>): Option<(int, int)> {
    if |payload| < 8 then None
    else Some((FromI32Bytes(payload[..4]), FromI32Bytes(payload[4..8])))
  }

  lemma I32RoundTrip(i: int)
    requires IsI32(i)
    ensures |I32Bytes(i)| == 4 && FromI32Bytes(I32Bytes(i)) == i
  {
    hide LE32, FromLE32;
    LE32RoundTrip(if i < 0 then i + U32 else i);
  }

  lemma PayloadRoundTrip(code: int, signal: int)
    requires IsI32(code) && IsI32(signal)
    ensures |ExitPayload(code, signal)| == 8
    ensures ParseExit(ExitPayload(code, signal)) == Some((code, signal))
  {
    hide LE32, FromLE32;
    I32RoundTrip(code);
    I32RoundTrip(signal);
    var p := ExitPayload(code, signal);
    assert p[..4] == I32Bytes(code) && p[4..8] == I32Bytes(signal);
  }

  // -------------------------------------------------------------------------
  // The two ends
  // -------------------------------------------------------------------------

  /** A status `from_raw` can produce: within `i32`. */
  predicate Representable(e: ExitStatus) {
    && (e.code.Some? ==> IsI32(e.code.value))
    && (e.signal.Some? ==> IsI32(e.signal.value))
  }

  /** The frame init sends after the workload has ended. */
  function ExitFrame(e: ExitStatus): Frame
    requires Representable(e)
  {
    Frame(TAG_EXIT, ExitPayload(if e.code.Some? then e.code.value else -1,
                                if e.signal.Some? then e.signal.value else 0))
  }

  /** What the parent makes of an EXIT payload. */
  function FromExit(code: int, signal: int): ExitStatus {
    ExitStatus(if code >= 0 then Some(code) else None, if signal > 0 then Some(signal) else None)
  }

  /** The status and the error text after all frames, starting from none. */
  function Observed(frames: seq<Frame>): (Option<ExitStatus>, Option<seq<byte>>) {
    if frames == [] then (None, None)
    else
      var (status, error) := Observed(frames[..|frames| - 1]);
      var f := frames[|frames| - 1];
      if f.tag == TAG_EXIT then
        var p := ParseExit(f.payload);
        (if p.Some? then Some(FromExit(p.value.0, p.value.1)) else status, error)
      else if f.tag == TAG_ERROR then (status, Some(f.payload))
      else (status, error)
  }

  /** The status `wait_for_exit` records: init's last word, else what `waitpid`
      said of init itself, else -1. */
  function Recorded(frames: seq<Frame>, waited: Option<ExitStatus>): ExitStatus {
    var (fromInit, _) := Observed(frames);
    if fromInit.Some? then fromInit.value
    else if waited.Some? then waited.value
    else ExitStatus(Some(-1), None)
  }

  /** The receive loop of `wait_for_exit`.  Without an outright read failure the
      result depends only on the bytes init wrote, not on how they arrived. */
  method WaitForExit(chan: Reader, waited: Option<ExitStatus>)
    returns (status: ExitStatus, error: Option<seq<byte>>, ghost fault: bool)
    modifies chan
    ensures var frames := ReceiveAll(old(chan.data)).0;
            !fault ==> status == Recorded(frames, waited) && error == Observed(frames).1
  {
    hide Receive, ParseExit, FromExit;
    var fromInit: Option<ExitStatus> := None;
    error := None;
    ghost var frames: seq<Frame> := [];
    ghost var all := ReceiveAll(chan.data).0;
    while true
      invariant all == frames + ReceiveAll(chan.data).0
      invariant Observed(frames) == (fromInit, error)
      decreases |chan.data|
    {
      var r;
      r, fault := chan.Recv();
      if r.Err? || r.value.None? {
        assert frames + [] == frames;
        break;
      }
      var f := r.value.value;
      if f.tag == TAG_EXIT {
        var p := ParseExit(f.payload);
        if p.Some? {
          fromInit := Some(FromExit(p.value.0, p.value.1));
        }
      } else if f.tag == TAG_ERROR {
        error := Some(f.payload);
      }
      ObservedStep(frames, f);
      frames := frames + [f];
    }
    status := if fromInit.Some? then fromInit.value
              else if waited.Some? then waited.value
              else ExitStatus(Some(-1), None);
  }

  lemma ObservedStep(frames: seq<Frame>, f: Frame)
    ensures Observed(frames + [f])
         == var (status, error) := Observed(frames);
            if f.tag == TAG_EXIT then
              var p := ParseExit(f.payload);
              (if p.Some? then Some(FromExit(p.value.0, p.value.1)) else status, error)
            else if f.tag == TAG_ERROR then (status, Some(f.payload))
            else (status, error)
  {
    assert (frames + [f])[..|frames|] == frames;
  }

  /** The relay is lossless exactly on statuses whose code is not negative and
      whose signal is positive: -1 and 0 are the codes for "none". */
  lemma RelayIsExact(earlier: seq<Frame>, e: ExitStatus, waited: Option<ExitStatus>)
    requires Representable(e)
    ensures Recorded(earlier + [ExitFrame(e)], waited) == e
       <==> (e.code.Some? ==> e.code.value >= 0) && (e.signal.Some? ==> e.signal.value > 0)
  {
    ObservedStep(earlier, ExitFrame(e));
    PayloadRoundTrip(if e.code.Some? then e.code.value else -1, if e.signal.Some? then e.signal.value else 0);
  }

  /** For every wait status the kernel can return, over any split of the stream,
      the parent records what init decoded, and with it the same shell-convention
      exit code.  (`from_raw` yields a code or a signal for every number.) */
  lemma ExitStatusSurvives(status: int, earlier: seq<Frame>, waited: Option<ExitStatus>)
    requires IsI32(status) && Sendable(earlier)
    ensures var e := FromRaw(status);
            && Representable(e) && (e.code.Some? != e.signal.Some?)
            && var received := ReceiveAll(StreamOf(earlier + [ExitFrame(e)]));
               && received.1 == CleanEof
               && Recorded(received.0, waited) == e
               && 0 <= ExitCode(e) < 256
  {
    var e := FromRaw(status);
    PayloadRoundTrip(if e.code.Some? then e.code.value else -1, if e.signal.Some? then e.signal.value else 0);
    WholeStream(earlier + [ExitFrame(e)]);
    RelayIsExact(earlier, e, waited);
  }

  /** However the workload ended, the parent records just that. */
  lemma EndIsRecorded(end: End, earlier: seq<Frame>, waited: Option<ExitStatus>)
    requires IsEnd(end) && Sendable(earlier)
    ensures
      var e := FromRaw(WaitStatus(end));
      Representable(e) &&
      var recorded := Recorded(ReceiveAll(StreamOf(earlier + [ExitFrame(e)])).0, waited);
      recorded == StatusOf(end) && ExitCode(recorded) == ShellCode(end)
  {
    WaitStatusIsRead(end);
    ExitStatusSurvives(WaitStatus(end), earlier, waited);
  }

  lemma {:induction false} NothingObserved(frames: seq<Frame>)
    requires forall f :: f in frames ==> f.tag != TAG_EXIT
    ensures Observed(frames).0 == None
  {
    if frames != [] {
      NothingObserved(frames[..|frames| - 1]);
    }
  }

  /** Should the EXIT frame be lost, the exit code is not: init ends itself with the
      shell's code for its workload, and `waitpid` reports that. */
  lemma LostFrameKeepsTheCode(end: End, frames: seq<Frame>)
    requires IsEnd(end) && forall f :: f in frames ==> f.tag != TAG_EXIT
    ensures
      var ofInit := Exits(ExitCode(FromRaw(WaitStatus(end))));
      ExitCode(Recorded(frames, Some(FromRaw(WaitStatus(ofInit))))) == ShellCode(end)
  {
    NothingObserved(frames);
    WaitStatusIsRead(end);
    WaitStatusIsRead(Exits(ShellCode(end)));
  }
}
