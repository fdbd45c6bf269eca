/**
 A run of the process runner (src/process.cpp) as a function of the kernel it starts on: what
 its loops compute, turn by turn, and when they stop.
 */
module ProcessSpec {
  import opened Text
  import opened Kernels

  datatype ProcessResult = ProcessResult(
    exitCode: nat, stdoutText: string, stderrText: string, error: string, timedOut: bool)

  /** A result before anything happened. */
  const UNRUN := ProcessResult(1, "", "", "", false)

  function Strerror(errno: Errno): string {
    match errno
    case EINTR => "Interrupted system call"
    case EAGAIN => "Resource temporarily unavailable"
    case OtherError(text) => text
  }

  function ErrorText(call: Syscall, errno: Errno): (text: string)
    ensures text != ""
  {
    match call
    case Piping => "pipe failed: " + Strerror(errno)
    case Forking => "fork failed: " + Strerror(errno)
    case Selecting => "select failed: " + Strerror(errno)
    case Waiting => "waitpid failed: " + Strerror(errno)
  }

  /** The exit code the runner reports for a wait status. */
  function ExitCode(status: Status): nat {
    match status
    case Exited(code) => code
    case Signaled(signal) => 128 + signal
    case Stopped => 1
  }

  /** The time left as `select` is given it: truncated to microseconds, split in two fields. */
  function Remaining(deadline: nat, now: nat): Timeval {
    var left := if deadline > now then deadline - now else 0;
    var micros := left / 1000;
    Timeval(micros / 1000000, micros % 1000000)
  }

  // ---- Reading a descriptor ----

  /** The bytes that wait behind a descriptor. */
  function Pending(k: Kernel, fd: int): nat {
    if fd in k.fds && k.fds[fd].Reader? && k.fds[fd].pipe < |k.pipes| then
      var pipe := k.pipes[k.fds[fd].pipe];
      if pipe.taken < |pipe.written| then |pipe.written| - pipe.taken else 0
    else 0
  }

  /** A read uses up a part of the script, or bytes, or is the last. */
  predicate Progresses(k: Kernel, fd: int, call: ReadCall) {
    && |call.kernel.script| <= |k.script|
    && (k.script != [] && !call.got.NeverReturns? ==> |call.kernel.script| < |k.script|)
    && (k.script == [] && call.got.Data? ==> Pending(call.kernel, fd) < Pending(k, fd))
    && (k.script == [] ==> call.got != ReadError(EINTR))
  }

  lemma {:induction false} ReadProgresses(k: Kernel, fd: int)
    ensures Progresses(k, fd, Read(k, fd))
    decreases |k.script|
  {
    var turn := Schedule(k);
    var now := turn.kernel;
    if turn.fault.None? && fd in now.fds && now.fds[fd].Reader? && now.fds[fd].pipe < |now.pipes|
      && now.pipes[now.fds[fd].pipe].taken >= |now.pipes[now.fds[fd].pipe].written|
      && !AtEof(now, now.fds[fd].pipe) && fd !in now.nonblocking && k.script != [] {
      ReadProgresses(now, fd);
    }
  }

  datatype Appended = Appended(output: string, open: bool, returned: bool, kernel: Kernel)

  /** Reading until there is nothing more for now, an end or a failure. */
  function AppendOf(k: Kernel, fd: int, output: string): Appended
    decreases |k.script|, Pending(k, fd)
  {
    var call := Read(k, fd);
    ReadProgresses(k, fd);
    match call.got
    case Data(bytes) => AppendOf(call.kernel, fd, output + bytes)
    case Eof => Appended(output, false, true, Close(call.kernel, fd))
    case NeverReturns => Appended(output, true, false, call.kernel)
    case ReadError(errno) =>
      if errno == EINTR then AppendOf(call.kernel, fd, output)
      else if errno == EAGAIN then Appended(output, true, true, call.kernel)
      else Appended(output, false, true, Close(call.kernel, fd))
  }

  // ---- The capture loop ----

  /** The loop's variables; `left` once it was left other than by its condition. */
  datatype CaptureState = CaptureState(
    result: ProcessResult, stdoutOpen: bool, stderrOpen: bool, returned: bool, left: bool, kernel: Kernel)

  function WithStdout(s: CaptureState, read: Appended): CaptureState {
    s.(result := s.result.(stdoutText := read.output), stdoutOpen := read.open,
       returned := read.returned, kernel := read.kernel)
  }

  function WithStderr(s: CaptureState, read: Appended): CaptureState {
    s.(result := s.result.(stderrText := read.output), stderrOpen := read.open,
       returned := read.returned, kernel := read.kernel)
  }

  /** Reading stdout, if it is open and ready. */
  function FirstReadyOf(s: CaptureState, out: int, ready: set<int>): CaptureState {
    if s.stdoutOpen && out in ready then WithStdout(s, AppendOf(s.kernel, out, s.result.stdoutText)) else s
  }

  /** Reading stderr after it. */
  function SecondReadyOf(s: CaptureState, err: int, ready: set<int>): CaptureState {
    if s.returned && s.stderrOpen && err in ready then WithStderr(s, AppendOf(s.kernel, err, s.result.stderrText))
    else s
  }

  /** Reading the streams that are open and ready, stdout first. */
  function ReadyOf(s: CaptureState, out: int, err: int, ready: set<int>): CaptureState {
    SecondReadyOf(FirstReadyOf(s, out, ready), err, ready)
  }

  function Watched(out: int, err: int, stdoutOpen: bool, stderrOpen: bool): set<int> {
    (if stdoutOpen then {out} else {}) + (if stderrOpen then {err} else {})
  }

  /** One more than the greatest watched descriptor. */
  function Limit(out: int, err: int, stdoutOpen: bool, stderrOpen: bool): int {
    var one := if stdoutOpen && out > -1 then out else -1;
    (if stderrOpen && err > one then err else one) + 1
  }

  /** The kernel and the wait `select` is called with. */
  function Asked(k: Kernel, deadline: Option<nat>): (Kernel, Option<Timeval>) {
    match deadline
    case None => (k, None)
    case Some(time) => (ReadClock(k), Some(Remaining(time, ReadClock(k).clock)))
  }

  function AwaitOf(k: Kernel, out: int, err: int, deadline: Option<nat>, stdoutOpen: bool,
                   stderrOpen: bool): SelectCall {
    var (asked, wait) := Asked(k, deadline);
    Select(asked, Limit(out, err, stdoutOpen, stderrOpen), Watched(out, err, stdoutOpen, stderrOpen), wait)
  }

  predicate Over(s: CaptureState) {
    s.left || !(s.stdoutOpen || s.stderrOpen)
  }

  /** At the deadline: kill, then read what is left. */
  function ExpireOf(s: CaptureState, out: int, err: int): CaptureState {
    var killed := s.(kernel := KillGroup(s.kernel), result := s.result.(timedOut := true));
    ReadyOf(killed, out, err, {out, err}).(left := true)
  }

  /** One turn of the loop. */
  function PassOf(s: CaptureState, out: int, err: int, deadline: Option<nat>): CaptureState {
    if Over(s) then s
    else
      var call := AwaitOf(s.kernel, out, err, deadline, s.stdoutOpen, s.stderrOpen);
      var next := s.(kernel := call.kernel);
      match call.outcome
      case NeverReady => next.(returned := false, left := true)
      case SelectError(errno) =>
        if errno == EINTR then next
        else next.(result := s.result.(error := ErrorText(Selecting, errno)), left := true)
      case TimedOut => ExpireOf(next, out, err)
      case Ready(fds) => var read := ReadyOf(next, out, err, fds); read.(left := !read.returned)
  }

  function Passes(n: nat, s: CaptureState, out: int, err: int, deadline: Option<nat>): CaptureState {
    if n == 0 then s else PassOf(Passes(n - 1, s, out, err, deadline), out, err, deadline)
  }

  /** Once the loop is over, further turns change nothing. */
  lemma {:induction false} PassesStay(n: nat, m: nat, s: CaptureState, out: int, err: int, deadline: Option<nat>)
    requires n <= m && Over(Passes(n, s, out, err, deadline))
    ensures Passes(m, s, out, err, deadline) == Passes(n, s, out, err, deadline)
    decreases m
  {
    if n < m {
      PassesStay(n, m - 1, s, out, err, deadline);
    }
  }

  /** The first of the turns, and then the others. */
  lemma {:induction false} PassesFirst(n: nat, s: CaptureState, out: int, err: int, deadline: Option<nat>)
    ensures Passes(n + 1, s, out, err, deadline) == Passes(n, PassOf(s, out, err, deadline), out, err, deadline)
  {
    if n == 0 {
      assert Passes(0, s, out, err, deadline) == s;
    } else {
      PassesFirst(n - 1, s, out, err, deadline);
    }
  }

  // ---- The whole run ----

  lemma {:induction false} WaitShrinks(k: Kernel)
    ensures |WaitPid(k).kernel.script| <= |k.script|
    ensures WaitPid(k).outcome == WaitError(EINTR) ==> |WaitPid(k).kernel.script| < |k.script|
    decreases |k.script|
  {
    var turn := Schedule(k);
    if turn.fault.None? && turn.kernel.child == Running && k.script != [] {
      WaitShrinks(turn.kernel);
    }
  }

  /** `waitpid`, again after each interrupt. */
  function ReapOf(k: Kernel): WaitCall
    decreases |k.script|
  {
    WaitShrinks(k);
    var call := WaitPid(k);
    if call.outcome == WaitError(EINTR) then ReapOf(call.kernel) else call
  }

  datatype Outcome = Outcome(result: ProcessResult, returned: bool, kernel: Kernel)

  function ClosedBoth(s: CaptureState, out: int, err: int): Kernel {
    var one := if s.stdoutOpen then Close(s.kernel, out) else s.kernel;
    if s.stderrOpen then Close(one, err) else one
  }

  /** After the loop. */
  function FinishOf(s: CaptureState, out: int, err: int): Outcome {
    var call := ReapOf(ClosedBoth(s, out, err));
    match call.outcome
    case NeverEnds => Outcome(s.result, false, call.kernel)
    case WaitError(errno) => Outcome(s.result.(error := ErrorText(Waiting, errno)), true, call.kernel)
    case Collected(status) => Outcome(s.result.(exitCode := ExitCode(status)), true, call.kernel)
  }

  datatype Started = Started(error: string, out: int, err: int, kernel: Kernel)

  function CloseTwoOf(k: Kernel, a: int, b: int): Kernel {
    Close(Close(k, a), b)
  }

  /** Before the loop: two pipes and a fork, or an error. */
  function SetupOf(k: Kernel): Started {
    var first := MakePipe(k);
    if first.error.Some? then Started(ErrorText(Piping, first.error.value), -1, -1, first.kernel)
    else
      var second := MakePipe(first.kernel);
      if second.error.Some? then
        Started(ErrorText(Piping, second.error.value), -1, -1, CloseTwoOf(second.kernel, first.read, first.write))
      else
        AfterFork(ForkedOf(second.kernel, first.read, second.read), first.read, first.write, second.read, second.write)
  }

  /** The fork, with the read ends made non-blocking before it. */
  function ForkedOf(k: Kernel, out: int, err: int): Forked {
    Fork(SetNonBlocking(SetNonBlocking(k, out), err))
  }

  function AfterFork(forked: Forked, out: int, outWrite: int, err: int, errWrite: int): Started {
    if forked.error.Some? then
      Started(ErrorText(Forking, forked.error.value), out, err,
              CloseTwoOf(CloseTwoOf(forked.kernel, out, outWrite), err, errWrite))
    else Started("", out, err, CloseTwoOf(forked.kernel, outWrite, errWrite))
  }

  /** The loop's variables at its start. */
  function Initial(k: Kernel): CaptureState {
    CaptureState(UNRUN, true, true, true, false, k)
  }

  /** The loop's variables at its start, with the clock read if there is a deadline, and the deadline in nanoseconds. */
  function LoopStart(k: Kernel, timeout: int): (CaptureState, Option<nat>) {
    if timeout > 0 then
      var read := ReadClock(k);
      (Initial(read), Some(read.clock + timeout * 1000000))
    else (Initial(k), None)
  }

  /** What the loop's end comes to. */
  function AfterLoop(s: CaptureState, out: int, err: int): Outcome {
    if s.returned then FinishOf(s, out, err) else Outcome(s.result, false, s.kernel)
  }

  /** The run from the fork on, if its loop is over within `n` turns. */
  function LoopRun(n: nat, timeout: int, k: Kernel, out: int, err: int): Option<Outcome> {
    var (start, deadline) := LoopStart(k, timeout);
    var s := Passes(n, start, out, err, deadline);
    if Over(s) then Some(AfterLoop(s, out, err)) else None
  }

  /** The run, if its loop is over within `n` turns. */
  function RunOf(n: nat, timeout: int, k: Kernel): Option<Outcome> {
    var started := SetupOf(k);
    if started.error != "" then Some(Outcome(UNRUN.(error := started.error), true, started.kernel))
    else LoopRun(n, timeout, started.kernel, started.out, started.err)
  }

  /** The run has this outcome. */
  ghost predicate RunIs(timeout: int, k: Kernel, outcome: Outcome) {
    exists n: nat :: RunOf(n, timeout, k) == Some(outcome)
  }

  /** A run has one outcome. */
  lemma RunUnique(timeout: int, k: Kernel, a: Outcome, b: Outcome)
    requires RunIs(timeout, k, a) && RunIs(timeout, k, b)
    ensures a == b
  {
    var n: nat :| RunOf(n, timeout, k) == Some(a);
    var m: nat :| RunOf(m, timeout, k) == Some(b);
    var started := SetupOf(k);
    if started.error == "" {
      var (start, deadline) := LoopStart(started.kernel, timeout);
      if n <= m {
        PassesStay(n, m, start, started.out, started.err, deadline);
      } else {
        PassesStay(m, n, start, started.out, started.err, deadline);
      }
    }
  }
}
