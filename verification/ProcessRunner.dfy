/**
 The parent's side of `RunProcess` (src/process.cpp): two pipes, a fork, a select loop that
 captures both streams until end of file or the deadline, and the reaping of the child.
 Each method computes what `ProcessSpec` says, on every kernel and for every script of
 events. `returned` is false when the script ends with the parent still inside a system call.
 */
module ProcessRunner {
  import opened Text
  import opened Kernels
  import opened ProcessSpec
  import opened ProcessSafety

  /** Reads a descriptor until it has nothing more for now, ends or fails; closes it in the last two cases. */
  method AppendFromFd(k0: Kernel, fd: int, output0: string)
    returns (output: string, open: bool, returned: bool, k: Kernel)
    ensures Appended(output, open, returned, k) == AppendOf(k0, fd, output0)
  {
    output, open, returned, k := output0, true, true, k0;
    while true
      invariant open && returned
      invariant AppendOf(k, fd, output) == AppendOf(k0, fd, output0)
      decreases |k.script|, Pending(k, fd)
    {
      ReadProgresses(k, fd);
      var call := Read(k, fd);
      k := call.kernel;
      match call.got
      case Data(bytes) =>
        output := output + bytes;
      case Eof =>
        k, open := Close(k, fd), false;
        return;
      case NeverReturns =>
        returned := false;
        return;
      case ReadError(errno) =>
        if errno == EINTR {
          continue;
        }
        if errno == EAGAIN {
          return;
        }
        k, open := Close(k, fd), false;
        return;
    }
  }

  /** Reads from the descriptors that are open and ready. */
  method CaptureReady(start: Kernel, out: int, err: int, stdoutOpen0: bool, stderrOpen0: bool,
                      ready: set<int>, result0: ProcessResult)
    returns (result: ProcessResult, stdoutOpen: bool, stderrOpen: bool, returned: bool, k: Kernel)
    ensures CaptureState(result, stdoutOpen, stderrOpen, returned, false, k)
      == ReadyOf(CaptureState(result0, stdoutOpen0, stderrOpen0, true, false, start), out, err, ready)
  {
    result, stdoutOpen, stderrOpen, returned, k := result0, stdoutOpen0, stderrOpen0, true, start;
    ghost var s := CaptureState(result, stdoutOpen, stderrOpen, true, false, k);
    ghost var one := FirstReadyOf(s, out, ready);
    if stdoutOpen && out in ready {
      var text, open, done, next := AppendFromFd(k, out, result.stdoutText);
      result, stdoutOpen, returned, k := result.(stdoutText := text), open, done, next;
      if !returned {
        return;
      }
    }
    assert one == CaptureState(result, stdoutOpen, stderrOpen, true, false, k);
    if stderrOpen && err in ready {
      var text, open, done, next := AppendFromFd(k, err, result.stderrText);
      result, stderrOpen, returned, k := result.(stderrText := text), open, done, next;
    }
    assert SecondReadyOf(one, err, ready) == CaptureState(result, stdoutOpen, stderrOpen, returned, false, k);
  }

  /** One turn's wait: the time left, then `select` on the open descriptors. */
  method Await(start: Kernel, out: int, err: int, deadline: Option<nat>, stdoutOpen: bool, stderrOpen: bool)
    returns (outcome: Selected, k: Kernel)
    ensures SelectCall(k, outcome) == AwaitOf(start, out, err, deadline, stdoutOpen, stderrOpen)
  {
    var watched, maxFd: int := {}, -1;
    if stdoutOpen {
      watched, maxFd := watched + {out}, if out > maxFd then out else maxFd;
    }
    if stderrOpen {
      watched, maxFd := watched + {err}, if err > maxFd then err else maxFd;
    }
    assert watched == Watched(out, err, stdoutOpen, stderrOpen);
    assert maxFd + 1 == Limit(out, err, stdoutOpen, stderrOpen);
    var wait := None;
    k := start;
    if deadline.Some? {
      k := ReadClock(k);
      wait := Some(Remaining(deadline.value, k.clock));
    }
    var call := Select(k, maxFd + 1, watched, wait);
    outcome, k := call.outcome, call.kernel;
  }

  /** The body of the select loop; `left` when it leaves the loop. */
  method CaptureTurn(start: Kernel, out: int, err: int, deadline: Option<nat>,
                     stdoutOpen0: bool, stderrOpen0: bool, result0: ProcessResult)
    returns (result: ProcessResult, stdoutOpen: bool, stderrOpen: bool, returned: bool, left: bool, k: Kernel)
    requires stdoutOpen0 || stderrOpen0
    ensures CaptureState(result, stdoutOpen, stderrOpen, returned, left, k)
      == PassOf(CaptureState(result0, stdoutOpen0, stderrOpen0, true, false, start), out, err, deadline)
  {
    result, stdoutOpen, stderrOpen, returned, left := result0, stdoutOpen0, stderrOpen0, true, false;
    var outcome;
    outcome, k := Await(start, out, err, deadline, stdoutOpen, stderrOpen);
    match outcome
    case NeverReady =>
      returned, left := false, true;
    case SelectError(errno) =>
      if errno != EINTR {
        result, left := result.(error := "select failed: " + Strerror(errno)), true;
      }
    case TimedOut =>
      result, stdoutOpen, stderrOpen, returned, k := Expire(k, out, err, stdoutOpen, stderrOpen, result);
      left := true;
    case Ready(fds) =>
      result, stdoutOpen, stderrOpen, returned, k := CaptureReady(k, out, err, stdoutOpen, stderrOpen, fds, result);
      left := !returned;
  }

  /** The deadline: kill the group, keep what was printed. */
  method Expire(start: Kernel, out: int, err: int, stdoutOpen0: bool, stderrOpen0: bool, result0: ProcessResult)
    returns (result: ProcessResult, stdoutOpen: bool, stderrOpen: bool, returned: bool, k: Kernel)
    ensures CaptureState(result, stdoutOpen, stderrOpen, returned, true, k)
      == ExpireOf(CaptureState(result0, stdoutOpen0, stderrOpen0, true, false, start), out, err)
  {
    k, result := KillGroup(start), result0.(timedOut := true);
    result, stdoutOpen, stderrOpen, returned, k :=
      CaptureReady(k, out, err, stdoutOpen0, stderrOpen0, {out, err}, result);
  }

  /** The loop's variables are what `turns` turns make of the start, and it is over. */
  ghost predicate EndedAfter(start: CaptureState, out: int, err: int, deadline: Option<nat>, turns: nat,
                             s: CaptureState) {
    s == Passes(turns, start, out, err, deadline) && Over(s)
  }

  /** So for some number of turns, whether the loop was left by its condition or not. */
  ghost predicate Ended(start: CaptureState, out: int, err: int, deadline: Option<nat>,
                        result: ProcessResult, stdoutOpen: bool, stderrOpen: bool, returned: bool, k: Kernel) {
    exists turns: nat, left: bool ::
      EndedAfter(start, out, err, deadline, turns, CaptureState(result, stdoutOpen, stderrOpen, returned, left, k))
  }

  /** The select loop. */
  method Capture(ghost k0: Kernel, start: Kernel, out: int, err: int, ghost timeout: int, deadline: Option<nat>)
    returns (result: ProcessResult, stdoutOpen: bool, stderrOpen: bool, returned: bool, k: Kernel)
    requires Sane(k0) && out == Out(k0) && err == Err(k0)
    requires Looping(k0, Initial(start), timeout, deadline)
    ensures Ended(Initial(start), out, err, deadline, result, stdoutOpen, stderrOpen, returned, k)
  {
    ghost var s, turns := Initial(start), 0;
    result, stdoutOpen, stderrOpen, returned, k := UNRUN, true, true, true, start;
    while stdoutOpen || stderrOpen
      invariant s == Passes(turns, Initial(start), out, err, deadline) && Looping(k0, s, timeout, deadline)
      invariant s == CaptureState(result, stdoutOpen, stderrOpen, returned, false, k)
      decreases |k.script|, Work(k0, s)
    {
      PassMeaning(k0, s, timeout, deadline);
      s, turns := PassOf(s, out, err, deadline), turns + 1;
      var left;
      result, stdoutOpen, stderrOpen, returned, left, k :=
        CaptureTurn(k, out, err, deadline, stdoutOpen, stderrOpen, result);
      if left {
        assert EndedAfter(Initial(start), out, err, deadline, turns, s);
        return;
      }
    }
    assert EndedAfter(Initial(start), out, err, deadline, turns, s);
  }

  // ---- Setting up ----

  method CloseTwo(k0: Kernel, a: int, b: int) returns (k: Kernel)
    ensures k == CloseTwoOf(k0, a, b)
  {
    k := Close(k0, a);
    k := Close(k, b);
  }

  /** Two pipes, a fork, and the parent's copies of the write ends closed. */
  method Setup(k0: Kernel) returns (error: string, out: int, err: int, k: Kernel)
    ensures Started(error, out, err, k) == SetupOf(k0)
  {
    error, out, err := "", -1, -1;
    var first := MakePipe(k0);
    k := first.kernel;
    if first.error.Some? {
      error := "pipe failed: " + Strerror(first.error.value);
      return;
    }
    var second := MakePipe(k);
    k := second.kernel;
    if second.error.Some? {
      error := "pipe failed: " + Strerror(second.error.value);
      k := CloseTwo(k, first.read, first.write);
      return;
    }
    out, err := first.read, second.read;
    error, k := ForkChild(k, out, first.write, err, second.write);
  }

  method ForkChild(k0: Kernel, out: int, outWrite: int, err: int, errWrite: int) returns (error: string, k: Kernel)
    ensures Started(error, out, err, k) == AfterFork(ForkedOf(k0, out, err), out, outWrite, err, errWrite)
  {
    error, k := "", SetNonBlocking(k0, out);
    k := SetNonBlocking(k, err);
    var forked := Fork(k);
    k := forked.kernel;
    if forked.error.Some? {
      error := "fork failed: " + Strerror(forked.error.value);
      k := CloseTwo(k, out, outWrite);
      k := CloseTwo(k, err, errWrite);
      return;
    }
    k := CloseTwo(k, outWrite, errWrite);
  }

  // ---- The end of the run ----

  /** `waitpid`, again after each interrupt. */
  method Reap(start: Kernel) returns (outcome: Reaping, k: Kernel)
    ensures WaitCall(k, outcome) == ReapOf(start)
  {
    k := start;
    while true
      invariant ReapOf(k) == ReapOf(start)
      decreases |k.script|
    {
      WaitShrinks(k);
      var call := WaitPid(k);
      k, outcome := call.kernel, call.outcome;
      if !(outcome.WaitError? && outcome.errno == EINTR) {
        return;
      }
    }
  }

  /** After the loop: close what is open, reap the child, report its status. */
  method Finish(start: Kernel, out: int, err: int, stdoutOpen: bool, stderrOpen: bool, result0: ProcessResult)
    returns (result: ProcessResult, returned: bool, k: Kernel)
    ensures forall left :: Outcome(result, returned, k)
                           == FinishOf(CaptureState(result0, stdoutOpen, stderrOpen, true, left, start), out, err)
  {
    result, returned, k := result0, true, start;
    if stdoutOpen {
      k := Close(k, out);
    }
    if stderrOpen {
      k := Close(k, err);
    }
    var outcome;
    outcome, k := Reap(k);
    match outcome
    case NeverEnds => returned := false;
    case WaitError(errno) => result := result.(error := "waitpid failed: " + Strerror(errno));
    case Collected(status) => result := result.(exitCode := ExitCode(status));
  }

  /** The run from the fork on has this outcome. */
  ghost predicate LoopRunIs(timeout: int, start: Kernel, out: int, err: int, end: Outcome) {
    exists turns: nat :: LoopRun(turns, timeout, start, out, err) == Some(end)
  }

  /** The run from the fork on. */
  method RunForked(timeout: int, ghost k0: Kernel, start: Kernel, out: int, err: int)
    returns (result: ProcessResult, returned: bool, k: Kernel)
    requires Sane(k0) && out == Out(k0) && err == Err(k0) && SetUp(k0, Started("", out, err, start))
    ensures LoopRunIs(timeout, start, out, err, Outcome(result, returned, k))
  {
    var deadline := None;
    k := start;
    LoopStarts(k0, Started("", out, err, start), timeout);
    if timeout > 0 {
      k := ReadClock(k);
      deadline := Some(k.clock + timeout * 1000000);
    }
    ghost var begun := Initial(k);
    var stdoutOpen, stderrOpen;
    result, stdoutOpen, stderrOpen, returned, k := Capture(k0, k, out, err, timeout, deadline);
    ghost var turns: nat, left: bool :|
      EndedAfter(begun, out, err, deadline, turns, CaptureState(result, stdoutOpen, stderrOpen, returned, left, k));
    ghost var s := CaptureState(result, stdoutOpen, stderrOpen, returned, left, k);
    if returned {
      result, returned, k := Finish(k, out, err, stdoutOpen, stderrOpen, result);
    }
    assert AfterLoop(s, out, err) == Outcome(result, returned, k);
    assert LoopRun(turns, timeout, start, out, err) == Some(Outcome(result, returned, k));
  }

  /** Every run, whatever the environment does. */
  method RunProcess(timeout: int, k0: Kernel) returns (result: ProcessResult, returned: bool, k: Kernel)
    requires Sane(k0)
    ensures RunIs(timeout, k0, Outcome(result, returned, k))
    ensures SafeCapture(k0, Outcome(result, returned, k))
    ensures SafeDeadline(timeout, k0, Outcome(result, returned, k))
    ensures SafeStatus(k0, Outcome(result, returned, k))
    ensures !returned ==> Stuck(timeout, k0, k)
  {
    var error, out, err, start := Setup(k0);
    SetupMeaning(k0);
    if error != "" {
      result, returned, k := UNRUN.(error := error), true, start;
      assert RunOf(0, timeout, k0) == Some(Outcome(result, returned, k));
    } else {
      result, returned, k := RunForked(timeout, k0, start, out, err);
      ghost var turns: nat :| LoopRun(turns, timeout, start, out, err) == Some(Outcome(result, returned, k));
      assert RunOf(turns, timeout, k0) == Some(Outcome(result, returned, k));
    }
    RunSafe(timeout, k0, Outcome(result, returned, k));
  }
}
