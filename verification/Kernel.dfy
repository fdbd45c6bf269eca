/**
 What the process runner sees of the operating system: pipes, descriptors, a clock and one
 child, moved on by a finite script of events. Nothing is assumed of the script: writes,
 closed ends, clock steps, deaths, interrupts and failures come in any order, and a run may
 be cut anywhere. Every system call first lets the environment run until the script yields.
 */
module Kernels {
  import opened Text

  datatype Errno = EINTR | EAGAIN | OtherError(text: string)

  /** A wait status: exited with a code, killed by a signal, or neither. */
  datatype Status = Exited(code: nat) | Signaled(signal: nat) | Stopped

  datatype Child = NoChild | Running | Dead(status: Status) | Reaped(status: Status)

  datatype Event =
    | Write(pipe: nat, bytes: string)  // a process other than the parent writes
    | CloseWriters(pipe: nat)          // the last write end outside the parent closes
    | Tick(nanoseconds: nat)
    | Exit(status: Status)             // the child ends
    | Yield(most: nat)                 // the parent goes on; a read may be cut short to `most` bytes
    | Fault(errno: Errno)              // the parent goes on, its system call failing

  /** A pipe: all that was ever written, how much of it the parent took, and whether a
      process other than the parent still holds a write end. */
  datatype Pipe = Pipe(written: string, taken: nat, writers: bool)

  datatype End = Reader(pipe: nat) | Writer(pipe: nat)

  datatype Timeval = Timeval(sec: nat, usec: nat)

  /** The calls whose failure the parent reports. */
  datatype Syscall = Piping | Forking | Selecting | Waiting

  /** The calls whose order matters, as the parent made them. An interrupt of `select` or
      `waitpid` is no failure. */
  datatype Call =
    | Now(at: nat)
    | Waited(wait: Option<Timeval>, timedOut: bool)
    | GroupKilled(at: nat, printed: seq<nat>, ok: bool, running: bool)  // what had been written to each pipe, and
                                                                        // whether the child had not ended by itself
    | ReadFailed(fd: int, errno: Errno)
    | CallFailed(call: Syscall, errno: Errno)

  datatype Kernel = Kernel(
    script: seq<Event>,
    pipes: seq<Pipe>,
    fds: map<int, End>,        // the parent's open descriptors
    nextFd: int,
    nonblocking: set<int>,     // the descriptors made non-blocking; no number is used twice
    misuses: nat,              // uses of a descriptor that is not open
    clock: nat,                // nanoseconds
    child: Child,
    log: seq<Call>)

  ghost predicate Sane(k: Kernel) {
    && (forall p :: 0 <= p < |k.pipes| ==> k.pipes[p].taken <= |k.pipes[p].written|)
    && (forall fd :: fd in k.fds ==> k.fds[fd].pipe < |k.pipes| && fd < k.nextFd)
    && k.nextFd >= 0
  }

  // ---- The environment ----

  function WithPipe(k: Kernel, p: nat, pipe: Pipe): Kernel
    requires p < |k.pipes|
  {
    k.(pipes := k.pipes[p := pipe])
  }

  /** An event of the environment. Only an open write end lets bytes in. */
  function Apply(k: Kernel, event: Event): (r: Kernel)
    ensures r.script == k.script
  {
    match event
    case Write(p, bytes) =>
      if p < |k.pipes| && k.pipes[p].writers then
        WithPipe(k, p, k.pipes[p].(written := k.pipes[p].written + bytes))
      else k
    case CloseWriters(p) =>
      if p < |k.pipes| then WithPipe(k, p, k.pipes[p].(writers := false)) else k
    case Tick(nanoseconds) => k.(clock := k.clock + nanoseconds)
    case Exit(status) => if k.child == Running then k.(child := Dead(status)) else k
    case Yield(_) => k
    case Fault(_) => k
  }

  datatype Turn = Turn(kernel: Kernel, fault: Option<Errno>, most: nat)

  /** The most bytes the parent asks of one read. */
  const BUFFER_SIZE: nat := 4096

  /** The environment runs until the script hands control back, or is over. */
  function Schedule(k: Kernel): (turn: Turn)
    ensures Drift(k, turn.kernel)
    ensures k.script != [] ==> |turn.kernel.script| < |k.script|
    ensures k.script == [] ==> turn == Turn(k, None, BUFFER_SIZE)
    decreases |k.script|
  {
    if k.script == [] then Turn(k, None, BUFFER_SIZE)
    else
      var event, rest := k.script[0], k.(script := k.script[1..]);
      match event
      case Yield(most) => Turn(rest, None, most)
      case Fault(errno) => Turn(rest, Some(errno), 0)
      case _ =>
        ApplyDrift(rest, event);
        var turn := Schedule(Apply(rest, event));
        DriftTransitive(rest, Apply(rest, event), turn.kernel);
        turn
  }

  /** A pipe the parent leaves alone only fills, and not even that once its write ends are gone. */
  predicate PipeDrift(a: Pipe, b: Pipe) {
    && a.written <= b.written && a.taken == b.taken
    && (b.writers ==> a.writers) && (!a.writers ==> a.written == b.written)
  }

  /** What the environment may do: fill pipes, close its write ends, let time pass, end the child. */
  ghost predicate Drift(a: Kernel, b: Kernel) {
    && a.fds == b.fds && a.nextFd == b.nextFd && a.nonblocking == b.nonblocking
    && a.misuses == b.misuses && a.log == b.log && a.clock <= b.clock
    && |a.pipes| == |b.pipes| && (forall p :: 0 <= p < |a.pipes| ==> PipeDrift(a.pipes[p], b.pipes[p]))
    && (a.child == b.child || (a.child == Running && b.child.Dead?))
    && |b.script| <= |a.script|
  }

  lemma DriftTransitive(a: Kernel, b: Kernel, c: Kernel)
    requires Drift(a, b) && Drift(b, c)
    ensures Drift(a, c)
  {
    forall p | 0 <= p < |a.pipes| ensures PipeDrift(a.pipes[p], c.pipes[p]) {
      assert PipeDrift(a.pipes[p], b.pipes[p]) && PipeDrift(b.pipes[p], c.pipes[p]);
    }
  }

  lemma ApplyDrift(k: Kernel, event: Event)
    ensures Drift(k, Apply(k, event))
  {
  }

  lemma DriftSane(a: Kernel, b: Kernel)
    requires Drift(a, b) && Sane(a)
    ensures Sane(b)
  {
    forall p | 0 <= p < |b.pipes| ensures b.pipes[p].taken <= |b.pipes[p].written| {
      assert PipeDrift(a.pipes[p], b.pipes[p]);
    }
  }

  // ---- System calls ----

  function Logged(k: Kernel, call: Call): Kernel {
    k.(log := k.log + [call])
  }

  /** `close`. */
  function Close(k: Kernel, fd: int): Kernel {
    var now := Schedule(k).kernel;
    if fd in now.fds then now.(fds := now.fds - {fd})
    else now.(misuses := now.misuses + 1)
  }

  datatype MadePipe = MadePipe(kernel: Kernel, error: Option<Errno>, read: int, write: int)

  /** `pipe`: two new descriptors on a new pipe, or an error. */
  function MakePipe(k: Kernel): MadePipe {
    var turn := Schedule(k);
    var now := turn.kernel;
    if turn.fault.Some? then MadePipe(Logged(now, CallFailed(Piping, turn.fault.value)), turn.fault, -1, -1)
    else
      var p, fd := |now.pipes|, now.nextFd;
      MadePipe(now.(pipes := now.pipes + [Pipe("", 0, false)],
                    fds := now.fds[fd := Reader(p)][fd + 1 := Writer(p)],
                    nextFd := fd + 2), None, fd, fd + 1)
  }

  /** `fcntl` twice, to make a descriptor non-blocking; either call may fail, which the caller ignores. */
  function SetNonBlocking(k: Kernel, fd: int): Kernel {
    var first := Schedule(k);
    if first.fault.Some? then first.kernel
    else
      var second := Schedule(first.kernel);
      if second.fault.Some? then second.kernel
      else second.kernel.(nonblocking := second.kernel.nonblocking + {fd})
  }

  datatype Forked = Forked(kernel: Kernel, error: Option<Errno>)

  /** `fork`: the child inherits every write end the parent holds. */
  function Fork(k: Kernel): Forked {
    var turn := Schedule(k);
    var now := turn.kernel;
    if turn.fault.Some? then Forked(Logged(now, CallFailed(Forking, turn.fault.value)), turn.fault)
    else Forked(now.(child := Running, pipes := Inherited(now, |now.pipes|)), None)
  }

  function Inherited(k: Kernel, n: nat): (pipes: seq<Pipe>)
    requires n <= |k.pipes|
    ensures |pipes| == n
    ensures forall p :: 0 <= p < n ==>
      pipes[p] == k.pipes[p].(writers := k.pipes[p].writers || Writer(p) in k.fds.Values)
  {
    if n == 0 then []
    else
      var pipe := k.pipes[n - 1];
      Inherited(k, n - 1) + [pipe.(writers := pipe.writers || Writer(n - 1) in k.fds.Values)]
  }

  /** `Clock::now`. */
  function ReadClock(k: Kernel): Kernel {
    var now := Schedule(k).kernel;
    now.(log := now.log + [Now(now.clock)])
  }

  /** Nothing is left to read, and nobody can write any more. */
  predicate AtEof(k: Kernel, p: nat)
    requires p < |k.pipes|
  {
    k.pipes[p].taken >= |k.pipes[p].written| && !k.pipes[p].writers && Writer(p) !in k.fds.Values
  }

  predicate Readable(k: Kernel, fd: int) {
    && fd in k.fds && k.fds[fd].Reader? && k.fds[fd].pipe < |k.pipes|
    && (k.pipes[k.fds[fd].pipe].taken < |k.pipes[k.fds[fd].pipe].written| || AtEof(k, k.fds[fd].pipe))
  }

  datatype Got = Data(bytes: string) | Eof | ReadError(errno: Errno) | NeverReturns

  datatype ReadCall = ReadCall(kernel: Kernel, got: Got)

  /** `read` once the environment has yielded: the bytes there are, up to the buffer. */
  function Take(k: Kernel, p: nat, most: nat): ReadCall
    requires p < |k.pipes| && k.pipes[p].taken < |k.pipes[p].written|
  {
    var pipe := k.pipes[p];
    var unread := |pipe.written| - pipe.taken;
    var asked := if most == 0 then 1 else if most > BUFFER_SIZE then BUFFER_SIZE else most;
    var n := if asked < unread then asked else unread;
    ReadCall(WithPipe(k, p, pipe.(taken := pipe.taken + n)), Data(pipe.written[pipe.taken..pipe.taken + n]))
  }

  /** A failed `read`; an interrupt is not worth a trace. */
  function FailedRead(k: Kernel, fd: int, errno: Errno): ReadCall {
    ReadCall(if errno == EINTR then k else k.(log := k.log + [ReadFailed(fd, errno)]), ReadError(errno))
  }

  /** `read`: a blocking descriptor waits for bytes, the end of file or a failure. */
  function Read(k: Kernel, fd: int): ReadCall
    decreases |k.script|
  {
    var turn := Schedule(k);
    var now := turn.kernel;
    if turn.fault.Some? then FailedRead(now, fd, turn.fault.value)
    else if fd !in now.fds || !now.fds[fd].Reader? || now.fds[fd].pipe >= |now.pipes| then
      FailedRead(now.(misuses := now.misuses + 1), fd, OtherError("Bad file descriptor"))
    else
      var p := now.fds[fd].pipe;
      if now.pipes[p].taken < |now.pipes[p].written| then Take(now, p, turn.most)
      else if AtEof(now, p) then ReadCall(now, Eof)
      else if fd in now.nonblocking then ReadCall(now, ReadError(EAGAIN))
      else if k.script == [] then ReadCall(now, NeverReturns)
      else Read(now, fd)
  }

  datatype Selected = Ready(fds: set<int>) | TimedOut | SelectError(errno: Errno) | NeverReady

  datatype SelectCall = SelectCall(kernel: Kernel, outcome: Selected)

  function Nanoseconds(wait: Timeval): nat {
    (wait.sec * 1000000 + wait.usec) * 1000
  }

  /** `select` on the descriptors of `watched` below `limit`. */
  function Select(k: Kernel, limit: int, watched: set<int>, wait: Option<Timeval>): SelectCall {
    var call := SelectSince(k, limit, watched, wait, k.clock);
    call.(kernel := call.kernel.(log := call.kernel.log + SelectEntries(wait, call.outcome)))
  }

  function SelectEntries(wait: Option<Timeval>, outcome: Selected): seq<Call> {
    if outcome.SelectError? && outcome.errno != EINTR then
      [Waited(wait, false), CallFailed(Selecting, outcome.errno)]
    else [Waited(wait, outcome.TimedOut?)]
  }

  function ReadyAmong(k: Kernel, limit: int, watched: set<int>): (ready: set<int>)
    ensures forall fd :: fd in ready <==> fd in watched && fd < limit && Readable(k, fd)
  {
    set fd | fd in watched && fd < limit && Readable(k, fd)
  }

  /** The wait of a `select` that began at time `since`. */
  function SelectSince(k: Kernel, limit: int, watched: set<int>, wait: Option<Timeval>, since: nat): SelectCall
    decreases |k.script|
  {
    var turn := Schedule(k);
    var now := turn.kernel;
    var ready := ReadyAmong(now, limit, watched);
    if turn.fault.Some? then SelectCall(now, SelectError(turn.fault.value))
    else if exists fd :: fd in watched && fd < limit && fd !in now.fds then
      SelectCall(now.(misuses := now.misuses + 1), SelectError(OtherError("Bad file descriptor")))
    else if ready != {} then SelectCall(now, Ready(ready))
    else if wait.Some? && now.clock >= since + Nanoseconds(wait.value) then SelectCall(now, TimedOut)
    else if k.script != [] then SelectSince(now, limit, watched, wait, since)
    else if wait.Some? then
      SelectCall(now.(clock := since + Nanoseconds(wait.value)), TimedOut)
    else SelectCall(now, NeverReady)
  }

  /** `kill` of the child's process group with SIGKILL; it may fail, which the caller ignores. */
  function KillGroup(k: Kernel): Kernel {
    var turn := Schedule(k);
    var now := turn.kernel;
    var ok := turn.fault.None?;
    Logged(now.(child := if ok && now.child == Running then Dead(Signaled(9)) else now.child),
           GroupKilled(now.clock, Sizes(now.pipes), ok, now.child == Running))
  }

  function Sizes(pipes: seq<Pipe>): (sizes: seq<nat>)
    ensures |sizes| == |pipes| && forall p :: 0 <= p < |pipes| ==> sizes[p] == |pipes[p].written|
  {
    seq(|pipes|, p requires 0 <= p < |pipes| => |pipes[p].written|)
  }

  datatype WaitCall = WaitCall(kernel: Kernel, outcome: Reaping)
  datatype Reaping = Collected(status: Status) | WaitError(errno: Errno) | NeverEnds

  /** `waitpid`. */
  function WaitPid(k: Kernel): WaitCall
    decreases |k.script|
  {
    var turn := Schedule(k);
    var now := turn.kernel;
    if turn.fault.Some? then FailedWait(now, turn.fault.value)
    else
      match now.child
      case Dead(status) => WaitCall(now.(child := Reaped(status)), Collected(status))
      case Running => if k.script == [] then WaitCall(now, NeverEnds) else WaitPid(now)
      case _ => FailedWait(now, OtherError("No child processes"))
  }

  function FailedWait(k: Kernel, errno: Errno): WaitCall {
    WaitCall(if errno == EINTR then k else Logged(k, CallFailed(Waiting, errno)), WaitError(errno))
  }
}
