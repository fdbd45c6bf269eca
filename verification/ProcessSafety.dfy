/**
 What the runner's loops keep, on every kernel and for every script of events
 (src/process.cpp): safety of the captured texts, of the descriptors and of the deadline.
 */
module ProcessSafety {
  import opened Text
  import opened Kernels
  import opened ProcessSpec

  /** What the parent has read from a pipe. */
  function Captured(k: Kernel, p: nat): string
    requires p < |k.pipes| && k.pipes[p].taken <= |k.pipes[p].written|
  {
    k.pipes[p].written[..k.pipes[p].taken]
  }

  /** The parent has read all that was written, and nothing more can be. */
  predicate Complete(k: Kernel, p: nat)
    requires p < |k.pipes|
  {
    k.pipes[p].taken == |k.pipes[p].written| && !k.pipes[p].writers
  }

  function Unread(k: Kernel, p: nat): nat
    requires p < |k.pipes| && k.pipes[p].taken <= |k.pipes[p].written|
  {
    |k.pipes[p].written| - k.pipes[p].taken
  }

  /** Calls the parent made since the log held `n` entries. */
  predicate ReadFailure(k: Kernel, n: nat) {
    exists i :: n <= i < |k.log| && k.log[i].ReadFailed? && k.log[i].errno.OtherError?
  }

  /** The same, or a `read` that said EAGAIN on a pipe that was not empty. */
  predicate ReadTrouble(k: Kernel, n: nat) {
    exists i :: n <= i < |k.log| && k.log[i].ReadFailed?
  }

  predicate NoKill(log: seq<Call>, n: nat) {
    forall i :: n <= i < |log| ==> !log[i].GroupKilled?
  }

  /** The group was killed. */
  predicate KillWorked(log: seq<Call>, n: nat) {
    exists i :: n <= i < |log| && log[i].GroupKilled? && log[i].ok
  }

  /** The group was killed while the child ran. */
  predicate KilledRunning(log: seq<Call>, n: nat) {
    exists i :: n <= i < |log| && log[i].GroupKilled? && log[i].ok && log[i].running
  }

  /** The child ended by SIGKILL. */
  predicate DiedOfKill(child: Child) {
    child == Dead(Signaled(9)) || child == Reaped(Signaled(9))
  }

  /** Some `select` passed its whole wait. */
  predicate SelectTimedOut(log: seq<Call>, n: nat) {
    exists i :: n <= i < |log| && log[i].Waited? && log[i].timedOut
  }

  /** No kill, no failed call and no passed wait. */
  predicate Uneventful(log: seq<Call>, n: nat) {
    forall i :: n <= i < |log| ==>
      !log[i].GroupKilled? && !log[i].CallFailed? && !(log[i].Waited? && log[i].timedOut)
  }

  /** The text of the last failed call; none if no call failed. */
  function ErrorAfter(log: seq<Call>, n: nat): string {
    if |log| <= n then ""
    else
      match log[|log| - 1]
      case CallFailed(call, errno) => ErrorText(call, errno)
      case _ => ErrorAfter(log[..|log| - 1], n)
  }

  lemma {:induction false} NoErrorAfter(log: seq<Call>, n: nat)
    requires forall i :: n <= i < |log| ==> !log[i].CallFailed?
    ensures ErrorAfter(log, n) == ""
  {
    if |log| > n {
      NoErrorAfter(log[..|log| - 1], n);
    }
  }

  /** There is an error exactly when a call failed. */
  lemma {:induction false} ErrorAfterMeaning(log: seq<Call>, n: nat)
    ensures ErrorAfter(log, n) != "" <==> exists i :: n <= i < |log| && log[i].CallFailed?
  {
    if |log| > n && !log[|log| - 1].CallFailed? {
      ErrorAfterMeaning(log[..|log| - 1], n);
    }
  }

  /** The runner's read ends are non-blocking: the first and the third descriptor it opens. */
  predicate NonBlocking(k0: Kernel, k: Kernel) {
    k0.nextFd in k.nonblocking && k0.nextFd + 2 in k.nonblocking
  }

  /** A pipe the parent may have read from: it only fills, and is only taken from. */
  predicate PipeGrows(a: Pipe, b: Pipe) {
    && a.written <= b.written && a.taken <= b.taken
    && (b.writers ==> a.writers) && (!a.writers ==> a.written == b.written)
  }

  /** From `a` to `b` the parent read from pipe `p` alone and misused no descriptor. */
  ghost predicate ReadsOnly(a: Kernel, b: Kernel, p: nat) {
    && Sane(b) && a.misuses == b.misuses && a.nonblocking == b.nonblocking && a.clock <= b.clock && a.log <= b.log
    && (forall i :: |a.log| <= i < |b.log| ==> b.log[i].ReadFailed?)
    && |a.pipes| == |b.pipes| && (forall q :: 0 <= q < |a.pipes| ==> PipeGrows(a.pipes[q], b.pipes[q]))
    && (forall q :: 0 <= q < |a.pipes| && q != p ==> a.pipes[q].taken == b.pipes[q].taken)
    && (a.child == b.child || (a.child == Running && b.child.Dead?))
    && |b.script| <= |a.script|
    && (a.script == [] ==> a.child == b.child && forall q :: 0 <= q < |a.pipes| && q != p ==> a.pipes[q] == b.pipes[q])
  }

  lemma ReadsOnlyTransitive(a: Kernel, b: Kernel, c: Kernel, p: nat)
    requires ReadsOnly(a, b, p) && ReadsOnly(b, c, p)
    ensures ReadsOnly(a, c, p)
  {
    forall q | 0 <= q < |a.pipes| ensures PipeGrows(a.pipes[q], c.pipes[q]) {
      assert PipeGrows(a.pipes[q], b.pipes[q]) && PipeGrows(b.pipes[q], c.pipes[q]);
    }
  }

  lemma DriftReadsOnly(a: Kernel, b: Kernel, p: nat)
    requires Sane(a) && Drift(a, b) && (a.script == [] ==> a == b)
    ensures ReadsOnly(a, b, p)
  {
    DriftSane(a, b);
    forall q | 0 <= q < |a.pipes| ensures PipeGrows(a.pipes[q], b.pipes[q]) {
      assert PipeDrift(a.pipes[q], b.pipes[q]);
    }
  }

  /** What one `read` on an open descriptor does. */
  ghost predicate ReadEffect(k: Kernel, fd: int, p: nat, call: ReadCall) {
    var now, got := call.kernel, call.got;
    && p < |k.pipes| && ReadsOnly(k, now, p)
    && now.fds == k.fds
    && k.pipes[p].taken <= |now.pipes[p].written|
    && (if got.Data? then got.bytes != "" && got.bytes == now.pipes[p].written[k.pipes[p].taken..now.pipes[p].taken]
        else now.pipes[p].taken == k.pipes[p].taken)
    && (got.Eof? ==> AtEof(now, p))
    && (got.ReadError? && got.errno.OtherError? ==>
          |now.log| > |k.log| && now.log[|k.log|] == ReadFailed(fd, got.errno))
    && (got.ReadError? && got.errno == EAGAIN ==>
          now.pipes[p].taken == |now.pipes[p].written| || (|now.log| > |k.log| && now.log[|k.log|].ReadFailed?))
    && (k.script != [] && !got.NeverReturns? ==> |now.script| < |k.script|)
    && (got.NeverReturns? ==> fd !in k.nonblocking && now.script == [])
    && (k.script == [] ==> ReadAlone(k, fd, p, call))
  }

  /** What one `read` does when the environment is done. */
  ghost predicate ReadAlone(k: Kernel, fd: int, p: nat, call: ReadCall)
    requires p < |k.pipes| && p < |call.kernel.pipes|
  {
    && call.kernel.pipes[p].written == k.pipes[p].written
    && (Readable(k, fd) ==> call.got.Data? || call.got.Eof?)
    && (call.got.ReadError? ==> call.got.errno == EAGAIN)
  }

  /** The read waits: its pipe is empty but not ended, and it is blocking. */
  predicate Waits(k: Kernel, fd: int, p: nat)
    requires p < |Schedule(k).kernel.pipes|
  {
    var turn := Schedule(k);
    && turn.fault.None? && turn.kernel.pipes[p].taken >= |turn.kernel.pipes[p].written| && !AtEof(turn.kernel, p)
    && fd !in turn.kernel.nonblocking && k.script != []
  }

  /** Taking bytes from a pipe touches nothing else. */
  lemma TakeReadsOnly(k: Kernel, p: nat, most: nat)
    requires Sane(k) && p < |k.pipes| && k.pipes[p].taken < |k.pipes[p].written|
    ensures var call := Take(k, p, most);
      ReadsOnly(k, call.kernel, p) && call.kernel.fds == k.fds && call.kernel.nonblocking == k.nonblocking
  {
  }

  lemma TakeHasEffect(k: Kernel, now: Kernel, fd: int, p: nat, most: nat)
    requires Sane(k) && fd in k.fds && k.fds[fd] == Reader(p) && Drift(k, now)
    requires if k.script == [] then now == k else |now.script| < |k.script|
    requires p < |now.pipes| && now.pipes[p].taken < |now.pipes[p].written|
    ensures ReadEffect(k, fd, p, Take(now, p, most))
  {
    DriftSane(k, now);
    DriftReadsOnly(k, now, p);
    assert PipeDrift(k.pipes[p], now.pipes[p]);
    TakeReadsOnly(now, p, most);
    ReadsOnlyTransitive(k, now, Take(now, p, most).kernel, p);
  }

  /** A read that finds bytes takes some of them. */
  lemma ReadTakes(k: Kernel, fd: int, p: nat)
    requires Sane(k) && fd in k.fds && k.fds[fd] == Reader(p)
    requires var turn := Schedule(k); turn.fault.None? && turn.kernel.pipes[p].taken < |turn.kernel.pipes[p].written|
    ensures ReadEffect(k, fd, p, Read(k, fd))
  {
    var turn := Schedule(k);
    TakeHasEffect(k, turn.kernel, fd, p, turn.most);
    assert Read(k, fd) == Take(turn.kernel, p, turn.most);
  }

  /** A read that fails takes nothing. */
  lemma ReadFails(k: Kernel, fd: int, p: nat)
    requires Sane(k) && fd in k.fds && k.fds[fd] == Reader(p) && Schedule(k).fault.Some?
    ensures ReadEffect(k, fd, p, Read(k, fd))
  {
    var now := Schedule(k).kernel;
    DriftSane(k, now);
    DriftReadsOnly(k, now, p);
    assert PipeDrift(k.pipes[p], now.pipes[p]);
  }

  /** Nor does one that finds the pipe ended. */
  lemma ReadEnds(k: Kernel, fd: int, p: nat)
    requires Sane(k) && fd in k.fds && k.fds[fd] == Reader(p)
    requires var turn := Schedule(k); turn.fault.None? && p < |turn.kernel.pipes| && AtEof(turn.kernel, p)
    ensures ReadEffect(k, fd, p, Read(k, fd))
  {
    var now := Schedule(k).kernel;
    DriftSane(k, now);
    DriftReadsOnly(k, now, p);
    assert PipeDrift(k.pipes[p], now.pipes[p]);
    assert Read(k, fd) == ReadCall(now, Eof);
  }

  /** Nor does one that finds it empty. */
  lemma ReadFinds(k: Kernel, fd: int, p: nat)
    requires Sane(k) && fd in k.fds && k.fds[fd] == Reader(p) && !Waits(k, fd, p)
    requires Schedule(k).fault.None? && !AtEof(Schedule(k).kernel, p)
    requires Schedule(k).kernel.pipes[p].taken >= |Schedule(k).kernel.pipes[p].written|
    ensures ReadEffect(k, fd, p, Read(k, fd))
  {
    var now := Schedule(k).kernel;
    DriftSane(k, now);
    DriftReadsOnly(k, now, p);
    assert PipeDrift(k.pipes[p], now.pipes[p]);
    assert Read(k, fd) == ReadCall(now, if fd in now.nonblocking then ReadError(EAGAIN) else NeverReturns);
  }

  lemma {:induction false} ReadMeaning(k: Kernel, fd: int, p: nat)
    requires Sane(k) && fd in k.fds && k.fds[fd] == Reader(p)
    ensures ReadEffect(k, fd, p, Read(k, fd))
    decreases |k.script|
  {
    var turn := Schedule(k);
    if turn.fault.None? && turn.kernel.pipes[p].taken < |turn.kernel.pipes[p].written| {
      ReadTakes(k, fd, p);
    } else if turn.fault.Some? {
      ReadFails(k, fd, p);
    } else if AtEof(turn.kernel, p) {
      ReadEnds(k, fd, p);
    } else if !Waits(k, fd, p) {
      ReadFinds(k, fd, p);
    } else {
      var now := turn.kernel;
      DriftSane(k, now);
      DriftReadsOnly(k, now, p);
      assert PipeDrift(k.pipes[p], now.pipes[p]);
      ReadMeaning(now, fd, p);
      ReadsOnlyTransitive(k, now, Read(now, fd).kernel, p);
    }
  }

  lemma CloseMeaning(k: Kernel, fd: int, p: nat)
    requires Sane(k) && fd in k.fds
    ensures ReadsOnly(k, Close(k, fd), p) && Close(k, fd).fds == k.fds - {fd} && Close(k, fd).log == k.log
    ensures forall q :: 0 <= q < |k.pipes| ==> PipeDrift(k.pipes[q], Close(k, fd).pipes[q])
    ensures k.script != [] ==> |Close(k, fd).script| < |k.script|
    ensures k.script == [] ==> Close(k, fd).pipes == k.pipes
  {
    var now := Schedule(k).kernel;
    DriftSane(k, now);
    DriftReadsOnly(k, now, p);
  }

  /** What reading a descriptor until it has no more does to it, to its pipe and to the text. */
  ghost predicate AppendEffect(k0: Kernel, fd: int, p: nat, output0: string, read: Appended) {
    var k := read.kernel;
    && p < |k0.pipes| && ReadsOnly(k0, k, p)
    && k0.pipes[p].taken <= k.pipes[p].taken <= |k.pipes[p].written|
    && read.output == output0 + k.pipes[p].written[k0.pipes[p].taken..k.pipes[p].taken]
    && k.fds == (if read.open then k0.fds else k0.fds - {fd})
    && (!read.open ==> Complete(k, p) || ReadFailure(k, |k0.log|))
    && (read.returned ==> k.pipes[p].taken == |k.pipes[p].written| || ReadTrouble(k, |k0.log|))
    && (!read.returned ==> read.open && fd !in k.nonblocking && k.script == [])
    && (k0.script == [] ==> k.pipes[p].written == k0.pipes[p].written)
    && (k0.script == [] && read.returned && Readable(k0, fd) ==> !read.open || k.pipes[p].taken > k0.pipes[p].taken)
  }

  /** The same between two reads, of the text so far. */
  ghost predicate Appending(k0: Kernel, fd: int, p: nat, output0: string, output: string, k: Kernel) {
    && fd in k0.fds && k0.fds[fd] == Reader(p) && k.fds == k0.fds
    && p < |k0.pipes| && ReadsOnly(k0, k, p)
    && k0.pipes[p].taken <= k.pipes[p].taken <= |k.pipes[p].written|
    && output == output0 + k.pipes[p].written[k0.pipes[p].taken..k.pipes[p].taken]
    && (k0.script == [] ==> k.pipes[p].written == k0.pipes[p].written)
    && (k0.script == [] && k.pipes[p].taken == k0.pipes[p].taken ==> k == k0)
  }

  lemma AppendStart(k: Kernel, fd: int, p: nat, output: string)
    requires Sane(k) && fd in k.fds && k.fds[fd] == Reader(p)
    ensures Appending(k, fd, p, output, output, k)
  {
    DriftReadsOnly(k, k, p);
    assert k.pipes[p].written[k.pipes[p].taken..k.pipes[p].taken] == "";
  }

  /** What was taken from a pipe in two parts. */
  lemma TakenTwice(a: Pipe, b: Pipe, c: Pipe)
    requires PipeGrows(a, b) && PipeGrows(b, c) && b.taken <= |b.written| && c.taken <= |c.written|
    ensures c.written[a.taken..c.taken] == b.written[a.taken..b.taken] + c.written[b.taken..c.taken]
  {
    assert c.written[a.taken..b.taken] == b.written[a.taken..b.taken];
    assert c.written[a.taken..c.taken] == c.written[a.taken..b.taken] + c.written[b.taken..c.taken];
  }

  /** A read that takes bytes adds them to the text. */
  lemma AppendData(k0: Kernel, fd: int, p: nat, output0: string, output: string, k: Kernel, call: ReadCall)
    requires Appending(k0, fd, p, output0, output, k) && ReadEffect(k, fd, p, call) && call.got.Data?
    ensures Appending(k0, fd, p, output0, output + call.got.bytes, call.kernel)
  {
    ReadsOnlyTransitive(k0, k, call.kernel, p);
    TakenTwice(k0.pipes[p], k.pipes[p], call.kernel.pipes[p]);
    Assoc(output0, k.pipes[p].written[k0.pipes[p].taken..k.pipes[p].taken], call.got.bytes);
  }

  /** One that takes none leaves the text as it is. */
  lemma AppendNothing(k0: Kernel, fd: int, p: nat, output0: string, output: string, k: Kernel, call: ReadCall)
    requires Appending(k0, fd, p, output0, output, k) && ReadEffect(k, fd, p, call) && !call.got.Data?
    ensures ReadsOnly(k0, call.kernel, p) && call.kernel.fds == k0.fds
    ensures k0.pipes[p].taken <= call.kernel.pipes[p].taken <= |call.kernel.pipes[p].written|
    ensures output == output0 + call.kernel.pipes[p].written[k0.pipes[p].taken..call.kernel.pipes[p].taken]
    ensures k.script != [] ==> Appending(k0, fd, p, output0, output, call.kernel)
    ensures k0.script == [] ==> call.kernel.pipes[p].written == k0.pipes[p].written
  {
    ReadsOnlyTransitive(k0, k, call.kernel, p);
    var a, b, c := k0.pipes[p], k.pipes[p], call.kernel.pipes[p];
    assert PipeGrows(b, c);
    assert c.written[a.taken..c.taken] == b.written[a.taken..b.taken];
  }

  /** Closing after an end of file or a failed read. */
  lemma AppendClose(k0: Kernel, fd: int, p: nat, output0: string, output: string, k: Kernel)
    requires fd in k0.fds && k0.fds[fd] == Reader(p) && k.fds == k0.fds && p < |k0.pipes| && ReadsOnly(k0, k, p)
    requires k0.pipes[p].taken <= k.pipes[p].taken <= |k.pipes[p].written|
    requires output == output0 + k.pipes[p].written[k0.pipes[p].taken..k.pipes[p].taken]
    requires k0.script == [] ==> k.pipes[p].written == k0.pipes[p].written
    requires AtEof(k, p) || ReadFailure(k, |k0.log|)
    ensures AppendEffect(k0, fd, p, output0, Appended(output, false, true, Close(k, fd)))
  {
    CloseMeaning(k, fd, p);
    var closed := Close(k, fd);
    ReadsOnlyTransitive(k0, k, closed, p);
    assert PipeDrift(k.pipes[p], closed.pipes[p]);
    var from, taken := k0.pipes[p].taken, k.pipes[p].taken;
    assert closed.pipes[p].written[from..taken] == k.pipes[p].written[from..taken];
    TroubleStays(closed, closed, |k0.log|, |k0.log|);
  }

  /** From any point between two reads on, what the reads come to. */
  lemma {:induction false} AppendFrom(k0: Kernel, fd: int, p: nat, output0: string, output: string, k: Kernel)
    requires Appending(k0, fd, p, output0, output, k)
    ensures AppendEffect(k0, fd, p, output0, AppendOf(k, fd, output))
    decreases |k.script|, Pending(k, fd)
  {
    var call := Read(k, fd);
    ReadProgresses(k, fd);
    ReadMeaning(k, fd, p);
    if call.got.Data? {
      AppendData(k0, fd, p, output0, output, k, call);
      AppendFrom(k0, fd, p, output0, output + call.got.bytes, call.kernel);
    } else {
      AppendNothing(k0, fd, p, output0, output, k, call);
      if call.got == ReadError(EINTR) {
        AppendFrom(k0, fd, p, output0, output, call.kernel);
      } else {
        AppendLast(k0, fd, p, output0, output, k, call);
      }
    }
  }

  /** The read that ends them. */
  lemma AppendLast(k0: Kernel, fd: int, p: nat, output0: string, output: string, k: Kernel, call: ReadCall)
    requires Appending(k0, fd, p, output0, output, k) && ReadEffect(k, fd, p, call)
    requires call == Read(k, fd) && !call.got.Data? && call.got != ReadError(EINTR)
    ensures AppendEffect(k0, fd, p, output0, AppendOf(k, fd, output))
  {
    AppendNothing(k0, fd, p, output0, output, k, call);
    match call.got
    case Eof => AppendClose(k0, fd, p, output0, output, call.kernel);
    case NeverReturns =>
    case ReadError(errno) =>
      if errno == EAGAIN {
        if call.kernel.pipes[p].taken != |call.kernel.pipes[p].written| {
          assert call.kernel.log[|k.log|].ReadFailed?;
        }
      } else {
        assert call.kernel.log[|k.log|] == ReadFailed(fd, errno);
        AppendClose(k0, fd, p, output0, output, call.kernel);
      }
  }

  lemma AppendMeaning(k: Kernel, fd: int, p: nat, output: string)
    requires Sane(k) && fd in k.fds && k.fds[fd] == Reader(p)
    ensures AppendEffect(k, fd, p, output, AppendOf(k, fd, output))
  {
    AppendStart(k, fd, p, output);
    AppendFrom(k, fd, p, output, output, k);
  }

  // ---- select ----

  /** Some of the watched descriptors, all readable. */
  predicate AllReady(k: Kernel, watched: set<int>, fds: set<int>) {
    fds != {} && fds <= watched && forall fd :: fd in fds ==> Readable(k, fd)
  }

  /** What one `select` does. */
  ghost predicate SelectEffect(k: Kernel, watched: set<int>, wait: Option<Timeval>, call: SelectCall) {
    var now := call.kernel;
    && Sane(now) && now.fds == k.fds && now.misuses == k.misuses && k.clock <= now.clock
    && now.log == k.log + SelectEntries(wait, call.outcome) && now.nonblocking == k.nonblocking
    && |now.pipes| == |k.pipes| && (forall q :: 0 <= q < |k.pipes| ==> PipeDrift(k.pipes[q], now.pipes[q]))
    && (k.child == now.child || (k.child == Running && now.child.Dead?))
    && |now.script| <= |k.script| && (k.script != [] ==> |now.script| < |k.script|)
    && (k.script == [] ==> now.pipes == k.pipes && !call.outcome.SelectError?)
    && (call.outcome.Ready? ==> AllReady(now, watched, call.outcome.fds))
    && (call.outcome.TimedOut? ==> wait.Some? && now.clock >= k.clock + Nanoseconds(wait.value))
    && (call.outcome.NeverReady? ==>
          wait.None? && now.script == [] && forall fd :: fd in watched ==> !Readable(now, fd))
  }

  /** `select` before its call is logged, on descriptors that are open and below the limit. */
  lemma {:induction false} SelectSinceMeaning(k: Kernel, limit: int, watched: set<int>, wait: Option<Timeval>,
                                              since: nat)
    requires Sane(k) && since <= k.clock && forall fd :: fd in watched ==> fd < limit && fd in k.fds
    ensures var call := SelectSince(k, limit, watched, wait, since); var now := call.kernel;
      && Drift(k, now) && Sane(now)
      && (k.script != [] ==> |now.script| < |k.script|)
      && (k.script == [] ==> now.pipes == k.pipes && !call.outcome.SelectError?)
      && (call.outcome.Ready? ==> AllReady(now, watched, call.outcome.fds))
      && (call.outcome.TimedOut? ==> wait.Some? && now.clock >= since + Nanoseconds(wait.value))
      && (call.outcome.NeverReady? ==>
            wait.None? && now.script == [] && forall fd :: fd in watched ==> !Readable(now, fd))
    decreases |k.script|
  {
    var turn := Schedule(k);
    var now := turn.kernel;
    DriftSane(k, now);
    var ready := ReadyAmong(now, limit, watched);
    if turn.fault.None? && ready == {} && k.script != []
      && !(wait.Some? && now.clock >= since + Nanoseconds(wait.value)) {
      SelectSinceMeaning(now, limit, watched, wait, since);
      DriftTransitive(k, now, SelectSince(now, limit, watched, wait, since).kernel);
    }
  }

  lemma SelectMeaning(k: Kernel, limit: int, watched: set<int>, wait: Option<Timeval>)
    requires Sane(k) && forall fd :: fd in watched ==> fd < limit && fd in k.fds
    ensures SelectEffect(k, watched, wait, Select(k, limit, watched, wait))
  {
    SelectSinceMeaning(k, limit, watched, wait, k.clock);
    var call := SelectSince(k, limit, watched, wait, k.clock);
    forall fd | call.outcome.Ready? && fd in call.outcome.fds
      ensures Readable(Select(k, limit, watched, wait).kernel, fd)
    {
      assert Readable(call.kernel, fd);
    }
    forall fd | call.outcome.NeverReady? && fd in watched
      ensures !Readable(Select(k, limit, watched, wait).kernel, fd)
    {
      assert !Readable(call.kernel, fd);
    }
  }

  /** A readable descriptor is reported however little time is left, none included. */
  lemma ReadyWinsOverDeadline(k: Kernel, limit: int, watched: set<int>, wait: Option<Timeval>)
    requires Schedule(k).fault.None? && forall fd :: fd in watched ==> fd < limit && fd in k.fds
    requires exists fd :: fd in watched && Readable(Schedule(k).kernel, fd)
    ensures Select(k, limit, watched, wait).outcome == Ready(ReadyAmong(Schedule(k).kernel, limit, watched))
  {
    var now := Schedule(k).kernel;
    var ready := ReadyAmong(now, limit, watched);
    var fd :| fd in watched && Readable(now, fd);
    assert fd in ready && now.fds == k.fds;
    assert SelectSince(k, limit, watched, wait, k.clock) == SelectCall(now, Ready(ready));
  }

  /** With no time left, a call that does not fail times out exactly when nothing watched is
      readable once the environment has run. */
  lemma DeadlineNeedsSilence(k: Kernel, limit: int, watched: set<int>)
    requires forall fd :: fd in watched ==> fd < limit && fd in k.fds
    ensures Select(k, limit, watched, Some(Timeval(0, 0))).outcome.TimedOut?
      <==> Schedule(k).fault.None? && forall fd :: fd in watched ==> !Readable(Schedule(k).kernel, fd)
  {
    var now := Schedule(k).kernel;
    assert ReadyAmong(now, limit, watched) == {} <==> forall fd :: fd in watched ==> !Readable(now, fd);
  }

  // ---- The deadline ----

  /** The split loses less than a microsecond, and its second field is one. */
  lemma RemainingSplit(deadline: nat, now: nat)
    ensures Remaining(deadline, now).usec <= 999999
    ensures var left := if deadline > now then deadline - now else 0;
      Nanoseconds(Remaining(deadline, now)) <= left < Nanoseconds(Remaining(deadline, now)) + 1000
  {
  }

  /** The deadline, read off the first call logged after `n` others. */
  predicate DeadlineSet(log: seq<Call>, n: nat, timeout: int, deadline: Option<nat>) {
    if timeout <= 0 then deadline == None
    else n < |log| && log[n].Now? && deadline == Some(log[n].at + timeout * 1000000)
  }

  /** Entry `i` reads the clock, the next waits for exactly the time left and times out, the
      third kills the group, less than a microsecond before the deadline or after it. */
  predicate KilledAt(log: seq<Call>, i: nat, deadline: nat) {
    && i + 2 < |log| && log[i].Now? && log[i + 2].GroupKilled?
    && log[i + 1] == Waited(Some(Remaining(deadline, log[i].at)), true)
    && log[i + 2].at + 1000 > deadline
  }

  predicate OnlyKill(log: seq<Call>, n: nat, at: nat) {
    forall j :: n <= j < |log| && log[j].GroupKilled? ==> j == at
  }

  /** The run was killed at its deadline, once. */
  ghost predicate KilledOnce(log: seq<Call>, n: nat, deadline: nat) {
    exists i: nat :: n < i && KilledAt(log, i, deadline) && OnlyKill(log, n, i + 2)
  }

  /** The deadline counts from the first call logged after `n` others. */
  ghost predicate KilledAtDeadline(log: seq<Call>, n: nat, timeout: int) {
    timeout > 0 && n < |log| && log[n].Now? && KilledOnce(log, n, log[n].at + timeout * 1000000)
  }

  // ---- The capture ----

  /** The runner's read ends: the first and the third descriptor it opens. */
  function Out(k0: Kernel): int { k0.nextFd }
  function Err(k0: Kernel): int { k0.nextFd + 2 }

  function OpenEnds(k0: Kernel, stdoutOpen: bool, stderrOpen: bool): map<int, End> {
    k0.fds + (if stdoutOpen then map[Out(k0) := Reader(|k0.pipes|)] else map[])
      + (if stderrOpen then map[Err(k0) := Reader(|k0.pipes| + 1)] else map[])
  }

  /** The capture, as it stands: `k0` is the kernel before the run, whose next pipes are
      `p` for stdout and `p + 1` for stderr. */
  ghost predicate Capturing(k0: Kernel, s: CaptureState) {
    var p, k := |k0.pipes|, s.kernel;
    && Sane(k) && k.misuses == k0.misuses && k0.log <= k.log && |k.pipes| == p + 2
    && Out(k0) !in k0.fds && Err(k0) !in k0.fds && k0.nextFd >= 0
    && k.fds == OpenEnds(k0, s.stdoutOpen, s.stderrOpen)
    && s.result.stdoutText == Captured(k, p) && s.result.stderrText == Captured(k, p + 1)
    && (!s.stdoutOpen ==> Complete(k, p) || ReadFailure(k, |k0.log|))
    && (!s.stderrOpen ==> Complete(k, p + 1) || ReadFailure(k, |k0.log|))
    && (k.child == Running || k.child.Dead?)
  }

  /** A call that reads nothing and closes nothing. */
  ghost predicate Quiet(a: Kernel, b: Kernel) {
    && Sane(b) && b.fds == a.fds && b.misuses == a.misuses && b.nonblocking == a.nonblocking && a.log <= b.log
    && |a.pipes| == |b.pipes| && (forall q :: 0 <= q < |a.pipes| ==> PipeDrift(a.pipes[q], b.pipes[q]))
    && (a.child == b.child || (a.child == Running && b.child.Dead?))
  }

  lemma QuietCapturing(k0: Kernel, s: CaptureState, k': Kernel)
    requires Capturing(k0, s) && Quiet(s.kernel, k')
    ensures Capturing(k0, s.(kernel := k'))
  {
    var p, k := |k0.pipes|, s.kernel;
    assert PipeDrift(k.pipes[p], k'.pipes[p]) && PipeDrift(k.pipes[p + 1], k'.pipes[p + 1]);
    LoggedFailures(k0, k, k');
  }

  lemma ClockIsQuiet(k: Kernel)
    requires Sane(k)
    ensures Quiet(k, ReadClock(k)) && ReadClock(k).log == k.log + [Now(ReadClock(k).clock)]
    ensures k.script == [] ==> ReadClock(k).pipes == k.pipes
    ensures |ReadClock(k).script| <= |k.script|
  {
    DriftSane(k, Schedule(k).kernel);
  }

  lemma KillIsQuiet(k: Kernel)
    requires Sane(k) && (k.child == Running || k.child.Dead?)
    ensures var now := KillGroup(k);
      && Quiet(k, now) && now.clock >= k.clock && |now.log| == |k.log| + 1
      && now.log[|k.log|] == GroupKilled(now.clock, Sizes(now.pipes), now.log[|k.log|].ok, now.log[|k.log|].running)
      && (now.log[|k.log|].ok ==> now.child.Dead?)
      && (now.log[|k.log|].ok && now.log[|k.log|].running ==> DiedOfKill(now.child))
  {
    DriftSane(k, Schedule(k).kernel);
  }

  lemma FailureSince(k: Kernel, n: nat, m: nat)
    requires n <= m && ReadFailure(k, m)
    ensures ReadFailure(k, n)
  {
    var i :| m <= i < |k.log| && k.log[i].ReadFailed? && k.log[i].errno.OtherError?;
  }

  lemma LoggedFailures(k0: Kernel, k: Kernel, k': Kernel)
    requires k0.log <= k.log <= k'.log
    ensures ReadFailure(k, |k0.log|) ==> ReadFailure(k', |k0.log|)
    ensures ReadFailure(k', |k.log|) ==> ReadFailure(k', |k0.log|)
  {
    if i :| |k0.log| <= i < |k.log| && k.log[i].ReadFailed? && k.log[i].errno.OtherError? {
      assert k'.log[i].ReadFailed?;
    }
    if ReadFailure(k', |k.log|) {
      FailureSince(k', |k0.log|, |k.log|);
    }
  }

  /** A pipe the parent did not read from stays complete, and its capture stays the same. */
  lemma OtherPipe(a: Kernel, b: Kernel, read: nat, q: nat)
    requires Sane(a) && ReadsOnly(a, b, read) && q < |a.pipes| && q != read
    ensures Captured(a, q) == Captured(b, q)
    ensures Complete(a, q) ==> Complete(b, q)
  {
    assert PipeGrows(a.pipes[q], b.pipes[q]);
  }

  /** What was read extends what was captured. */
  lemma CaptureGrows(a: Kernel, b: Kernel, p: nat)
    requires Sane(a) && Sane(b) && p < |a.pipes| == |b.pipes| && PipeGrows(a.pipes[p], b.pipes[p])
    ensures Captured(b, p) == Captured(a, p) + b.pipes[p].written[a.pipes[p].taken..b.pipes[p].taken]
  {
    var from, to := a.pipes[p].taken, b.pipes[p].taken;
    assert b.pipes[p].written[..to] == b.pipes[p].written[..from] + b.pipes[p].written[from..to];
  }

  /** Reading stdout goes on with the capture. */
  lemma StdoutCapturing(k0: Kernel, s: CaptureState, read: Appended)
    requires Capturing(k0, s) && s.stdoutOpen
    requires AppendEffect(s.kernel, Out(k0), |k0.pipes|, s.result.stdoutText, read)
    ensures Capturing(k0, WithStdout(s, read))
  {
    var p, k, k' := |k0.pipes|, s.kernel, read.kernel;
    CaptureGrows(k, k', p);
    OtherPipe(k, k', p, p + 1);
    LoggedFailures(k0, k, k');
    assert k'.fds == OpenEnds(k0, read.open, s.stderrOpen);
  }

  /** So does reading stderr. */
  lemma StderrCapturing(k0: Kernel, s: CaptureState, read: Appended)
    requires Capturing(k0, s) && s.stderrOpen
    requires AppendEffect(s.kernel, Err(k0), |k0.pipes| + 1, s.result.stderrText, read)
    ensures Capturing(k0, WithStderr(s, read))
  {
    var p, k, k' := |k0.pipes|, s.kernel, read.kernel;
    CaptureGrows(k, k', p + 1);
    OtherPipe(k, k', p + 1, p);
    LoggedFailures(k0, k, k');
    assert k'.fds == OpenEnds(k0, s.stdoutOpen, read.open);
  }

  /** What is left to do when the environment is done. */
  ghost function Work(k0: Kernel, s: CaptureState): nat
    requires Capturing(k0, s)
  {
    Unread(s.kernel, |k0.pipes|) + Unread(s.kernel, |k0.pipes| + 1)
    + (if s.stdoutOpen then 1 else 0) + (if s.stderrOpen then 1 else 0)
  }

  /** One of the streams is open, ready and readable. */
  predicate HasReady(k0: Kernel, s: CaptureState, ready: set<int>) {
    || (s.stdoutOpen && Out(k0) in ready && Readable(s.kernel, Out(k0)))
    || (s.stderrOpen && Err(k0) in ready && Readable(s.kernel, Err(k0)))
  }

  /** What a part of a turn leaves of the capture. */
  ghost predicate Reads(k0: Kernel, s: CaptureState, s': CaptureState) {
    && Capturing(k0, s')
    && s'.result == s.result.(stdoutText := s'.result.stdoutText, stderrText := s'.result.stderrText)
    && s'.left == s.left
    && s.kernel.log <= s'.kernel.log && Uneventful(s'.kernel.log, |s.kernel.log|)
    && |s'.kernel.script| <= |s.kernel.script| && (s.kernel.child.Dead? ==> s'.kernel.child == s.kernel.child)
    && (!s'.returned ==> s.returned ==> !NonBlocking(k0, s'.kernel) && s'.kernel.script == [])
  }

  lemma ReadsTransitive(k0: Kernel, a: CaptureState, b: CaptureState, c: CaptureState)
    requires Reads(k0, a, b) && Reads(k0, b, c) && b.returned
    ensures Reads(k0, a, c)
  {
    assert forall i :: 0 <= i < |b.kernel.log| ==> c.kernel.log[i] == b.kernel.log[i];
  }

  /** Reading stdout, when it is open. */
  lemma StdoutReads(k0: Kernel, s: CaptureState)
    requires Capturing(k0, s) && s.stdoutOpen
    ensures var read := AppendOf(s.kernel, Out(k0), s.result.stdoutText);
      Reads(k0, s, WithStdout(s, read)) && AppendEffect(s.kernel, Out(k0), |k0.pipes|, s.result.stdoutText, read)
  {
    var p := |k0.pipes|;
    assert s.kernel.fds[Out(k0)] == Reader(p);
    AppendMeaning(s.kernel, Out(k0), p, s.result.stdoutText);
    StdoutCapturing(k0, s, AppendOf(s.kernel, Out(k0), s.result.stdoutText));
  }

  lemma StderrReads(k0: Kernel, s: CaptureState)
    requires Capturing(k0, s) && s.stderrOpen
    ensures var read := AppendOf(s.kernel, Err(k0), s.result.stderrText);
      Reads(k0, s, WithStderr(s, read)) && AppendEffect(s.kernel, Err(k0), |k0.pipes| + 1, s.result.stderrText, read)
  {
    var p := |k0.pipes|;
    assert s.kernel.fds[Err(k0)] == Reader(p + 1);
    AppendMeaning(s.kernel, Err(k0), p + 1, s.result.stderrText);
    StderrCapturing(k0, s, AppendOf(s.kernel, Err(k0), s.result.stderrText));
  }

  lemma FirstReads(k0: Kernel, s: CaptureState, ready: set<int>)
    requires Capturing(k0, s)
    ensures Reads(k0, s, FirstReadyOf(s, Out(k0), ready))
  {
    if s.stdoutOpen && Out(k0) in ready {
      StdoutReads(k0, s);
    }
  }

  /** Reading what is ready goes on with the capture. */
  lemma ReadyReads(k0: Kernel, s: CaptureState, ready: set<int>)
    requires Capturing(k0, s) && s.returned
    ensures Reads(k0, s, ReadyOf(s, Out(k0), Err(k0), ready))
  {
    var one := FirstReadyOf(s, Out(k0), ready);
    FirstReads(k0, s, ready);
    if one.returned && one.stderrOpen && Err(k0) in ready {
      StderrReads(k0, one);
      ReadsTransitive(k0, s, one, ReadyOf(s, Out(k0), Err(k0), ready));
    }
  }

  /** Once the script is over, reading a readable stream makes the rest less. */
  lemma StdoutWorks(k0: Kernel, s: CaptureState)
    requires Capturing(k0, s) && s.stdoutOpen && s.kernel.script == []
    ensures var s' := WithStdout(s, AppendOf(s.kernel, Out(k0), s.result.stdoutText));
      && Capturing(k0, s') && s'.kernel.script == [] && s'.stderrOpen == s.stderrOpen && Work(k0, s') <= Work(k0, s)
      && (s'.returned && Readable(s.kernel, Out(k0)) ==> Work(k0, s') < Work(k0, s))
  {
    StdoutReads(k0, s);
  }

  lemma StderrWorks(k0: Kernel, s: CaptureState)
    requires Capturing(k0, s) && s.stderrOpen && s.kernel.script == []
    ensures var s' := WithStderr(s, AppendOf(s.kernel, Err(k0), s.result.stderrText));
      && Capturing(k0, s') && Work(k0, s') <= Work(k0, s)
      && (s'.returned && Readable(s.kernel, Err(k0)) ==> Work(k0, s') < Work(k0, s))
  {
    StderrReads(k0, s);
  }

  /** Reading from one pipe of a kernel that is done leaves the other as readable as it was. */
  lemma StaysReadable(k0: Kernel, s: CaptureState)
    requires Capturing(k0, s) && s.stdoutOpen && s.stderrOpen && s.kernel.script == []
    ensures Readable(s.kernel, Err(k0)) ==> Readable(AppendOf(s.kernel, Out(k0), s.result.stdoutText).kernel, Err(k0))
  {
    StdoutReads(k0, s);
    var p, k, k' := |k0.pipes|, s.kernel, AppendOf(s.kernel, Out(k0), s.result.stdoutText).kernel;
    assert k'.pipes[p + 1] == k.pipes[p + 1];
    assert k.fds[Err(k0)] == Reader(p + 1) && k'.fds[Err(k0)] == Reader(p + 1);
    if Writer(p + 1) !in k.fds.Values {
      forall fd | fd in k'.fds ensures k'.fds[fd] != Writer(p + 1) {
        assert k.fds[fd] == k'.fds[fd] && k.fds[fd] in k.fds.Values;
      }
    }
  }

  lemma ReadyWorks(k0: Kernel, s: CaptureState, ready: set<int>)
    requires Capturing(k0, s) && s.returned && s.kernel.script == [] && HasReady(k0, s, ready)
    ensures var s' := ReadyOf(s, Out(k0), Err(k0), ready);
      Capturing(k0, s') && (s'.returned ==> Work(k0, s') < Work(k0, s))
  {
    ReadyReads(k0, s, ready);
    var one := FirstReadyOf(s, Out(k0), ready);
    if s.stdoutOpen && Out(k0) in ready {
      StdoutWorks(k0, s);
      if s.stderrOpen {
        StaysReadable(k0, s);
      }
    }
    if one.returned && one.stderrOpen && Err(k0) in ready {
      StderrWorks(k0, one);
    }
  }

  // ---- The deadline's kill ----

  /** The texts hold at least as much as had been written when the group was killed. */
  predicate HoldsAll(printed: seq<nat>, p: nat, result: ProcessResult) {
    p + 1 < |printed| && printed[p] <= |result.stdoutText| && printed[p + 1] <= |result.stderrText|
  }

  /** Unless a read failed, all that was printed before the kill is kept. */
  predicate KeepsPrinted(k0: Kernel, k: Kernel, result: ProcessResult) {
    || ReadTrouble(k, |k0.log|)
    || (forall i :: |k0.log| <= i < |k.log| && k.log[i].GroupKilled? ==> HoldsAll(k.log[i].printed, |k0.pipes|, result))
  }

  /** What pipe `q` held at `start` is taken, unless a read failed since `k0`. */
  predicate Drained(k0: Kernel, start: Kernel, k: Kernel, q: nat)
    requires q < |start.pipes| && q < |k.pipes|
  {
    |start.pipes[q].written| <= k.pipes[q].taken || ReadTrouble(k, |k0.log|)
  }

  lemma TroubleStays(k: Kernel, k': Kernel, n: nat, m: nat)
    requires k.log <= k'.log && n <= m
    ensures ReadTrouble(k, n) ==> ReadTrouble(k', n)
    ensures ReadTrouble(k, m) ==> ReadTrouble(k, n)
    ensures ReadFailure(k, n) ==> ReadTrouble(k, n)
  {
    if ReadTrouble(k, n) {
      var i :| n <= i < |k.log| && k.log[i].ReadFailed?;
      assert k'.log[i].ReadFailed?;
    }
  }

  /** A stream that is closed holds nothing unread. */
  lemma ClosedIsDrained(k0: Kernel, s: CaptureState)
    requires Capturing(k0, s)
    ensures !s.stdoutOpen ==> Drained(k0, s.kernel, s.kernel, |k0.pipes|)
    ensures !s.stderrOpen ==> Drained(k0, s.kernel, s.kernel, |k0.pipes| + 1)
  {
    TroubleStays(s.kernel, s.kernel, |k0.log|, |k0.log|);
  }

  /** A pipe that was read until it had no more is drained. */
  lemma AppendDrained(k0: Kernel, start: Kernel, k: Kernel, fd: int, q: nat, text0: string, read: Appended)
    requires q < |k.pipes| && AppendEffect(k, fd, q, text0, read) && read.returned && k0.log <= k.log
    requires q < |start.pipes| && |start.pipes[q].written| <= |k.pipes[q].written|
    ensures Drained(k0, start, read.kernel, q)
  {
    TroubleStays(read.kernel, read.kernel, |k0.log|, |k.log|);
    assert PipeGrows(k.pipes[q], read.kernel.pipes[q]);
  }

  /** Reading from another pipe leaves a drained one drained. */
  lemma StaysDrained(k0: Kernel, start: Kernel, k: Kernel, k': Kernel, read: nat, q: nat)
    requires Sane(k) && ReadsOnly(k, k', read) && q < |k.pipes|
    requires q < |start.pipes| && Drained(k0, start, k, q) && q != read
    ensures Drained(k0, start, k', q)
  {
    TroubleStays(k, k', |k0.log|, |k0.log|);
  }

  /** Reading all that is open drains both pipes. */
  lemma RestDrains(k0: Kernel, s: CaptureState)
    requires Capturing(k0, s) && s.returned
    ensures var s' := ReadyOf(s, Out(k0), Err(k0), {Out(k0), Err(k0)});
      && |s'.kernel.pipes| == |k0.pipes| + 2
      && (s'.returned ==>
            Drained(k0, s.kernel, s'.kernel, |k0.pipes|) && Drained(k0, s.kernel, s'.kernel, |k0.pipes| + 1))
  {
    var p, both := |k0.pipes|, {Out(k0), Err(k0)};
    ReadyReads(k0, s, both);
    FirstReads(k0, s, both);
    var one, last := FirstReadyOf(s, Out(k0), both), ReadyOf(s, Out(k0), Err(k0), both);
    FirstDrains(k0, s);
    if last.returned && one.stderrOpen {
      StderrReads(k0, one);
      AppendDrained(k0, s.kernel, one.kernel, Err(k0), p + 1, one.result.stderrText,
                    AppendOf(one.kernel, Err(k0), one.result.stderrText));
      StaysDrained(k0, s.kernel, one.kernel, last.kernel, p + 1, p);
    }
  }

  /** Reading stdout first drains its pipe, and leaves the other as it is or with more. */
  lemma FirstDrains(k0: Kernel, s: CaptureState)
    requires Capturing(k0, s) && s.returned
    ensures var p, one := |k0.pipes|, FirstReadyOf(s, Out(k0), {Out(k0), Err(k0)});
      && |one.kernel.pipes| == p + 2 && |s.kernel.pipes[p + 1].written| <= |one.kernel.pipes[p + 1].written|
      && (one.returned ==> Drained(k0, s.kernel, one.kernel, p))
      && (!one.stderrOpen ==> Drained(k0, s.kernel, one.kernel, p + 1))
  {
    var p, one := |k0.pipes|, FirstReadyOf(s, Out(k0), {Out(k0), Err(k0)});
    ClosedIsDrained(k0, s);
    if s.stdoutOpen {
      StdoutReads(k0, s);
      var read := AppendOf(s.kernel, Out(k0), s.result.stdoutText);
      if read.returned {
        AppendDrained(k0, s.kernel, s.kernel, Out(k0), p, s.result.stdoutText, read);
      }
      assert PipeGrows(s.kernel.pipes[p + 1], read.kernel.pipes[p + 1]);
      if !s.stderrOpen {
        StaysDrained(k0, s.kernel, s.kernel, read.kernel, p, p + 1);
      }
    }
  }

  // ---- The loop ----

  /** The log between two turns of the loop: the deadline it was set from, and nothing else of note. */
  predicate LogBeforeKill(k0: Kernel, log: seq<Call>, timeout: int, deadline: Option<nat>) {
    k0.log <= log && Uneventful(log, |k0.log|) && DeadlineSet(log, |k0.log|, timeout, deadline)
  }

  lemma LogGrows(k0: Kernel, log: seq<Call>, log': seq<Call>, timeout: int, deadline: Option<nat>)
    requires log <= log' && LogBeforeKill(k0, log, timeout, deadline) && Uneventful(log', |log|)
    ensures LogBeforeKill(k0, log', timeout, deadline)
  {
    assert forall i :: 0 <= i < |log| ==> log'[i] == log[i];
  }

  /** Between two turns. */
  ghost predicate Looping(k0: Kernel, s: CaptureState, timeout: int, deadline: Option<nat>) {
    && Capturing(k0, s) && LogBeforeKill(k0, s.kernel.log, timeout, deadline)
    && s.returned && !s.left && s.result == UNRUN.(stdoutText := s.result.stdoutText, stderrText := s.result.stderrText)
  }

  /** The loop was left. */
  ghost predicate Left(k0: Kernel, s: CaptureState, timeout: int) {
    && Capturing(k0, s) && LeftLog(k0, s.kernel, timeout, s.result) && s.result.exitCode == 1
    && (s.returned && !s.result.timedOut && s.result.error == "" ==> !s.stdoutOpen && !s.stderrOpen)
    && (s.returned && s.result.timedOut ==> KeepsPrinted(k0, s.kernel, s.result))
    && (KillWorked(s.kernel.log, |k0.log|) ==> s.kernel.child.Dead?)
    && (KilledRunning(s.kernel.log, |k0.log|) ==> DiedOfKill(s.kernel.child))
    && (!s.returned ==> StuckCapturing(timeout, k0, s.kernel))
  }

  /** What the log tells of the result. */
  ghost predicate LeftLog(k0: Kernel, k: Kernel, timeout: int, result: ProcessResult) {
    && (if result.timedOut then KilledAtDeadline(k.log, |k0.log|, timeout) else NoKill(k.log, |k0.log|))
    && (result.timedOut <==> SelectTimedOut(k.log, |k0.log|))
    && (result.timedOut ==> result.error == "")
    && result.error == ErrorAfter(k.log, |k0.log|)
  }

  /** The parent is in a blocking read, or in a `select` without a deadline on a pipe that can still be written. */
  predicate StuckCapturing(timeout: int, k0: Kernel, k: Kernel) {
    var p := |k0.pipes|;
    && k.script == []
    && (!NonBlocking(k0, k) || (timeout <= 0 && |k.pipes| == p + 2 && (k.pipes[p].writers || k.pipes[p + 1].writers)))
  }

  /** Leaving the loop with nothing of note in the log. */
  lemma QuietLeft(k0: Kernel, s: CaptureState, timeout: int, deadline: Option<nat>)
    requires Capturing(k0, s) && LogBeforeKill(k0, s.kernel.log, timeout, deadline)
    requires s.result == UNRUN.(stdoutText := s.result.stdoutText, stderrText := s.result.stderrText)
    requires if s.returned then !s.stdoutOpen && !s.stderrOpen else StuckCapturing(timeout, k0, s.kernel)
    ensures Left(k0, s, timeout)
  {
    NoErrorAfter(s.kernel.log, |k0.log|);
  }

  /** The state the loop's `select` is called in. */
  function AskedState(s: CaptureState, deadline: Option<nat>): CaptureState {
    s.(kernel := Asked(s.kernel, deadline).0)
  }

  lemma AskedLooping(k0: Kernel, s: CaptureState, timeout: int, deadline: Option<nat>)
    requires Looping(k0, s, timeout, deadline)
    ensures var asked := AskedState(s, deadline);
      && Looping(k0, asked, timeout, deadline) && |asked.kernel.script| <= |s.kernel.script|
      && (s.kernel.script == [] ==> asked.kernel.pipes == s.kernel.pipes)
      && (deadline.Some? ==> asked.kernel.log == s.kernel.log + [Now(asked.kernel.clock)])
  {
    if deadline.Some? {
      ClockIsQuiet(s.kernel);
      QuietCapturing(k0, s, ReadClock(s.kernel));
      LogGrows(k0, s.kernel.log, ReadClock(s.kernel).log, timeout, deadline);
    }
  }

  /** The loop's `select`, called on `asked`. */
  function LoopSelect(k0: Kernel, s: CaptureState, deadline: Option<nat>): SelectCall {
    AwaitOf(s.kernel, Out(k0), Err(k0), deadline, s.stdoutOpen, s.stderrOpen)
  }

  lemma LoopSelectMeaning(k0: Kernel, s: CaptureState, timeout: int, deadline: Option<nat>)
    requires Looping(k0, s, timeout, deadline)
    ensures var asked, call := AskedState(s, deadline), LoopSelect(k0, s, deadline);
      && SelectEffect(asked.kernel, Watched(Out(k0), Err(k0), s.stdoutOpen, s.stderrOpen),
                      Asked(s.kernel, deadline).1, call)
      && Capturing(k0, s.(kernel := call.kernel)) && |call.kernel.script| <= |s.kernel.script|
      && (s.kernel.script != [] ==> |call.kernel.script| < |s.kernel.script|)
  {
    var asked := AskedState(s, deadline);
    AskedLooping(k0, s, timeout, deadline);
    var watched := Watched(Out(k0), Err(k0), s.stdoutOpen, s.stderrOpen);
    var wait := Asked(s.kernel, deadline).1;
    SelectMeaning(asked.kernel, Limit(Out(k0), Err(k0), s.stdoutOpen, s.stderrOpen), watched, wait);
    QuietCapturing(k0, asked, LoopSelect(k0, s, deadline).kernel);
  }

  /** One turn: the loop goes on, with less to do, or was left. */
  ghost predicate Turned(k0: Kernel, s: CaptureState, s': CaptureState, timeout: int, deadline: Option<nat>)
    requires Capturing(k0, s)
  {
    if s'.left then Left(k0, s', timeout)
    else
      && Looping(k0, s', timeout, deadline)
      && (if s.kernel.script == [] then s'.kernel.script == [] && Work(k0, s') < Work(k0, s)
          else |s'.kernel.script| < |s.kernel.script|)
  }

  lemma PassMeaning(k0: Kernel, s: CaptureState, timeout: int, deadline: Option<nat>)
    requires Sane(k0) && Looping(k0, s, timeout, deadline) && !Over(s)
    ensures Turned(k0, s, PassOf(s, Out(k0), Err(k0), deadline), timeout, deadline)
  {
    LoopSelectMeaning(k0, s, timeout, deadline);
    match LoopSelect(k0, s, deadline).outcome
    case NeverReady => PassStuck(k0, s, timeout, deadline);
    case SelectError(errno) =>
      if errno == EINTR {
        PassInterrupted(k0, s, timeout, deadline);
      } else {
        PassFailed(k0, s, timeout, deadline, errno);
      }
    case TimedOut => PassExpired(k0, s, timeout, deadline);
    case Ready(fds) => PassReady(k0, s, timeout, deadline, fds);
  }

  lemma PassInterrupted(k0: Kernel, s: CaptureState, timeout: int, deadline: Option<nat>)
    requires Looping(k0, s, timeout, deadline) && !Over(s) && LoopSelect(k0, s, deadline).outcome == SelectError(EINTR)
    ensures Turned(k0, s, PassOf(s, Out(k0), Err(k0), deadline), timeout, deadline)
  {
    AskedLooping(k0, s, timeout, deadline);
    LoopSelectMeaning(k0, s, timeout, deadline);
    LogGrows(k0, AskedState(s, deadline).kernel.log, LoopSelect(k0, s, deadline).kernel.log, timeout, deadline);
  }

  /** A `select` that never returns waits for a pipe that can still be written. */
  lemma PassStuck(k0: Kernel, s: CaptureState, timeout: int, deadline: Option<nat>)
    requires Sane(k0) && Looping(k0, s, timeout, deadline) && !Over(s)
    requires LoopSelect(k0, s, deadline).outcome.NeverReady?
    ensures Turned(k0, s, PassOf(s, Out(k0), Err(k0), deadline), timeout, deadline)
  {
    AskedLooping(k0, s, timeout, deadline);
    LoopSelectMeaning(k0, s, timeout, deadline);
    var k := LoopSelect(k0, s, deadline).kernel;
    LogGrows(k0, AskedState(s, deadline).kernel.log, k.log, timeout, deadline);
    var p, watched := |k0.pipes|, Watched(Out(k0), Err(k0), s.stdoutOpen, s.stderrOpen);
    NoWriterHere(k0, s.(kernel := k));
    if s.stdoutOpen {
      assert k.fds[Out(k0)] == Reader(p) && Out(k0) in watched;
    } else {
      assert k.fds[Err(k0)] == Reader(p + 1) && Err(k0) in watched;
    }
    QuietLeft(k0, PassOf(s, Out(k0), Err(k0), deadline), timeout, deadline);
  }

  /** The parent holds no write end of its two pipes. */
  lemma NoWriterHere(k0: Kernel, s: CaptureState)
    requires Sane(k0) && Capturing(k0, s)
    ensures Writer(|k0.pipes|) !in s.kernel.fds.Values && Writer(|k0.pipes| + 1) !in s.kernel.fds.Values
  {
    forall fd | fd in s.kernel.fds
      ensures s.kernel.fds[fd] != Writer(|k0.pipes|) && s.kernel.fds[fd] != Writer(|k0.pipes| + 1)
    {
      if fd != Out(k0) && fd != Err(k0) {
        assert fd in k0.fds && s.kernel.fds[fd] == k0.fds[fd];
      }
    }
  }

  /** Leaving the loop after a failed `select`. */
  lemma PassFailed(k0: Kernel, s: CaptureState, timeout: int, deadline: Option<nat>, errno: Errno)
    requires Looping(k0, s, timeout, deadline) && !Over(s)
    requires errno != EINTR && LoopSelect(k0, s, deadline).outcome == SelectError(errno)
    ensures Turned(k0, s, PassOf(s, Out(k0), Err(k0), deadline), timeout, deadline)
  {
    var asked, call, wait := AskedState(s, deadline), LoopSelect(k0, s, deadline), Asked(s.kernel, deadline).1;
    AskedLooping(k0, s, timeout, deadline);
    LoopSelectMeaning(k0, s, timeout, deadline);
    FailedInLog(k0, asked.kernel.log, timeout, deadline, wait, errno);
    FailedLeft(k0, s.(kernel := call.kernel), timeout, errno);
  }

  lemma FailedLeft(k0: Kernel, s: CaptureState, timeout: int, errno: Errno)
    requires Capturing(k0, s) && s.returned
    requires s.result == UNRUN.(stdoutText := s.result.stdoutText, stderrText := s.result.stderrText)
    requires NoKill(s.kernel.log, |k0.log|) && !SelectTimedOut(s.kernel.log, |k0.log|)
    requires ErrorAfter(s.kernel.log, |k0.log|) == ErrorText(Selecting, errno)
    ensures Left(k0, s.(result := s.result.(error := ErrorText(Selecting, errno)), left := true), timeout)
  {
  }

  /** The two entries a failed `select` leaves in the log. */
  lemma FailedInLog(k0: Kernel, asked: seq<Call>, timeout: int, deadline: Option<nat>, wait: Option<Timeval>,
                    errno: Errno)
    requires LogBeforeKill(k0, asked, timeout, deadline)
    ensures var log := asked + [Waited(wait, false), CallFailed(Selecting, errno)];
      && NoKill(log, |k0.log|) && !SelectTimedOut(log, |k0.log|)
      && ErrorAfter(log, |k0.log|) == ErrorText(Selecting, errno)
  {
    var log := asked + [Waited(wait, false), CallFailed(Selecting, errno)];
    assert log[|log| - 1] == CallFailed(Selecting, errno);
    assert forall i :: 0 <= i < |asked| ==> log[i] == asked[i];
  }

  /** What `select` reports is an open stream that can be read. */
  lemma ReportedReady(k0: Kernel, s: CaptureState, fds: set<int>)
    requires AllReady(s.kernel, Watched(Out(k0), Err(k0), s.stdoutOpen, s.stderrOpen), fds)
    ensures HasReady(k0, s, fds)
  {
    var fd :| fd in fds;
    assert Readable(s.kernel, fd);
  }

  /** The state the ready streams are read in. */
  lemma ReadyLooping(k0: Kernel, s: CaptureState, timeout: int, deadline: Option<nat>, fds: set<int>)
    requires Looping(k0, s, timeout, deadline) && LoopSelect(k0, s, deadline).outcome == Ready(fds)
    ensures var next := s.(kernel := LoopSelect(k0, s, deadline).kernel);
      && Looping(k0, next, timeout, deadline) && HasReady(k0, next, fds)
      && (if s.kernel.script == [] then next.kernel.script == [] && Work(k0, next) == Work(k0, s)
          else |next.kernel.script| < |s.kernel.script|)
  {
    AskedLooping(k0, s, timeout, deadline);
    LoopSelectMeaning(k0, s, timeout, deadline);
    var next := s.(kernel := LoopSelect(k0, s, deadline).kernel);
    LogGrows(k0, AskedState(s, deadline).kernel.log, next.kernel.log, timeout, deadline);
    ReportedReady(k0, next, fds);
  }

  /** Reading what `select` found ready. */
  lemma PassReady(k0: Kernel, s: CaptureState, timeout: int, deadline: Option<nat>, fds: set<int>)
    requires Looping(k0, s, timeout, deadline) && !Over(s) && LoopSelect(k0, s, deadline).outcome == Ready(fds)
    ensures Turned(k0, s, PassOf(s, Out(k0), Err(k0), deadline), timeout, deadline)
  {
    ReadyLooping(k0, s, timeout, deadline, fds);
    var next := s.(kernel := LoopSelect(k0, s, deadline).kernel);
    var read := ReadyOf(next, Out(k0), Err(k0), fds);
    ReadyReads(k0, next, fds);
    LogGrows(k0, next.kernel.log, read.kernel.log, timeout, deadline);
    if !read.returned {
      QuietLeft(k0, read.(left := true), timeout, deadline);
    } else if s.kernel.script == [] {
      ReadyWorks(k0, next, fds);
    }
  }

  /** At the deadline: the group is killed once, and what was printed is kept. */
  lemma PassExpired(k0: Kernel, s: CaptureState, timeout: int, deadline: Option<nat>)
    requires Looping(k0, s, timeout, deadline) && !Over(s) && LoopSelect(k0, s, deadline).outcome.TimedOut?
    ensures Turned(k0, s, PassOf(s, Out(k0), Err(k0), deadline), timeout, deadline)
  {
    AskedLooping(k0, s, timeout, deadline);
    LoopSelectMeaning(k0, s, timeout, deadline);
    var asked, next := AskedState(s, deadline), s.(kernel := LoopSelect(k0, s, deadline).kernel);
    assert deadline.Some?;
    ExpireMeaning(k0, asked, next, timeout, deadline.value);
  }

  /** None of the streams that are open can be read. */
  predicate Silent(k0: Kernel, s: CaptureState, k: Kernel) {
    (s.stdoutOpen ==> !Readable(k, Out(k0))) && (s.stderrOpen ==> !Readable(k, Err(k0)))
  }

  lemma NoTimeLeft(deadline: nat, now: nat)
    requires now >= deadline
    ensures Remaining(deadline, now) == Timeval(0, 0)
  {
  }

  lemma SilentMeaning(k0: Kernel, s: CaptureState, k: Kernel)
    ensures Silent(k0, s, k)
      <==> forall fd :: fd in Watched(Out(k0), Err(k0), s.stdoutOpen, s.stderrOpen) ==> !Readable(k, fd)
  {
  }

  /** The wait of such a turn. */
  lemma DeadlineSelect(k0: Kernel, s: CaptureState, timeout: int, deadline: nat)
    requires Looping(k0, s, timeout, Some(deadline)) && !Over(s) && ReadClock(s.kernel).clock >= deadline
    ensures var turn := Schedule(ReadClock(s.kernel));
      LoopSelect(k0, s, Some(deadline)).outcome.TimedOut? <==> turn.fault.None? && Silent(k0, s, turn.kernel)
  {
    var asked := ReadClock(s.kernel);
    NoTimeLeft(deadline, asked.clock);
    AskedLooping(k0, s, timeout, Some(deadline));
    DeadlineNeedsSilence(asked, Limit(Out(k0), Err(k0), s.stdoutOpen, s.stderrOpen),
                         Watched(Out(k0), Err(k0), s.stdoutOpen, s.stderrOpen));
    SilentMeaning(k0, s, Schedule(asked).kernel);
  }

  /** A turn that begins at or after the deadline ends the capture there if and only if its
      `select` does not fail and finds no open stream that can be read. */
  lemma DeadlineEndsCapture(k0: Kernel, s: CaptureState, timeout: int, deadline: nat)
    requires Looping(k0, s, timeout, Some(deadline)) && !Over(s) && ReadClock(s.kernel).clock >= deadline
    ensures var turn := Schedule(ReadClock(s.kernel));
      PassOf(s, Out(k0), Err(k0), Some(deadline)).result.timedOut <==> turn.fault.None? && Silent(k0, s, turn.kernel)
  {
    DeadlineSelect(k0, s, timeout, deadline);
    TimedOutByPass(k0, s, timeout, deadline);
  }

  /** A turn times the capture out exactly when its `select` timed out. */
  lemma TimedOutByPass(k0: Kernel, s: CaptureState, timeout: int, deadline: nat)
    requires Looping(k0, s, timeout, Some(deadline)) && !Over(s)
    ensures PassOf(s, Out(k0), Err(k0), Some(deadline)).result.timedOut
      <==> LoopSelect(k0, s, Some(deadline)).outcome.TimedOut?
  {
    LoopSelectMeaning(k0, s, timeout, Some(deadline));
    var next := s.(kernel := LoopSelect(k0, s, Some(deadline)).kernel);
    match LoopSelect(k0, s, Some(deadline)).outcome
    case Ready(fds) => ReadyReads(k0, next, fds);
    case TimedOut =>
      KillIsQuiet(next.kernel);
      var killed := next.(kernel := KillGroup(next.kernel), result := next.result.(timedOut := true));
      QuietCapturing(k0, next, killed.kernel);
      assert Capturing(k0, killed);
      ReadyReads(k0, killed, {Out(k0), Err(k0)});
    case _ =>
  }

  /** The clock was read, and `select` given exactly the time left, which passed. */
  ghost predicate AskedThenWaited(k0: Kernel, asked: Kernel, k: Kernel, deadline: nat) {
    && |k0.log| < |asked.log| - 1 && asked.log[|asked.log| - 1] == Now(asked.clock)
    && k.log == asked.log + [Waited(Some(Remaining(deadline, asked.clock)), true)]
    && k.clock >= asked.clock + Nanoseconds(Remaining(deadline, asked.clock))
  }

  lemma ExpireMeaning(k0: Kernel, asked: CaptureState, s: CaptureState, timeout: int, deadline: nat)
    requires LogBeforeKill(k0, asked.kernel.log, timeout, Some(deadline))
    requires AskedThenWaited(k0, asked.kernel, s.kernel, deadline)
    requires Capturing(k0, s) && s.returned
    requires s.result == UNRUN.(stdoutText := s.result.stdoutText, stderrText := s.result.stderrText)
    ensures Left(k0, ExpireOf(s, Out(k0), Err(k0)), timeout)
  {
    KillIsQuiet(s.kernel);
    var killed := s.(kernel := KillGroup(s.kernel), result := s.result.(timedOut := true));
    QuietCapturing(k0, s, killed.kernel);
    assert Capturing(k0, killed);
    var both := {Out(k0), Err(k0)};
    var last := ReadyOf(killed, Out(k0), Err(k0), both);
    ReadyReads(k0, killed, both);
    RestDrains(k0, killed);
    KilledInLog(k0, asked.kernel, s.kernel, killed.kernel, last.kernel, timeout, deadline);
    if last.returned {
      KilledKeeps(k0, s.kernel, killed.kernel, last);
    }
  }

  /** Draining both pipes after the kill keeps what was printed before it. */
  lemma KilledKeeps(k0: Kernel, start: Kernel, killed: Kernel, s: CaptureState)
    requires Capturing(k0, s)
    requires k0.log <= start.log && NoKill(start.log, |k0.log|) && |killed.pipes| == |k0.pipes| + 2
    requires |killed.log| == |start.log| + 1 && start.log <= killed.log <= s.kernel.log
    requires NoKill(s.kernel.log, |killed.log|)
    requires killed.log[|start.log|].GroupKilled? && killed.log[|start.log|].printed == Sizes(killed.pipes)
    requires Drained(k0, killed, s.kernel, |k0.pipes|) && Drained(k0, killed, s.kernel, |k0.pipes| + 1)
    ensures KeepsPrinted(k0, s.kernel, s.result)
  {
    var log := s.kernel.log;
    if !ReadTrouble(s.kernel, |k0.log|) {
      assert forall i :: |k0.log| <= i < |start.log| ==> log[i] == start.log[i];
      forall i | |k0.log| <= i < |log| && log[i].GroupKilled? ensures HoldsAll(log[i].printed, |k0.pipes|, s.result) {
        assert i == |start.log|;
        assert log[i] == killed.log[i];
      }
    }
  }

  /** The three entries the deadline leaves in the log, and no other of note. */
  lemma KilledInLog(k0: Kernel, asked: Kernel, start: Kernel, killed: Kernel, k: Kernel, timeout: int, deadline: nat)
    requires LogBeforeKill(k0, asked.log, timeout, Some(deadline)) && AskedThenWaited(k0, asked, start, deadline)
    requires |killed.log| == |start.log| + 1 && start.log <= killed.log <= k.log
    requires killed.log[|start.log|].GroupKilled? && killed.log[|start.log|].at >= start.clock
    requires Uneventful(k.log, |killed.log|)
    ensures KilledAtDeadline(k.log, |k0.log|, timeout) && SelectTimedOut(k.log, |k0.log|)
    ensures ErrorAfter(k.log, |k0.log|) == ""
    ensures KillWorked(k.log, |k0.log|) ==> killed.log[|start.log|].ok
    ensures KilledRunning(k.log, |k0.log|) ==> killed.log[|start.log|].ok && killed.log[|start.log|].running
    ensures NoKill(start.log, |k0.log|)
  {
    var log, n, i := k.log, |k0.log|, |asked.log| - 1;
    RemainingSplit(deadline, asked.clock);
    assert forall j :: 0 <= j < |asked.log| ==> log[j] == asked.log[j] && start.log[j] == asked.log[j];
    assert log[i + 1] == start.log[i + 1] && log[i + 2] == killed.log[i + 2];
    assert KilledAt(log, i, deadline);
    assert OnlyKill(log, n, i + 2);
    assert log[i + 1].Waited? && log[i + 1].timedOut;
    NoErrorAfter(log, n);
  }

  /** After any number of turns. */
  lemma {:induction false} PassesMeaning(k0: Kernel, n: nat, start: CaptureState, timeout: int, deadline: Option<nat>)
    requires Sane(k0) && Looping(k0, start, timeout, deadline)
    ensures var s := Passes(n, start, Out(k0), Err(k0), deadline);
      if s.left then Left(k0, s, timeout) else Looping(k0, s, timeout, deadline)
  {
    if n > 0 {
      PassesMeaning(k0, n - 1, start, timeout, deadline);
      var s := Passes(n - 1, start, Out(k0), Err(k0), deadline);
      if !Over(s) {
        PassMeaning(k0, s, timeout, deadline);
      }
    }
  }

  /** When the loop is over, it was left. */
  lemma OverIsLeft(k0: Kernel, n: nat, start: CaptureState, timeout: int, deadline: Option<nat>)
    requires Sane(k0) && Looping(k0, start, timeout, deadline) && Over(Passes(n, start, Out(k0), Err(k0), deadline))
    ensures Left(k0, Passes(n, start, Out(k0), Err(k0), deadline), timeout)
  {
    PassesMeaning(k0, n, start, timeout, deadline);
    var s := Passes(n, start, Out(k0), Err(k0), deadline);
    if !s.left {
      QuietLeft(k0, s, timeout, deadline);
    }
  }

  // ---- Setting up ----

  /** Between `a` and `b` the parent made no call that reads, waits or kills. */
  ghost predicate Idle(a: Kernel, b: Kernel) {
    Sane(b) && b.misuses == a.misuses && a.log <= b.log && |a.pipes| <= |b.pipes| && |b.script| <= |a.script|
  }

  /** A call and its failure, as the log has it. */
  predicate LogsFailure(before: seq<Call>, call: Syscall, error: Option<Errno>, after: seq<Call>) {
    after == before + (if error.Some? then [CallFailed(call, error.value)] else [])
  }

  lemma MakePipeMeaning(k: Kernel)
    requires Sane(k)
    ensures var made := MakePipe(k);
      && Idle(k, made.kernel) && LogsFailure(k.log, Piping, made.error, made.kernel.log)
      && (made.error.Some? ==> made.kernel.fds == k.fds && |made.kernel.pipes| == |k.pipes|)
      && (made.error.None? ==> NewPipe(k, made))
  {
    var now := Schedule(k).kernel;
    DriftSane(k, now);
    forall q | 0 <= q < |k.pipes| ensures now.pipes[q].taken == k.pipes[q].taken {
      assert PipeDrift(k.pipes[q], now.pipes[q]);
    }
  }

  /** Two descriptors that were not open, on an empty pipe that was not there. */
  predicate NewPipe(k: Kernel, made: MadePipe) {
    var p := |k.pipes|;
    && made.read == k.nextFd && made.write == k.nextFd + 1 && made.kernel.nextFd == k.nextFd + 2
    && made.kernel.fds == k.fds[made.read := Reader(p)][made.write := Writer(p)]
    && made.read !in k.fds && made.write !in k.fds && made.read >= 0
    && |made.kernel.pipes| == p + 1 && made.kernel.pipes[p].taken == 0
    && SameTaken(k, made.kernel)
  }

  /** The pipes `a` has are read as far in `b`. */
  predicate SameTaken(a: Kernel, b: Kernel) {
    |a.pipes| <= |b.pipes| && forall q :: 0 <= q < |a.pipes| ==> b.pipes[q].taken == a.pipes[q].taken
  }

  lemma CloseIsIdle(k: Kernel, fd: int)
    requires Sane(k) && fd in k.fds
    ensures Idle(k, Close(k, fd)) && Close(k, fd).fds == k.fds - {fd} && |Close(k, fd).pipes| == |k.pipes|
    ensures SameTaken(k, Close(k, fd)) && Close(k, fd).log == k.log
    ensures k.child == Close(k, fd).child || (k.child == Running && Close(k, fd).child.Dead?)
  {
    var now := Schedule(k).kernel;
    DriftSane(k, now);
    forall q | 0 <= q < |k.pipes| ensures now.pipes[q].taken == k.pipes[q].taken {
      assert PipeDrift(k.pipes[q], now.pipes[q]);
    }
  }

  lemma SetNonBlockingMeaning(k: Kernel, fd: int)
    requires Sane(k)
    ensures var flagged := SetNonBlocking(k, fd);
      && Idle(k, flagged) && flagged.fds == k.fds && |flagged.pipes| == |k.pipes| && SameTaken(k, flagged)
      && flagged.log == k.log
  {
    var first := Schedule(k);
    DriftSane(k, first.kernel);
    var second := Schedule(first.kernel);
    DriftSane(first.kernel, second.kernel);
    DriftTransitive(k, first.kernel, second.kernel);
    forall q | 0 <= q < |k.pipes|
      ensures first.kernel.pipes[q].taken == k.pipes[q].taken == second.kernel.pipes[q].taken
    {
      assert PipeDrift(k.pipes[q], first.kernel.pipes[q]) && PipeDrift(k.pipes[q], second.kernel.pipes[q]);
    }
  }

  lemma ForkMeaning(k: Kernel)
    requires Sane(k)
    ensures var forked := Fork(k);
      && Idle(k, forked.kernel) && forked.kernel.fds == k.fds && |forked.kernel.pipes| == |k.pipes|
      && (forked.error.None? ==> forked.kernel.child == Running)
      && SameTaken(k, forked.kernel) && LogsFailure(k.log, Forking, forked.error, forked.kernel.log)
  {
    var now := Schedule(k).kernel;
    DriftSane(k, now);
    forall q | 0 <= q < |k.pipes| ensures Fork(k).kernel.pipes[q].taken == k.pipes[q].taken {
      assert PipeDrift(k.pipes[q], now.pipes[q]);
    }
  }

  /** The log holds one more entry than before, for the call that gave the error. */
  predicate FailedOnce(before: seq<Call>, error: string, after: seq<Call>) {
    && |after| == |before| + 1 && before <= after && after[|before|].CallFailed?
    && error == ErrorText(after[|before|].call, after[|before|].errno)
  }

  /** From `a` to `b` the parent only closed descriptors. */
  ghost predicate Closes(a: Kernel, b: Kernel) {
    && Idle(a, b) && |b.pipes| == |a.pipes| && SameTaken(a, b) && b.log == a.log
    && (a.child == b.child || (a.child == Running && b.child.Dead?))
  }

  lemma CloseTwoMeaning(k: Kernel, a: int, b: int)
    requires Sane(k) && a in k.fds && b in k.fds && a != b
    ensures Closes(k, CloseTwoOf(k, a, b)) && CloseTwoOf(k, a, b).fds == k.fds - {a, b}
  {
    CloseIsIdle(k, a);
    CloseIsIdle(Close(k, a), b);
    assert CloseTwoOf(k, a, b).fds == k.fds - {a, b};
  }

  lemma CloseFourMeaning(k: Kernel, a: int, b: int, c: int, d: int)
    requires Sane(k) && a in k.fds && b in k.fds && c in k.fds && d in k.fds
    requires a < b < c < d
    ensures var closed := CloseTwoOf(CloseTwoOf(k, a, b), c, d);
      Closes(k, closed) && closed.fds == (k.fds - {a, b}) - {c, d}
  {
    CloseTwoMeaning(k, a, b);
    CloseTwoMeaning(CloseTwoOf(k, a, b), c, d);
  }

  /** The error paths give back the descriptors; the good path holds the two read ends. */
  ghost predicate SetUp(k0: Kernel, started: Started) {
    var k := started.kernel;
    && Sane(k) && k.misuses == k0.misuses
    && (if started.error != "" then k.fds == k0.fds && FailedOnce(k0.log, started.error, k.log)
        else
          && started.out == Out(k0) && started.err == Err(k0) && k.log == k0.log
          && Capturing(k0, Initial(k)))
  }

  function FourEnds(fds: map<int, End>, fd: int, p: nat): map<int, End> {
    fds[fd := Reader(p)][fd + 1 := Writer(p)][fd + 2 := Reader(p + 1)][fd + 3 := Writer(p + 1)]
  }

  /** Which of the four ends are left once some are closed. */
  lemma EndsLeft(fds: map<int, End>, fd: int, p: nat)
    requires fd !in fds && fd + 1 !in fds && fd + 2 !in fds && fd + 3 !in fds
    ensures var four := FourEnds(fds, fd, p);
      && fd in four && fd + 1 in four && fd + 2 in four && fd + 3 in four
      && (four - {fd, fd + 1}) - {fd + 2, fd + 3} == fds
      && four - {fd + 1, fd + 3} == fds + map[fd := Reader(p)] + map[fd + 2 := Reader(p + 1)]
  {
  }

  /** Four descriptors on two new pipes, numbered `p` and `p + 1`. */
  ghost predicate TwoPipes(k0: Kernel, k: Kernel) {
    var p, fd := |k0.pipes|, k0.nextFd;
    && Idle(k0, k) && k.log == k0.log && |k.pipes| == p + 2 && k.pipes[p].taken == 0 && k.pipes[p + 1].taken == 0
    && k.fds == FourEnds(k0.fds, fd, p)
    && fd !in k0.fds && fd + 1 !in k0.fds && fd + 2 !in k0.fds && fd + 3 !in k0.fds && fd >= 0
  }

  lemma TwoPipesMeaning(k0: Kernel)
    requires Sane(k0) && MakePipe(k0).error.None? && MakePipe(MakePipe(k0).kernel).error.None?
    ensures var first, second := MakePipe(k0), MakePipe(MakePipe(k0).kernel);
      && TwoPipes(k0, second.kernel) && first.read == k0.nextFd && first.write == k0.nextFd + 1
      && second.read == k0.nextFd + 2 && second.write == k0.nextFd + 3
  {
    MakePipeMeaning(k0);
    MakePipeMeaning(MakePipe(k0).kernel);
  }

  ghost predicate Forks(k: Kernel, forked: Forked) {
    && Idle(k, forked.kernel) && forked.kernel.fds == k.fds && |forked.kernel.pipes| == |k.pipes|
    && SameTaken(k, forked.kernel)
    && (forked.error.None? ==> forked.kernel.child == Running)
    && LogsFailure(k.log, Forking, forked.error, forked.kernel.log)
  }

  lemma ForkedMeaning(k: Kernel, out: int, err: int)
    requires Sane(k)
    ensures Forks(k, ForkedOf(k, out, err))
  {
    SetNonBlockingMeaning(k, out);
    SetNonBlockingMeaning(SetNonBlocking(k, out), err);
    ForkMeaning(SetNonBlocking(SetNonBlocking(k, out), err));
  }

  lemma SetupMeaning(k0: Kernel)
    requires Sane(k0)
    ensures SetUp(k0, SetupOf(k0))
  {
    if MakePipe(k0).error.Some? {
      MakePipeMeaning(k0);
    } else if MakePipe(MakePipe(k0).kernel).error.Some? {
      SecondPipeFails(k0);
    } else {
      BothPipesMade(k0, MakePipe(k0), MakePipe(MakePipe(k0).kernel));
    }
  }

  lemma SecondPipeFails(k0: Kernel)
    requires Sane(k0) && MakePipe(k0).error.None? && MakePipe(MakePipe(k0).kernel).error.Some?
    ensures SetUp(k0, SetupOf(k0))
  {
    var first := MakePipe(k0);
    MakePipeMeaning(k0);
    var second := MakePipe(first.kernel);
    MakePipeMeaning(first.kernel);
    CloseTwoMeaning(second.kernel, first.read, first.write);
    assert SetupOf(k0).kernel.fds == k0.fds;
  }

  lemma BothPipesMade(k0: Kernel, first: MadePipe, second: MadePipe)
    requires Sane(k0) && first == MakePipe(k0) && second == MakePipe(first.kernel)
    requires first.error.None? && second.error.None?
    ensures SetUp(k0, SetupOf(k0))
  {
    TwoPipesMeaning(k0);
    FromPipes(k0, second.kernel, first.read, first.write, second.read, second.write);
  }

  lemma FromPipes(k0: Kernel, k: Kernel, out: int, outWrite: int, err: int, errWrite: int)
    requires Sane(k0) && TwoPipes(k0, k)
    requires out == Out(k0) && outWrite == Out(k0) + 1 && err == Err(k0) && errWrite == Err(k0) + 1
    ensures SetUp(k0, AfterFork(ForkedOf(k, out, err), out, outWrite, err, errWrite))
  {
    ForkedMeaning(k, out, err);
    ForkSetsUp(k0, k, ForkedOf(k, out, err));
  }

  /** The setup from the fork on. */
  lemma ForkSetsUp(k0: Kernel, k: Kernel, forked: Forked)
    requires Sane(k0) && TwoPipes(k0, k) && Forks(k, forked)
    ensures SetUp(k0, AfterFork(forked, Out(k0), Out(k0) + 1, Err(k0), Err(k0) + 1))
  {
    var out, err := Out(k0), Err(k0);
    EndsLeft(k0.fds, out, |k0.pipes|);
    if forked.error.Some? {
      CloseFourMeaning(forked.kernel, out, out + 1, err, err + 1);
      EndsInError(k0, k, forked, CloseTwoOf(CloseTwoOf(forked.kernel, out, out + 1), err, err + 1));
    } else {
      CloseTwoMeaning(forked.kernel, out + 1, err + 1);
      StartsCapturing(k0, k, forked, CloseTwoOf(forked.kernel, out + 1, err + 1));
    }
  }

  lemma EndsInError(k0: Kernel, k: Kernel, forked: Forked, closed: Kernel)
    requires Idle(k0, k) && k.log == k0.log && Forks(k, forked) && forked.error.Some?
    requires Closes(forked.kernel, closed) && closed.fds == k0.fds
    ensures SetUp(k0, Started(ErrorText(Forking, forked.error.value), Out(k0), Err(k0), closed))
  {
  }

  /** Nothing is captured at the start. */
  lemma StartsCapturing(k0: Kernel, k: Kernel, forked: Forked, closed: Kernel)
    requires TwoPipes(k0, k) && Forks(k, forked) && forked.error.None?
    requires Closes(forked.kernel, closed) && closed.fds == OpenEnds(k0, true, true)
    ensures SetUp(k0, Started("", Out(k0), Err(k0), closed))
  {
  }

  // ---- Reaping the child ----

  /** The entry a finished `waitpid` leaves in the log. */
  function ReapEntry(outcome: Reaping): seq<Call> {
    if outcome.WaitError? && outcome.errno != EINTR then [CallFailed(Waiting, outcome.errno)] else []
  }

  lemma {:induction false} WaitPidMeaning(k: Kernel)
    requires Sane(k) && (k.child == Running || k.child.Dead?)
    ensures var call := WaitPid(k); var now := call.kernel;
      && OnlyReaped(k, now) && now.log == k.log + ReapEntry(call.outcome)
      && (call.outcome.Collected? ==> now.child == Reaped(call.outcome.status))
      && (k.child.Dead? ==> now.child == k.child || now.child == Reaped(k.child.status))
      && (!call.outcome.Collected? ==> now.child == k.child || (k.child == Running && now.child.Dead?))
      && (call.outcome.NeverEnds? ==> now.child == Running && now.script == [])
      && (call.outcome.WaitError? ==> |now.script| < |k.script|)
    decreases |k.script|
  {
    var turn := Schedule(k);
    DriftSane(k, turn.kernel);
    if turn.fault.None? && turn.kernel.child == Running && k.script != [] {
      WaitPidMeaning(turn.kernel);
      ReapedMore(k, turn.kernel, WaitPid(turn.kernel).kernel);
    }
  }

  /** What reaping leaves alone. */
  ghost predicate OnlyReaped(a: Kernel, b: Kernel) {
    && Sane(b) && b.fds == a.fds && b.misuses == a.misuses && b.nonblocking == a.nonblocking
    && |b.pipes| == |a.pipes| && (forall q :: 0 <= q < |a.pipes| ==> PipeDrift(a.pipes[q], b.pipes[q]))
  }

  lemma ReapedMore(a: Kernel, b: Kernel, c: Kernel)
    requires OnlyReaped(a, b) && OnlyReaped(b, c)
    ensures OnlyReaped(a, c)
  {
    forall q | 0 <= q < |a.pipes| ensures PipeDrift(a.pipes[q], c.pipes[q]) {
      assert PipeDrift(a.pipes[q], b.pipes[q]) && PipeDrift(b.pipes[q], c.pipes[q]);
    }
  }

  /** What the reaping of the child comes to. */
  ghost predicate ReapEffect(k: Kernel, call: WaitCall) {
    var now, outcome := call.kernel, call.outcome;
    && OnlyReaped(k, now) && now.log == k.log + ReapEntry(outcome)
    && (k.child.Dead? ==> now.child == k.child || now.child == Reaped(k.child.status))
    && (match outcome
        case Collected(status) => now.child == Reaped(status)
        case WaitError(errno) => errno != EINTR && !now.child.Reaped?
        case NeverEnds => k.child == Running && now.child == Running && now.script == [])
  }

  lemma {:induction false} ReapMeaning(k: Kernel)
    requires Sane(k) && (k.child == Running || k.child.Dead?)
    ensures ReapEffect(k, ReapOf(k))
    decreases |k.script|
  {
    WaitPidMeaning(k);
    var call := WaitPid(k);
    if call.outcome == WaitError(EINTR) {
      ReapMeaning(call.kernel);
      ReapedMore(k, call.kernel, ReapOf(call.kernel).kernel);
    }
  }

  /** Some event ends the wait for a child that runs: its end, or a failure that is no interrupt. */
  predicate EndsWait(script: seq<Event>) {
    script != [] && (script[0].Exit? || (script[0].Fault? && script[0].errno != EINTR) || EndsWait(script[1..]))
  }

  lemma {:induction false} EndsWaitMeaning(script: seq<Event>)
    ensures EndsWait(script)
      <==> exists i :: 0 <= i < |script| && (script[i].Exit? || (script[i].Fault? && script[i].errno != EINTR))
  {
    if script != [] {
      EndsWaitMeaning(script[1..]);
      if i :| 0 <= i < |script| && (script[i].Exit? || (script[i].Fault? && script[i].errno != EINTR)) && i > 0 {
        assert script[1..][i - 1] == script[i];
      }
    }
  }

  /** What the environment does to a child that runs until it hands control back. */
  ghost predicate WaitGoesOn(k: Kernel, turn: Turn) {
    && (turn.kernel.child == Running || turn.kernel.child.Dead?)
    && (EndsWait(k.script) <==>
          || turn.kernel.child.Dead? || (turn.fault.Some? && turn.fault.value != EINTR) || EndsWait(turn.kernel.script))
  }

  lemma {:induction false} ScheduleGoesOn(k: Kernel)
    requires k.child == Running
    ensures WaitGoesOn(k, Schedule(k))
    decreases |k.script|
  {
    if k.script != [] {
      var event, rest := k.script[0], k.(script := k.script[1..]);
      if !event.Yield? && !event.Fault? {
        if event.Exit? {
          StaysDead(Kernels.Apply(rest, event));
        } else {
          ScheduleGoesOn(Kernels.Apply(rest, event));
        }
      }
    }
  }

  lemma {:induction false} StaysDead(k: Kernel)
    requires k.child.Dead?
    ensures Schedule(k).kernel.child.Dead?
    decreases |k.script|
  {
    if k.script != [] && !k.script[0].Yield? && !k.script[0].Fault? {
      StaysDead(Kernels.Apply(k.(script := k.script[1..]), k.script[0]));
    }
  }

  /** A dead child is collected, or its collection fails. */
  lemma {:induction false} DeadIsReaped(k: Kernel)
    requires k.child.Dead?
    ensures !ReapOf(k).outcome.NeverEnds?
    decreases |k.script|
  {
    WaitShrinks(k);
    StaysDead(k);
    if WaitPid(k).outcome == WaitError(EINTR) {
      DeadIsReaped(WaitPid(k).kernel);
    }
  }

  /** One `waitpid` on a child that runs. */
  ghost predicate WaitEnds(k: Kernel, call: WaitCall) {
    match call.outcome
    case NeverEnds => !EndsWait(k.script)
    case Collected(_) => EndsWait(k.script)
    case WaitError(errno) =>
      if errno != EINTR then EndsWait(k.script)
      else
        && (call.kernel.child == Running || call.kernel.child.Dead?)
        && (EndsWait(k.script) <==> call.kernel.child.Dead? || EndsWait(call.kernel.script))
  }

  lemma {:induction false} WaitPidEnds(k: Kernel)
    requires k.child == Running
    ensures WaitEnds(k, WaitPid(k))
    decreases |k.script|
  {
    ScheduleGoesOn(k);
    var turn := Schedule(k);
    if turn.fault.None? && turn.kernel.child == Running && k.script != [] {
      WaitPidEnds(turn.kernel);
    }
  }

  /** The reaping of a child that runs ends if and only if the environment holds the child's
      end, or a failure of the call that is no interrupt. */
  lemma {:induction false} ReapingEnds(k: Kernel)
    requires k.child == Running
    ensures ReapOf(k).outcome.NeverEnds? <==> !EndsWait(k.script)
    decreases |k.script|
  {
    WaitShrinks(k);
    WaitPidEnds(k);
    var call := WaitPid(k);
    if call.outcome == WaitError(EINTR) {
      if call.kernel.child == Running {
        ReapingEnds(call.kernel);
      } else {
        DeadIsReaped(call.kernel);
      }
    }
  }

  // ---- After the loop ----

  /** From `a` to `b` open streams were closed. */
  ghost predicate Shuts(a: Kernel, b: Kernel) {
    && Sane(b) && b.misuses == a.misuses && b.log == a.log
    && |a.pipes| == |b.pipes| && (forall q :: 0 <= q < |a.pipes| ==> PipeDrift(a.pipes[q], b.pipes[q]))
    && (a.child == b.child || (a.child == Running && b.child.Dead?))
  }

  lemma ShutsMore(a: Kernel, b: Kernel, c: Kernel)
    requires Shuts(a, b) && Shuts(b, c)
    ensures Shuts(a, c)
  {
    forall q | 0 <= q < |a.pipes| ensures PipeDrift(a.pipes[q], c.pipes[q]) {
      assert PipeDrift(a.pipes[q], b.pipes[q]) && PipeDrift(b.pipes[q], c.pipes[q]);
    }
  }

  lemma CloseShuts(k: Kernel, fd: int)
    requires Sane(k) && fd in k.fds
    ensures Shuts(k, Close(k, fd)) && Close(k, fd).fds == k.fds - {fd}
  {
    CloseMeaning(k, fd, 0);
  }

  lemma ClosedBothMeaning(k0: Kernel, s: CaptureState)
    requires Capturing(k0, s)
    ensures var closed := ClosedBoth(s, Out(k0), Err(k0)); Shuts(s.kernel, closed) && closed.fds == k0.fds
  {
    var one := if s.stdoutOpen then Close(s.kernel, Out(k0)) else s.kernel;
    DriftSelf(s.kernel);
    if s.stdoutOpen {
      CloseShuts(s.kernel, Out(k0));
    }
    assert one.fds == OpenEnds(k0, false, s.stderrOpen);
    if s.stderrOpen {
      CloseShuts(one, Err(k0));
      ShutsMore(s.kernel, one, Close(one, Err(k0)));
    }
    assert ClosedBoth(s, Out(k0), Err(k0)).fds == k0.fds;
  }

  lemma DriftSelf(k: Kernel)
    requires Sane(k)
    ensures Shuts(k, k)
  {
  }

  /** The parent is in a `waitpid` on a child that runs: both streams are closed, and no kill reached it. */
  predicate StuckReaping(k0: Kernel, k: Kernel) {
    k.script == [] && k.child == Running && k.fds == k0.fds && !KillWorked(k.log, |k0.log|)
  }

  /** The exit code stands for a wait status: the program's own code, 128 and the number of the
      signal that ended it, or 1 for what is neither. */
  predicate StandsFor(exitCode: nat, status: Status) {
    match status
    case Exited(code) => exitCode == code
    case Signaled(signal) => exitCode == signal + 128
    case Stopped => exitCode == 1
  }

  /** What follows the loop: the descriptors are given back, and the error and the status added. */
  ghost predicate Finished(k0: Kernel, s: CaptureState, end: Outcome) {
    var k, result := end.kernel, end.result;
    && k.misuses == k0.misuses && k.fds == k0.fds && |k.pipes| == |s.kernel.pipes|
    && (forall q :: 0 <= q < |k.pipes| ==> PipeDrift(s.kernel.pipes[q], k.pipes[q]))
    && (k.log == s.kernel.log || FailedOnce(s.kernel.log, result.error, k.log))
    && (k.log == s.kernel.log ==> result.error == s.result.error)
    && result == s.result.(error := result.error, exitCode := result.exitCode)
    && (end.returned && s.result.error == "" ==> (result.error == "" <==> k.child.Reaped?))
    && (end.returned ==> if k.child.Reaped? then StandsFor(result.exitCode, k.child.status)
                         else result.exitCode == s.result.exitCode)
    && (KilledRunning(k.log, |k0.log|) ==> DiedOfKill(k.child))
    && (!end.returned ==> StuckReaping(k0, k) && k.log == s.kernel.log)
  }

  lemma FinishMeaning(k0: Kernel, s: CaptureState, timeout: int)
    requires Left(k0, s, timeout) && s.returned
    ensures Finished(k0, s, FinishOf(s, Out(k0), Err(k0)))
  {
    var closed := ClosedBoth(s, Out(k0), Err(k0));
    ClosedBothMeaning(k0, s);
    ReapMeaning(closed);
    FinishedBy(k0, s, timeout, closed, ReapOf(closed));
  }

  /** A run whose loop was left returns if and only if, once both streams are closed, the child
      is dead or the environment still holds its end or a failure of `waitpid`. */
  lemma FinishReturns(k0: Kernel, s: CaptureState, timeout: int)
    requires Left(k0, s, timeout) && s.returned
    ensures var closed := ClosedBoth(s, Out(k0), Err(k0));
      FinishOf(s, Out(k0), Err(k0)).returned <==> closed.child.Dead? || EndsWait(closed.script)
  {
    var closed := ClosedBoth(s, Out(k0), Err(k0));
    ClosedBothMeaning(k0, s);
    if closed.child.Dead? {
      DeadIsReaped(closed);
    } else {
      ReapingEnds(closed);
    }
  }

  lemma FinishedBy(k0: Kernel, s: CaptureState, timeout: int, closed: Kernel, call: WaitCall)
    requires Left(k0, s, timeout) && s.returned && closed == ClosedBoth(s, Out(k0), Err(k0))
    requires Shuts(s.kernel, closed) && closed.fds == k0.fds && ReapEffect(closed, call) && call == ReapOf(closed)
    ensures Finished(k0, s, FinishOf(s, Out(k0), Err(k0)))
  {
    var k := call.kernel;
    forall q | 0 <= q < |k.pipes| ensures PipeDrift(s.kernel.pipes[q], k.pipes[q]) {
      assert PipeDrift(s.kernel.pipes[q], closed.pipes[q]) && PipeDrift(closed.pipes[q], k.pipes[q]);
    }
  }

  // ---- The run ----

  /** Each captured text is a prefix of what was written to its pipe. */
  predicate CapturesPrefixes(k0: Kernel, k: Kernel, result: ProcessResult) {
    var p := |k0.pipes|;
    if |k.pipes| < p + 2 then result.stdoutText == "" && result.stderrText == ""
    else result.stdoutText <= k.pipes[p].written && result.stderrText <= k.pipes[p + 1].written
  }

  /** Each captured text is all that was written, and no process can write more. */
  predicate CapturesAll(k0: Kernel, k: Kernel, result: ProcessResult) {
    var p := |k0.pipes|;
    && |k.pipes| == p + 2
    && result.stdoutText == k.pipes[p].written && !k.pipes[p].writers
    && result.stderrText == k.pipes[p + 1].written && !k.pipes[p + 1].writers
  }

  /** What the loop captured, seen from the end of the run. */
  lemma CaptureAtEnd(k0: Kernel, s: CaptureState, k: Kernel, timeout: int)
    requires Left(k0, s, timeout)
    requires |k.pipes| == |s.kernel.pipes| && s.kernel.log <= k.log
    requires forall q :: 0 <= q < |k.pipes| ==> PipeDrift(s.kernel.pipes[q], k.pipes[q])
    ensures CapturesPrefixes(k0, k, s.result)
    ensures s.returned && s.result.error == "" && !s.result.timedOut && !ReadFailure(k, |k0.log|) ==>
      CapturesAll(k0, k, s.result)
  {
    var p := |k0.pipes|;
    LoggedFailures(k0, s.kernel, k);
    assert PipeDrift(s.kernel.pipes[p], k.pipes[p]) && PipeDrift(s.kernel.pipes[p + 1], k.pipes[p + 1]);
  }

  /** What the log told of the capture, it tells of the run. */
  lemma LogAtEnd(k0: Kernel, left: Kernel, k: Kernel, timeout: int, result0: ProcessResult, error: string)
    requires k0.log <= left.log && LeftLog(k0, left, timeout, result0)
    requires k.log == left.log || FailedOnce(left.log, error, k.log)
    requires k.log == left.log ==> error == result0.error
    ensures if result0.timedOut then KilledAtDeadline(k.log, |k0.log|, timeout) else NoKill(k.log, |k0.log|)
    ensures result0.timedOut <==> SelectTimedOut(k.log, |k0.log|)
    ensures error == ErrorAfter(k.log, |k0.log|)
    ensures KeepsPrinted(k0, left, result0) ==> KeepsPrinted(k0, k, result0)
  {
    var n := |k0.log|;
    assert forall i :: n <= i < |left.log| ==> k.log[i] == left.log[i];
    TroubleStays(left, k, n, n);
    if result0.timedOut {
      KilledStays(left.log, k.log, n, left.log[n].at + timeout * 1000000);
      var i :| n <= i < |left.log| && left.log[i].Waited? && left.log[i].timedOut;
      assert k.log[i].Waited? && k.log[i].timedOut;
    }
  }

  lemma KilledStays(log: seq<Call>, log': seq<Call>, n: nat, deadline: nat)
    requires KilledOnce(log, n, deadline) && log <= log' && NoKill(log', |log|)
    ensures KilledOnce(log', n, deadline)
  {
    var i: nat :| n < i && KilledAt(log, i, deadline) && OnlyKill(log, n, i + 2);
    assert forall j :: 0 <= j < |log| ==> log'[j] == log[j];
    assert KilledAt(log', i, deadline);
    assert OnlyKill(log', n, i + 2);
  }

  /** In which call the parent is when the run does not return. */
  predicate Stuck(timeout: int, k0: Kernel, k: Kernel) {
    StuckReaping(k0, k) || StuckCapturing(timeout, k0, k)
  }

  /** The descriptors and the texts of a run. */
  predicate SafeCapture(k0: Kernel, end: Outcome) {
    var Outcome(result, returned, k) := end;
    // No descriptor is used after it was closed, and every one opened is closed on every return path.
    && k.misuses == k0.misuses && (returned ==> k.fds == k0.fds)
    && CapturesPrefixes(k0, k, result)
    && (returned && result.error == "" && !result.timedOut && !ReadFailure(k, |k0.log|) ==> CapturesAll(k0, k, result))
  }

  /** The deadline of a run. */
  ghost predicate SafeDeadline(timeout: int, k0: Kernel, end: Outcome) {
    var Outcome(result, returned, k) := end;
    && (result.timedOut <==> SelectTimedOut(k.log, |k0.log|))
    && (if result.timedOut then KilledAtDeadline(k.log, |k0.log|, timeout) else NoKill(k.log, |k0.log|))
    && (returned && result.timedOut ==> KeepsPrinted(k0, k, result))
    && (KilledRunning(k.log, |k0.log|) ==> DiedOfKill(k.child))
  }

  /** The error and the exit code of a run. */
  predicate SafeStatus(k0: Kernel, end: Outcome) {
    var Outcome(result, returned, k) := end;
    && result.error == ErrorAfter(k.log, |k0.log|)
    && (returned && result.error == "" ==> k.child.Reaped? && StandsFor(result.exitCode, k.child.status))
    && (returned && result.timedOut ==> (result.error == "" <==> k.child.Reaped?))
    && (returned && result.error != "" ==>
          result.exitCode == 1 || (k.child.Reaped? && StandsFor(result.exitCode, k.child.status)))
  }

  /** Every run, whatever the environment does. */
  lemma RunSafe(timeout: int, k0: Kernel, end: Outcome)
    requires Sane(k0) && RunIs(timeout, k0, end)
    ensures SafeCapture(k0, end) && SafeDeadline(timeout, k0, end) && SafeStatus(k0, end)
    ensures !end.returned ==> Stuck(timeout, k0, end.kernel)
  {
    var n: nat :| RunOf(n, timeout, k0) == Some(end);
    SetupMeaning(k0);
    var started := SetupOf(k0);
    if started.error != "" {
      FailedSetup(k0, started, timeout);
    } else {
      var (start, deadline) := LoopStart(started.kernel, timeout);
      LoopStarts(k0, started, timeout);
      OverIsLeft(k0, n, start, timeout, deadline);
      LeftIsSafe(k0, Passes(n, start, started.out, started.err, deadline), timeout, end);
    }
  }

  /** The exit code of every run that ends without an error: 0 exactly when the program exited
      with 0; a signal's number and 128, which is 137 when it was still running at the kill. */
  lemma ExitCodeMeaning(timeout: int, k0: Kernel, end: Outcome)
    requires Sane(k0) && RunIs(timeout, k0, end) && end.returned && end.result.error == ""
    ensures end.result.exitCode == 0 <==> end.kernel.child == Reaped(Exited(0))
    ensures forall code: nat :: end.kernel.child == Reaped(Exited(code)) ==> end.result.exitCode == code
    ensures forall signal: nat :: end.kernel.child == Reaped(Signaled(signal)) ==> end.result.exitCode == 128 + signal
    ensures end.kernel.child == Reaped(Stopped) ==> end.result.exitCode == 1
    ensures KilledRunning(end.kernel.log, |k0.log|) ==> end.result.timedOut && end.result.exitCode == 137
  {
    RunSafe(timeout, k0, end);
    var status := end.kernel.child.status;
    assert StandsFor(end.result.exitCode, status);
    if KilledRunning(end.kernel.log, |k0.log|) {
      assert status == Signaled(9);
    }
  }

  lemma FailedSetup(k0: Kernel, started: Started, timeout: int)
    requires SetUp(k0, started) && started.error != ""
    ensures var end := Outcome(UNRUN.(error := started.error), true, started.kernel);
      SafeCapture(k0, end) && SafeDeadline(timeout, k0, end) && SafeStatus(k0, end)
  {
  }

  lemma LoopStarts(k0: Kernel, started: Started, timeout: int)
    requires SetUp(k0, started) && started.error == ""
    ensures var (start, deadline) := LoopStart(started.kernel, timeout); Looping(k0, start, timeout, deadline)
  {
    if timeout > 0 {
      ClockIsQuiet(started.kernel);
      QuietCapturing(k0, Initial(started.kernel), ReadClock(started.kernel));
    }
  }

  lemma LeftIsSafe(k0: Kernel, s: CaptureState, timeout: int, end: Outcome)
    requires Left(k0, s, timeout)
    requires end == if s.returned then FinishOf(s, Out(k0), Err(k0)) else Outcome(s.result, false, s.kernel)
    ensures SafeCapture(k0, end) && SafeDeadline(timeout, k0, end) && SafeStatus(k0, end)
    ensures !end.returned ==> Stuck(timeout, k0, end.kernel)
  {
    if s.returned {
      FinishMeaning(k0, s, timeout);
      FinishedIsSafe(k0, s, timeout, end);
    } else {
      DriftSelf(s.kernel);
      CaptureAtEnd(k0, s, s.kernel, timeout);
    }
  }

  lemma FinishedIsSafe(k0: Kernel, s: CaptureState, timeout: int, end: Outcome)
    requires Left(k0, s, timeout) && s.returned && Finished(k0, s, end)
    ensures SafeCapture(k0, end) && SafeDeadline(timeout, k0, end) && SafeStatus(k0, end)
  {
    CaptureAtEnd(k0, s, end.kernel, timeout);
    LogAtEnd(k0, s.kernel, end.kernel, timeout, s.result, end.result.error);
  }

  /** The loop's variables after `n` turns of the run. */
  function LoopEnd(n: nat, timeout: int, k0: Kernel): CaptureState {
    var started := SetupOf(k0);
    var (start, deadline) := LoopStart(started.kernel, timeout);
    Passes(n, start, started.out, started.err, deadline)
  }

  /** Exactly which runs return: those whose setup failed, and those whose capture ended with a
      child that is dead, or whose end or failure to be reaped is still to come. */
  lemma RunReturns(timeout: int, k0: Kernel, n: nat, end: Outcome)
    requires Sane(k0) && RunOf(n, timeout, k0) == Some(end)
    ensures var s := LoopEnd(n, timeout, k0); var closed := ClosedBoth(s, Out(k0), Err(k0));
      end.returned <==> SetupOf(k0).error != "" || (s.returned && (closed.child.Dead? || EndsWait(closed.script)))
  {
    var started := SetupOf(k0);
    SetupMeaning(k0);
    if started.error == "" {
      var (start, deadline) := LoopStart(started.kernel, timeout);
      LoopStarts(k0, started, timeout);
      OverIsLeft(k0, n, start, timeout, deadline);
      var s := Passes(n, start, started.out, started.err, deadline);
      if s.returned {
        FinishReturns(k0, s, timeout);
      }
    }
  }
}
