/**
 Runs of the process runner on scripted kernels: what a deadline does not bound, what is not
 parsed, and what is printed and counted differently (src/process.cpp, src/runtime_analyzer.cpp).
 */
module ScriptedRuns {
  import opened Text
  import opened Kernels
  import opened ProcessSpec

  /** A script that hands control back `n` times before it goes on. */
  function Calm(n: nat, rest: seq<Event>): seq<Event> {
    if n == 0 then rest else [Yield(0)] + Calm(n - 1, rest)
  }

  lemma Yielded(k: Kernel, most: nat, rest: seq<Event>)
    requires k.script == [Yield(most)] + rest
    ensures Schedule(k) == Turn(k.(script := rest), None, most)
  {
    assert k.script[1..] == rest;
  }

  lemma Calmed(k: Kernel, n: nat, rest: seq<Event>)
    requires n > 0 && k.script == Calm(n, rest)
    ensures Schedule(k) == Turn(k.(script := Calm(n - 1, rest)), None, 0)
  {
    Yielded(k, 0, Calm(n - 1, rest));
  }

  /** One event that is no return of control. */
  lemma Happens(k: Kernel, event: Event, rest: seq<Event>)
    requires k.script == [event] + rest && !event.Yield? && !event.Fault?
    ensures Schedule(k) == Schedule(Apply(k.(script := rest), event))
  {
    assert k.script[1..] == rest;
  }

  /** A call that fails. */
  lemma Faulted(k: Kernel, errno: Errno, rest: seq<Event>)
    requires k.script == [Fault(errno)] + rest
    ensures Schedule(k) == Turn(k.(script := rest), Some(errno), 0)
  {
    assert k.script[1..] == rest;
  }

  // ---- Setting up ----

  /** A kernel before the run: nothing open, nothing logged. */
  function Boot(script: seq<Event>): Kernel {
    Kernel(script, [], map[], 0, {}, 0, 0, NoChild, [])
  }

  /** A kernel after the fork: two empty pipes with their read ends open, and a child that runs. */
  function Ready0(script: seq<Event>): Kernel {
    Kernel(script, [Pipe("", 0, true), Pipe("", 0, true)], map[0 := Reader(0), 2 := Reader(1)], 4, {0, 2}, 0, 0,
           Running, [])
  }

  /** A kernel with both pipes made. */
  function Piped(script: seq<Event>, flags: set<int>): Kernel {
    Kernel(script, [Pipe("", 0, false), Pipe("", 0, false)],
           map[0 := Reader(0), 1 := Writer(0), 2 := Reader(1), 3 := Writer(1)], 4, flags, 0, 0, NoChild, [])
  }

  lemma PipesMade(rest: seq<Event>)
    ensures var first := MakePipe(Boot(Calm(2, rest))); var second := MakePipe(first.kernel);
      && first.error.None? && first.read == 0 && first.write == 1
      && second == MadePipe(Piped(rest, {}), None, 2, 3)
  {
    var k := Boot(Calm(2, rest));
    Calmed(k, 2, rest);
    var first := MakePipe(k);
    Calmed(first.kernel, 1, rest);
    var second := MakePipe(first.kernel);
    assert second.kernel.pipes == [Pipe("", 0, false), Pipe("", 0, false)];
  }

  lemma Flagged(rest: seq<Event>, flags: set<int>, fd: int)
    ensures SetNonBlocking(Piped(Calm(2, rest), flags), fd) == Piped(rest, flags + {fd})
  {
    var k := Piped(Calm(2, rest), flags);
    Calmed(k, 2, rest);
    Calmed(k.(script := Calm(1, rest)), 1, rest);
  }

  lemma ForkedAndClosed(rest: seq<Event>)
    ensures Fork(Piped(Calm(3, rest), {0, 2})).error.None?
    ensures CloseTwoOf(Fork(Piped(Calm(3, rest), {0, 2})).kernel, 1, 3) == Ready0(rest)
  {
    var k := Piped(Calm(3, rest), {0, 2});
    Calmed(k, 3, rest);
    var forked := Fork(k).kernel;
    assert Writer(0) in k.fds.Values && Writer(1) in k.fds.Values by {
      assert k.fds[1] == Writer(0) && k.fds[3] == Writer(1);
    }
    assert forked.pipes == [Pipe("", 0, true), Pipe("", 0, true)];
    Calmed(forked, 2, rest);
    var one := Close(forked, 1);
    Calmed(one, 1, rest);
    assert Close(one, 3).fds == map[0 := Reader(0), 2 := Reader(1)];
  }

  lemma CalmCalm(m: nat, n: nat, rest: seq<Event>)
    ensures Calm(m, Calm(n, rest)) == Calm(m + n, rest)
  {
  }

  /** A setup in which nothing happens. */
  lemma CalmSetup(rest: seq<Event>)
    ensures SetupOf(Boot(Calm(9, rest))) == Started("", 0, 2, Ready0(rest))
  {
    CalmCalm(2, 7, rest);
    CalmCalm(2, 5, rest);
    CalmCalm(2, 3, rest);
    PipesMade(Calm(7, rest));
    Flagged(Calm(5, rest), {}, 0);
    Flagged(Calm(3, rest), {0}, 2);
    assert {} + {0} == {0} && {0} + {2} == {0, 2};
    ForkedAndClosed(rest);
  }

  /** A run of some turns after such a setup. */
  lemma SomeTurns(n: nat, timeout: int, rest: seq<Event>, k: Kernel, deadline: Option<nat>, s: CaptureState)
    requires LoopStart(Ready0(rest), timeout) == (Initial(k), deadline)
    requires s == Passes(n, Initial(k), 0, 2, deadline) && Over(s)
    ensures RunIs(timeout, Boot(Calm(9, rest)), AfterLoop(s, 0, 2))
  {
    CalmSetup(rest);
    assert LoopRun(n, timeout, Ready0(rest), 0, 2) == Some(AfterLoop(s, 0, 2));
    assert RunOf(n, timeout, Boot(Calm(9, rest))) == Some(AfterLoop(s, 0, 2));
  }

  /** A run of one turn. */
  lemma OneTurn(timeout: int, rest: seq<Event>, k: Kernel, deadline: Option<nat>, s: CaptureState)
    requires LoopStart(Ready0(rest), timeout) == (Initial(k), deadline)
    requires s == PassOf(Initial(k), 0, 2, deadline) && Over(s)
    ensures RunIs(timeout, Boot(Calm(9, rest)), AfterLoop(s, 0, 2))
  {
    OnePass(Initial(k), deadline);
    SomeTurns(1, timeout, rest, k, deadline, s);
  }

  lemma OnePass(s: CaptureState, deadline: Option<nat>)
    ensures Passes(1, s, 0, 2, deadline) == PassOf(s, 0, 2, deadline)
  {
    assert Passes(0, s, 0, 2, deadline) == s;
  }

  /** The clock as it is read before the loop. */
  lemma CalmStart(timeout: int, rest: seq<Event>)
    requires timeout > 0
    ensures LoopStart(Ready0(Calm(1, rest)), timeout)
      == (Initial(Ready0(rest).(log := [Now(0)])), Some(timeout * 1000000))
  {
    Calmed(Ready0(Calm(1, rest)), 1, rest);
    assert [] + [Now(0)] == [Now(0)];
  }

  // ---- Single calls ----

  /** A stream that ended is closed. */
  lemma ReadsEnd(k: Kernel, fd: int, p: nat, text: string, rest: seq<Event>)
    requires k.script == Calm(2, rest) && fd in k.fds && k.fds[fd] == Reader(p) && p < |k.pipes| && AtEof(k, p)
    ensures AppendOf(k, fd, text) == Appended(text, false, true, k.(script := rest, fds := k.fds - {fd}))
  {
    Calmed(k, 2, rest);
    Calmed(k.(script := Calm(1, rest)), 1, rest);
  }

  /** A stream with nothing to read for now stays open. */
  lemma ReadsNothing(k: Kernel, fd: int, p: nat, text: string, rest: seq<Event>)
    requires k.script == Calm(1, rest) && fd in k.fds && k.fds[fd] == Reader(p) && p < |k.pipes|
    requires k.pipes[p].taken == |k.pipes[p].written| && k.pipes[p].writers && fd in k.nonblocking
    ensures AppendOf(k, fd, text) == Appended(text, true, true, k.(script := rest))
  {
    Calmed(k, 1, rest);
  }

  /** A stream with one buffer of text is read in one go. */
  lemma ReadsOnce(k: Kernel, fd: int, p: nat, more: string, rest: seq<Event>)
    requires k.script == [Yield(BUFFER_SIZE)] + Calm(1, rest) && fd in k.fds && k.fds[fd] == Reader(p) && p < |k.pipes|
    requires k.pipes[p] == Pipe(more, 0, true) && 0 < |more| <= BUFFER_SIZE && fd in k.nonblocking
    ensures AppendOf(k, fd, "") == Appended(more, true, true, WithPipe(k.(script := rest), p, Pipe(more, |more|, true)))
  {
    Yielded(k, BUFFER_SIZE, Calm(1, rest));
    var taken := WithPipe(k.(script := Calm(1, rest)), p, Pipe(more, |more|, true));
    assert more[0..|more|] == more && "" + more == more;
    assert Read(k, fd) == ReadCall(taken, Data(more));
    ReadsNothing(taken, fd, p, more, rest);
  }

  /** A child that ends after a while is collected then. */
  lemma ReapsLate(k: Kernel, later: nat, status: Status)
    requires k.child == Running && k.script == [Tick(later), Exit(status), Yield(0)]
    ensures ReapOf(k)
      == WaitCall(k.(script := [], clock := k.clock + later, child := Reaped(status)), Collected(status))
  {
    var one := k.(script := [Exit(status), Yield(0)], clock := k.clock + later);
    Happens(k, Tick(later), [Exit(status), Yield(0)]);
    Happens(one, Exit(status), [Yield(0)]);
    Yielded(one.(script := [Yield(0)], child := Dead(status)), 0, []);
  }

  // ---- A run longer than its deadline ----

  /** A kernel in the capture loop: a text is printed and read, both streams are open. */
  function Busy(text: string, clock: nat, script: seq<Event>, log: seq<Call>): Kernel {
    Ready0(script).(pipes := [Pipe(text, |text|, true), Pipe("", 0, true)], clock := clock, log := log)
  }

  function BusyState(k: Kernel, text: string): CaptureState {
    CaptureState(UNRUN.(stdoutText := text), true, true, true, false, k)
  }

  function Xs(n: nat): string {
    if n == 0 then "" else "x" + Xs(n - 1)
  }

  function LateEnds(late: nat, rest: seq<Event>): seq<Event> {
    [Tick(late)] + ([CloseWriters(0)] + ([CloseWriters(1)] + ([Yield(0)] + rest)))
  }

  function LateChild(later: nat): seq<Event> {
    [Tick(later), Exit(Exited(0)), Yield(0)]
  }

  /** What is ready once the environment has run is reported, whatever the wait. */
  lemma SelectsReady(k: Kernel, now: Kernel, ready: set<int>, wait: Option<Timeval>)
    requires Schedule(k) == Turn(now, None, 0) && 0 in now.fds && 2 in now.fds
    requires ready != {} && ready <= {0, 2} && forall fd :: fd in {0, 2} ==> (fd in ready <==> Readable(now, fd))
    ensures Select(k, 3, {0, 2}, wait) == SelectCall(now.(log := now.log + [Waited(wait, false)]), Ready(ready))
  {
    assert ReadyAmong(now, 3, {0, 2}) == ready;
  }

  /** The byte makes its stream ready, however late it is. */
  lemma SelectsByte(text: string, clock: nat, log: seq<Call>, each: nat, rest: seq<Event>, wait: Option<Timeval>)
    ensures var k := Busy(text, clock, [Tick(each)] + ([Write(0, "x")] + ([Yield(0)] + rest)), log);
      var now := Busy(text, clock + each, rest, log + [Waited(wait, false)]);
      Select(k, 3, {0, 2}, wait)
        == SelectCall(now.(pipes := [Pipe(text + "x", |text|, true), Pipe("", 0, true)]), Ready({0}))
  {
    var k := Busy(text, clock, [Tick(each)] + ([Write(0, "x")] + ([Yield(0)] + rest)), log);
    var one := Busy(text, clock + each, [Write(0, "x")] + ([Yield(0)] + rest), log);
    Happens(k, Tick(each), one.script);
    var two := one.(script := [Yield(0)] + rest, pipes := [Pipe(text + "x", |text|, true), Pipe("", 0, true)]);
    Happens(one, Write(0, "x"), two.script);
    Yielded(two, 0, rest);
    var now := two.(script := rest);
    assert Readable(now, 0) && !Readable(now, 2);
    SelectsReady(k, now, {0}, wait);
  }

  /** The byte is read. */
  lemma ReadsByte(k: Kernel, text: string, rest: seq<Event>)
    requires k.script == [Yield(1)] + Calm(1, rest) && 0 in k.fds && k.fds[0] == Reader(0) && |k.pipes| > 0
    requires k.pipes[0] == Pipe(text + "x", |text|, true) && 0 in k.nonblocking
    ensures AppendOf(k, 0, text)
      == Appended(text + "x", true, true, WithPipe(k.(script := rest), 0, Pipe(text + "x", |text| + 1, true)))
  {
    Yielded(k, 1, Calm(1, rest));
    var taken := WithPipe(k.(script := Calm(1, rest)), 0, Pipe(text + "x", |text| + 1, true));
    assert (text + "x")[|text|..|text| + 1] == "x";
    assert Read(k, 0) == ReadCall(taken, Data("x"));
    ReadsNothing(taken, 0, 0, text + "x", rest);
  }

  /** A turn whose wait finds something ready reads that. */
  lemma PassReads(s: CaptureState, time: nat, next: CaptureState, ready: set<int>, read: CaptureState)
    requires s.stdoutOpen && s.stderrOpen && !s.left && next == s.(kernel := next.kernel)
    requires AwaitOf(s.kernel, 0, 2, Some(time), true, true) == SelectCall(next.kernel, Ready(ready))
    requires ReadyOf(next, 0, 2, ready) == read && read.returned && !read.left
    ensures PassOf(s, 0, 2, Some(time)) == read
  {
  }

  /** The log after a turn's wait that found something ready. */
  function TurnLog(log: seq<Call>, clock: nat, time: nat): seq<Call> {
    log + [Now(clock)] + [Waited(Some(Remaining(time, clock)), false)]
  }

  /** The wait of a busy turn. */
  lemma AwaitsByte(text: string, clock: nat, log: seq<Call>, each: nat, rest: seq<Event>, time: nat)
    ensures var k := Busy(text, clock, Calm(1, [Tick(each)] + ([Write(0, "x")] + ([Yield(0)] + rest))), log);
      var now := Busy(text, clock + each, rest, TurnLog(log, clock, time));
      AwaitOf(k, 0, 2, Some(time), true, true)
        == SelectCall(now.(pipes := [Pipe(text + "x", |text|, true), Pipe("", 0, true)]), Ready({0}))
  {
    var body := [Tick(each)] + ([Write(0, "x")] + ([Yield(0)] + rest));
    var k := Busy(text, clock, Calm(1, body), log);
    Calmed(k, 1, body);
    var asked := Busy(text, clock, body, log + [Now(clock)]);
    assert ReadClock(k) == asked;
    SelectsByte(text, clock, asked.log, each, rest, Some(Remaining(time, clock)));
    assert Watched(0, 2, true, true) == {0, 2};
  }

  /** With the script, a turn waits until a byte is printed. */
  ghost predicate AwaitsByteBy(script: seq<Event>, each: nat, rest: seq<Event>) {
    forall text: string, clock: nat, log: seq<Call>, time: nat
      {:trigger AwaitOf(Busy(text, clock, script, log), 0, 2, Some(time), true, true)} ::
      AwaitOf(Busy(text, clock, script, log), 0, 2, Some(time), true, true)
        == SelectCall(Printed(text, clock + each, rest, TurnLog(log, clock, time)), Ready({0}))
  }

  /** A byte is printed and not read. */
  function Printed(text: string, clock: nat, script: seq<Event>, log: seq<Call>): Kernel {
    Busy(text, clock, script, log).(pipes := [Pipe(text + "x", |text|, true), Pipe("", 0, true)])
  }

  /** With the script, that byte is read. */
  ghost predicate ReadsByteBy(script: seq<Event>, rest: seq<Event>) {
    forall text: string, clock: nat, log: seq<Call>
      {:trigger ReadyOf(BusyState(Printed(text, clock, script, log), text), 0, 2, {0})} ::
      ReadyOf(BusyState(Printed(text, clock, script, log), text), 0, 2, {0})
        == BusyState(Busy(text + "x", clock, rest, log), text + "x")
  }

  /** With the script, a turn of the loop is busy and takes that long. */
  ghost predicate BusyBy(script: seq<Event>, each: nat, rest: seq<Event>) {
    forall text: string, clock: nat, log: seq<Call>, time: nat
      {:trigger PassOf(BusyState(Busy(text, clock, script, log), text), 0, 2, Some(time))} ::
      PassOf(BusyState(Busy(text, clock, script, log), text), 0, 2, Some(time))
        == BusyState(Busy(text + "x", clock + each, rest, TurnLog(log, clock, time)), text + "x")
  }

  lemma FindAwaitsByte(each: nat, rest: seq<Event>) returns (script: seq<Event>)
    ensures AwaitsByteBy(script, each, rest)
  {
    script := Calm(1, [Tick(each)] + ([Write(0, "x")] + ([Yield(0)] + rest)));
    forall text: string, clock: nat, log: seq<Call>, time: nat
      ensures AwaitOf(Busy(text, clock, script, log), 0, 2, Some(time), true, true)
        == SelectCall(Printed(text, clock + each, rest, TurnLog(log, clock, time)), Ready({0}))
    {
      AwaitsByte(text, clock, log, each, rest, time);
    }
  }

  lemma FindReadsByte(rest: seq<Event>) returns (script: seq<Event>)
    ensures ReadsByteBy(script, rest)
  {
    script := [Yield(1)] + Calm(1, rest);
    forall text: string, clock: nat, log: seq<Call>
      ensures ReadyOf(BusyState(Printed(text, clock, script, log), text), 0, 2, {0})
        == BusyState(Busy(text + "x", clock, rest, log), text + "x")
    {
      var next, read := Printed(text, clock, script, log), Busy(text + "x", clock, rest, log);
      ReadsByte(next, text, rest);
      assert WithPipe(next.(script := rest), 0, Pipe(text + "x", |text| + 1, true)) == read;
    }
  }

  /** There is a script for a busy turn before any other. */
  lemma FindBusy(each: nat, rest: seq<Event>) returns (script: seq<Event>)
    ensures BusyBy(script, each, rest)
  {
    var tail := FindReadsByte(rest);
    script := FindAwaitsByte(each, tail);
    forall text: string, clock: nat, log: seq<Call>, time: nat
      ensures PassOf(BusyState(Busy(text, clock, script, log), text), 0, 2, Some(time))
        == BusyState(Busy(text + "x", clock + each, rest, TurnLog(log, clock, time)), text + "x")
    {
      var next := Printed(text, clock + each, tail, TurnLog(log, clock, time));
      PassReads(BusyState(Busy(text, clock, script, log), text), time, BusyState(next, text), {0},
                BusyState(Busy(text + "x", clock + each, rest, next.log), text + "x"));
    }
  }

  lemma TimePasses(k: Kernel, nanoseconds: nat, rest: seq<Event>)
    requires k.script == [Tick(nanoseconds)] + rest
    ensures Schedule(k) == Schedule(k.(script := rest, clock := k.clock + nanoseconds))
  {
    Happens(k, Tick(nanoseconds), rest);
  }

  lemma WritersClose(k: Kernel, p: nat, rest: seq<Event>)
    requires k.script == [CloseWriters(p)] + rest && p < |k.pipes|
    ensures Schedule(k) == Schedule(WithPipe(k.(script := rest), p, k.pipes[p].(writers := false)))
  {
    Happens(k, CloseWriters(p), rest);
  }

  /** What the environment does until control comes back. */
  lemma StreamsEnd(text: string, clock: nat, log: seq<Call>, late: nat, rest: seq<Event>)
    ensures Schedule(Busy(text, clock, LateEnds(late, rest), log))
      == Turn(Ended(text, clock + late, rest, log), None, 0)
  {
    var last := [Yield(0)] + rest;
    var k := Busy(text, clock, LateEnds(late, rest), log);
    TimePasses(k, late, [CloseWriters(0)] + ([CloseWriters(1)] + last));
    var one := Busy(text, clock + late, [CloseWriters(0)] + ([CloseWriters(1)] + last), log);
    WritersClose(one, 0, [CloseWriters(1)] + last);
    var two := WithPipe(one.(script := [CloseWriters(1)] + last), 0, Pipe(text, |text|, false));
    WritersClose(two, 1, last);
    BothClosed(text, clock + late, last, log);
    Yielded(Ended(text, clock + late, last, log), 0, rest);
  }

  lemma BothClosed(text: string, clock: nat, script: seq<Event>, log: seq<Call>)
    ensures var one := WithPipe(Busy(text, clock, script, log), 0, Pipe(text, |text|, false));
      WithPipe(one, 1, Pipe("", 0, false)) == Ended(text, clock, script, log)
  {
    assert WithPipe(WithPipe(Busy(text, clock, script, log), 0, Pipe(text, |text|, false)), 1, Pipe("", 0, false)).pipes
      == [Pipe(text, |text|, false), Pipe("", 0, false)];
  }

  /** Both streams are at their end. */
  lemma BothEnded(text: string, clock: nat, script: seq<Event>, log: seq<Call>)
    ensures var k := Ended(text, clock, script, log);
      Readable(k, 0) && Readable(k, 2) && AtEof(k, 0) && AtEof(k, 1) && AtEof(k.(fds := k.fds - {0}), 1)
  {
    var k := Ended(text, clock, script, log);
    assert Writer(0) !in k.fds.Values && Writer(1) !in k.fds.Values && Writer(1) !in (k.fds - {0}).Values;
  }

  /** The streams as they end: both are ready, however late it is. */
  lemma SelectsLate(text: string, clock: nat, log: seq<Call>, late: nat, rest: seq<Event>, wait: Option<Timeval>)
    ensures var now := Ended(text, clock + late, rest, log + [Waited(wait, false)]);
      Select(Busy(text, clock, LateEnds(late, rest), log), 3, {0, 2}, wait) == SelectCall(now, Ready({0, 2}))
  {
    StreamsEnd(text, clock, log, late, rest);
    BothEnded(text, clock + late, rest, log);
    SelectsReady(Busy(text, clock, LateEnds(late, rest), log), Ended(text, clock + late, rest, log), {0, 2}, wait);
  }

  function Ended(text: string, clock: nat, script: seq<Event>, log: seq<Call>): Kernel {
    Busy(text, clock, script, log).(pipes := [Pipe(text, |text|, false), Pipe("", 0, false)])
  }

  /** The loop's variables once both streams were read to their end and closed. */
  function EndedState(text: string, k: Kernel): CaptureState {
    CaptureState(UNRUN.(stdoutText := text), false, false, true, false, k.(fds := map[]))
  }

  /** The wait of the last turn. */
  lemma AwaitsLate(text: string, clock: nat, log: seq<Call>, late: nat, rest: seq<Event>, time: nat)
    ensures AwaitOf(Busy(text, clock, Calm(1, LateEnds(late, rest)), log), 0, 2, Some(time), true, true)
      == SelectCall(Ended(text, clock + late, rest, TurnLog(log, clock, time)), Ready({0, 2}))
  {
    var k := Busy(text, clock, Calm(1, LateEnds(late, rest)), log);
    Calmed(k, 1, LateEnds(late, rest));
    var asked := Busy(text, clock, LateEnds(late, rest), log + [Now(clock)]);
    assert ReadClock(k) == asked;
    SelectsLate(text, clock, asked.log, late, rest, Some(Remaining(time, clock)));
    assert Watched(0, 2, true, true) == {0, 2};
  }

  /** Reading both streams to their end. */
  lemma ReadsBothEnds(text: string, clock: nat, rest: seq<Event>, log: seq<Call>)
    ensures ReadyOf(BusyState(Ended(text, clock, Calm(4, rest), log), text), 0, 2, {0, 2})
      == EndedState(text, Ended(text, clock, rest, log))
  {
    var next := Ended(text, clock, Calm(4, rest), log);
    CalmCalm(2, 2, rest);
    BothEnded(text, clock, Calm(4, rest), log);
    ReadsEnd(next, 0, 0, text, Calm(2, rest));
    var one := next.(script := Calm(2, rest), fds := next.fds - {0});
    BothEnded(text, clock, Calm(2, rest), log);
    ReadsEnd(one, 2, 1, "", rest);
    assert one.fds - {2} == map[];
  }

  ghost predicate AwaitsEndBy(script: seq<Event>, late: nat, rest: seq<Event>) {
    forall text: string, clock: nat, log: seq<Call>, time: nat
      {:trigger AwaitOf(Busy(text, clock, script, log), 0, 2, Some(time), true, true)} ::
      AwaitOf(Busy(text, clock, script, log), 0, 2, Some(time), true, true)
        == SelectCall(Ended(text, clock + late, rest, TurnLog(log, clock, time)), Ready({0, 2}))
  }

  ghost predicate ReadsEndBy(script: seq<Event>, rest: seq<Event>) {
    forall text: string, clock: nat, log: seq<Call>
      {:trigger ReadyOf(BusyState(Ended(text, clock, script, log), text), 0, 2, {0, 2})} ::
      ReadyOf(BusyState(Ended(text, clock, script, log), text), 0, 2, {0, 2})
        == EndedState(text, Ended(text, clock, rest, log))
  }

  /** With the script, both streams end in a turn of the loop. */
  ghost predicate LastBy(script: seq<Event>, late: nat, rest: seq<Event>) {
    forall text: string, clock: nat, log: seq<Call>, time: nat
      {:trigger PassOf(BusyState(Busy(text, clock, script, log), text), 0, 2, Some(time))} ::
      PassOf(BusyState(Busy(text, clock, script, log), text), 0, 2, Some(time))
        == EndedState(text, Ended(text, clock + late, rest, TurnLog(log, clock, time)))
  }

  lemma FindAwaitsEnd(late: nat, rest: seq<Event>) returns (script: seq<Event>)
    ensures AwaitsEndBy(script, late, rest)
  {
    script := Calm(1, LateEnds(late, rest));
    forall text: string, clock: nat, log: seq<Call>, time: nat
      ensures AwaitOf(Busy(text, clock, script, log), 0, 2, Some(time), true, true)
        == SelectCall(Ended(text, clock + late, rest, TurnLog(log, clock, time)), Ready({0, 2}))
    {
      AwaitsLate(text, clock, log, late, rest, time);
    }
  }

  lemma FindReadsEnd(rest: seq<Event>) returns (script: seq<Event>)
    ensures ReadsEndBy(script, rest)
  {
    script := Calm(4, rest);
    forall text: string, clock: nat, log: seq<Call>
      ensures ReadyOf(BusyState(Ended(text, clock, script, log), text), 0, 2, {0, 2})
        == EndedState(text, Ended(text, clock, rest, log))
    {
      ReadsBothEnds(text, clock, rest, log);
    }
  }

  /** There is a script for the last turn. */
  lemma FindLast(late: nat, rest: seq<Event>) returns (script: seq<Event>)
    ensures LastBy(script, late, rest)
  {
    var tail := FindReadsEnd(rest);
    script := FindAwaitsEnd(late, tail);
    forall text: string, clock: nat, log: seq<Call>, time: nat
      ensures PassOf(BusyState(Busy(text, clock, script, log), text), 0, 2, Some(time))
        == EndedState(text, Ended(text, clock + late, rest, TurnLog(log, clock, time)))
    {
      var next := Ended(text, clock + late, tail, TurnLog(log, clock, time));
      PassReads(BusyState(Busy(text, clock, script, log), text), time, BusyState(next, text), {0, 2},
                EndedState(text, next.(script := rest)));
    }
  }

  // ---- Many turns ----

  /** One turn of the loop before the others. */
  lemma TurnBefore(n: nat, a: CaptureState, b: CaptureState, c: CaptureState, time: nat)
    requires PassOf(a, 0, 2, Some(time)) == b && Passes(n, b, 0, 2, Some(time)) == c
    ensures Passes(n + 1, a, 0, 2, Some(time)) == c
  {
    PassesFirst(n, a, 0, 2, Some(time));
  }

  function PrintedAfter(turns: nat, text: string): string {
    if turns == 0 then text else PrintedAfter(turns - 1, text + "x")
  }

  function ClockAfter(turns: nat, each: nat, clock: nat): nat {
    if turns == 0 then clock else ClockAfter(turns - 1, each, clock + each)
  }

  function LogAfter(turns: nat, each: nat, log: seq<Call>, clock: nat, time: nat): seq<Call> {
    if turns == 0 then TurnLog(log, clock, time)
    else LogAfter(turns - 1, each, TurnLog(log, clock, time), clock + each, time)
  }

  /** The state after so many busy turns and the last one. */
  function LateState(turns: nat, each: nat, late: nat, rest: seq<Event>,
                     text: string, clock: nat, log: seq<Call>, time: nat): CaptureState {
    var printed := PrintedAfter(turns, text);
    EndedState(printed, Ended(printed, ClockAfter(turns, each, clock) + late, rest,
                              LogAfter(turns, each, log, clock, time)))
  }

  /** With the script, so many turns are busy and the next one is the last. */
  ghost predicate TurnsBy(script: seq<Event>, turns: nat, each: nat, late: nat, rest: seq<Event>) {
    forall text: string, clock: nat, log: seq<Call>, time: nat
      {:trigger Passes(turns + 1, BusyState(Busy(text, clock, script, log), text), 0, 2, Some(time))} ::
      Passes(turns + 1, BusyState(Busy(text, clock, script, log), text), 0, 2, Some(time))
        == LateState(turns, each, late, rest, text, clock, log, time)
  }

  lemma BusyBefore(script: seq<Event>, tail: seq<Event>, turns: nat, each: nat, late: nat, rest: seq<Event>,
                   text: string, clock: nat, log: seq<Call>, time: nat)
    requires turns > 0 && BusyBy(script, each, tail) && TurnsBy(tail, turns - 1, each, late, rest)
    ensures Passes(turns + 1, BusyState(Busy(text, clock, script, log), text), 0, 2, Some(time))
      == LateState(turns, each, late, rest, text, clock, log, time)
  {
    TurnBefore(turns, BusyState(Busy(text, clock, script, log), text),
               BusyState(Busy(text + "x", clock + each, tail, TurnLog(log, clock, time)), text + "x"),
               LateState(turns - 1, each, late, rest, text + "x", clock + each, TurnLog(log, clock, time), time), time);
  }

  lemma LastAlone(script: seq<Event>, each: nat, late: nat, rest: seq<Event>,
                  text: string, clock: nat, log: seq<Call>, time: nat)
    requires LastBy(script, late, rest)
    ensures Passes(1, BusyState(Busy(text, clock, script, log), text), 0, 2, Some(time))
      == LateState(0, each, late, rest, text, clock, log, time)
  {
    OnePass(BusyState(Busy(text, clock, script, log), text), Some(time));
  }

  /** There is a script for any number of busy turns before the last one. */
  lemma {:induction false} FindTurns(turns: nat, each: nat, late: nat, rest: seq<Event>) returns (script: seq<Event>)
    ensures TurnsBy(script, turns, each, late, rest)
  {
    if turns == 0 {
      script := FindLast(late, rest);
      forall text: string, clock: nat, log: seq<Call>, time: nat
        ensures Passes(1, BusyState(Busy(text, clock, script, log), text), 0, 2, Some(time))
          == LateState(0, each, late, rest, text, clock, log, time)
      {
        LastAlone(script, each, late, rest, text, clock, log, time);
      }
    } else {
      var tail := FindTurns(turns - 1, each, late, rest);
      script := FindBusy(each, tail);
      forall text: string, clock: nat, log: seq<Call>, time: nat
        ensures Passes(turns + 1, BusyState(Busy(text, clock, script, log), text), 0, 2, Some(time))
          == LateState(turns, each, late, rest, text, clock, log, time)
      {
        BusyBefore(script, tail, turns, each, late, rest, text, clock, log, time);
      }
    }
  }

  /** What is printed and how late it is after so many turns. */
  lemma {:induction false} AfterTurns(turns: nat, each: nat, text: string, clock: nat)
    ensures PrintedAfter(turns, text) == text + Xs(turns) && ClockAfter(turns, each, clock) == clock + turns * each
  {
    if turns > 0 {
      AfterTurns(turns - 1, each, text + "x", clock + each);
      assert text + "x" + Xs(turns - 1) == text + Xs(turns);
      assert turns * each == (turns - 1) * each + each;
    } else {
      assert text + "" == text;
    }
  }

  /** The turns from the beginning of the loop. */
  lemma TurnsFromStart(script: seq<Event>, turns: nat, each: nat, late: nat, rest: seq<Event>, time: nat)
    requires TurnsBy(script, turns, each, late, rest)
    ensures Passes(turns + 1, Initial(Ready0(script).(log := [Now(0)])), 0, 2, Some(time))
      == LateState(turns, each, late, rest, "", 0, [Now(0)], time)
  {
    var start := BusyState(Busy("", 0, script, [Now(0)]), "");
    assert Initial(Ready0(script).(log := [Now(0)])) == start;
    assert Passes(turns + 1, start, 0, 2, Some(time)) == LateState(turns, each, late, rest, "", 0, [Now(0)], time);
  }

  /** A run with a deadline and some turns. */
  lemma TurnsToDeadline(n: nat, timeout: int, script: seq<Event>, s: CaptureState)
    requires timeout > 0 && Over(s)
    requires Passes(n, Initial(Ready0(script).(log := [Now(0)])), 0, 2, Some(timeout * 1000000)) == s
    ensures RunIs(timeout, Boot(Calm(9, Calm(1, script))), AfterLoop(s, 0, 2))
  {
    CalmStart(timeout, script);
    SomeTurns(n, timeout, Calm(1, script), Ready0(script).(log := [Now(0)]), Some(timeout * 1000000), s);
  }

  ghost predicate EndsLate(timeout: int, turns: nat, each: nat, late: nat, later: nat, k0: Kernel, k: Kernel) {
    && RunIs(timeout, k0, Outcome(ProcessResult(0, Xs(turns), "", "", false), true, k))
    && k0.clock == 0 && k.clock == turns * each + late + later && Sane(k0)
  }

  /** For every timeout: a program that goes on printing is read turn after turn, however many
      and however long; the streams end any time after that, and the child any time after
      them. The run is not killed and reports no timeout. */
  lemma LateRun(timeout: int, turns: nat, each: nat, late: nat, later: nat)
    requires timeout > 0
    ensures exists k0: Kernel, k: Kernel :: EndsLate(timeout, turns, each, late, later, k0, k)
  {
    var script := FindTurns(turns, each, late, LateChild(later));
    var s := LateState(turns, each, late, LateChild(later), "", 0, [Now(0)], timeout * 1000000);
    TurnsFromStart(script, turns, each, late, LateChild(later), timeout * 1000000);
    TurnsToDeadline(turns + 1, timeout, script, s);
    LateStateEnds(turns, each, late, later, timeout * 1000000);
    EndsAt(timeout, turns, each, late, later, Calm(9, Calm(1, script)), AfterLoop(s, 0, 2));
  }

  lemma EndsAt(timeout: int, turns: nat, each: nat, late: nat, later: nat, script: seq<Event>, end: Outcome)
    requires RunIs(timeout, Boot(script), end)
    requires end == Outcome(ProcessResult(0, Xs(turns), "", "", false), true, end.kernel)
    requires end.kernel.clock == turns * each + late + later
    ensures EndsLate(timeout, turns, each, late, later, Boot(script), end.kernel)
  {
  }

  lemma LateStateEnds(turns: nat, each: nat, late: nat, later: nat, time: nat)
    ensures var end := AfterLoop(LateState(turns, each, late, LateChild(later), "", 0, [Now(0)], time), 0, 2);
      && end == Outcome(ProcessResult(0, Xs(turns), "", "", false), true, end.kernel)
      && end.kernel.clock == turns * each + late + later
  {
    AfterTurns(turns, each, "", 0);
    assert "" + Xs(turns) == Xs(turns);
    var s := LateState(turns, each, late, LateChild(later), "", 0, [Now(0)], time);
    LateEnd(s, Xs(turns), turns * each + late, later);
  }

  lemma LateEnd(s: CaptureState, text: string, clock: nat, later: nat)
    requires s == EndedState(text, Ended(text, clock, LateChild(later), s.kernel.log))
    ensures var end := AfterLoop(s, 0, 2);
      end == Outcome(ProcessResult(0, text, "", "", false), true, end.kernel) && end.kernel.clock == clock + later
  {
    ReapsLate(s.kernel, later, Exited(0));
  }

  // ---- A run that is killed and cannot be reaped ----

  /** At the deadline nothing is printed yet; before the kill a text is; the reaping fails. */
  function UnreapedScript(timeout: nat, text: string): seq<Event> {
    Calm(11, ExpireScript(timeout, text))
  }

  function ExpireScript(timeout: nat, text: string): seq<Event> {
    [Tick(timeout * 1000000)] + ([Yield(0)] + KillScript(text))
  }

  function KillScript(text: string): seq<Event> {
    [Write(0, text)] + ([Yield(0)] + ([Yield(BUFFER_SIZE)] + Calm(4, [Fault(OtherError("No child processes"))])))
  }

  /** The kernel with the text captured, at the time of the deadline. */
  function KilledKernel(timeout: nat, text: string, script: seq<Event>, log: seq<Call>): Kernel {
    Ready0(script).(pipes := [Pipe(text, |text|, true), Pipe("", 0, true)], clock := timeout * 1000000,
                    child := Dead(Signaled(9)), log := log)
  }

  /** The wait passes. */
  lemma SelectsNothing(k: Kernel, timeout: nat, rest: seq<Event>, wait: Timeval)
    requires k == Ready0([Tick(timeout * 1000000)] + ([Yield(0)] + rest)).(log := k.log)
    requires Nanoseconds(wait) <= timeout * 1000000
    ensures var now := k.(script := rest, clock := timeout * 1000000, log := k.log + [Waited(Some(wait), true)]);
      Select(k, 3, {0, 2}, Some(wait)) == SelectCall(now, TimedOut)
  {
    Happens(k, Tick(timeout * 1000000), [Yield(0)] + rest);
    var now := k.(script := rest, clock := timeout * 1000000);
    Yielded(now.(script := [Yield(0)] + rest), 0, rest);
    assert Schedule(k) == Turn(now, None, 0);
    assert !Readable(now, 0) && !Readable(now, 2);
    assert ReadyAmong(now, 3, {0, 2}) == {};
  }

  /** The kill, and the text it comes after. */
  lemma KillsAfterText(k: Kernel, timeout: nat, text: string)
    requires k == Ready0(KillScript(text)).(clock := timeout * 1000000, log := k.log)
    ensures var now := KillGroup(k);
      var rest := [Yield(BUFFER_SIZE)] + Calm(4, [Fault(OtherError("No child processes"))]);
      now == KilledKernel(timeout, text, rest, now.log).(pipes := [Pipe(text, 0, true), Pipe("", 0, true)])
  {
    var rest := [Yield(BUFFER_SIZE)] + Calm(4, [Fault(OtherError("No child processes"))]);
    Happens(k, Write(0, text), [Yield(0)] + rest);
    assert "" + text == text;
    var written := k.(script := [Yield(0)] + rest, pipes := [Pipe(text, 0, true), Pipe("", 0, true)]);
    Yielded(written, 0, rest);
  }

  /** Reading what is left after the kill. */
  lemma ExpiresWithText(s: CaptureState, timeout: nat, text: string)
    requires 0 < |text| <= BUFFER_SIZE
    requires s == Initial(Ready0(KillScript(text)).(clock := timeout * 1000000, log := s.kernel.log))
    ensures var s' := ExpireOf(s, 0, 2);
      s' == CaptureState(UNRUN.(stdoutText := text, timedOut := true), true, true, true, true,
                         KilledKernel(timeout, text, Calm(2, [Fault(OtherError("No child processes"))]), s'.kernel.log))
  {
    var fault := [Fault(OtherError("No child processes"))];
    KillsAfterText(s.kernel, timeout, text);
    var killed := KillGroup(s.kernel);
    CalmCalm(1, 3, fault);
    CalmCalm(1, 2, fault);
    ReadsOnce(killed, 0, 0, text, Calm(3, fault));
    var one := KilledKernel(timeout, text, Calm(3, fault), killed.log);
    assert AppendOf(killed, 0, "").kernel == one;
    ReadsNothing(one, 2, 1, "", Calm(2, fault));
  }

  ghost predicate EndsUnreaped(timeout: int, text: string, k0: Kernel, k: Kernel) {
    && RunIs(timeout, k0, Outcome(ProcessResult(1, text, "", "waitpid failed: No child processes", true), true, k))
    && k0.pipes == [] && k0.log == [] && Sane(k0)
  }

  /** For every timeout and any text of one buffer: a run that is killed at its deadline with
      the text captured, and then fails in `waitpid`. */
  lemma UnreapedRun(timeout: nat, text: string)
    requires timeout > 0 && 0 < |text| <= BUFFER_SIZE
    ensures exists k0: Kernel, k: Kernel :: EndsUnreaped(timeout, text, k0, k)
  {
    var k0 := Boot(UnreapedScript(timeout, text));
    var rest := Calm(1, ExpireScript(timeout, text));
    CalmCalm(1, 1, ExpireScript(timeout, text));
    CalmCalm(9, 2, ExpireScript(timeout, text));
    CalmStart(timeout, rest);
    var begun := Ready0(rest).(log := [Now(0)]);
    UnreapedPass(begun, timeout, text);
    var s := PassOf(Initial(begun), 0, 2, Some(timeout * 1000000));
    OneTurn(timeout, Calm(1, rest), begun, Some(timeout * 1000000), s);
    Unreaped(s, timeout, text);
    UnreapedAt(timeout, text, k0.script, AfterLoop(s, 0, 2));
  }

  lemma UnreapedAt(timeout: int, text: string, script: seq<Event>, end: Outcome)
    requires RunIs(timeout, Boot(script), end)
    requires end == Outcome(ProcessResult(1, text, "", "waitpid failed: No child processes", true), true, end.kernel)
    ensures EndsUnreaped(timeout, text, Boot(script), end.kernel)
  {
  }

  lemma UnreapedPass(k: Kernel, timeout: nat, text: string)
    requires 0 < |text| <= BUFFER_SIZE
    requires k == Ready0(Calm(1, ExpireScript(timeout, text))).(log := k.log)
    ensures var s := PassOf(Initial(k), 0, 2, Some(timeout * 1000000));
      s == CaptureState(UNRUN.(stdoutText := text, timedOut := true), true, true, true, true,
                        KilledKernel(timeout, text, Calm(2, [Fault(OtherError("No child processes"))]), s.kernel.log))
  {
    Calmed(k, 1, ExpireScript(timeout, text));
    var asked := ReadClock(k);
    var wait := Remaining(timeout * 1000000, 0);
    SelectsNothing(asked, timeout, KillScript(text), wait);
    assert Watched(0, 2, true, true) == {0, 2};
    var next := asked.(script := KillScript(text), clock := timeout * 1000000,
                       log := asked.log + [Waited(Some(wait), true)]);
    assert AwaitOf(k, 0, 2, Some(timeout * 1000000), true, true) == SelectCall(next, TimedOut);
    ExpiresWithText(Initial(next), timeout, text);
  }

  lemma Unreaped(s: CaptureState, timeout: nat, text: string)
    requires s == CaptureState(UNRUN.(stdoutText := text, timedOut := true), true, true, true, true,
                               KilledKernel(timeout, text, Calm(2, [Fault(OtherError("No child processes"))]),
                                            s.kernel.log))
    ensures var end := AfterLoop(s, 0, 2);
      end == Outcome(ProcessResult(1, text, "", "waitpid failed: No child processes", true), true, end.kernel)
  {
    var fault := [Fault(OtherError("No child processes"))];
    ClosesBoth(s, fault);
    var closed := ClosedBoth(s, 0, 2);
    Faulted(closed, OtherError("No child processes"), []);
    assert ReapOf(closed).outcome == WaitError(OtherError("No child processes"));
    ChildText();
  }

  lemma ChildText()
    ensures ErrorText(Waiting, OtherError("No child processes")) == "waitpid failed: No child processes"
  {
  }

  /** Both open streams are closed while nothing happens. */
  lemma ClosesBoth(s: CaptureState, rest: seq<Event>)
    requires s.stdoutOpen && s.stderrOpen && s.kernel.script == Calm(2, rest) && 0 in s.kernel.fds && 2 in s.kernel.fds
    ensures ClosedBoth(s, 0, 2) == s.kernel.(script := rest, fds := s.kernel.fds - {0} - {2})
  {
    Calmed(s.kernel, 2, rest);
    Calmed(Close(s.kernel, 0), 1, rest);
  }

  // ---- A run that fails in select ----

  function Unselected(rest: seq<Event>): seq<Event> {
    [Fault(OtherError("Invalid argument"))] + Calm(2, rest)
  }

  function Ending(): seq<Event> {
    [Tick(0), Exit(Exited(0)), Yield(0)]
  }

  ghost predicate EndsUnselected(timeout: int, k0: Kernel, k: Kernel) {
    && RunIs(timeout, k0, Outcome(ProcessResult(0, "", "", "select failed: Invalid argument", false), true, k))
    && k0.pipes == [] && k0.log == [] && Sane(k0)
  }

  /** For every timeout: a run whose `select` fails and whose program exits with 0. */
  lemma UnselectedRun(timeout: int)
    ensures exists k0: Kernel, k: Kernel :: EndsUnselected(timeout, k0, k)
  {
    var fails := Unselected(Ending());
    if timeout > 0 {
      var rest := Calm(1, fails);
      CalmCalm(1, 1, fails);
      CalmCalm(9, 2, fails);
      CalmStart(timeout, rest);
      var begun := Ready0(rest).(log := [Now(0)]);
      UnselectedLate(begun, timeout * 1000000);
      UnselectedEnds(timeout, Calm(1, rest), begun, Some(timeout * 1000000));
    } else {
      UnselectedNow(Ready0(fails));
      UnselectedEnds(timeout, fails, Ready0(fails), None);
    }
  }

  /** What a failed `select` leaves of the loop. */
  function UnselectedState(log: seq<Call>): CaptureState {
    CaptureState(UNRUN.(error := "select failed: Invalid argument"), true, true, true, true,
                 Ready0(Calm(2, Ending())).(log := log))
  }

  lemma UnselectedEnds(timeout: int, rest: seq<Event>, k: Kernel, deadline: Option<nat>)
    requires LoopStart(Ready0(rest), timeout) == (Initial(k), deadline)
    requires var s := PassOf(Initial(k), 0, 2, deadline); s == UnselectedState(s.kernel.log)
    ensures exists k': Kernel :: EndsUnselected(timeout, Boot(Calm(9, rest)), k')
  {
    var s := PassOf(Initial(k), 0, 2, deadline);
    OneTurn(timeout, rest, k, deadline, s);
    UnselectedIsReaped(s);
    UnselectedAt(timeout, Calm(9, rest), AfterLoop(s, 0, 2));
  }

  lemma UnselectedAt(timeout: int, script: seq<Event>, end: Outcome)
    requires RunIs(timeout, Boot(script), end)
    requires end == Outcome(ProcessResult(0, "", "", "select failed: Invalid argument", false), true, end.kernel)
    ensures EndsUnselected(timeout, Boot(script), end.kernel)
  {
  }

  lemma UnselectedIsReaped(s: CaptureState)
    requires s == UnselectedState(s.kernel.log)
    ensures var end := AfterLoop(s, 0, 2);
      end == Outcome(ProcessResult(0, "", "", "select failed: Invalid argument", false), true, end.kernel)
  {
    ClosesBoth(s, Ending());
    ReapsLate(ClosedBoth(s, 0, 2), 0, Exited(0));
  }

  lemma UnselectedNow(k: Kernel)
    requires k == Ready0(Unselected(Ending()))
    ensures var s := PassOf(Initial(k), 0, 2, None); s == UnselectedState(s.kernel.log)
  {
    Faulted(k, OtherError("Invalid argument"), Calm(2, Ending()));
    ArgumentText();
  }

  lemma UnselectedLate(k: Kernel, time: nat)
    requires k == Ready0(Calm(1, Unselected(Ending()))).(log := k.log)
    ensures var s := PassOf(Initial(k), 0, 2, Some(time)); s == UnselectedState(s.kernel.log)
  {
    Calmed(k, 1, Unselected(Ending()));
    Faulted(ReadClock(k), OtherError("Invalid argument"), Calm(2, Ending()));
    ArgumentText();
  }

  lemma ArgumentText()
    ensures ErrorText(Selecting, OtherError("Invalid argument")) == "select failed: Invalid argument"
  {
  }
}
