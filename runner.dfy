/** The supervisor loop `runner(tasks, command, log)` (noticer.py:56-75).

    The operating system is an oracle: `os(n)` says what happens to the `n`th
    process the loop launches (whether `Popen` succeeds, what `poll()` reports
    once the task has arrived, how each `wait(5)` ends). The tasks are the
    sequence in which `tasks.get()` hands them out. A run is the trace of the
    effects the loop has on the processes and on the log, how many tasks it
    took, and how it ended. */
module Supervisor {
  import opened Tasks

  /** How a `wait(5)` call ends: the process exited, or `TimeoutExpired`. */
  datatype WaitResult = Returned(code: int) | TimedOut

  /** The operating system's side of one launch. */
  datatype Child = Child(spawns: bool, poll: Option<int>, firstWait: WaitResult, secondWait: WaitResult)

  /** An observable effect; `child` is the launch number of the process acted on. */
  datatype Effect =
    | Log(line: string)
    | Launch(child: nat)
    | Poll(child: nat)
    | Interrupt(child: nat)
    | Wait(child: nat)
    | Kill(child: nat)

  /** How a run ends: STOP handled; `get()` waiting on an empty queue for ever;
      an exception from `Popen`; `TimeoutExpired` from the `wait(5)` after the
      kill. Both exceptions leave `runner` unhandled. */
  datatype Outcome = Stopped | Blocked | LaunchRaised | WaitRaised

  datatype Run = Run(trace: seq<Effect>, taken: nat, outcome: Outcome)

  /** The effects of acting on one dequeued task, and whether it raised. */
  datatype Step = Step(effects: seq<Effect>, raised: bool)

  const StartingLine: string := "Starting"
  const StoppingLine: string := "Stopping"

  function BogusLine(repr: string): string {
    "Bogus task: " + repr
  }

  /** The guard `not proc.poll()`: true for `None` (still running) and for an
      exit code of 0. */
  predicate Falsy(p: Option<int>) {
    p == None || p == Some(0)
  }

  /** Does the `n`th process, `c`, end a run with an exception? Only when it
      fails to launch, or when it is signalled and neither wait returns. */
  predicate Raises(c: Child) {
    !c.spawns || (Falsy(c.poll) && c.firstWait.TimedOut? && c.secondWait.TimedOut?)
  }

  /** The body of the loop after `tasks.get()` (noticer.py:61-75), acting on
      process `n`. */
  function Handle(task: Task, n: nat, c: Child): Step {
    if task.Bogus? then Step([Log(BogusLine(task.repr))], false)
    else
      var stopping := [Log(StoppingLine), Poll(n)];
      if !Falsy(c.poll) then Step(stopping, false)
      else if c.firstWait.Returned? then Step(stopping + [Interrupt(n), Wait(n)], false)
      else Step(stopping + [Interrupt(n), Wait(n), Kill(n), Wait(n)], c.secondWait.TimedOut?)
  }

  function Then(prefix: seq<Effect>, taken: nat, r: Run): Run {
    Run(prefix + r.trace, taken + r.taken, r.outcome)
  }

  /** The run of the loop from its `n`th iteration on, over the tasks still to
      be handed out. */
  function RunFrom(tasks: seq<Task>, os: nat -> Child, n: nat): (r: Run)
    ensures r.taken <= |tasks|
    ensures r.outcome == Blocked ==> r.taken == |tasks|
    decreases |tasks|
  {
    var c := os(n);
    if !c.spawns then Run([Log(StartingLine)], 0, LaunchRaised)
    else if tasks == [] then Run([Log(StartingLine), Launch(n)], 0, Blocked)
    else
      var s := Handle(tasks[0], n, c);
      var head := [Log(StartingLine), Launch(n)] + s.effects;
      if s.raised then Run(head, 1, WaitRaised)
      else if tasks[0] == Stop then Run(head, 1, Stopped)
      else Then(head, 1, RunFrom(tasks[1..], os, n + 1))
  }

  /** One iteration of the loop, as `RunFrom` sees it from iteration `i` on. */
  lemma Unfold(tasks: seq<Task>, os: nat -> Child, i: nat)
    requires i < |tasks| && os(i).spawns
    ensures var s := Handle(tasks[i], i, os(i));
      var head := [Log(StartingLine), Launch(i)] + s.effects;
      RunFrom(tasks[i..], os, i)
        == if s.raised then Run(head, 1, WaitRaised)
           else if tasks[i] == Stop then Run(head, 1, Stopped)
           else Then(head, 1, RunFrom(tasks[i + 1..], os, i + 1))
  {
    assert tasks[i..][0] == tasks[i] && tasks[i..][1..] == tasks[i + 1..];
  }

  lemma ThenThen(a: seq<Effect>, i: nat, b: seq<Effect>, j: nat, r: Run)
    ensures Then(a, i, Then(b, j, r)) == Then(a + b, i + j, r)
  {
    assert a + (b + r.trace) == (a + b) + r.trace;
  }

  /** The body of the loop once a task is taken (noticer.py:61-75): log, and
      for STOP or RELOAD poll, interrupt, wait, kill and wait again. */
  method Act(task: Task, n: nat, child: Child) returns (effects: seq<Effect>, raised: bool)
    ensures Step(effects, raised) == Handle(task, n, child)
  {
    raised := false;
    if task == Stop || task == Reload {
      effects := [Log(StoppingLine), Poll(n)];
      if child.poll == None || child.poll == Some(0) {
        effects := effects + [Interrupt(n), Wait(n)];
        if child.firstWait.TimedOut? {
          effects := effects + [Kill(n), Wait(n)];
          raised := child.secondWait.TimedOut?;
        }
      }
    } else {
      effects := [Log(BogusLine(task.repr))];
    }
  }

  /** `runner`: the loop itself. */
  method Runner(tasks: seq<Task>, os: nat -> Child) returns (run: Run)
    ensures run == RunFrom(tasks, os, 0)
  {
    var trace: seq<Effect> := [];
    var i: nat := 0;
    while true
      invariant i <= |tasks|
      invariant RunFrom(tasks, os, 0) == Then(trace, i, RunFrom(tasks[i..], os, i))
      decreases |tasks| - i
    {
      ghost var before := trace;
      trace := trace + [Log(StartingLine)];
      var child := os(i);
      if !child.spawns {
        return Run(trace, i, LaunchRaised);
      }
      trace := trace + [Launch(i)];
      if i == |tasks| {
        assert tasks[i..] == [];
        return Run(trace, i, Blocked);
      }
      var task := tasks[i];
      var effects, raised := Act(task, i, child);
      trace := trace + effects;
      Unfold(tasks, os, i);
      ghost var head := [Log(StartingLine), Launch(i)] + effects;
      assert trace == before + head;
      if raised {
        return Run(trace, i + 1, WaitRaised);
      }
      if task == Stop {
        return Run(trace, i + 1, Stopped);
      }
      ThenThen(before, i, head, 1, RunFrom(tasks[i + 1..], os, i + 1));
      i := i + 1;
    }
  }

  // ---------------------------------------------------------------------------
  // Projections of a trace

  /** The log lines of a trace, in order. */
  function Logs(t: seq<Effect>): seq<string> {
    if t == [] then []
    else (if t[0].Log? then [t[0].line] else []) + Logs(t[1..])
  }

  /** The number of launches in a trace. */
  function Launches(t: seq<Effect>): nat {
    if t == [] then 0
    else (if t[0].Launch? then 1 else 0) + Launches(t[1..])
  }

  lemma {:induction false} LogsAppend(a: seq<Effect>, b: seq<Effect>)
    ensures Logs(a + b) == Logs(a) + Logs(b)
  {
    if a == [] {
      assert a + b == b;
    } else {
      var h := if a[0].Log? then [a[0].line] else [];
      assert (a + b)[0] == a[0];
      assert (a + b)[1..] == a[1..] + b;
      assert Logs(a + b) == h + Logs(a[1..] + b);
      LogsAppend(a[1..], b);
      assert Logs(a) == h + Logs(a[1..]);
    }
  }

  lemma {:induction false} LaunchesAppend(a: seq<Effect>, b: seq<Effect>)
    ensures Launches(a + b) == Launches(a) + Launches(b)
  {
    if a == [] {
      assert a + b == b;
    } else {
      LaunchesAppend(a[1..], b);
      assert (a + b)[0] == a[0];
      assert (a + b)[1..] == a[1..] + b;
    }
  }

  /** The log a sequence of handled tasks is meant to produce: per task, the
      line `Starting`, then `Stopping` for STOP and RELOAD or `Bogus task: ...`
      for anything else. */
  function LogLines(ts: seq<Task>): seq<string> {
    if ts == [] then []
    else [StartingLine, if ts[0].Bogus? then BogusLine(ts[0].repr) else StoppingLine] + LogLines(ts[1..])
  }

  /** Every non-log effect of `t` acts on a process launched at iteration `lo` or later. */
  predicate ActsFrom(t: seq<Effect>, lo: nat) {
    forall k :: 0 <= k < |t| && !t[k].Log? ==> lo <= t[k].child
  }

  // ---------------------------------------------------------------------------
  // One task

  lemma {:induction false} NoLogs(t: seq<Effect>)
    requires forall k :: 0 <= k < |t| ==> !t[k].Log?
    ensures Logs(t) == []
  {
    if t != [] {
      NoLogs(t[1..]);
    }
  }

  /** The effects of acting on one task hold exactly one log line, first, and
      every other effect acts on the task's own process `n`. */
  lemma StepShape(task: Task, n: nat, c: Child)
    ensures var e := Handle(task, n, c).effects;
      && 0 < |e| && e[0].Log?
      && Logs(e) == [e[0].line]
      && e[0].line == (if task.Bogus? then BogusLine(task.repr) else StoppingLine)
      && (forall k :: 0 < k < |e| ==> !e[k].Log? && e[k].child == n)
      && (forall k :: 0 <= k < |e| ==> !e[k].Launch?)
  {
    var e := Handle(task, n, c).effects;
    assert e == [e[0]] + e[1..];
    NoLogs(e[1..]);
    LogsAppend([e[0]], e[1..]);
  }

  /** Acting on STOP or RELOAD: one `poll()`; a SIGINT unless `poll()` gave a
      nonzero exit code, so both `None` and 0 lead to one; a wait after the
      SIGINT; a kill only when that wait timed out, with one more wait for
      it; an exception only when that last wait timed out too. */
  lemma StopProtocol(task: Task, n: nat, c: Child)
    requires task == Stop || task == Reload
    ensures var s := Handle(task, n, c); var e := s.effects;
      && Poll(n) in e
      && multiset(e)[Interrupt(n)] == (if c.poll.None? || c.poll.value == 0 then 1 else 0)
      && multiset(e)[Kill(n)] == (if Interrupt(n) in e && c.firstWait.TimedOut? then 1 else 0)
      && multiset(e)[Wait(n)] == (if Interrupt(n) !in e then 0 else if c.firstWait.TimedOut? then 2 else 1)
      && s.raised == (Kill(n) in e && c.secondWait.TimedOut?)
  {
    var e := Handle(task, n, c).effects;
    var stopping := Log(StoppingLine);
    if !Falsy(c.poll) {
      assert e == [stopping, Poll(n)];
    } else if c.firstWait.Returned? {
      SignalCounts(e, stopping, n);
    } else {
      KillCounts(e, stopping, n);
    }
  }

  lemma SignalCounts(e: seq<Effect>, stopping: Effect, n: nat)
    requires stopping.Log? && e == [stopping, Poll(n), Interrupt(n), Wait(n)]
    ensures multiset(e)[Interrupt(n)] == 1 && multiset(e)[Wait(n)] == 1 && Kill(n) !in e
  {
    assert multiset(e) == multiset{stopping, Poll(n), Interrupt(n), Wait(n)};
  }

  lemma KillCounts(e: seq<Effect>, stopping: Effect, n: nat)
    requires stopping.Log? && e == [stopping, Poll(n), Interrupt(n), Wait(n), Kill(n), Wait(n)]
    ensures multiset(e)[Interrupt(n)] == 1 && multiset(e)[Wait(n)] == 2 && multiset(e)[Kill(n)] == 1
  {
    assert multiset(e) == multiset{stopping, Poll(n), Interrupt(n), Wait(n), Kill(n), Wait(n)};
  }

  /** The order of the STOP and RELOAD protocol: the SIGINT is followed at once
      by a wait; a kill comes right after that wait and is followed by exactly
      one more wait, which is the last effect. */
  lemma StopOrder(task: Task, n: nat, c: Child)
    requires task == Stop || task == Reload
    ensures var e := Handle(task, n, c).effects;
      && (forall k :: 0 <= k < |e| && e[k] == Interrupt(n) ==> k + 1 < |e| && e[k + 1] == Wait(n))
      && (forall k :: 0 <= k < |e| && e[k] == Kill(n) ==>
            0 < k && e[k - 1] == Wait(n) && k + 2 == |e| && e[k + 1] == Wait(n))
  {
    var e := Handle(task, n, c).effects;
    var stopping := Log(StoppingLine);
    if !Falsy(c.poll) {
      assert e == [stopping, Poll(n)];
    } else if c.firstWait.Returned? {
      assert e == [stopping, Poll(n), Interrupt(n), Wait(n)];
    } else {
      assert e == [stopping, Poll(n), Interrupt(n), Wait(n), Kill(n), Wait(n)];
    }
  }

  /** Acting on a bogus task: exactly the line `Bogus task: <repr>`, and nothing
      done to any process. */
  lemma BogusProtocol(task: Task, n: nat, c: Child)
    requires task.Bogus?
    ensures var s := Handle(task, n, c);
      && Logs(s.effects) == [BogusLine(task.repr)]
      && (forall k :: 0 <= k < |s.effects| ==> s.effects[k].Log?)
      && !s.raised
  {
    StepShape(task, n, c);
  }

  // ---------------------------------------------------------------------------
  // Whole runs

  /** The index of the first STOP. */
  function FirstStop(tasks: seq<Task>): (i: nat)
    requires Stop in tasks
    ensures i < |tasks| && tasks[i] == Stop && Stop !in tasks[..i]
  {
    if tasks[0] == Stop then 0
    else
      assert Stop in tasks[1..];
      var j := FirstStop(tasks[1..]);
      assert tasks[..j + 1] == [tasks[0]] + tasks[1..][..j];
      j + 1
  }

  /** What an iteration contributes before it takes a task. */
  lemma OpeningFacts(n: nat)
    ensures Logs([Log(StartingLine)]) == [StartingLine] && Launches([Log(StartingLine)]) == 0
    ensures Logs([Log(StartingLine), Launch(n)]) == [StartingLine]
    ensures Launches([Log(StartingLine), Launch(n)]) == 1
  {
    assert [Log(StartingLine)][1..] == [];
    assert [Log(StartingLine), Launch(n)][1..] == [Launch(n)];
    assert [Launch(n)][1..] == [];
  }

  /** What an iteration that takes `task` contributes: `Starting`, one launch
      of process `n`, then the task's effects, all on process `n`. */
  lemma HeadFacts(task: Task, n: nat, c: Child)
    ensures var head := [Log(StartingLine), Launch(n)] + Handle(task, n, c).effects;
      && Launches(head) == 1
      && Logs(head) == [StartingLine, if task.Bogus? then BogusLine(task.repr) else StoppingLine]
      && head[1] == Launch(n)
      && (forall k :: 0 <= k < |head| && !head[k].Log? ==> head[k].child == n)
  {
    var e := Handle(task, n, c).effects;
    var opening := [Log(StartingLine), Launch(n)];
    var head := opening + e;
    StepShape(task, n, c);
    OpeningFacts(n);
    LogsAppend(opening, e);
    LaunchesAppend(opening, e);
    NoLaunch(e);
    forall k | 0 <= k < |head| && !head[k].Log?
      ensures head[k].child == n
    {
      if k >= 2 {
        assert head[k] == e[k - 2];
      }
    }
  }

  lemma {:induction false} NoLaunch(t: seq<Effect>)
    requires forall k :: 0 <= k < |t| ==> !t[k].Launch?
    ensures Launches(t) == 0
  {
    if t != [] {
      NoLaunch(t[1..]);
    }
  }

  /** The loop takes tasks up to and including the first STOP and none after
      it; it ends `Stopped` only on a STOP, raises from a wait only on STOP or
      RELOAD, and blocks only when no STOP was among the tasks. */
  lemma {:induction false} TakesUpToFirstStop(tasks: seq<Task>, os: nat -> Child, n: nat)
    ensures var r := RunFrom(tasks, os, n);
      && (forall j :: 0 <= j < r.taken && tasks[j] == Stop ==> j == r.taken - 1)
      && (r.outcome == Stopped ==> 0 < r.taken && tasks[r.taken - 1] == Stop)
      && (r.outcome == WaitRaised ==> 0 < r.taken && !tasks[r.taken - 1].Bogus?)
      && (r.outcome == Blocked ==> Stop !in tasks)
    decreases |tasks|
  {
    var r := RunFrom(tasks, os, n);
    var c := os(n);
    if c.spawns && tasks != [] {
      var s := Handle(tasks[0], n, c);
      if !s.raised && tasks[0] != Stop {
        var rest := RunFrom(tasks[1..], os, n + 1);
        TakesUpToFirstStop(tasks[1..], os, n + 1);
        assert r.taken == 1 + rest.taken && r.outcome == rest.outcome;
        forall j | 0 <= j < r.taken && tasks[j] == Stop
          ensures j == r.taken - 1
        {
          assert tasks[1..][j - 1] == tasks[j];
        }
        if r.outcome == Stopped || r.outcome == WaitRaised {
          assert tasks[1..][rest.taken - 1] == tasks[r.taken - 1];
        }
        if r.outcome == Blocked {
          assert tasks == [tasks[0]] + tasks[1..];
        }
      }
    }
  }

  /** Every process `j` from `n` on neither fails to launch nor outlasts both waits. */
  predicate Cooperative(os: nat -> Child, n: nat, m: nat) {
    forall j :: n <= j < n + m ==> !Raises(os(j))
  }

  /** With cooperative processes, a STOP among the tasks ends the loop right
      after the first STOP is taken. */
  lemma {:induction false} StopTerminates(tasks: seq<Task>, os: nat -> Child, n: nat)
    requires Stop in tasks
    requires Cooperative(os, n, FirstStop(tasks) + 1)
    ensures RunFrom(tasks, os, n).outcome == Stopped
    ensures RunFrom(tasks, os, n).taken == FirstStop(tasks) + 1
    decreases |tasks|
  {
    assert !Raises(os(n));
    if tasks[0] != Stop {
      assert Stop in tasks[1..];
      var f := FirstStop(tasks[1..]);
      assert tasks[..f + 1] == [tasks[0]] + tasks[1..][..f];
      assert FirstStop(tasks) == f + 1;
      StopTerminates(tasks[1..], os, n + 1);
    }
  }

  /** With cooperative processes and no STOP among the tasks, the loop takes
      every task and then waits on the empty queue with a process running. */
  lemma {:induction false} NoStopBlocks(tasks: seq<Task>, os: nat -> Child, n: nat)
    requires Stop !in tasks
    requires Cooperative(os, n, |tasks| + 1)
    ensures RunFrom(tasks, os, n).outcome == Blocked
    ensures RunFrom(tasks, os, n).taken == |tasks|
    decreases |tasks|
  {
    assert !Raises(os(n));
    if tasks != [] {
      assert tasks == [tasks[0]] + tasks[1..];
      NoStopBlocks(tasks[1..], os, n + 1);
    }
  }

  /** With cooperative processes the loop terminates exactly when a STOP is
      eventually taken. */
  lemma StopsIffStopTaken(tasks: seq<Task>, os: nat -> Child, n: nat)
    requires Cooperative(os, n, |tasks| + 1)
    ensures RunFrom(tasks, os, n).outcome == Stopped <==> Stop in tasks
  {
    if Stop in tasks {
      StopTerminates(tasks, os, n);
    } else {
      NoStopBlocks(tasks, os, n);
    }
  }

  /** One launch per task taken, plus the one left running when the loop
      blocks on the empty queue. */
  lemma {:induction false} LaunchPerTask(tasks: seq<Task>, os: nat -> Child, n: nat)
    ensures var r := RunFrom(tasks, os, n);
      Launches(r.trace) == r.taken + (if r.outcome == Blocked then 1 else 0)
    decreases |tasks|
  {
    var c := os(n);
    OpeningFacts(n);
    if c.spawns && tasks != [] {
      var s := Handle(tasks[0], n, c);
      var head := [Log(StartingLine), Launch(n)] + s.effects;
      HeadFacts(tasks[0], n, c);
      if !s.raised && tasks[0] != Stop {
        LaunchPerTask(tasks[1..], os, n + 1);
        LaunchesAppend(head, RunFrom(tasks[1..], os, n + 1).trace);
      }
    }
  }

  /** The log of a run is, per task taken, `Starting` then `Stopping` or
      `Bogus task: ...`, plus a lone `Starting` for the iteration where the
      launch raised or the queue stayed empty. */
  lemma {:induction false} LogShape(tasks: seq<Task>, os: nat -> Child, n: nat)
    ensures var r := RunFrom(tasks, os, n);
      Logs(r.trace) == LogLines(tasks[..r.taken])
                       + (if r.outcome == Blocked || r.outcome == LaunchRaised then [StartingLine] else [])
    decreases |tasks|
  {
    var r := RunFrom(tasks, os, n);
    var c := os(n);
    OpeningFacts(n);
    if c.spawns && tasks != [] {
      var t := tasks[0];
      var s := Handle(t, n, c);
      var head := [Log(StartingLine), Launch(n)] + s.effects;
      var line := if t.Bogus? then BogusLine(t.repr) else StoppingLine;
      HeadFacts(t, n, c);
      if s.raised || t == Stop {
        assert tasks[..1] == [t] && [t][1..] == [];
        assert LogLines(tasks[..1]) == [StartingLine, line] + LogLines([]);
      } else {
        var rest := RunFrom(tasks[1..], os, n + 1);
        LogShape(tasks[1..], os, n + 1);
        LogsAppend(head, rest.trace);
        var taken := tasks[..1 + rest.taken];
        assert taken[0] == t && taken[1..] == tasks[1..][..rest.taken];
        assert LogLines(taken) == [StartingLine, line] + LogLines(taken[1..]);
      }
    } else {
      assert tasks[..0] == [];
    }
  }

  /** Along `t`, the processes acted on never go back to an earlier launch. */
  predicate InLaunchOrder(t: seq<Effect>) {
    forall p, q :: 0 <= p < q < |t| && !t[p].Log? && !t[q].Log? ==> t[p].child <= t[q].child
  }

  lemma ConcatInLaunchOrder(head: seq<Effect>, rest: seq<Effect>, n: nat)
    requires forall k :: 0 <= k < |head| && !head[k].Log? ==> head[k].child == n
    requires ActsFrom(rest, n + 1) && InLaunchOrder(rest)
    ensures ActsFrom(head + rest, n) && InLaunchOrder(head + rest)
  {
    var t := head + rest;
    forall k | 0 <= k < |t| && !t[k].Log?
      ensures n <= t[k].child
    {
      if k >= |head| {
        assert t[k] == rest[k - |head|];
      }
    }
    forall p, q | 0 <= p < q < |t| && !t[p].Log? && !t[q].Log?
      ensures t[p].child <= t[q].child
    {
      if q >= |head| {
        assert t[q] == rest[q - |head|];
        if p >= |head| {
          assert t[p] == rest[p - |head|];
        }
      }
    }
  }

  /** Each process is acted on only in its own iteration: along a run the
      processes acted on never go back to an earlier launch, so all that is
      done to one process precedes the next launch. */
  lemma {:induction false} ActsInLaunchOrder(tasks: seq<Task>, os: nat -> Child, n: nat)
    ensures ActsFrom(RunFrom(tasks, os, n).trace, n)
    ensures InLaunchOrder(RunFrom(tasks, os, n).trace)
    decreases |tasks|
  {
    var c := os(n);
    if c.spawns && tasks != [] {
      var s := Handle(tasks[0], n, c);
      var head := [Log(StartingLine), Launch(n)] + s.effects;
      HeadFacts(tasks[0], n, c);
      if !s.raised && tasks[0] != Stop {
        var rest := RunFrom(tasks[1..], os, n + 1).trace;
        ActsInLaunchOrder(tasks[1..], os, n + 1);
        ConcatInLaunchOrder(head, rest, n);
      }
    }
  }

  /** The SIGINTs and kills in one iteration that takes a task: at most one
      of each, and only to that iteration's process. */
  lemma HeadCounts(task: Task, n: nat, c: Child, m: nat)
    ensures var head := [Log(StartingLine), Launch(n)] + Handle(task, n, c).effects;
      && multiset(head)[Interrupt(m)] <= 1 && multiset(head)[Kill(m)] <= 1
      && (m != n ==> multiset(head)[Interrupt(m)] == 0 && multiset(head)[Kill(m)] == 0)
  {
    var e := Handle(task, n, c).effects;
    var opening := [Log(StartingLine), Launch(n)];
    HeadFacts(task, n, c);
    if m != n {
      assert Interrupt(m) !in opening + e && Kill(m) !in opening + e;
    } else if !task.Bogus? {
      StopProtocol(task, n, c);
    } else {
      BogusProtocol(task, n, c);
    }
    assert multiset(opening + e) == multiset(opening) + multiset(e);
  }

  lemma NotActedOn(t: seq<Effect>, n: nat)
    requires ActsFrom(t, n + 1)
    ensures multiset(t)[Interrupt(n)] == 0 && multiset(t)[Kill(n)] == 0
  {
  }

  /** No process is sent SIGINT more than once, nor killed more than once. */
  lemma {:induction false} SignalAndKillAtMostOnce(tasks: seq<Task>, os: nat -> Child, n: nat, m: nat)
    ensures var t := RunFrom(tasks, os, n).trace;
      multiset(t)[Interrupt(m)] <= 1 && multiset(t)[Kill(m)] <= 1
    decreases |tasks|
  {
    var c := os(n);
    if c.spawns && tasks != [] {
      var s := Handle(tasks[0], n, c);
      var head := [Log(StartingLine), Launch(n)] + s.effects;
      HeadCounts(tasks[0], n, c, m);
      if !s.raised && tasks[0] != Stop {
        var rest := RunFrom(tasks[1..], os, n + 1).trace;
        SignalAndKillAtMostOnce(tasks[1..], os, n + 1, m);
        if m == n {
          ActsInLaunchOrder(tasks[1..], os, n + 1);
          NotActedOn(rest, n);
        }
        assert multiset(head + rest) == multiset(head) + multiset(rest);
      }
    }
  }

  /** Of all that `t` does to process `m`, nothing but launching it. */
  predicate OnlyLaunched(t: seq<Effect>, m: nat) {
    forall k :: 0 <= k < |t| && !t[k].Log? && t[k].child == m ==> t[k] == Launch(m)
  }

  lemma OnlyLaunchedConcat(a: seq<Effect>, b: seq<Effect>, m: nat)
    requires OnlyLaunched(a, m) && OnlyLaunched(b, m)
    ensures OnlyLaunched(a + b, m)
  {
    forall k | 0 <= k < |a + b| && !(a + b)[k].Log? && (a + b)[k].child == m
      ensures (a + b)[k] == Launch(m)
    {
      if k >= |a| {
        assert (a + b)[k] == b[k - |a|];
      }
    }
  }

  lemma OnlyOwnChild(t: seq<Effect>, n: nat, m: nat)
    requires forall k :: 0 <= k < |t| && !t[k].Log? ==> t[k].child == n
    requires m != n
    ensures OnlyLaunched(t, m)
  {
  }

  /** The first iteration, on a bogus task, does nothing to its process but
      launch it. */
  lemma AbandonsFirst(tasks: seq<Task>, os: nat -> Child, n: nat)
    requires tasks != [] && tasks[0].Bogus? && os(n).spawns
    ensures OnlyLaunched(RunFrom(tasks, os, n).trace, n)
    ensures Launch(n) in RunFrom(tasks, os, n).trace
  {
    var c := os(n);
    var s := Handle(tasks[0], n, c);
    var head := [Log(StartingLine), Launch(n)] + s.effects;
    BogusProtocol(tasks[0], n, c);
    var rest := RunFrom(tasks[1..], os, n + 1).trace;
    ActsInLaunchOrder(tasks[1..], os, n + 1);
    assert RunFrom(tasks, os, n).trace == head + rest;
    assert OnlyLaunched(head, n) by {
      forall k | 2 <= k < |head| ensures head[k].Log? {
        assert head[k] == s.effects[k - 2];
      }
    }
    OnlyLaunchedConcat(head, rest, n);
    assert (head + rest)[1] == Launch(n);
  }

  /** A run that takes a task launched its first process; one that takes two
      went on past the first iteration. */
  lemma Continues(tasks: seq<Task>, os: nat -> Child, n: nat)
    requires 0 < RunFrom(tasks, os, n).taken
    ensures tasks != [] && os(n).spawns
    ensures 1 < RunFrom(tasks, os, n).taken ==>
      var head := [Log(StartingLine), Launch(n)] + Handle(tasks[0], n, os(n)).effects;
      RunFrom(tasks, os, n) == Then(head, 1, RunFrom(tasks[1..], os, n + 1))
  {
  }

  /** A bogus task abandons its process: that process is launched and then
      never polled, signalled, waited for or killed, while the loop goes round
      to launch the next one. */
  lemma {:induction false} BogusAbandonsChild(tasks: seq<Task>, os: nat -> Child, n: nat, j: nat)
    requires j < RunFrom(tasks, os, n).taken
    requires tasks[j].Bogus?
    ensures Launch(n + j) in RunFrom(tasks, os, n).trace
    ensures OnlyLaunched(RunFrom(tasks, os, n).trace, n + j)
    decreases |tasks|
  {
    Continues(tasks, os, n);
    if j == 0 {
      AbandonsFirst(tasks, os, n);
    } else {
      var c := os(n);
      var head := [Log(StartingLine), Launch(n)] + Handle(tasks[0], n, c).effects;
      var rest := RunFrom(tasks[1..], os, n + 1);
      assert RunFrom(tasks, os, n).trace == head + rest.trace;
      HeadFacts(tasks[0], n, c);
      OnlyOwnChild(head, n, n + j);
      assert tasks[1..][j - 1] == tasks[j];
      BogusAbandonsChild(tasks[1..], os, n + 1, j - 1);
      OnlyLaunchedConcat(head, rest.trace, n + j);
      assert Launch(n + j) in head + rest.trace;
    }
  }
}
