/** Concrete runs of the supervisor loop, and the loop fed from the priority
    queue. */
module Scenarios {
  import opened Tasks
  import opened TaskQueues
  import opened Supervisor

  /** Three RELOADs then a STOP, with processes that behave: four launches,
      four `Starting` / `Stopping` pairs, and the loop ends. */
  lemma ThreeReloadsThenStop(tasks: seq<Task>, os: nat -> Child)
    requires tasks == [Reload, Reload, Reload, Stop]
    requires Cooperative(os, 0, 4)
    ensures var r := RunFrom(tasks, os, 0);
      && r.outcome == Stopped
      && r.taken == 4
      && Launches(r.trace) == 4
      && Logs(r.trace) == [StartingLine, StoppingLine, StartingLine, StoppingLine,
                           StartingLine, StoppingLine, StartingLine, StoppingLine]
  {
    assert tasks[1..] == [Reload, Reload, Stop] && tasks[1..][1..] == [Reload, Stop];
    assert tasks[1..][1..][1..] == [Stop];
    assert FirstStop(tasks) == 3;
    StopTerminates(tasks, os, 0);
    LaunchPerTask(tasks, os, 0);
    LogShape(tasks, os, 0);
    assert tasks[..4] == tasks;
    assert LogLines(tasks[1..][1..][1..]) == [StartingLine, StoppingLine] + LogLines([]);
    assert LogLines(tasks[1..][1..]) == [StartingLine, StoppingLine] + LogLines(tasks[1..][1..][1..]);
    assert LogLines(tasks[1..]) == [StartingLine, StoppingLine] + LogLines(tasks[1..][1..]);
    assert LogLines(tasks) == [StartingLine, StoppingLine] + LogLines(tasks[1..]);
  }

  /** A STOP against a process still running that exits within the grace
      period: one launch, one SIGINT, one wait, no kill, and the loop ends. */
  lemma StopQuickExit(os: nat -> Child, code: int)
    requires os(0).spawns && os(0).poll == None && os(0).firstWait == Returned(code)
    ensures RunFrom([Stop], os, 0) == Run([Log(StartingLine), Launch(0), Log(StoppingLine),
      Poll(0), Interrupt(0), Wait(0)], 1, Stopped)
  {
  }

  /** A STOP against a process that outlasts the grace period but dies once
      killed: SIGINT, wait, kill, wait, in that order, and the loop ends. */
  lemma StopSlowExit(os: nat -> Child, code: int)
    requires os(0).spawns && os(0).poll == None
    requires os(0).firstWait == TimedOut && os(0).secondWait == Returned(code)
    ensures RunFrom([Stop], os, 0) == Run([Log(StartingLine), Launch(0), Log(StoppingLine),
      Poll(0), Interrupt(0), Wait(0), Kill(0), Wait(0)], 1, Stopped)
  {
  }

  /** A process that outlasts the wait after the kill ends the loop with the
      `TimeoutExpired` left unhandled: the STOP is taken but never completed. */
  lemma SecondTimeoutEscapes(os: nat -> Child, task: Task)
    requires task == Stop || task == Reload
    requires os(0).spawns && Falsy(os(0).poll)
    requires os(0).firstWait == TimedOut && os(0).secondWait == TimedOut
    ensures RunFrom([task, Stop], os, 0).outcome == WaitRaised
    ensures RunFrom([task, Stop], os, 0).taken == 1
  {
    StopProtocol(task, 0, os(0));
  }

  /** A process that already exited with code 0 is still sent SIGINT and
      waited for: the guard skips only nonzero exit codes. */
  lemma ExitedWithZeroIsInterrupted(os: nat -> Child)
    requires os(0).spawns && os(0).poll == Some(0) && os(0).firstWait == Returned(0)
    ensures RunFrom([Stop], os, 0) == Run([Log(StartingLine), Launch(0), Log(StoppingLine),
      Poll(0), Interrupt(0), Wait(0)], 1, Stopped)
  {
  }

  /** A process that already exited with a nonzero code is neither signalled,
      waited for nor killed. */
  lemma ExitedNonzeroIsLeftAlone(os: nat -> Child, code: int)
    requires code != 0
    requires os(0).spawns && os(0).poll == Some(code)
    ensures RunFrom([Stop], os, 0).trace == [Log(StartingLine), Launch(0), Log(StoppingLine), Poll(0)]
  {
  }

  /** An exception from `Popen` is not caught: the loop ends after its first
      `Starting` line, without taking a task. */
  lemma LaunchFailureEscapes(os: nat -> Child, tasks: seq<Task>)
    requires !os(0).spawns
    ensures RunFrom(tasks, os, 0) == Run([Log(StartingLine)], 0, LaunchRaised)
  {
  }

  /** Two bogus tasks then a STOP: both bogus lines are logged, three
      processes are launched, and the first two are never signalled. */
  lemma BogusTasksThenStop(tasks: seq<Task>, os: nat -> Child)
    requires tasks == [Bogus("'ping'"), Bogus("'pong'"), Stop]
    requires Cooperative(os, 0, 3)
    ensures var r := RunFrom(tasks, os, 0);
      && r.outcome == Stopped
      && Launches(r.trace) == 3
      && Logs(r.trace) == [StartingLine, BogusLine("'ping'"), StartingLine, BogusLine("'pong'"),
                           StartingLine, StoppingLine]
      && OnlyLaunched(r.trace, 0) && OnlyLaunched(r.trace, 1)
  {
    assert tasks[1..] == [Bogus("'pong'"), Stop] && tasks[1..][1..] == [Stop];
    assert FirstStop(tasks) == 2;
    StopTerminates(tasks, os, 0);
    LaunchPerTask(tasks, os, 0);
    LogShape(tasks, os, 0);
    assert tasks[..3] == tasks;
    assert LogLines(tasks[1..][1..]) == [StartingLine, StoppingLine] + LogLines([]);
    assert LogLines(tasks[1..]) == [StartingLine, BogusLine("'pong'")] + LogLines(tasks[1..][1..]);
    assert LogLines(tasks) == [StartingLine, BogusLine("'ping'")] + LogLines(tasks[1..]);
    BogusAbandonsChild(tasks, os, 0, 0);
    BogusAbandonsChild(tasks, os, 0, 1);
  }

  /** Fed from the queue with a STOP pending among RELOADs, the loop serves the
      STOP first: one launch and it ends, whatever else is pending. */
  lemma PendingStopEndsLoopFirst(pending: seq<Entry>, os: nat -> Child)
    requires forall k :: 0 <= k < |pending| ==> Sanctioned(pending[k])
    requires StopEntry in pending
    requires Cooperative(os, 0, 1)
    ensures var r := RunFrom(TasksOf(Drain(pending)), os, 0);
      r.outcome == Stopped && r.taken == 1 && Launches(r.trace) == 1
  {
    PendingStopServedNext(pending);
    DrainIsPermutation(pending);
    var tasks := TasksOf(Drain(pending));
    assert tasks[0] == Stop;
    assert FirstStop(tasks) == 0;
    StopTerminates(tasks, os, 0);
    LaunchPerTask(tasks, os, 0);
  }
}
