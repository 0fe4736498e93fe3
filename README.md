# noticer, modelled in Dafny

noticer watches a directory tree. When a file whose path ends in one of the
configured extensions is modified or created, it restarts a command. Two
parts meet at a priority queue of `(priority, task)` entries:

- the inotify event handler, which puts `(100, RELOAD)`;
- the shutdown path, which puts `(0, STOP)`.

A worker thread runs the supervisor loop `runner`. On each turn the loop:

1. logs `Starting` and launches the command;
2. takes the next task;
3. for STOP or RELOAD, logs `Stopping` and polls the process. Unless
   `poll()` reports a nonzero exit code, it sends SIGINT and waits five
   seconds. If that wait times out, it kills the process and waits five
   seconds more;
4. ends after a STOP. For any other value it logs `Bogus task: <repr>` and
   goes round again.

The model has four modules:

- `Tasks` (`tasks.dfy`): the task values, queue entries and the two priorities.
- `TaskQueues` (`task_queue.dfy`): the priority queue, as a class over a
  sequence of pending entries, and `Drain`, the order in which successive
  dequeues serve what is pending.
- `Events` (`event_handler.dfy`): the event handler as a class whose
  `GenericProcessor` loops over the extension list exactly as the program
  does.
- `Supervisor` (`runner.dfy`): the supervisor loop.

The operating system is an oracle in `Supervisor`. `os(n)` describes the
`n`th process launched:

- whether `Popen` succeeds;
- what `poll()` returns once the task arrives;
- how each of the two `wait(5)` calls ends.

The tasks are the sequence that `tasks.get()` hands out. The imperative
`Runner` method (a `while` loop) is proved equal to the recursive
specification `RunFrom`. A run is:

- the trace of effects: log lines, launches, polls, signals, waits, kills;
- the number of tasks taken;
- how it ended: stopped, blocked on an empty queue, or an exception from
  `Popen` or from the last `wait(5)`.

The loop's properties are lemmas about `RunFrom`. `Scenarios`
(`scenarios.dfy`) works through concrete runs.

Where the program's comments promise something else,
the model follows the code:

- `not proc.poll()` is true for an exit code of 0 as well as for a running
  process. A process that already exited with 0 is therefore sent SIGINT and
  waited for, although the comment at noticer.py:63 says stopped processes
  are not signalled. See `Scenarios.ExitedWithZeroIsInterrupted` and
  `Scenarios.ExitedNonzeroIsLeftAlone`.
- The loop reports no success or failure verdict for the command.
- An exception from `Popen` is not caught. It ends the loop (`LaunchRaised`).
- `TimeoutExpired` from the `wait(5)` after the kill is not caught either.
  It ends the loop (`WaitRaised`).
- A bogus task does not stop the current process. The loop logs the task,
  goes round, and launches a new process while the old one is never
  signalled or waited for (`Supervisor.BogusAbandonsChild`).

## Model

| member | source | states |
|---|---|---|
| Supervisor.Runner | noticer.py:56-75 | the loop's trace, tasks taken and outcome are exactly those of the specification `RunFrom` |
| Supervisor.Act | noticer.py:61-75 | the effects of acting on one dequeued task, and whether it raised, are those of the specification `Handle` |
| Supervisor.RunFrom | noticer.py:56-75 | a run never takes more tasks than it is handed, and blocks only after taking all of them |
| Supervisor.StepShape | noticer.py:61-75 | acting on a task logs exactly one line, first (`Stopping`, or `Bogus task: <repr>`); it launches nothing, and everything else it does is done to the current process |
| Supervisor.StopProtocol | noticer.py:61-70 | on STOP or RELOAD: one poll; one SIGINT exactly when `poll()` gave `None` or 0; one kill exactly when the first wait timed out; one wait after a SIGINT, plus one after a kill; an exception exactly when a kill happened and the second wait timed out |
| Supervisor.StopOrder | noticer.py:64-70 | the SIGINT is followed at once by a wait; a kill comes right after that wait and is followed by exactly one more wait, the last effect |
| Supervisor.BogusProtocol | noticer.py:74-75 | a bogus task produces only the line `Bogus task: <repr>`, touches no process and raises nothing |
| Supervisor.HeadFacts | noticer.py:57-75 | one iteration that takes a task logs `Starting` then its task's line, launches exactly one process, and acts on no other |
| Supervisor.TakesUpToFirstStop | noticer.py:72-73 | no task after a STOP is taken; a stopped run ends on a STOP; a wait exception comes only from STOP or RELOAD; a blocked run saw no STOP |
| Supervisor.StopTerminates | noticer.py:57-75 | with processes that launch and exit, a STOP ends the loop right after the first STOP is taken |
| Supervisor.NoStopBlocks | noticer.py:57-60 | with processes that launch and exit and no STOP among the tasks, the loop takes them all and then waits on the empty queue |
| Supervisor.StopsIffStopTaken | noticer.py:57-75 | with processes that launch and exit, the loop stops if and only if a STOP is among the tasks |
| Supervisor.LaunchPerTask | noticer.py:57-60 | one launch per task taken, plus one for the process left running while the loop waits on an empty queue |
| Supervisor.LogShape | noticer.py:57-75 | the log is `Starting` then `Stopping` or `Bogus task: <repr>` per task taken, plus a lone `Starting` when the launch raised or the queue stayed empty |
| Supervisor.ActsInLaunchOrder | noticer.py:57-75 | every process acted on was launched at or after the current iteration, and the processes acted on never go back to an earlier launch |
| Supervisor.SignalAndKillAtMostOnce | noticer.py:64-70 | no process is sent SIGINT more than once or killed more than once in a whole run |
| Supervisor.AbandonsFirst | noticer.py:57-75 | when the first task is bogus, its process is launched and nothing else is ever done to it |
| Supervisor.BogusAbandonsChild | noticer.py:57-75 | the process of any iteration that takes a bogus task is launched and then never polled, signalled, waited for or killed |
| TaskQueues.MinIndex | noticer.py:79 | the entry a dequeue serves has the least priority pending, and no earlier entry has that priority |
| TaskQueues.DrainIsPermutation | noticer.py:79 | successive dequeues serve every pending entry exactly once |
| TaskQueues.DrainIsOrdered | noticer.py:79 | successive dequeues serve entries in non-decreasing priority |
| TaskQueues.StopServedBeforeReload | noticer.py:49 | with only `(0, STOP)` and `(100, RELOAD)` entries pending, every STOP is served before every RELOAD |
| TaskQueues.PendingStopServedNext | noticer.py:96 | with only the program's own entries pending, a pending `(0, STOP)` is what the next dequeue serves |
| TaskQueues.TaskQueue.constructor | noticer.py:79 | a new queue holds nothing |
| TaskQueues.TaskQueue.Put | noticer.py:49 | `put` appends the entry and drops nothing |
| TaskQueues.TaskQueue.Get | noticer.py:60 | `get` on a non-empty queue removes and returns an entry of least priority; what it returns plus what remains is what was pending; an empty queue gives `None` (the real call blocks) |
| TaskQueues.PutStop | noticer.py:96 | the shutdown path adds exactly `(0, STOP)` to the queue |
| Events.RelevanceEdgeCases | noticer.py:46-47 | an empty extension list matches no path; an empty extension matches every path |
| Events.SuffixTestIsPlain | noticer.py:47 | the match is a plain suffix test on the whole path: `py` matches `src/notes.py`, `.py` does not match `src/app.pyc` |
| Events.EventHandler.constructor | noticer.py:40-43 | `my_init` records the directory, the extensions and the queue |
| Events.EventHandler.GenericProcessor | noticer.py:45-50 | exactly one `(100, RELOAD)` is queued when some extension is a suffix of the path, however many match; otherwise the queue is unchanged |
| Events.EventHandler.Handle | noticer.py:52-53 | modify and create events are handled as above; other events leave the queue unchanged |
| Scenarios.ThreeReloadsThenStop | noticer.py:56-75 | three RELOADs then a STOP: four launches, four `Starting`/`Stopping` pairs, and the loop stops |
| Scenarios.StopQuickExit | noticer.py:61-73 | a STOP against a running process that exits within five seconds: poll, SIGINT, one wait, stop |
| Scenarios.StopSlowExit | noticer.py:61-73 | a STOP against a process that outlasts the first wait: poll, SIGINT, wait, kill, wait, stop |
| Scenarios.SecondTimeoutEscapes | noticer.py:66-70 | a process that outlasts both waits ends the loop with the timeout exception, before the next task is taken |
| Scenarios.ExitedWithZeroIsInterrupted | noticer.py:63-67 | a process that already exited with 0 is still sent SIGINT and waited for |
| Scenarios.ExitedNonzeroIsLeftAlone | noticer.py:64 | a process that already exited with a nonzero code is polled and nothing more |
| Scenarios.LaunchFailureEscapes | noticer.py:58-59 | a failing launch ends the loop after its `Starting` line, with no task taken |
| Scenarios.BogusTasksThenStop | noticer.py:56-75 | two bogus tasks then a STOP: both bogus lines are logged, three processes are launched, and the first two are never acted on |
| Scenarios.PendingStopEndsLoopFirst | noticer.py:56-75 | fed from the queue with a STOP pending among RELOADs, the loop takes the STOP first and ends after one launch |

## Left out

- The watcher (noticer.py:78-98), the inotify watch manager and notifier, the worker thread and `join`, `KeyboardInterrupt` handling, and the `Stopping normally` and `Waiting on runner to stop` lines. They are wiring around the modelled parts; only the final `put((0, STOP))` is modelled (`TaskQueues.PutStop`).
- Argument parsing and `_main` (noticer.py:101-117). An omitted `--extension` leaves `extensions` as `None`, and iterating over it would raise; the model takes a list.
- The `Handling <event>` line that `generic_processor` prints to standard output. It does not affect the queue.
- Concurrency between the event handler, the shutdown path and the loop. The loop sees its tasks as one sequence, in the order `get` hands them out; `TaskQueues.Drain` gives that order when nothing is put in between.
- TaskQueues.TaskQueue.Get: returns `None` where the real `get` blocks on an empty queue. In `Supervisor.RunFrom` that case is the outcome `Blocked`, a run that goes on waiting for ever.
- TaskQueues.MinIndex: breaks ties by serving the earliest entry. Python's heap compares whole tuples instead; with the program's own entries, equal priorities mean equal entries, so the order is the same. For entries with equal priority and distinct foreign tasks, Python may raise instead, and that is not modelled.
- Real processes, time and signals. What `Popen`, `poll()` and each `wait(5)` do is supplied by the oracle `os`, one description per launch. The command's arguments are not modelled.
- The `repr` of a bogus task is given as a string; Python's `repr` formatting is not modelled.
- The `log` parameter's destination (standard error by default). Log lines are recorded as effects in the trace.
- setup.py (packaging) and test_noticer.py. The tests exercise a different interface and are not taken as properties of this code.
