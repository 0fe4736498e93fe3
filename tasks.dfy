/** The task values that travel from the event handler and the shutdown path
    to the supervisor loop, and the priorities they are queued with
    (noticer.py:33-34, 49, 96). */
module Tasks {

  datatype Option<+T> = None | Some(value: T)

  /** RELOAD and STOP are identity-compared sentinels in the program; any other
      value that reaches the loop is a bogus task, known here only by the text
      Python's `repr` gives for it. */
  datatype Task = Stop | Reload | Bogus(repr: string)

  /** A queue entry is the tuple `(priority, task)`; lower priority is served first. */
  datatype Entry = Entry(priority: int, task: Task)

  /** Priority of the STOP put by the watcher on shutdown (noticer.py:96). */
  const StopPriority: int := 0

  /** Priority of the RELOAD put by the event handler (noticer.py:49). */
  const ReloadPriority: int := 100

  const StopEntry: Entry := Entry(StopPriority, Stop)
  const ReloadEntry: Entry := Entry(ReloadPriority, Reload)

  /** True of the entries the program itself ever enqueues. */
  predicate Sanctioned(e: Entry) {
    e == StopEntry || e == ReloadEntry
  }
}
