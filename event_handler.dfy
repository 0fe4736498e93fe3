/** The bridge from filesystem events to the task queue: `EventHandler`
    (noticer.py:39-53). */
module Events {
  import opened Tasks
  import opened TaskQueues

  /** The inotify event kinds the handler distinguishes; every other kind is
      `Other` and falls to the library's default handler, which does nothing. */
  datatype EventKind = Modify | Create | Other

  datatype Event = Event(kind: EventKind, pathname: string)

  /** Python's `s.endswith(suffix)`: a plain suffix test on the whole string.
      The empty suffix matches every string. */
  predicate EndsWith(s: string, suffix: string) {
    |suffix| <= |s| && s[|s| - |suffix|..] == suffix
  }

  /** Some listed extension is a suffix of `path`. */
  predicate Relevant(path: string, extensions: seq<string>) {
    exists k :: 0 <= k < |extensions| && EndsWith(path, extensions[k])
  }

  /** An empty extension list makes every path irrelevant; a list that holds the
      empty string makes every path relevant. */
  lemma RelevanceEdgeCases(path: string, extensions: seq<string>)
    ensures extensions == [] ==> !Relevant(path, extensions)
    ensures "" in extensions ==> Relevant(path, extensions)
  {
    if "" in extensions {
      var k :| 0 <= k < |extensions| && extensions[k] == "";
      assert path[|path|..] == "";
      assert EndsWith(path, extensions[k]);
    }
  }

  /** The suffix test looks at the whole path, not at a file name or a dotted
      extension: "src/notes.py" is relevant under "py", "src/app.pyc" is not
      relevant under ".py". */
  lemma SuffixTestIsPlain()
    ensures Relevant("src/notes.py", ["py"])
    ensures !Relevant("src/app.pyc", [".py"])
  {
    assert EndsWith("src/notes.py", ["py"][0]) by {
      assert "src/notes.py"[10..] == "py";
    }
    assert !EndsWith("src/app.pyc", ".py") by {
      assert "src/app.pyc"[8..][0] == 'p' != ".py"[0];
    }
  }

  class EventHandler {
    const directory: string
    const extensions: seq<string>
    const taskQueue: TaskQueue

    /** `my_init`: records the directory, the extension list and the queue. */
    constructor (directory: string, extensions: seq<string>, taskQueue: TaskQueue)
      ensures this.directory == directory && this.extensions == extensions
      ensures this.taskQueue == taskQueue
    {
      this.directory := directory;
      this.extensions := extensions;
      this.taskQueue := taskQueue;
    }

    /** `generic_processor`: puts exactly one `(100, RELOAD)` when some listed
        extension is a suffix of the path, however many match, and nothing
        otherwise. */
    method GenericProcessor(event: Event)
      modifies taskQueue
      ensures Relevant(event.pathname, extensions) ==>
        taskQueue.pending == old(taskQueue.pending) + [ReloadEntry]
      ensures !Relevant(event.pathname, extensions) ==>
        taskQueue.pending == old(taskQueue.pending)
    {
      var i := 0;
      while i < |extensions|
        invariant 0 <= i <= |extensions|
        invariant forall k :: 0 <= k < i ==> !EndsWith(event.pathname, extensions[k])
        invariant taskQueue.pending == old(taskQueue.pending)
      {
        if EndsWith(event.pathname, extensions[i]) {
          taskQueue.Put(Entry(100, Reload));
          break;
        }
        i := i + 1;
      }
    }

    /** The dispatch set up by `process_IN_MODIFY` and `process_IN_CREATE`:
        modify and create events go to `generic_processor`, every other kind
        leaves the queue alone. */
    method Handle(event: Event)
      modifies taskQueue
      ensures event.kind != Other && Relevant(event.pathname, extensions) ==>
        taskQueue.pending == old(taskQueue.pending) + [ReloadEntry]
      ensures event.kind == Other || !Relevant(event.pathname, extensions) ==>
        taskQueue.pending == old(taskQueue.pending)
    {
      if event.kind == Modify || event.kind == Create {
        GenericProcessor(event);
      }
    }
  }
}
