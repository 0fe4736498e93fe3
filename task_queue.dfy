/** The task queue shared by the event handler, the shutdown path and the
    supervisor loop: a `queue.PriorityQueue` of `(priority, task)` entries
    (noticer.py:79), modelled abstractly as a min-priority queue. */
module TaskQueues {
  import opened Tasks

  /** Index of the entry a min-priority dequeue serves: the lowest priority,
      the earliest such entry on a tie. */
  function MinIndex(s: seq<Entry>): (i: nat)
    requires s != []
    ensures i < |s|
    ensures forall j :: 0 <= j < |s| ==> s[i].priority <= s[j].priority
    ensures forall j :: 0 <= j < i ==> s[i].priority < s[j].priority
    decreases |s|
  {
    if |s| == 1 then 0
    else
      var k := MinIndex(s[1..]) + 1;
      if s[0].priority <= s[k].priority then 0 else k
  }

  /** `s` without its `i`th entry. */
  function Remove(s: seq<Entry>, i: nat): seq<Entry>
    requires i < |s|
  {
    s[..i] + s[i + 1..]
  }

  /** The order in which successive dequeues serve everything pending in `s`,
      when nothing is put in between. */
  function Drain(s: seq<Entry>): seq<Entry>
    decreases |s|
  {
    if s == [] then []
    else
      var i := MinIndex(s);
      [s[i]] + Drain(Remove(s, i))
  }

  /** The task part of each entry, in order. */
  function TasksOf(s: seq<Entry>): (ts: seq<Task>)
    ensures |ts| == |s|
    ensures forall k :: 0 <= k < |s| ==> ts[k] == s[k].task
  {
    if s == [] then [] else [s[0].task] + TasksOf(s[1..])
  }

  lemma RemoveSplits(s: seq<Entry>, i: nat)
    requires i < |s|
    ensures multiset(s) == multiset{s[i]} + multiset(Remove(s, i))
  {
    assert s == s[..i] + [s[i]] + s[i + 1..];
  }

  /** Draining serves every pending entry exactly once: nothing is dropped or
      duplicated. */
  lemma {:induction false} DrainIsPermutation(s: seq<Entry>)
    ensures multiset(Drain(s)) == multiset(s)
    ensures |Drain(s)| == |s|
    decreases |s|
  {
    if s != [] {
      var i := MinIndex(s);
      RemoveSplits(s, i);
      DrainIsPermutation(Remove(s, i));
    }
  }

  /** Draining serves entries in non-decreasing priority. */
  lemma {:induction false} DrainIsOrdered(s: seq<Entry>)
    ensures forall p, q :: 0 <= p < q < |Drain(s)| ==> Drain(s)[p].priority <= Drain(s)[q].priority
    decreases |s|
  {
    if s != [] {
      var i := MinIndex(s);
      var rest := Remove(s, i);
      DrainIsOrdered(rest);
      DrainIsPermutation(rest);
      RemoveSplits(s, i);
      var d := Drain(s);
      assert d == [s[i]] + Drain(rest);
      forall p, q | 0 <= p < q < |d|
        ensures d[p].priority <= d[q].priority
      {
        if p == 0 {
          var x := Drain(rest)[q - 1];
          assert x in multiset(Drain(rest));
          assert x in multiset(s);
          assert x in s;
        }
      }
    }
  }

  /** With only the program's own entries pending, every pending STOP is
      served before every pending RELOAD. */
  lemma StopServedBeforeReload(s: seq<Entry>)
    requires forall k :: 0 <= k < |s| ==> Sanctioned(s[k])
    ensures |Drain(s)| == |s|
    ensures forall p, q :: 0 <= p < q < |Drain(s)| && Drain(s)[q].task == Stop ==> Drain(s)[p].task == Stop
  {
    var d := Drain(s);
    DrainIsPermutation(s);
    DrainIsOrdered(s);
    DrainKeepsSanctioned(s);
    forall p, q | 0 <= p < q < |d| && d[q].task == Stop
      ensures d[p].task == Stop
    {
      assert d[p].priority <= d[q].priority;
    }
  }

  lemma DrainKeepsSanctioned(s: seq<Entry>)
    requires forall k :: 0 <= k < |s| ==> Sanctioned(s[k])
    ensures forall k :: 0 <= k < |Drain(s)| ==> Sanctioned(Drain(s)[k])
  {
    DrainIsPermutation(s);
    forall k | 0 <= k < |Drain(s)|
      ensures Sanctioned(Drain(s)[k])
    {
      var x := Drain(s)[k];
      assert x in multiset(Drain(s));
      assert x in s;
    }
  }

  /** With only the program's own entries pending, a pending STOP is what the
      next dequeue serves. */
  lemma PendingStopServedNext(s: seq<Entry>)
    requires forall k :: 0 <= k < |s| ==> Sanctioned(s[k])
    requires StopEntry in s
    ensures s[MinIndex(s)] == StopEntry
  {
    var k :| 0 <= k < |s| && s[k] == StopEntry;
    assert s[MinIndex(s)].priority <= s[k].priority;
    assert Sanctioned(s[MinIndex(s)]);
  }

  /** `queue.PriorityQueue` as the program uses it. */
  class TaskQueue {
    var pending: seq<Entry>

    constructor ()
      ensures pending == []
    {
      pending := [];
    }

    /** `put`: never blocks, never drops. */
    method Put(e: Entry)
      modifies this
      ensures pending == old(pending) + [e]
    {
      pending := pending + [e];
    }

    /** `get`: serves an entry of least priority. `None` stands for the case
        where the real call would block on an empty queue. */
    method Get() returns (e: Option<Entry>)
      modifies this
      ensures old(pending) == [] ==> e == None && pending == []
      ensures old(pending) != [] ==>
        && e.Some?
        && e.value == old(pending)[MinIndex(old(pending))]
        && pending == Remove(old(pending), MinIndex(old(pending)))
      ensures e.Some? ==> forall k :: 0 <= k < |pending| ==> e.value.priority <= pending[k].priority
      ensures e.Some? ==> multiset(old(pending)) == multiset{e.value} + multiset(pending)
    {
      if pending == [] {
        e := None;
      } else {
        var i := MinIndex(pending);
        RemoveSplits(pending, i);
        e := Some(pending[i]);
        pending := Remove(pending, i);
      }
    }
  }

  /** The shutdown path's `task_queue.put((0, STOP))` (noticer.py:96). */
  method PutStop(q: TaskQueue)
    modifies q
    ensures q.pending == old(q.pending) + [StopEntry]
  {
    q.Put(Entry(0, Stop));
  }
}
