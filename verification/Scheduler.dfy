/**
 The scheduler of oslmic.c: two singly linked queues of job descriptors, edited through
 the slot that points at the entry in hand (a queue head or a predecessor's next).
 */
module Scheduler {
  import opened Common
  import opened Ticks
  import opened Scheduling

  /** The chain from head runs through the jobs of q, in order, and ends there. */
  ghost predicate Linked(head: OsJob?, q: seq<Item>)
    reads Nodes(q)`next
  {
    && head == JobAt(q, 0)
    && forall i {:trigger q[i].job.next} :: 0 <= i < |q| ==> q[i].job.next == JobAt(q, i + 1)
  }

  ghost function JobAt(q: seq<Item>, i: nat): OsJob? {
    if i < |q| then q[i].job else null
  }

  ghost function Nodes(q: seq<Item>): set<OsJob> {
    set x | x in q :: x.job
  }

  /** The descriptors hold what the queue entries say. */
  ghost predicate FilledIn(q: seq<Item>, timed: bool)
    reads Nodes(q)`func, Nodes(q)`deadline
  {
    forall i :: 0 <= i < |q| ==> q[i].job.func == q[i].func && (timed ==> q[i].job.deadline == q[i].deadline)
  }

  lemma NodesOf(q: seq<Item>)
    ensures forall i :: 0 <= i < |q| ==> q[i].job in Nodes(q)
  {
  }

  lemma NodesApart(os: Scheduling.Os)
    requires Apart(os)
    ensures NoJobTwice(os.timed) && NoJobTwice(os.ready)
    ensures forall o :: o in Nodes(os.timed) ==> o !in Nodes(os.ready)
  {
  }

  /** unlinkjob on one queue. */
  method Unlinkjob(head: OsJob?, job: OsJob, ghost q: seq<Item>, ghost timed: bool)
    returns (newHead: OsJob?, found: bool)
    requires Linked(head, q) && FilledIn(q, timed) && NoJobTwice(q)
    modifies Nodes(q)`next
    ensures found == Queued(q, job)
    ensures Linked(newHead, Unlink(q, job)) && FilledIn(Unlink(q, job), timed)
  {
    newHead, found := head, false;
    var prev: OsJob? := null;
    var cur := head;
    ghost var i := 0;
    while cur != null
      invariant 0 <= i <= |q|
      invariant cur == JobAt(q, i)
      invariant prev == if i > 0 then q[i - 1].job else null
      invariant forall k :: 0 <= k < i ==> q[k].job != job
      invariant Linked(head, q)
      decreases |q| - i
    {
      if cur == job {
        UnlinkAt(q, job, i);
        assert q[i] in q;
        if prev == null {
          newHead := job.next;
        } else {
          prev.next := job.next;
        }
        found := true;
        FilledInUnlink(q, job, timed);
        ghost var rest := q[..i] + q[i + 1..];
        forall k | 0 <= k < |rest|
          ensures rest[k].job.next == JobAt(rest, k + 1)
        {
          if k < i {
            assert rest[k] == q[k];
            assert k + 1 < i ==> rest[k + 1] == q[k + 1];
          } else {
            assert rest[k] == q[k + 1];
          }
        }
        return;
      }
      prev, cur := cur, cur.next;
      i := i + 1;
    }
    UnlinkNone(q, job);
  }

  lemma {:induction false} UnlinkAt(q: seq<Item>, job: OsJob, i: nat)
    requires i < |q| && q[i].job == job && forall k :: 0 <= k < i ==> q[k].job != job
    ensures Unlink(q, job) == q[..i] + q[i + 1..]
  {
    if i > 0 {
      UnlinkAt(q[1..], job, i - 1);
    }
  }

  lemma {:induction false} UnlinkNone(q: seq<Item>, job: OsJob)
    requires forall k :: 0 <= k < |q| ==> q[k].job != job
    ensures Unlink(q, job) == q && !Queued(q, job)
  {
    if q != [] {
      UnlinkNone(q[1..], job);
    }
  }

  class Os {
    var scheduledjobs: OsJob?
    var runnablejobs: OsJob?
    /** The two queues as values. */
    ghost var queues: Scheduling.Os

    ghost predicate Valid()
      reads this, Nodes(queues.timed), Nodes(queues.ready)
    {
      && Apart(queues)
      && Linked(scheduledjobs, queues.timed) && Linked(runnablejobs, queues.ready)
      && FilledIn(queues.timed, true) && FilledIn(queues.ready, false)
    }

    constructor ()
      ensures Valid() && queues == Scheduling.Os.Os([], [])
    {
      scheduledjobs, runnablejobs := null, null;
      queues := Scheduling.Os.Os([], []);
    }

    /** os_clearCallback: the run queue is searched only if the timer queue had no such job. */
    method ClearCallback(job: OsJob)
      requires Valid()
      modifies this, Nodes(queues.timed)`next, Nodes(queues.ready)`next
      ensures Valid() && queues == Clear(old(queues), job)
    {
      hide Clear, Unlink, Queued, Nodes, NoJobTwice, Apart;
      ClearCases(queues, job);
      UnlinkFromQueues(job);
      queues := Clear(queues, job);
    }

    method UnlinkFromQueues(job: OsJob)
      requires Valid()
      modifies `scheduledjobs, `runnablejobs, Nodes(queues.timed)`next, Nodes(queues.ready)`next
      ensures FilledIn(Clear(queues, job).timed, true) && FilledIn(Clear(queues, job).ready, false)
      ensures Linked(scheduledjobs, Clear(queues, job).timed) && Linked(runnablejobs, Clear(queues, job).ready)
    {
      hide Clear, Unlink, Queued, NoJobTwice, Apart;
      NodesApart(queues);
      ClearCases(queues, job);
      var found;
      scheduledjobs, found := Unlinkjob(scheduledjobs, job, queues.timed, true);
      if !found {
        runnablejobs, found := Unlinkjob(runnablejobs, job, queues.ready, false);
      }
    }

    /** Clears the job and fills it in; it is on no queue then. */
    method Prepare(job: OsJob, cb: nat)
      requires Valid()
      modifies this, Nodes(queues.timed)`next, Nodes(queues.ready)`next, job`next, job`func
      ensures Valid() && queues == Clear(old(queues), job) && job.func == cb && job.next == null
    {
      hide Clear, Apart, Queued, Nodes, NoJobTwice;
      ClearedParts(queues, job);
      ClearCallback(job);
      NodesOf(queues.timed);
      NodesOf(queues.ready);
      job.func := cb;
      job.next := null;
    }

    /** os_setCallback: at the end of the run queue. */
    method SetCallback(job: OsJob, cb: nat, ghost token: nat)
      requires Valid()
      modifies this, Nodes(queues.timed)`next, Nodes(queues.ready)`next, job
      ensures Valid() && queues == SetNow(old(queues), job, cb, token)
    {
      hide Clear, Apart, Queued, Nodes, NoJobTwice, Linked, FilledIn;
      ClearedParts(queues, job);
      Prepare(job, cb);
      Enqueue(job, Item(job, 0, cb, token));
    }

    method Enqueue(job: OsJob, ghost item: Item)
      requires Valid() && item.job == job && job.next == null && job.func == item.func
      requires !Queued(queues.timed, job) && !Queued(queues.ready, job)
      modifies `runnablejobs, `queues, Nodes(queues.ready)`next
      ensures Valid() && queues == Scheduling.Os.Os(old(queues.timed), old(queues.ready) + [item])
    {
      hide Apart, Queued, NoJobTwice;
      NodesApart(queues);
      NotQueued(queues, job);
      runnablejobs := AppendJob(runnablejobs, job, queues.ready, item);
      AppendedApart(queues, item);
      queues := Scheduling.Os.Os(queues.timed, queues.ready + [item]);
    }

    /** os_setTimedCallback: before the first job whose deadline is later. */
    method SetTimedCallback(job: OsJob, time: int, cb: nat, ghost token: nat)
      requires Valid()
      modifies this, Nodes(queues.timed)`next, Nodes(queues.ready)`next, job
      ensures Valid() && queues == SetTimed(old(queues), job, time, cb, token)
    {
      hide Clear, Apart, Queued, Nodes, NoJobTwice, Insert;
      ClearedParts(queues, job);
      Prepare(job, cb);
      NodesOf(queues.timed);
      job.deadline := time;
      Schedule(job, Item(job, time, cb, token));
    }

    method Schedule(job: OsJob, ghost item: Item)
      requires Valid() && item.job == job && job.next == null && job.func == item.func && job.deadline == item.deadline
      requires !Queued(queues.timed, job) && !Queued(queues.ready, job)
      modifies `scheduledjobs, `queues, Nodes(queues.timed)`next, job`next
      ensures Valid() && queues == Scheduling.Os.Os(Insert(old(queues.timed), item), old(queues.ready))
    {
      hide Apart, Queued, NoJobTwice, Insert;
      NodesApart(queues);
      NotQueued(queues, job);
      scheduledjobs := InsertJob(scheduledjobs, job, queues.timed, item);
      InsertedApart(queues, item);
      queues := Scheduling.Os.Os(Insert(queues.timed, item), queues.ready);
    }

    /** os_runloop_once up to the callback, which the caller makes. */
    method RunloopOnce(now: int) returns (j: OsJob?)
      requires Valid()
      modifies this
      ensures Valid() && queues == RunOnce(old(queues), now).0
      ensures var taken := RunOnce(old(queues), now).1;
              if taken.None? then j == null else j == taken.value.job && j.func == taken.value.func
    {
      hide Apart, S32, Linked, FilledIn, Nodes;
      PolledApart(queues, now);
      Head(runnablejobs, queues.ready, false);
      Head(scheduledjobs, queues.timed, true);
      j := null;
      if runnablejobs != null {
        j := runnablejobs;
        runnablejobs := j.next;
      } else if scheduledjobs != null && S32(scheduledjobs.deadline - now) <= 0 {
        j := scheduledjobs;
        scheduledjobs := j.next;
      }
      queues := RunOnce(queues, now).0;
    }
  }

  lemma Head(head: OsJob?, q: seq<Item>, timed: bool)
    requires Linked(head, q) && FilledIn(q, timed)
    ensures head == null <==> q == []
    ensures q != [] ==>
              && head == q[0].job && head.func == q[0].func && (timed ==> head.deadline == q[0].deadline)
              && Linked(head.next, q[1..]) && FilledIn(q[1..], timed)
    ensures Linked(null, []) && FilledIn([], timed)
  {
  }

  /** The append loop of os_setCallback. */
  method AppendJob(head: OsJob?, job: OsJob, ghost q: seq<Item>, ghost item: Item) returns (newHead: OsJob?)
    requires Linked(head, q) && NoJobTwice(q) && job !in Nodes(q) && job.next == null && item.job == job
    requires FilledIn(q, false) && job.func == item.func
    modifies Nodes(q)`next
    ensures Linked(newHead, q + [item]) && FilledIn(q + [item], false)
  {
    newHead := head;
    var prev: OsJob? := null;
    var cur := head;
    ghost var i := 0;
    NodesOf(q);
    while cur != null
      invariant 0 <= i <= |q|
      invariant cur == JobAt(q, i)
      invariant prev == if i > 0 then q[i - 1].job else null
      invariant Linked(head, q)
      decreases |q| - i
    {
      prev, cur := cur, cur.next;
      i := i + 1;
    }
    if prev == null {
      newHead := job;
    } else {
      prev.next := job;
    }
  }

  /** The insertion loop of os_setTimedCallback. */
  method InsertJob(head: OsJob?, job: OsJob, ghost q: seq<Item>, ghost item: Item) returns (newHead: OsJob?)
    requires Linked(head, q) && NoJobTwice(q) && FilledIn(q, true) && job !in Nodes(q)
    requires job.next == null && item.job == job && job.deadline == item.deadline && job.func == item.func
    modifies Nodes(q)`next, job`next
    ensures Linked(newHead, Insert(q, item)) && FilledIn(Insert(q, item), true)
  {
    hide S32, Insert, Nodes, Spliced;
    newHead := head;
    var prev: OsJob? := null;
    var cur := head;
    ghost var i := 0;
    NodesOf(q);
    while cur != null
      invariant 0 <= i <= |q|
      invariant cur == JobAt(q, i)
      invariant prev == if i > 0 then q[i - 1].job else null
      invariant Linked(head, q) && job.next == null
      invariant forall k :: 0 <= k < i ==> S32(q[k].deadline - item.deadline) <= 0
      decreases |q| - i
    {
      if S32(cur.deadline - job.deadline) > 0 {
        job.next := cur;
        break;
      }
      prev, cur := cur, cur.next;
      i := i + 1;
    }
    if prev == null {
      newHead := job;
    } else {
      prev.next := job;
    }
    InsertAt(q, item, i);
    LinkedSplice(newHead, q, item, i);
    FilledInInsert(q, item);
  }

  ghost function Spliced(q: seq<Item>, item: Item, i: nat): seq<Item>
    requires i <= |q|
  {
    q[..i] + [item] + q[i..]
  }

  lemma LinkedSplice(head: OsJob?, q: seq<Item>, item: Item, i: nat)
    requires i <= |q| && head == if i == 0 then item.job else JobAt(q, 0)
    requires forall k :: 0 <= k < |q| ==> q[k].job.next == if k + 1 == i then item.job else JobAt(q, k + 1)
    requires item.job.next == JobAt(q, i)
    ensures Linked(head, Spliced(q, item, i))
  {
  }

  lemma {:induction false} InsertAt(q: seq<Item>, item: Item, i: nat)
    requires i <= |q| && forall k :: 0 <= k < i ==> S32(q[k].deadline - item.deadline) <= 0
    requires i < |q| ==> S32(q[i].deadline - item.deadline) > 0
    ensures Insert(q, item) == Spliced(q, item, i)
  {
    hide S32;
    if i > 0 {
      InsertAt(q[1..], item, i - 1);
    }
  }

  /** What clearing leaves is not queued any more, and has no new nodes. */
  lemma ClearedParts(os: Scheduling.Os, job: OsJob)
    requires Apart(os)
    ensures var c := Clear(os, job);
            && Nodes(c.timed) <= Nodes(os.timed) && Nodes(c.ready) <= Nodes(os.ready)
            && job !in Nodes(c.timed) && job !in Nodes(c.ready)
            && !Queued(c.timed, job) && !Queued(c.ready, job)
  {
    ClearKeeps(os, job);
    var c := Clear(os, job);
    forall o | o in Nodes(c.timed)
      ensures o in Nodes(os.timed)
    {
      var x :| x in c.timed && x.job == o;
      assert x in os.timed;
    }
    forall o | o in Nodes(c.ready)
      ensures o in Nodes(os.ready)
    {
      var x :| x in c.ready && x.job == o;
      assert x in os.ready;
    }
  }

  lemma NotQueued(os: Scheduling.Os, job: OsJob)
    requires Apart(os) && !Queued(os.timed, job) && !Queued(os.ready, job)
    ensures NoJobTwice(os.timed) && NoJobTwice(os.ready) && job !in Nodes(os.timed) && job !in Nodes(os.ready)
  {
  }

  lemma AppendedApart(os: Scheduling.Os, item: Item)
    requires Apart(os) && !Queued(os.timed, item.job) && !Queued(os.ready, item.job)
    ensures Apart(Scheduling.Os.Os(os.timed, os.ready + [item]))
  {
  }

  lemma InsertedApart(os: Scheduling.Os, item: Item)
    requires Apart(os) && !Queued(os.timed, item.job) && !Queued(os.ready, item.job)
    ensures Apart(Scheduling.Os.Os(Insert(os.timed, item), os.ready))
  {
    InsertKeeps(os.timed, item);
  }

  lemma PolledApart(os: Scheduling.Os, now: int)
    requires Apart(os)
    ensures Apart(RunOnce(os, now).0)
  {
  }

  lemma {:induction false} FilledInInsert(q: seq<Item>, item: Item)
    requires FilledIn(q, true) && item.job.func == item.func && item.job.deadline == item.deadline
    ensures FilledIn(Insert(q, item), true)
  {
    hide S32;
    if q != [] {
      FilledInInsert(q[1..], item);
    }
  }

  lemma {:induction false} FilledInUnlink(q: seq<Item>, job: OsJob, timed: bool)
    requires FilledIn(q, timed)
    ensures FilledIn(Unlink(q, job), timed)
  {
    if q != [] {
      FilledInUnlink(q[1..], job, timed);
    }
  }

  lemma ClearCases(os: Scheduling.Os, job: OsJob)
    requires Apart(os)
    ensures NoJobTwice(os.timed) && NoJobTwice(os.ready) && Apart(Clear(os, job))
    ensures Clear(os, job) == if Queued(os.timed, job) then Scheduling.Os.Os(Unlink(os.timed, job), os.ready)
                              else Scheduling.Os.Os(os.timed, Unlink(os.ready, job))
    ensures !Queued(os.timed, job) ==> Unlink(os.timed, job) == os.timed
  {
    ClearKeeps(os, job);
    if !Queued(os.timed, job) {
      UnlinkAbsent(os.timed, job);
    }
  }

  lemma {:induction false} UnlinkAbsent(q: seq<Item>, job: OsJob)
    requires !Queued(q, job)
    ensures Unlink(q, job) == q
  {
    if q != [] {
      assert q[0] in q;
      assert forall x :: x in q[1..] ==> x in q;
      UnlinkAbsent(q[1..], job);
    }
  }
}
