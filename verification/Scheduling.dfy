/**
 The job queues as values: what each scheduler call does, and what holds over every
 sequence of calls. Each scheduling call carries a token that tells it from all others.
 */
module Scheduling {
  import opened Common
  import opened Ticks

  /** A job descriptor; the caller owns it and the queues link it. */
  class OsJob {
    var next: OsJob?
    var deadline: int
    var func: nat

    constructor ()
      ensures next == null
    {
      next, deadline, func := null, 0, 0;
    }
  }

  datatype Item = Item(job: OsJob, deadline: int, func: nat, token: nat)

  datatype Os = Os(timed: seq<Item>, ready: seq<Item>)

  ghost predicate Queued(q: seq<Item>, job: OsJob) {
    exists x :: x in q && x.job == job
  }

  /** unlinkjob: the first entry of the job goes. */
  ghost function Unlink(q: seq<Item>, job: OsJob): seq<Item> {
    if q == [] then [] else if q[0].job == job then q[1..] else [q[0]] + Unlink(q[1..], job)
  }

  /** os_clearCallback: the run queue is searched only if the job is not on the timer queue. */
  ghost function Clear(os: Os, job: OsJob): Os {
    if Queued(os.timed, job) then Os(Unlink(os.timed, job), os.ready) else Os(os.timed, Unlink(os.ready, job))
  }

  /** os_setCallback */
  ghost function SetNow(os: Os, job: OsJob, func: nat, token: nat): Os {
    var cleared := Clear(os, job);
    Os(cleared.timed, cleared.ready + [Item(job, 0, func, token)])
  }

  /** Before the first entry whose deadline is later, by signed difference. */
  ghost function Insert(q: seq<Item>, item: Item): seq<Item> {
    if q == [] then [item]
    else if S32(q[0].deadline - item.deadline) > 0 then [item] + q
    else [q[0]] + Insert(q[1..], item)
  }

  /** os_setTimedCallback */
  ghost function SetTimed(os: Os, job: OsJob, deadline: int, func: nat, token: nat): Os {
    var cleared := Clear(os, job);
    Os(Insert(cleared.timed, Item(job, deadline, func, token)), cleared.ready)
  }

  /** os_runloop_once: the run queue first, then a timed job that is due. */
  ghost function RunOnce(os: Os, now: int): (Os, Option<Item>) {
    if os.ready != [] then (Os(os.timed, os.ready[1..]), Some(os.ready[0]))
    else if os.timed != [] && S32(os.timed[0].deadline - now) <= 0 then (Os(os.timed[1..], []), Some(os.timed[0]))
    else (os, None)
  }

  // ---------------------------------------------------------------- runs

  datatype Event =
    | Now(job: OsJob, func: nat)
    | Timed(job: OsJob, deadline: int, func: nat)
    | Cancel(job: OsJob)
    | Poll(now: int)

  /** A job that ran, and when. */
  datatype Ran = Ran(item: Item, at: int)

  datatype Run = Run(os: Os, ran: seq<Ran>)

  ghost function Step(r: Run, event: Event, token: nat): Run {
    match event
    case Now(job, func) => Run(SetNow(r.os, job, func, token), r.ran)
    case Timed(job, deadline, func) => Run(SetTimed(r.os, job, deadline, func, token), r.ran)
    case Cancel(job) => Run(Clear(r.os, job), r.ran)
    case Poll(now) =>
      match RunOnce(r.os, now)
      case (os, None) => Run(os, r.ran)
      case (os, Some(item)) => Run(os, r.ran + [Ran(item, now)])
  }

  /** The n-th call carries the token n. */
  ghost function After(events: seq<Event>): Run {
    if events == [] then Run(Os([], []), [])
    else Step(After(events[..|events| - 1]), events[|events| - 1], |events| - 1)
  }

  predicate Touches(event: Event, job: OsJob) {
    !event.Poll? && event.job == job
  }

  // ---------------------------------------------------------------- at most one place for a job

  ghost predicate NoJobTwice(q: seq<Item>) {
    forall i, j :: 0 <= i < j < |q| ==> q[i].job != q[j].job
  }

  ghost predicate Apart(os: Os) {
    && NoJobTwice(os.timed) && NoJobTwice(os.ready)
    && forall x, y :: x in os.timed && y in os.ready ==> x.job != y.job
  }

  lemma NoJobTwiceParts(item: Item, q: seq<Item>)
    ensures NoJobTwice([item] + q) <==> NoJobTwice(q) && forall x :: x in q ==> x.job != item.job
  {
    var all := [item] + q;
    if NoJobTwice(all) {
      forall x | x in q
        ensures x.job != item.job
      {
        var k :| 0 <= k < |q| && q[k] == x;
        assert all[0] == item && all[k + 1] == x;
      }
      forall i, j | 0 <= i < j < |q|
        ensures q[i].job != q[j].job
      {
        assert all[i + 1].job != all[j + 1].job;
      }
    }
  }

  /** What unlinking leaves: everything but the entries of the job, in the same order. */
  lemma {:induction false} UnlinkLeaves(q: seq<Item>, job: OsJob)
    requires NoJobTwice(q)
    ensures NoJobTwice(Unlink(q, job)) && !Queued(Unlink(q, job), job)
    ensures forall x :: x in Unlink(q, job) <==> x in q && x.job != job
  {
    hide NoJobTwice;
    if q != [] {
      assert q == [q[0]] + q[1..];
      NoJobTwiceParts(q[0], q[1..]);
      UnlinkLeaves(q[1..], job);
      NoJobTwiceParts(q[0], Unlink(q[1..], job));
    } else {
      assert NoJobTwice(q);
    }
  }

  lemma {:induction false} InsertKeeps(q: seq<Item>, item: Item)
    requires NoJobTwice(q) && !Queued(q, item.job)
    ensures NoJobTwice(Insert(q, item))
    ensures forall x: Item :: x in Insert(q, item) <==> (x in q || x == item)
  {
    if q != [] {
      assert q == [q[0]] + q[1..];
      if S32(q[0].deadline - item.deadline) <= 0 {
        InsertKeeps(q[1..], item);
        var rest := Insert(q[1..], item);
        assert q[0].job != item.job;
        forall k | 0 <= k < |rest|
          ensures rest[k].job != q[0].job
        {
          assert rest[k] in rest;
        }
      }
    }
  }

  lemma ClearKeeps(os: Os, job: OsJob)
    requires Apart(os)
    ensures Apart(Clear(os, job)) && !Queued(Clear(os, job).timed, job) && !Queued(Clear(os, job).ready, job)
    ensures forall x :: x in Clear(os, job).timed <==> x in os.timed && x.job != job
    ensures forall x :: x in Clear(os, job).ready <==> x in os.ready && x.job != job
  {
    UnlinkLeaves(os.timed, job);
    UnlinkLeaves(os.ready, job);
  }

  lemma AppendKeeps(q: seq<Item>, item: Item)
    requires NoJobTwice(q) && !Queued(q, item.job)
    ensures NoJobTwice(q + [item])
    ensures forall x :: x in q + [item] <==> x in q || x == item
  {
  }

  lemma TailMembers(q: seq<Item>)
    ensures q != [] ==> forall x :: x in q <==> x == q[0] || x in q[1..]
  {
  }

  lemma StepKeepsApart(r: Run, event: Event, token: nat)
    requires Apart(r.os)
    ensures Apart(Step(r, event, token).os)
  {
    hide Clear, Insert;
    if !event.Poll? {
      ClearKeeps(r.os, event.job);
      var cleared := Clear(r.os, event.job);
      if event.Timed? {
        InsertKeeps(cleared.timed, Item(event.job, event.deadline, event.func, token));
        assert Apart(Step(r, event, token).os);
      } else if event.Now? {
        AppendKeeps(cleared.ready, Item(event.job, 0, event.func, token));
        assert Apart(Step(r, event, token).os);
      } else {
        assert Apart(Step(r, event, token).os);
      }
    } else {
      TailMembers(r.os.ready);
      TailMembers(r.os.timed);
    }
  }

  /** After any sequence of calls each job is queued at most once, on one queue only. */
  lemma {:induction false} EachJobOnce(events: seq<Event>)
    ensures Apart(After(events).os)
  {
    if events != [] {
      EachJobOnce(events[..|events| - 1]);
      StepKeepsApart(After(events[..|events| - 1]), events[|events| - 1], |events| - 1);
    }
  }

  // ---------------------------------------------------------------- every scheduling is accounted for

  /** The item is the one the call asked for. */
  predicate Asked(event: Event, x: Item) {
    event == Timed(x.job, x.deadline, x.func) || (event == Now(x.job, x.func) && x.deadline == 0)
  }

  /** A timed job may run at a time if its deadline is not ahead by signed difference. */
  predicate MayRun(event: Event, at: int) {
    event.Timed? ==> S32(event.deadline - at) <= 0
  }

  ghost predicate Pending(os: Os, token: nat) {
    (exists x :: x in os.timed && x.token == token) || (exists x :: x in os.ready && x.token == token)
  }

  ghost predicate HasRun(ran: seq<Ran>, token: nat) {
    exists i :: 0 <= i < |ran| && ran[i].item.token == token
  }

  /** No call after the token's own one touches its job. */
  ghost predicate Undisturbed(events: seq<Event>, token: nat)
    requires token < |events| && !events[token].Poll?
  {
    forall u :: token < u < |events| ==> !Touches(events[u], events[token].job)
  }

  ghost predicate Genuine(events: seq<Event>, r: Run) {
    && (forall x :: x in r.os.timed ==> x.token < |events| && Asked(events[x.token], x) && events[x.token].Timed?)
    && (forall x :: x in r.os.ready ==> x.token < |events| && Asked(events[x.token], x) && events[x.token].Now?)
    && (forall y :: y in r.ran ==>
          y.item.token < |events| && Asked(events[y.item.token], y.item) && MayRun(events[y.item.token], y.at))
  }

  ghost predicate RanOnce(ran: seq<Ran>) {
    forall i, j :: 0 <= i < j < |ran| ==> ran[i].item.token != ran[j].item.token
  }

  ghost predicate Accounted(events: seq<Event>, r: Run) {
    forall t :: 0 <= t < |events| && (events[t].Now? || events[t].Timed?) ==>
      (Pending(r.os, t) <==> !HasRun(r.ran, t) && Undisturbed(events, t))
  }

  ghost predicate Sound(events: seq<Event>, r: Run) {
    Apart(r.os) && Genuine(events, r) && RanOnce(r.ran) && Accounted(events, r)
  }

  lemma StepKeepsGenuine(events: seq<Event>, r: Run, event: Event)
    requires Sound(events, r)
    ensures Genuine(events + [event], Step(r, event, |events|))
  {
    hide Clear, Insert, S32;
    var after := events + [event];
    var r' := Step(r, event, |events|);
    if !event.Poll? {
      ClearKeeps(r.os, event.job);
      var cleared := Clear(r.os, event.job);
      if event.Timed? {
        InsertKeeps(cleared.timed, Item(event.job, event.deadline, event.func, |events|));
        assert Genuine(after, r');
      } else if event.Now? {
        AppendKeeps(cleared.ready, Item(event.job, 0, event.func, |events|));
        assert Genuine(after, r');
      } else {
        assert Genuine(after, r');
      }
    } else {
      TailMembers(r.os.ready);
      TailMembers(r.os.timed);
      forall y | y in r'.ran
        ensures y.item.token < |after| && Asked(after[y.item.token], y.item) && MayRun(after[y.item.token], y.at)
      {
        if y !in r.ran {
          assert y == Ran(RunOnce(r.os, event.now).1.value, event.now);
        }
      }
    }
  }

  /** Among queued items the token determines the job, and clearing removes exactly the job's. */
  lemma ClearPending(events: seq<Event>, r: Run, job: OsJob, t: nat)
    requires Sound(events, r) && t < |events| && !events[t].Poll?
    ensures Pending(Clear(r.os, job), t) <==> Pending(r.os, t) && events[t].job != job
  {
    hide Clear;
    ClearKeeps(r.os, job);
    var cleared := Clear(r.os, job);
    if Pending(r.os, t) && events[t].job != job {
      if x :| x in r.os.timed && x.token == t {
        assert x in cleared.timed;
      } else {
        var x :| x in r.os.ready && x.token == t;
        assert x in cleared.ready;
      }
    }
    if Pending(cleared, t) {
      if x :| x in cleared.timed && x.token == t {
        assert x in r.os.timed;
      } else {
        var x :| x in cleared.ready && x.token == t;
        assert x in r.os.ready;
      }
    }
  }

  lemma TouchKeepsAccounted(events: seq<Event>, r: Run, event: Event, t: nat)
    requires Sound(events, r) && !event.Poll? && t <= |events|
    requires (events + [event])[t].Now? || (events + [event])[t].Timed?
    ensures Pending(Step(r, event, |events|).os, t) <==> !HasRun(r.ran, t) && Undisturbed(events + [event], t)
  {
    hide Clear, Insert;
    var after, job := events + [event], event.job;
    var r' := Step(r, event, |events|);
    var cleared := Clear(r.os, job);
    ClearKeeps(r.os, job);
    var item := if event.Timed? then Item(job, event.deadline, event.func, |events|)
                else Item(job, 0, if event.Now? then event.func else 0, |events|);
    if event.Timed? {
      InsertKeeps(cleared.timed, item);
    } else if event.Now? {
      AppendKeeps(cleared.ready, item);
    }
    if t == |events| {
      assert !HasRun(r.ran, t) by {
        forall i | 0 <= i < |r.ran|
          ensures r.ran[i].item.token != t
        {
          assert r.ran[i] in r.ran;
        }
      }
      assert item in r'.os.timed || item in r'.os.ready;
    } else {
      ClearPending(events, r, job, t);
      StillUndisturbed(events, event, t);
      assert Pending(r'.os, t) <==> Pending(cleared, t);
    }
  }

  lemma StillUndisturbed(events: seq<Event>, event: Event, t: nat)
    requires t < |events| && !events[t].Poll?
    ensures Undisturbed(events + [event], t) <==> Undisturbed(events, t) && !Touches(event, events[t].job)
  {
    var after := events + [event];
    if Undisturbed(after, t) {
      assert after[|events|] == event;
      forall u | t < u < |events|
        ensures !Touches(events[u], events[t].job)
      {
        assert after[u] == events[u];
      }
    }
  }

  lemma PollKeepsAccounted(events: seq<Event>, r: Run, now: int, t: nat)
    requires Sound(events, r) && t < |events| && (events[t].Now? || events[t].Timed?)
    ensures var r' := Step(r, Poll(now), |events|);
            Pending(r'.os, t) <==> !HasRun(r'.ran, t) && Undisturbed(events, t)
  {
    hide S32;
    var r' := Step(r, Poll(now), |events|);
    var (os, taken) := RunOnce(r.os, now);
    TailMembers(r.os.ready);
    TailMembers(r.os.timed);
    if taken.Some? {
      var x0 := taken.value;
      assert x0 in r.os.timed || x0 in r.os.ready;
      assert r'.ran[|r.ran|].item == x0;
      if t == x0.token {
        assert HasRun(r'.ran, t);
        assert !Pending(os, t);
      } else {
        RanMore(r.ran, Ran(x0, now), t);
        assert Pending(os, t) <==> Pending(r.os, t);
      }
    }
  }

  lemma RanMore(ran: seq<Ran>, last: Ran, t: nat)
    ensures HasRun(ran + [last], t) <==> HasRun(ran, t) || last.item.token == t
  {
    if i :| 0 <= i < |ran| && ran[i].item.token == t {
      assert (ran + [last])[i].item.token == t;
    }
    assert (ran + [last])[|ran|] == last;
  }

  lemma StepKeepsSound(events: seq<Event>, r: Run, event: Event)
    requires Sound(events, r)
    ensures Sound(events + [event], Step(r, event, |events|))
  {
    hide Clear, Insert, S32;
    var after, r' := events + [event], Step(r, event, |events|);
    StepKeepsApart(r, event, |events|);
    StepKeepsGenuine(events, r, event);
    forall t | 0 <= t < |after| && (after[t].Now? || after[t].Timed?)
      ensures Pending(r'.os, t) <==> !HasRun(r'.ran, t) && Undisturbed(after, t)
    {
      if event.Poll? {
        StillUndisturbed(events, event, t);
        PollKeepsAccounted(events, r, event.now, t);
      } else {
        TouchKeepsAccounted(events, r, event, t);
      }
    }
    RunIsNew(events, r, event);
  }

  /** A job that runs was pending, so its token had not run before. */
  lemma RunIsNew(events: seq<Event>, r: Run, event: Event)
    requires Sound(events, r)
    ensures RanOnce(Step(r, event, |events|).ran)
  {
  }

  lemma {:induction false} AlwaysSound(events: seq<Event>)
    ensures Sound(events, After(events))
  {
    if events != [] {
      var before := events[..|events| - 1];
      AlwaysSound(before);
      StepKeepsSound(before, After(before), events[|events| - 1]);
      assert events == before + [events[|events| - 1]];
    }
  }

  /**
   A scheduling is pending exactly if it has not run and no later call set or cleared its
   job: nothing is lost, and nothing cancelled comes back.
   */
  lemma PendingExactly(events: seq<Event>, t: nat)
    requires t < |events| && (events[t].Now? || events[t].Timed?)
    ensures Pending(After(events).os, t) <==> !HasRun(After(events).ran, t) && Undisturbed(events, t)
  {
    AlwaysSound(events);
  }

  /**
   Each scheduling runs at most once, with the job and callback it asked for, and a timed
   one not before its deadline: in true time whenever the deadline is less than half the range ahead.
   */
  lemma RunsOnceOnTime(events: seq<Event>)
    ensures RanOnce(After(events).ran)
    ensures forall y :: y in After(events).ran ==>
              && y.item.token < |events| && Asked(events[y.item.token], y.item)
              && MayRun(events[y.item.token], y.at)
              && (events[y.item.token].Timed? && y.item.deadline - y.at < HALF ==> y.item.deadline <= y.at)
  {
    hide After, Asked, MayRun, S32;
    AlwaysSound(events);
    forall y | y in After(events).ran
      ensures events[y.item.token].Timed? && y.item.deadline - y.at < HALF ==> y.item.deadline <= y.at
    {
      NotEarly(events[y.item.token], y);
    }
  }

  lemma NotEarly(event: Event, y: Ran)
    requires Asked(event, y.item) && MayRun(event, y.at)
    ensures event.Timed? && y.item.deadline - y.at < HALF ==> y.item.deadline <= y.at
  {
    if event.Timed? && y.at < y.item.deadline < y.at + HALF {
      OrderInWindow(y.item.deadline, y.at);
    }
  }

  // ---------------------------------------------------------------- order

  /** Earlier deadline first; among equal ones the scheduling that came first. */
  predicate Before(x: Item, y: Item) {
    x.deadline < y.deadline || (x.deadline == y.deadline && x.token < y.token)
  }

  ghost predicate InOrder(q: seq<Item>) {
    forall i, j :: 0 <= i < j < |q| ==> Before(q[i], q[j])
  }

  /** Within half the range of one another, so that signed differences order them truly. */
  predicate Near(a: int, b: int) {
    -HALF <= a - b < HALF
  }

  /** Every timed call finds only deadlines within half the range of its own. */
  ghost predicate Windowed(events: seq<Event>) {
    forall n :: 0 <= n < |events| && events[n].Timed? ==>
      forall x :: x in After(events[..n]).os.timed ==> Near(x.deadline, events[n].deadline)
  }

  lemma {:induction false} UnlinkInOrder(q: seq<Item>, job: OsJob)
    requires InOrder(q)
    ensures InOrder(Unlink(q, job)) && forall x :: x in Unlink(q, job) ==> x in q
  {
    if q != [] {
      UnlinkInOrder(q[1..], job);
      if q[0].job != job {
        var rest := Unlink(q[1..], job);
        forall k | 0 <= k < |rest|
          ensures Before(q[0], rest[k])
        {
          assert rest[k] in rest;
        }
      }
    }
  }

  lemma {:induction false} InsertInOrder(q: seq<Item>, item: Item)
    requires InOrder(q)
    requires forall x :: x in q ==> Near(x.deadline, item.deadline) && x.token < item.token
    ensures InOrder(Insert(q, item)) && forall x :: x in Insert(q, item) ==> x in q || x == item
  {
    if q != [] {
      assert q[0] in q;
      OrderInWindow(q[0].deadline, item.deadline);
      if S32(q[0].deadline - item.deadline) <= 0 {
        InsertInOrder(q[1..], item);
        var rest := Insert(q[1..], item);
        forall k | 0 <= k < |rest|
          ensures Before(q[0], rest[k])
        {
          assert rest[k] in rest;
        }
      }
    }
  }

  /** The timer queue stays sorted by deadline, first come first served on ties. */
  lemma {:induction false} TimedInOrder(events: seq<Event>)
    requires Windowed(events)
    ensures InOrder(After(events).os.timed)
  {
    if events != [] {
      hide Insert, Unlink, S32;
      var n := |events| - 1;
      var before := events[..n];
      forall m | 0 <= m < n && before[m].Timed?
        ensures forall x :: x in After(before[..m]).os.timed ==> Near(x.deadline, before[m].deadline)
      {
        assert before[..m] == events[..m] && before[m] == events[m];
      }
      TimedInOrder(before);
      AlwaysSound(before);
      var r := After(before);
      if !events[n].Poll? {
        UnlinkInOrder(r.os.timed, events[n].job);
        if events[n].Timed? {
          var cleared := Clear(r.os, events[n].job);
          forall x | x in cleared.timed
            ensures Near(x.deadline, events[n].deadline) && x.token < n
          {
            assert x in r.os.timed;
          }
          InsertInOrder(cleared.timed, Item(events[n].job, events[n].deadline, events[n].func, n));
        }
      }
    }
  }

  /**
   With nothing runnable and the clock in the same window, a poll runs a timed job exactly
   when one is due, and then it is the earliest one.
   */
  lemma EarliestDueRuns(events: seq<Event>, now: int)
    requires Windowed(events)
    requires forall x :: x in After(events).os.timed ==> Near(x.deadline, now)
    requires After(events).os.ready == []
    ensures var os := After(events).os;
            var taken := RunOnce(os, now).1;
            && (taken.Some? <==> exists x :: x in os.timed && x.deadline <= now)
            && (taken.Some? ==> taken.value in os.timed && taken.value.deadline <= now
                                && forall x :: x in os.timed && x != taken.value ==> Before(taken.value, x))
  {
    hide After, Windowed;
    TimedInOrder(events);
    EarliestDue(After(events).os, now);
  }

  lemma EarliestDue(os: Os, now: int)
    requires InOrder(os.timed) && os.ready == []
    requires forall x :: x in os.timed ==> Near(x.deadline, now)
    ensures var taken := RunOnce(os, now).1;
            && (taken.Some? <==> exists x :: x in os.timed && x.deadline <= now)
            && (taken.Some? ==> taken.value in os.timed && taken.value.deadline <= now
                                && forall x :: x in os.timed && x != taken.value ==> Before(taken.value, x))
  {
  }

  ghost predicate Ascending(q: seq<Item>) {
    forall i, j :: 0 <= i < j < |q| ==> q[i].token < q[j].token
  }

  lemma {:induction false} UnlinkAscending(q: seq<Item>, job: OsJob)
    requires Ascending(q)
    ensures Ascending(Unlink(q, job)) && forall x :: x in Unlink(q, job) ==> x in q
  {
    if q != [] {
      UnlinkAscending(q[1..], job);
      if q[0].job != job {
        var rest := Unlink(q[1..], job);
        forall k | 0 <= k < |rest|
          ensures q[0].token < rest[k].token
        {
          assert rest[k] in rest;
        }
      }
    }
  }

  ghost predicate FirstInFirstOut(events: seq<Event>, r: Run) {
    && Ascending(r.os.ready)
    && (forall i, x :: 0 <= i < |r.ran| && IsNow(events, r.ran[i].item.token) && x in r.os.ready ==>
        r.ran[i].item.token < x.token)
    && (forall i, j ::
        0 <= i < j < |r.ran| && IsNow(events, r.ran[i].item.token) && IsNow(events, r.ran[j].item.token) ==>
          r.ran[i].item.token < r.ran[j].item.token)
  }

  predicate IsNow(events: seq<Event>, t: nat) {
    t < |events| && events[t].Now?
  }

  /** Jobs set to run at once do run in the order they were set. */
  lemma {:induction false} RunQueueFifo(events: seq<Event>)
    ensures FirstInFirstOut(events, After(events))
  {
    if events != [] {
      var before, event := events[..|events| - 1], events[|events| - 1];
      RunQueueFifo(before);
      AlwaysSound(before);
      assert events == before + [event];
      StepKeepsFifo(before, After(before), event);
    }
  }

  lemma StepKeepsFifo(events: seq<Event>, r: Run, event: Event)
    requires Sound(events, r) && FirstInFirstOut(events, r)
    ensures FirstInFirstOut(events + [event], Step(r, event, |events|))
  {
    hide Clear, Insert, S32;
    forall i | 0 <= i < |r.ran|
      ensures r.ran[i].item.token < |events|
      ensures IsNow(events + [event], r.ran[i].item.token) == IsNow(events, r.ran[i].item.token)
    {
      assert r.ran[i] in r.ran;
    }
    if event.Poll? {
      PollKeepsFifo(events, r, event.now);
    } else {
      ClearKeeps(r.os, event.job);
      ClearAscending(events, r, event.job);
      var cleared := Clear(r.os, event.job);
      if event.Now? {
        AppendKeeps(cleared.ready, Item(event.job, 0, event.func, |events|));
      }
      assert FirstInFirstOut(events + [event], Step(r, event, |events|));
    }
  }

  lemma ClearAscending(events: seq<Event>, r: Run, job: OsJob)
    requires Sound(events, r) && Ascending(r.os.ready)
    ensures Ascending(Clear(r.os, job).ready)
    ensures forall k :: 0 <= k < |Clear(r.os, job).ready| ==> Clear(r.os, job).ready[k].token < |events|
    ensures forall x :: x in Clear(r.os, job).ready ==> x in r.os.ready
  {
    UnlinkAscending(r.os.ready, job);
    var cleared := Clear(r.os, job);
    forall k | 0 <= k < |cleared.ready|
      ensures cleared.ready[k].token < |events|
    {
      assert cleared.ready[k] in cleared.ready;
    }
  }

  lemma PollKeepsFifo(events: seq<Event>, r: Run, now: int)
    requires Sound(events, r) && FirstInFirstOut(events, r)
    requires forall i :: 0 <= i < |r.ran| ==>
               IsNow(events + [Poll(now)], r.ran[i].item.token) == IsNow(events, r.ran[i].item.token)
    ensures FirstInFirstOut(events + [Poll(now)], Step(r, Poll(now), |events|))
  {
    hide S32, IsNow, Sound;
    var after, r' := events + [Poll(now)], Step(r, Poll(now), |events|);
    if r.os.ready != [] {
      var first := r.os.ready[0];
      assert first in r.os.ready;
      TailMembers(r.os.ready);
      forall x | x in r.os.ready[1..]
        ensures first.token < x.token
      {
        var k :| 0 <= k < |r.os.ready[1..]| && r.os.ready[1..][k] == x;
        assert r.os.ready[k + 1] == x;
      }
    } else if r'.ran != r.ran {
      TimedIsNotNow(events, r, now);
    }
  }

  lemma TimedIsNotNow(events: seq<Event>, r: Run, now: int)
    requires Sound(events, r) && r.os.timed != []
    ensures !IsNow(events + [Poll(now)], r.os.timed[0].token)
  {
  }
}
