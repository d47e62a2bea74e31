/** How long jobs took, kept as a history of entries, and what the duration histograms say about it. */
module Durations {
  import opened Metrics
  import opened JobTypes
  import opened StoreModel

  /** The jobs with an entry. */
  function Logged(took: seq<Took>): set<JobId> {
    if took == [] then {} else Logged(took[..|took| - 1]) + {took[|took| - 1].id}
  }

  /** The times of one task, oldest first. */
  function TimesOf(took: seq<Took>, t: Task): seq<Seconds> {
    if took == [] then []
    else TimesOf(took[..|took| - 1], t) + if took[|took| - 1].task == t then [took[|took| - 1].seconds] else []
  }

  function SeenBy(durations: map<Task, Histogram>, t: Task): Histogram {
    if t in durations then durations[t] else Empty()
  }

  /** From the clock of the job's submission to that of its end. */
  predicate Timely(e: Took, past: History) {
    && e.id in past.issued && e.id in past.arrivals && e.id in past.ends
    && e.task == past.issued[e.id].task
    && e.seconds == past.ends[e.id].now - past.arrivals[e.id]
  }

  predicate Log(took: seq<Took>, past: History) {
    took == [] ||
    (Log(took[..|took| - 1], past) && took[|took| - 1].id !in Logged(took[..|took| - 1]) && Timely(took[|took| - 1], past))
  }

  /** The jobs of an owner and a task, submitted here, that have ended with a status. */
  function EndedAs(past: History, o: Owner, t: Task, status: Status): set<JobId> {
    set id | id in past.issued && id in past.ends && past.ends[id].owner == o && past.ends[id].task == t
             && past.ends[id].status == status
  }

  ghost predicate Tallied(ended: map<(Owner, Task, Status), nat>, past: History) {
    forall o: Owner, t: Task, status: Status :: Get(ended, (o, t, status)) == |EndedAs(past, o, t, status)|
  }

  /** The ends are counted by owner, task and status, and every job submitted here that has ended has one entry, with the time it took, and each task's histogram has seen
      exactly its entries' times. */
  ghost predicate Measured(ended: map<(Owner, Task, Status), nat>, durations: map<Task, Histogram>, past: History) {
    && Tallied(ended, past) && Log(past.took, past)
    && (forall id :: id in Logged(past.took) <==> id in past.ends && id in past.issued)
    && (forall t: Task :: SeenBy(durations, t) == Of(TimesOf(past.took, t)))
  }

  // ---------------------------------------------------------------- what keeps it

  lemma MeasuredShape(ended: map<(Owner, Task, Status), nat>, durations: map<Task, Histogram>, past: History, t: Task)
    requires Measured(ended, durations, past)
    ensures Shaped(SeenBy(durations, t))
  {
    assert SeenBy(durations, t) == Of(TimesOf(past.took, t));
  }

  lemma {:induction false} LogPast(took: seq<Took>, p: History, q: History)
    requires Log(took, p)
    requires forall id | id in Logged(took) && id in p.issued :: id in q.issued && q.issued[id] == p.issued[id]
    requires forall id | id in Logged(took) && id in p.arrivals :: id in q.arrivals && q.arrivals[id] == p.arrivals[id]
    requires forall id | id in Logged(took) && id in p.ends :: id in q.ends && q.ends[id] == p.ends[id]
    ensures Log(took, q)
  {
    if took != [] {
      LogPast(took[..|took| - 1], p, q);
    }
  }

  lemma TalliedPast(ended: map<(Owner, Task, Status), nat>, p: History, q: History)
    requires Tallied(ended, p) && q.ends == p.ends
    requires forall id | id in q.ends :: id in q.issued <==> id in p.issued
    ensures Tallied(ended, q)
  {
    forall o: Owner, t: Task, status: Status ensures EndedAs(q, o, t, status) == EndedAs(p, o, t, status) {
    }
  }

  lemma MeasuredPast(ended: map<(Owner, Task, Status), nat>, durations: map<Task, Histogram>, p: History, q: History)
    requires Measured(ended, durations, p)
    requires q.took == p.took && q.issued == p.issued && q.arrivals == p.arrivals && q.ends == p.ends
    ensures Measured(ended, durations, q)
  {
    TalliedPast(ended, p, q);
    LogPast(p.took, p, q);
  }

  lemma MeasuredAdmit(ended: map<(Owner, Task, Status), nat>, durations: map<Task, Histogram>, p: History, id: JobId,
                      work: Work, now: Seconds)
    requires Measured(ended, durations, p) && id !in p.issued && id !in p.ends
    ensures Measured(ended, durations, p.(issued := p.issued[id := work], arrivals := p.arrivals[id := now]))
  {
    TalliedPast(ended, p, p.(issued := p.issued[id := work], arrivals := p.arrivals[id := now]));
    LogPast(p.took, p, p.(issued := p.issued[id := work], arrivals := p.arrivals[id := now]));
  }

  /** The history of a job that ends, with its entry. */
  function Ended(p: History, id: JobId, seconds: Seconds, e: End): History {
    p.(ends := p.ends[id := e], took := p.took + [Took(id, e.task, seconds)])
  }

  lemma TalliedFinish(ended: map<(Owner, Task, Status), nat>, p: History, q: History, id: JobId, e: End)
    requires Tallied(ended, p) && id !in p.ends && id in p.issued && q.issued == p.issued && q.ends == p.ends[id := e]
    ensures Tallied(Bump(ended, (e.owner, e.task, e.status)), q)
  {
    hide EndedAs, Bump, Get;
    forall o: Owner, t: Task, status: Status
      ensures Get(Bump(ended, (e.owner, e.task, e.status)), (o, t, status)) == |EndedAs(q, o, t, status)|
    {
      BumpGet(ended, (e.owner, e.task, e.status), (o, t, status));
      EndedOneMore(p, q, id, e, o, t, status);
    }
  }

  lemma BumpGet<K>(counts: map<K, nat>, k: K, i: K)
    ensures Get(Bump(counts, k), i) == Get(counts, i) + if i == k then 1 else 0
  {
  }

  lemma EndedOneMore(p: History, q: History, id: JobId, e: End, o: Owner, t: Task, status: Status)
    requires id !in p.ends && id in p.issued && q.issued == p.issued && q.ends == p.ends[id := e]
    ensures |EndedAs(q, o, t, status)| ==
            |EndedAs(p, o, t, status)| + if (o, t, status) == (e.owner, e.task, e.status) then 1 else 0
  {
    var all, before := EndedAs(q, o, t, status), EndedAs(p, o, t, status);
    if (o, t, status) == (e.owner, e.task, e.status) {
      assert all == before + {id};
    } else {
      assert all == before;
    }
  }

  lemma MeasuredFinish(ended: map<(Owner, Task, Status), nat>, durations: map<Task, Histogram>, p: History, id: JobId,
                       arrival: Seconds, e: End)
    requires Measured(ended, durations, p) && id !in p.ends
    requires id in p.issued && p.issued[id].task == e.task && id in p.arrivals && p.arrivals[id] == arrival
    ensures Measured(Bump(ended, (e.owner, e.task, e.status)), Observe(durations, e.task, e.now - arrival),
                     Ended(p, id, e.now - arrival, e))
  {
    hide Of, Observed, Tallied;
    var q := Ended(p, id, e.now - arrival, e);
    TalliedFinish(ended, p, q, id, e);
    assert q.took[..|p.took|] == p.took;
    LogPast(p.took, p, q);
    forall t: Task ensures SeenBy(Observe(durations, e.task, e.now - arrival), t) == Of(TimesOf(q.took, t)) {
      TimeSeen(durations, p, e.task, e.now - arrival, t, q.took);
    }
  }

  lemma TimeSeen(durations: map<Task, Histogram>, p: History, task: Task, x: Seconds, t: Task, took: seq<Took>)
    requires SeenBy(durations, t) == Of(TimesOf(p.took, t))
    requires took != [] && took[..|took| - 1] == p.took && took[|took| - 1].task == task && took[|took| - 1].seconds == x
    ensures SeenBy(Observe(durations, task, x), t) == Of(TimesOf(took, t))
  {
    var xs := TimesOf(p.took, t);
    if t == task {
      assert (xs + [x])[..|xs|] == xs;
    } else {
      assert xs + [] == xs;
    }
  }

  // ---------------------------------------------------------------- what the histograms say

  /** The jobs of a task, submitted here, that have ended. */
  function EndedJobs(past: History, t: Task): set<JobId> {
    set id | id in past.issued && id in past.ends && past.issued[id].task == t
  }

  /** Those of them that took at most so long. */
  function EndedWithin(past: History, t: Task, bound: Seconds): set<JobId> {
    set id | id in past.issued && id in past.ends && id in past.arrivals && past.issued[id].task == t
             && past.ends[id].now - past.arrivals[id] <= bound
  }

  lemma {:induction false} LogCounts(took: seq<Took>, past: History, t: Task, bound: Seconds)
    requires Log(took, past)
    ensures |TimesOf(took, t)| == |Logged(took) * EndedJobs(past, t)|
    ensures AtMost(TimesOf(took, t), bound) == |Logged(took) * EndedWithin(past, t, bound)|
  {
    hide EndedJobs, EndedWithin, AtMost, Timely;
    NoneAtMost(bound);
    if took != [] {
      var rest, e := took[..|took| - 1], took[|took| - 1];
      LogCounts(rest, past, t, bound);
      Counts(e, past, t, bound);
      OneMore(Logged(rest), EndedJobs(past, t), e.id);
      OneMore(Logged(rest), EndedWithin(past, t, bound), e.id);
      AtMostMore(TimesOf(rest, t), e.seconds, bound);
      assert TimesOf(rest, t) + [] == TimesOf(rest, t);
    }
  }

  lemma Counts(e: Took, past: History, t: Task, bound: Seconds)
    requires Timely(e, past)
    ensures e.id in EndedJobs(past, t) <==> e.task == t
    ensures e.id in EndedWithin(past, t, bound) <==> e.task == t && e.seconds <= bound
  {
  }

  lemma NoneAtMost(bound: Seconds)
    ensures AtMost([], bound) == 0
  {
  }

  lemma AtMostMore(xs: seq<Seconds>, x: Seconds, bound: Seconds)
    ensures AtMost(xs + [x], bound) == AtMost(xs, bound) + if x <= bound then 1 else 0
  {
    assert (xs + [x])[..|xs|] == xs;
  }

  lemma OneMore(a: set<JobId>, b: set<JobId>, x: JobId)
    requires x !in a
    ensures |(a + {x}) * b| == |a * b| + if x in b then 1 else 0
  {
    assert (a + {x}) * b == a * b + (if x in b then {x} else {});
  }

  /** A rendered bucket of a task counts exactly the jobs of that task that ended and took at most its bound, and the
      last one, without a bound, all that ended. */
  lemma BucketsCount(ended: map<(Owner, Task, Status), nat>, durations: map<Task, Histogram>, past: History, t: Task, b: nat)
    requires Measured(ended, durations, past) && b <= |BUCKETS|
    ensures var h := SeenBy(durations, t);
            && Shaped(h) && h.count == |EndedJobs(past, t)|
            && Sum(h.buckets[..b + 1]) ==
               if b < |BUCKETS| then |EndedWithin(past, t, BUCKETS[b])| else |EndedJobs(past, t)|
  {
    var bound := if b < |BUCKETS| then BUCKETS[b] else 0.0;
    CumulativeCounts(TimesOf(past.took, t), b);
    LogCounts(past.took, past, t, bound);
    assert Logged(past.took) * EndedJobs(past, t) == EndedJobs(past, t);
    assert Logged(past.took) * EndedWithin(past, t, bound) == EndedWithin(past, t, bound);
  }
}
