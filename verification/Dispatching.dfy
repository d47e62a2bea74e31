/** Dispatch keeps the store's invariant, serves each owner's jobs oldest first, and passes no owner over for long. */
module Dispatching {
  import opened Wrappers
  import opened JobTypes
  import opened StoreModel
  import opened StoreInvariant
  import opened Durations
  import opened StoreSteps

  /** A job that waits for a child. */
  predicate Idle(s: Store, id: JobId) {
    Unfinished(s, id) && s.jobs[id].status.Queued? && id !in s.active
  }

  ghost predicate DistinctOwners(queues: seq<Queue>) {
    forall j, k | 0 <= j < k < |queues| :: queues[j].owner != queues[k].owner
  }

  /** One queue per owner, each of that owner's waiting jobs without repeats. */
  ghost predicate Lined(s: Store, queues: seq<Queue>) {
    && Stocked(s, queues)
    && DistinctOwners(queues)
    && (forall k | 0 <= k < |queues| :: Distinct(queues[k].ids))
    && (forall k, id | 0 <= k < |queues| && id in queues[k].ids :: Idle(s, id) && s.jobs[id].owner == queues[k].owner)
  }

  // ---------------------------------------------------------------- the queues of a pass

  /** The jobs of one owner among the waiting ones, in their order. */
  function JobsOf(s: Store, waiting: seq<JobId>, o: Owner): seq<JobId>
    requires forall id | id in waiting :: id in s.jobs
  {
    if waiting == [] then []
    else
      var id := waiting[|waiting| - 1];
      JobsOf(s, waiting[..|waiting| - 1], o) + (if s.jobs[id].owner == o then [id] else [])
  }

  function QueueOf(queues: seq<Queue>, o: Owner): seq<JobId> {
    if queues == [] then [] else if queues[0].owner == o then queues[0].ids else QueueOf(queues[1..], o)
  }

  lemma {:induction false} LineAt(queues: seq<Queue>, k: nat)
    requires DistinctOwners(queues) && k < |queues|
    ensures QueueOf(queues, queues[k].owner) == queues[k].ids
  {
    if k > 0 {
      LineAt(queues[1..], k - 1);
    }
  }

  lemma {:induction false} EnqueueLines(queues: seq<Queue>, owner: Owner, id: JobId, o: Owner)
    requires DistinctOwners(queues)
    ensures var after := Enqueue(queues, owner, id);
            && QueueOf(after, o) == QueueOf(queues, o) + (if o == owner then [id] else [])
            && DistinctOwners(after)
            && (forall k | 0 <= k < |after| :: after[k].owner == owner || exists j | 0 <= j < |queues| :: queues[j].owner == after[k].owner)
  {
    if queues != [] && queues[0].owner != owner {
      EnqueueLines(queues[1..], owner, id, o);
      var after := Enqueue(queues, owner, id);
      forall k | 0 < k < |after| ensures after[k].owner == owner || exists j | 1 <= j < |queues| :: queues[j].owner == after[k].owner {
        assert after[k] == Enqueue(queues[1..], owner, id)[k - 1];
        if after[k].owner != owner {
          var j :| 0 <= j < |queues[1..]| && queues[1..][j].owner == after[k].owner;
          assert queues[j + 1].owner == after[k].owner;
        }
      }
      assert DistinctOwners(after);
    } else if queues != [] {
      assert queues == [queues[0]] + queues[1..];
    }
  }

  /** The pass queues exactly the waiting jobs, each under its owner and in the table's order. */
  lemma {:induction false} QueuesLines(s: Store, waiting: seq<JobId>, o: Owner)
    requires forall id | id in waiting :: id in s.jobs
    ensures QueueOf(Queues(s, waiting), o) == JobsOf(s, waiting, o)
    ensures DistinctOwners(Queues(s, waiting))
  {
    if waiting != [] {
      var n := |waiting| - 1;
      QueuesLines(s, waiting[..n], o);
      EnqueueLines(Queues(s, waiting[..n]), s.jobs[waiting[n]].owner, waiting[n], o);
    }
  }

  lemma {:induction false} JobsOfAre(s: Store, waiting: seq<JobId>, o: Owner)
    requires (forall id | id in waiting :: id in s.jobs) && Distinct(waiting)
    ensures Distinct(JobsOf(s, waiting, o))
    ensures forall id :: id in JobsOf(s, waiting, o) <==> id in waiting && s.jobs[id].owner == o
  {
    if waiting != [] {
      var n := |waiting| - 1;
      JobsOfAre(s, waiting[..n], o);
      assert waiting == waiting[..n] + [waiting[n]] && waiting[n] !in waiting[..n];
      if s.jobs[waiting[n]].owner == o {
        OneMore(JobsOf(s, waiting[..n], o), waiting[n]);
      } else {
        assert JobsOf(s, waiting[..n], o) + [] == JobsOf(s, waiting[..n], o);
      }
    }
  }

  lemma OneMore<T(!new)>(xs: seq<T>, x: T)
    requires Distinct(xs) && x !in xs
    ensures Distinct(xs + [x]) && forall y :: y in xs + [x] <==> y in xs || y == x
  {
  }

  lemma QueuesLined(s: Store, waiting: seq<JobId>)
    requires Distinct(waiting) && forall id | id in waiting :: id in s.jobs && Idle(s, id)
    ensures Lined(s, Queues(s, waiting))
  {
    QueuesReady(s, waiting);
    var queues := Queues(s, waiting);
    if queues != [] {
      QueuesLines(s, waiting, queues[0].owner);
    }
    forall k | 0 <= k < |queues|
      ensures Distinct(queues[k].ids)
      ensures forall id | id in queues[k].ids :: id in waiting && s.jobs[id].owner == queues[k].owner
    {
      QueuesLines(s, waiting, queues[k].owner);
      LineAt(queues, k);
      JobsOfAre(s, waiting, queues[k].owner);
    }
  }

  /** Queueing one more job leaves the others' queues in place, each with its head; a new owner's queue comes last. */
  lemma {:induction false} EnqueueHeads(queues: seq<Queue>, owner: Owner, id: JobId, k: nat)
    requires forall j | 0 <= j < |queues| :: queues[j].ids != []
    ensures var after := Enqueue(queues, owner, id);
            && |queues| <= |after| <= |queues| + 1 && (forall j | 0 <= j < |after| :: after[j].ids != [])
            && (k < |queues| ==> after[k].ids[0] == queues[k].ids[0])
            && (k == |queues| < |after| ==> after[k].ids[0] == id)
  {
    if queues != [] && queues[0].owner != owner {
      EnqueueHeads(queues[1..], owner, id, if k == 0 then 0 else k - 1);
    }
  }

  /** The owners are queued in the order of their oldest waiting jobs. */
  lemma {:induction false} QueuesOrder(s: Store, waiting: seq<JobId>, j: nat, k: nat)
    requires (forall id | id in waiting :: id in s.jobs) && j < k < |Queues(s, waiting)|
    ensures forall i | 0 <= i < |Queues(s, waiting)| :: Queues(s, waiting)[i].ids != []
    ensures Ahead(waiting, Queues(s, waiting)[j].ids[0], Queues(s, waiting)[k].ids[0])
  {
    hide Ahead;
    var n := |waiting| - 1;
    var before := Queues(s, waiting[..n]);
    QueuesReady(s, waiting[..n]);
    EnqueueHeads(before, s.jobs[waiting[n]].owner, waiting[n], j);
    EnqueueHeads(before, s.jobs[waiting[n]].owner, waiting[n], k);
    assert waiting == waiting[..n] + [waiting[n]];
    if k < |before| {
      QueuesOrder(s, waiting[..n], j, k);
      AheadMore(waiting[..n], [waiting[n]], before[j].ids[0], before[k].ids[0]);
    } else {
      HeadWaits(s, waiting[..n], j);
      var i: nat :| i < n && waiting[i] == before[j].ids[0];
      AheadIn(waiting, i, n);
    }
  }

  lemma {:induction false} HeadWaits(s: Store, waiting: seq<JobId>, j: nat)
    requires (forall id | id in waiting :: id in s.jobs) && j < |Queues(s, waiting)|
    ensures Queues(s, waiting)[j].ids != [] && exists i: nat :: i < |waiting| && waiting[i] == Queues(s, waiting)[j].ids[0]
  {
    var n := |waiting| - 1;
    var before := Queues(s, waiting[..n]);
    QueuesReady(s, waiting[..n]);
    EnqueueHeads(before, s.jobs[waiting[n]].owner, waiting[n], j);
    if j < |before| {
      HeadWaits(s, waiting[..n], j);
      var i: nat :| i < n && waiting[..n][i] == before[j].ids[0];
      assert waiting[i] == before[j].ids[0];
    }
  }

  /** Of owners served equally long ago, or never, the one whose oldest job has waited longest is chosen first. */
  lemma TieByAge(s: Store, waiting: seq<JobId>, k: nat)
    requires (forall id | id in waiting :: id in s.jobs) && k < |Queues(s, waiting)|
    ensures var queues := Queues(s, waiting); var i := Least(s, queues);
            && LastServed(s, queues[i].owner) <= LastServed(s, queues[k].owner)
            && (LastServed(s, queues[i].owner) == LastServed(s, queues[k].owner) && i != k ==>
                  queues[i].ids != [] && queues[k].ids != [] && Ahead(waiting, queues[i].ids[0], queues[k].ids[0]))
  {
    hide Ahead;
    var queues := Queues(s, waiting);
    if Least(s, queues) < k {
      QueuesOrder(s, waiting, Least(s, queues), k);
    }
  }

  // ---------------------------------------------------------------- one decision

  /** The child that gets the next job is the first of the pool that is ready and has none. */
  lemma {:induction false} FirstFreeIs(s: Store, pool: seq<WorkerId>) returns (i: nat)
    requires exists w | w in pool :: Free(s, w)
    ensures i < |pool| && FirstFree(s, pool) == Some(pool[i]) && Free(s, pool[i]) && forall k | 0 <= k < i :: !Free(s, pool[k])
  {
    if Free(s, pool[0]) {
      i := 0;
    } else {
      assert pool == [pool[0]] + pool[1..];
      i := FirstFreeIs(s, pool[1..]);
      i := i + 1;
    }
  }

  /** The store after the head of the least-served owner's queue was given to a child. */
  function Chosen(s: Store, queues: seq<Queue>, w: WorkerId): Store
    requires queues != [] && w in s.workers
    requires Stocked(s, queues)
  {
    var i := Least(s, queues);
    Dispatched(AttachTo(s, queues[i].ids[0], w), Owners(queues), queues[i].owner)
  }

  lemma HeadIdle(s: Store, queues: seq<Queue>)
    requires Valid(s, {}, {}) && queues != [] && Lined(s, queues)
    ensures var i := Least(s, queues);
            Idle(s, queues[i].ids[0]) && s.jobs[queues[i].ids[0]].owner == queues[i].owner && queues[i].owner in s.cfg.owners
  {
    var i := Least(s, queues);
    assert queues[i].ids[0] in queues[i].ids;
    assert Going(s.jobs, queues[i].ids[0]);
  }

  /** One turn of dispatch. */
  lemma DispatchOnce(s: Store, queues: seq<Queue>)
    requires Stocked(s, queues) && queues != []
    ensures var w := FirstFree(s, s.pool);
            if w.None? then Dispatch(s, queues) == (s, [])
            else
              && Stocked(Chosen(s, queues, w.value), Pop(queues, Least(s, queues)))
              && var (t, sends) := Dispatch(Chosen(s, queues, w.value), Pop(queues, Least(s, queues)));
                 Dispatch(s, queues) == (t, [Send(w.value, WorkOf(s, queues[Least(s, queues)].ids[0]))] + sends)
  {
    hide Waiters, Owners, Pop, Least, Stocked;
    HeldLeast(s, queues);
    PopWaiters(queues, Least(s, queues));
    var w := FirstFree(s, s.pool);
    if w.Some? {
      StockedChosen(s, queues, w.value);
    }
  }

  lemma StockedChosen(s: Store, queues: seq<Queue>, w: WorkerId)
    requires queues != [] && w in s.workers && Stocked(s, queues)
    ensures Stocked(Chosen(s, queues, w), Pop(queues, Least(s, queues)))
  {
    hide Least, Owners;
  }

  lemma DispatchNone(s: Store)
    ensures Stocked(s, []) && Dispatch(s, []) == (s, [])
  {
  }

  lemma HeldLeast(s: Store, queues: seq<Queue>)
    requires Stocked(s, queues) && queues != []
    ensures var i := Least(s, queues); i < |queues| && queues[i].ids != [] && queues[i].ids[0] in s.jobs
  {
  }

  lemma AttachedKeeps(s: Store, id: JobId, w: WorkerId)
    requires Valid(s, {}, {}) && Idle(s, id) && w in s.pool && Free(s, w)
    ensures Valid(AttachTo(s, id, w), {}, {}) && Turns(s.cfg, s.served, s.dispatched, s.past.picks)
  {
    AttachKeeps(s, id, w);
  }

  lemma ChosenKeeps(s: Store, queues: seq<Queue>, w: WorkerId)
    requires Valid(s, {}, {}) && queues != [] && Lined(s, queues) && w in s.pool && Free(s, w)
    ensures Valid(Chosen(s, queues, w), {}, {})
  {
    hide Valid, Lined, Turns;
    HeadIdle(s, queues);
    StockedOf(s, queues);
    var id := queues[Least(s, queues)].ids[0];
    AttachedKeeps(s, id, w);
    var t := AttachTo(s, id, w);
    LeastSame(s, t, queues);
    PickKeeps(s.cfg, t, queues);
    PastKeeps(t, Chosen(s, queues, w));
  }

  lemma {:induction false} LeastSame(s: Store, t: Store, queues: seq<Queue>)
    requires queues != [] && t.served == s.served
    ensures Least(t, queues) == Least(s, queues)
  {
    if |queues| > 1 {
      LeastSame(s, t, queues[1..]);
    }
  }

  lemma PastKeeps(t: Store, u: Store)
    requires Valid(t, {}, {}) && Turns(u.cfg, u.served, u.dispatched, u.past.picks)
    requires u == t.(served := u.served, dispatched := u.dispatched, past := t.past.(picks := u.past.picks))
    ensures Valid(u, {}, {})
  {
    GivenPast(t.jobs, t.active, t.past, u.past, {});
    WithinPast(t.cfg, t.jobs, t.past, u.past);
    MeasuredPast(t.stats.ended, t.stats.durations, t.past, u.past);
    FiledPast(t.jobs, t.disk.rows, t.past, u.past);
  }

  /** Where a queue of the rest stood before. */
  function Before(queues: seq<Queue>, i: nat, k: nat): nat
    requires i < |queues|
  {
    if k < i then k else k + if |queues[i].ids| == 1 then 1 else 0
  }

  lemma PopAt(queues: seq<Queue>, i: nat, k: nat)
    requires i < |queues| && queues[i].ids != [] && k < |Pop(queues, i)|
    ensures Before(queues, i, k) < |queues|
    ensures Pop(queues, i)[k].owner == queues[Before(queues, i, k)].owner
    ensures Pop(queues, i)[k].ids == if Before(queues, i, k) == i then queues[i].ids[1..] else queues[Before(queues, i, k)].ids
    ensures Before(queues, i, k) == i ==> |queues[i].ids| > 1
  {
  }

  /** A job waiting in a queue still waits after another was chosen. */
  lemma StillIdle(s: Store, queues: seq<Queue>, w: WorkerId, j: nat, x: JobId)
    requires queues != [] && Lined(s, queues) && w in s.workers && j < |queues| && x in queues[j].ids
    requires x != queues[Least(s, queues)].ids[0]
    ensures var t := Chosen(s, queues, w); Idle(t, x) && t.jobs[x].owner == queues[j].owner
  {
    assert Idle(s, x) && s.jobs[x].owner == queues[j].owner;
  }

  lemma OtherQueue(s: Store, queues: seq<Queue>, i: nat, j: nat, x: JobId, y: JobId)
    requires Lined(s, queues) && i < |queues| && j < |queues| && i != j && x in queues[i].ids && y in queues[j].ids
    ensures x != y
  {
  }

  lemma PopQueue(s: Store, queues: seq<Queue>, w: WorkerId, k: nat)
    requires queues != [] && Lined(s, queues) && w in s.workers && Stocked(s, queues)
    requires k < |Pop(queues, Least(s, queues))|
    ensures var q, t := Pop(queues, Least(s, queues))[k], Chosen(s, queues, w);
            && q.owner == queues[Before(queues, Least(s, queues), k)].owner
            && q.ids != [] && Distinct(q.ids)
            && forall x | x in q.ids :: Idle(t, x) && t.jobs[x].owner == q.owner
  {
    hide Chosen, Lined, Pop;
    var i := Least(s, queues);
    var j := Before(queues, i, k);
    PopAt(queues, i, k);
    QueueDistinct(s, queues, i);
    QueueDistinct(s, queues, j);
    TailDistinct(queues[i].ids);
    forall x | x in Pop(queues, i)[k].ids
      ensures Idle(Chosen(s, queues, w), x) && Chosen(s, queues, w).jobs[x].owner == queues[j].owner
    {
      assert x in queues[j].ids;
      if j != i {
        OtherQueue(s, queues, i, j, queues[i].ids[0], x);
      }
      StillIdle(s, queues, w, j, x);
    }
  }

  lemma QueueDistinct(s: Store, queues: seq<Queue>, k: nat)
    requires Lined(s, queues) && k < |queues|
    ensures Distinct(queues[k].ids)
  {
  }

  lemma PopLined(s: Store, queues: seq<Queue>, w: WorkerId)
    requires queues != [] && Lined(s, queues) && w in s.workers
    ensures Lined(Chosen(s, queues, w), Pop(queues, Least(s, queues)))
  {
    hide Chosen, Pop;
    StockedOf(s, queues);
    var rest := Pop(queues, Least(s, queues));
    forall k | 0 <= k < |rest|
      ensures rest[k].ids != [] && Distinct(rest[k].ids)
      ensures forall x | x in rest[k].ids ::
                Idle(Chosen(s, queues, w), x) && Chosen(s, queues, w).jobs[x].owner == rest[k].owner
    {
      PopQueue(s, queues, w, k);
    }
    PopOwners(queues, Least(s, queues));
  }

  lemma PopOwners(queues: seq<Queue>, i: nat)
    requires DistinctOwners(queues) && i < |queues| && queues[i].ids != []
    ensures DistinctOwners(Pop(queues, i))
  {
    var rest := Pop(queues, i);
    forall j, k | 0 <= j < k < |rest| ensures rest[j].owner != rest[k].owner {
      PopAt(queues, i, j);
      PopAt(queues, i, k);
    }
  }

  // ---------------------------------------------------------------- the whole of a dispatch

  lemma {:induction false} DispatchKeeps(s: Store, queues: seq<Queue>)
    requires Valid(s, {}, {}) && Lined(s, queues)
    ensures Stocked(s, queues) && Valid(Dispatch(s, queues).0, {}, {})
    decreases Waiters(queues)
  {
    hide Valid, Lined, Stocked, Dispatch, Chosen, Pop, Least;
    StockedOf(s, queues);
    if queues == [] {
      DispatchNone(s);
    } else {
      DispatchOnce(s, queues);
      HeldLeast(s, queues);
      var w := FirstFree(s, s.pool);
      if w.Some? {
        ChosenKeeps(s, queues, w.value);
        PopLined(s, queues, w.value);
        PopWaiters(queues, Least(s, queues));
        DispatchKeeps(Chosen(s, queues, w.value), Pop(queues, Least(s, queues)));
      }
    }
  }

  lemma StockedOf(s: Store, queues: seq<Queue>)
    requires Lined(s, queues)
    ensures Stocked(s, queues)
  {
  }

  /** The jobs sent, of one owner, in the order they were given to children. */
  function SentOf(s: Store, sends: seq<Send>, o: Owner): seq<JobId> {
    if sends == [] then []
    else (if sends[0].work.id in s.jobs && s.jobs[sends[0].work.id].owner == o then [sends[0].work.id] else [])
         + SentOf(s, sends[1..], o)
  }

  lemma {:induction false} PopLines(queues: seq<Queue>, i: nat, o: Owner)
    requires DistinctOwners(queues) && i < |queues| && queues[i].ids != []
    ensures QueueOf(Pop(queues, i), o) == if queues[i].owner == o then queues[i].ids[1..] else QueueOf(queues, o)
  {
    if i > 0 {
      assert Pop(queues, i)[1..] == Pop(queues[1..], i - 1);
      PopLines(queues[1..], i - 1, o);
    } else {
      assert queues == [queues[0]] + queues[1..];
      if |queues[0].ids| == 1 {
        assert Pop(queues, 0) == queues[1..];
        if queues[0].owner == o {
          NoLine(queues[1..], o);
        }
      }
    }
  }

  lemma {:induction false} NoLine(queues: seq<Queue>, o: Owner)
    requires forall k | 0 <= k < |queues| :: queues[k].owner != o
    ensures QueueOf(queues, o) == []
  {
    if queues != [] {
      NoLine(queues[1..], o);
    }
  }

  lemma {:induction false} SentOfSame(s: Store, t: Store, sends: seq<Send>, o: Owner)
    requires t.jobs == s.jobs
    ensures SentOf(t, sends, o) == SentOf(s, sends, o)
  {
    if sends != [] {
      SentOfSame(s, t, sends[1..], o);
    }
  }

  /** Of each owner's waiting jobs, dispatch sends the oldest ones, oldest first. */
  lemma {:induction false} DispatchOldest(s: Store, queues: seq<Queue>, o: Owner)
    requires Lined(s, queues)
    ensures Stocked(s, queues) && SentOf(s, Dispatch(s, queues).1, o) <= QueueOf(queues, o)
    decreases Waiters(queues)
  {
    hide Lined, Stocked, Dispatch, Pop, Least, QueueOf;
    StockedOf(s, queues);
    if queues == [] {
      DispatchNone(s);
    } else {
      DispatchOnce(s, queues);
      HeldLeast(s, queues);
      var w := FirstFree(s, s.pool);
      if w.Some? {
        var i := Least(s, queues);
        var t, rest := Chosen(s, queues, w.value), Pop(queues, i);
        PopLined(s, queues, w.value);
        PopWaiters(queues, i);
        DispatchOldest(t, rest, o);
        SentOfSame(s, t, Dispatch(t, rest).1, o);
        OldestStep(s, queues, i, o, Dispatch(t, rest).1);
      }
    }
  }

  lemma OldestStep(s: Store, queues: seq<Queue>, i: nat, o: Owner, sends: seq<Send>)
    requires Lined(s, queues) && i < |queues| && SentOf(s, sends, o) <= QueueOf(Pop(queues, i), o)
    ensures forall w :: SentOf(s, [Send(w, WorkOf(s, queues[i].ids[0]))] + sends, o) <= QueueOf(queues, o)
  {
    var id := queues[i].ids[0];
    assert id in queues[i].ids;
    assert s.jobs[id].owner == queues[i].owner;
    PopLines(queues, i, o);
    LineAt(queues, i);
    forall w ensures SentOf(s, [Send(w, WorkOf(s, id))] + sends, o) <= QueueOf(queues, o) {
      var all := [Send(w, WorkOf(s, id))] + sends;
      assert all[1..] == sends;
      assert SentOf(s, all, o) == (if queues[i].owner == o then [id] else []) + SentOf(s, sends, o);
      assert queues[i].ids == [id] + queues[i].ids[1..];
    }
  }

  /** Dispatch stops only when no child of the pool is free, or every waiting job has one. */
  lemma {:induction false} DispatchFull(s: Store, queues: seq<Queue>)
    requires Lined(s, queues)
    ensures Stocked(s, queues)
    ensures var (t, sends) := Dispatch(s, queues);
            |sends| == Waiters(queues) || FirstFree(t, t.pool).None?
    decreases Waiters(queues)
  {
    hide Lined, Stocked, Dispatch, Chosen, Pop, Least;
    StockedOf(s, queues);
    if queues == [] {
      DispatchNone(s);
    } else {
      DispatchOnce(s, queues);
      HeldLeast(s, queues);
      var w := FirstFree(s, s.pool);
      if w.Some? {
        PopLined(s, queues, w.value);
        PopWaiters(queues, Least(s, queues));
        DispatchFull(Chosen(s, queues, w.value), Pop(queues, Least(s, queues)));
      }
    }
  }

  // ---------------------------------------------------------------- the tick

  ghost predicate Same(s: Store, t: Store, id: JobId) {
    && (id in t.jobs <==> id in s.jobs)
    && (id in s.jobs ==> t.jobs[id] == s.jobs[id])
    && (id in t.active <==> id in s.active)
  }

  lemma VisitAlone(s: Store, id: JobId, env: Env)
    requires Valid(s, {}, {})
    ensures var (t, waits) := Visit(s, id, env);
            && (forall i | i != id :: Same(s, t, i))
            && (waits <==> Idle(t, id))
            && (Unfinished(t, id) ==> env.now < t.jobs[id].deadline && !(t.draining && t.jobs[id].status.Queued?))
  {
    hide Valid, Calm, Abort;
    Callable(s, {}, {});
    if Unfinished(s, id) {
      if env.now >= s.jobs[id].deadline {
        AbortAlone(s, id, TimedOut, Some(DeadlineExceeded), env);
      } else if s.jobs[id].status.Queued? && s.draining {
        AbortAlone(s, id, Failed, Some(ServiceRestarted), env);
      }
    }
  }

  /** What the pass establishes of one visited job. */
  ghost predicate Judged(t: Store, id: JobId, waiting: seq<JobId>, now: Seconds) {
    && (id in waiting <==> Idle(t, id))
    && (Unfinished(t, id) ==> now < t.jobs[id].deadline && !(t.draining && t.jobs[id].status.Queued?))
  }

  /** The pass ends every job at its deadline, and leaves as waiting each queued job without a child, once and in the
      table's order. */
  lemma {:induction false} ScanWaiting(s: Store, ids: seq<JobId>, env: Env)
    requires Valid(s, {}, {}) && Distinct(ids)
    ensures var (t, waiting) := Scan(s, ids, env);
            && Distinct(waiting)
            && (forall id | id in waiting :: id in ids)
            && (forall id | id in ids :: Judged(t, id, waiting, env.now))
            && (forall id | id !in ids :: Same(s, t, id))
    decreases |ids|
  {
    hide Valid, Calm;
    Basics(s, {}, {});
    if ids != [] {
      var (u, waits) := Visit(s, ids[0], env);
      VisitKeeps(s, ids[0], env);
      VisitAlone(s, ids[0], env);
      ScanWaiting(u, ids[1..], env);
      ScanDraining(u, ids[1..], env);
      ScanStep(s, u, Scan(u, ids[1..], env).0, ids, waits, Scan(u, ids[1..], env).1, env.now);
    }
  }

  lemma ScanStep(s: Store, u: Store, t: Store, ids: seq<JobId>, waits: bool, rest: seq<JobId>, now: Seconds)
    requires ids != [] && Distinct(ids) && Distinct(rest) && t.draining == u.draining
    requires (forall i | i != ids[0] :: Same(s, u, i)) && (waits <==> Idle(u, ids[0]))
    requires Unfinished(u, ids[0]) ==> now < u.jobs[ids[0]].deadline && !(u.draining && u.jobs[ids[0]].status.Queued?)
    requires forall id | id in rest :: id in ids[1..]
    requires forall id | id in ids[1..] :: Judged(t, id, rest, now)
    requires forall id | id !in ids[1..] :: Same(u, t, id)
    ensures var waiting := (if waits then [ids[0]] else []) + rest;
            && Distinct(waiting)
            && (forall id | id in waiting :: id in ids)
            && (forall id | id in ids :: Judged(t, id, waiting, now))
            && (forall id | id !in ids :: Same(s, t, id))
  {
    var waiting := (if waits then [ids[0]] else []) + rest;
    assert ids == [ids[0]] + ids[1..];
    assert ids[0] !in ids[1..];
    assert Same(u, t, ids[0]);
    forall id | id in ids ensures Judged(t, id, waiting, now) {
      if id != ids[0] {
        assert Judged(t, id, rest, now);
      }
    }
    forall id | id !in ids ensures Same(s, t, id) {
      assert Same(s, u, id) && Same(u, t, id);
    }
  }

  lemma ScanDraining(s: Store, ids: seq<JobId>, env: Env)
    requires Valid(s, {}, {})
    ensures Scan(s, ids, env).0.draining == s.draining
  {
    ScanKeeps(s, ids, env);
  }

  /** How the waiting jobs of a tick stand when they are dispatched. */
  lemma TickLined(s: Store, env: Env)
    requires Valid(s, {}, {})
    ensures var (t, waiting) := Scan(s, s.order, env); Valid(t, {}, {}) && Lined(t, Queues(t, waiting))
  {
    hide Valid, Scan, Lined;
    Callable(s, {}, {});
    OrderDistinct(s);
    ScanKeeps(s, s.order, env);
    ScanWaiting(s, s.order, env);
    var (t, waiting) := Scan(s, s.order, env);
    forall id | id in waiting ensures Idle(t, id) {
      assert Judged(t, id, waiting, env.now);
    }
    QueuesLined(t, waiting);
  }

  lemma TickKeeps(s: Store, env: Env)
    requires Valid(s, {}, {})
    ensures Valid(Tick(s, env).0, {}, {})
  {
    hide Valid, Scan, Dispatch, Lined;
    Callable(s, {}, {});
    TickLined(s, env);
    var (t, waiting) := Scan(s, s.order, env);
    QueuesReady(t, waiting);
    DispatchKeeps(t, Queues(t, waiting));
  }

  lemma {:induction false} DispatchJobs(s: Store, queues: seq<Queue>)
    requires Stocked(s, queues)
    ensures var t := Dispatch(s, queues).0;
            t.jobs == s.jobs && t.draining == s.draining && t.stopping == s.stopping && t.order == s.order
    decreases Waiters(queues)
  {
    hide Stocked, Dispatch, Pop, Least;
    if queues == [] {
      DispatchNone(s);
    } else {
      DispatchOnce(s, queues);
      HeldLeast(s, queues);
      var w := FirstFree(s, s.pool);
      if w.Some? {
        PopWaiters(queues, Least(s, queues));
        DispatchJobs(Chosen(s, queues, w.value), Pop(queues, Least(s, queues)));
      }
    }
  }

  /** After a tick at time t no unfinished job has a deadline at or before t, and while draining none is queued. */
  lemma TickDeadlines(s: Store, env: Env)
    requires Valid(s, {}, {})
    ensures var t := Tick(s, env).0;
            forall id | Unfinished(t, id) :: env.now < t.jobs[id].deadline && !(t.draining && t.jobs[id].status.Queued?)
  {
    hide Valid, Scan, Dispatch;
    Callable(s, {}, {});
    OrderDistinct(s);
    ScanWaiting(s, s.order, env);
    var (u, waiting) := Scan(s, s.order, env);
    QueuesReady(u, waiting);
    DispatchJobs(u, Queues(u, waiting));
    var t := Tick(s, env).0;
    forall id | Unfinished(t, id)
      ensures env.now < t.jobs[id].deadline && !(t.draining && t.jobs[id].status.Queued?)
    {
      assert id in s.order;
      assert Judged(u, id, waiting, env.now);
    }
  }

  // ---------------------------------------------------------------- oldest first

  ghost predicate Ahead<T(!new)>(xs: seq<T>, x: T, y: T) {
    exists i, j :: 0 <= i < j < |xs| && xs[i] == x && xs[j] == y
  }

  lemma AheadIn<T(!new)>(xs: seq<T>, i: nat, j: nat)
    requires i < j < |xs|
    ensures Ahead(xs, xs[i], xs[j])
  {
  }

  lemma AheadMore<T(!new)>(xs: seq<T>, more: seq<T>, x: T, y: T)
    requires Ahead(xs, x, y)
    ensures Ahead(xs + more, x, y) && Ahead(more + xs, x, y)
  {
    var i, j :| 0 <= i < j < |xs| && xs[i] == x && xs[j] == y;
    AheadIn(xs + more, i, j);
    AheadIn(more + xs, |more| + i, |more| + j);
  }

  /** A list made of some of the elements of another in turn has its order. */
  lemma AheadNext<T(!new)>(xs: seq<T>, takes: bool, rest: seq<T>, x: T, y: T)
    requires xs != [] && Distinct(xs) && Ahead(xs, x, y) && forall z | z in rest :: z in xs[1..]
    requires Ahead(xs[1..], x, y) && x in rest && y in rest ==> Ahead(rest, x, y)
    ensures var all := (if takes then [xs[0]] else []) + rest; x in all && y in all ==> Ahead(all, x, y)
  {
    var i, j :| 0 <= i < j < |xs| && xs[i] == x && xs[j] == y;
    TailDistinct(xs);
    assert y == xs[1..][j - 1];
    if i == 0 {
      if takes && y in rest {
        var k :| 0 <= k < |rest| && rest[k] == y;
        AheadIn([x] + rest, 0, k + 1);
      }
    } else {
      AheadIn(xs[1..], i - 1, j - 1);
      if x in rest && y in rest {
        AheadMore(rest, [xs[0]], x, y);
      }
      assert [] + rest == rest;
    }
  }

  /** The waiting jobs of a pass are in the table's order. */
  lemma {:induction false} ScanOrder(s: Store, ids: seq<JobId>, env: Env, x: JobId, y: JobId)
    requires Valid(s, {}, {}) && Distinct(ids) && Ahead(ids, x, y)
    ensures Linked(s) && forall i | i in s.order :: i in s.jobs
    ensures var waiting := Scan(s, ids, env).1; x in waiting && y in waiting ==> Ahead(waiting, x, y)
    decreases |ids|
  {
    hide Valid, Calm, Visit, Narrower, SameDomain, Ahead, Linked, Judged, Same, Distinct;
    Callable(s, {}, {});
    assert ids != [] by { AheadSome(ids, x, y); }
    var (u, waits) := Visit(s, ids[0], env);
    VisitKeeps(s, ids[0], env);
    Callable(u, {}, {});
    TailDistinct(ids);
    ScanWaiting(u, ids[1..], env);
    if Ahead(ids[1..], x, y) {
      ScanOrder(u, ids[1..], env, x, y);
    }
    AheadNext(ids, waits, Scan(u, ids[1..], env).1, x, y);
  }

  lemma AheadSome<T(!new)>(xs: seq<T>, x: T, y: T)
    requires Ahead(xs, x, y)
    ensures xs != []
  {
  }

  lemma {:induction false} JobsOfOrder(s: Store, waiting: seq<JobId>, o: Owner, x: JobId, y: JobId)
    requires (forall id | id in waiting :: id in s.jobs) && Ahead(waiting, x, y)
    requires s.jobs[x].owner == o && s.jobs[y].owner == o
    ensures Ahead(JobsOf(s, waiting, o), x, y)
  {
    var i, j :| 0 <= i < j < |waiting| && waiting[i] == x && waiting[j] == y;
    var n := |waiting| - 1;
    var less := JobsOf(s, waiting[..n], o);
    if j < n {
      AheadIn(waiting[..n], i, j);
      JobsOfOrder(s, waiting[..n], o, x, y);
      AheadMore(less, if s.jobs[waiting[n]].owner == o then [waiting[n]] else [], x, y);
    } else {
      JobsOfHas(s, waiting[..n], o, i);
      var k :| 0 <= k < |less| && less[k] == x;
      AheadIn(less + [y], k, |less|);
    }
  }

  lemma {:induction false} JobsOfHas(s: Store, waiting: seq<JobId>, o: Owner, i: nat)
    requires (forall id | id in waiting :: id in s.jobs) && i < |waiting| && s.jobs[waiting[i]].owner == o
    ensures waiting[i] in JobsOf(s, waiting, o)
  {
    var n := |waiting| - 1;
    if i < n {
      JobsOfHas(s, waiting[..n], o, i);
    }
  }

  lemma PrefixAhead<T(!new)>(part: seq<T>, all: seq<T>, x: T, y: T)
    requires part <= all && Distinct(all) && Ahead(all, x, y) && y in part
    ensures x in part
  {
    var i, j :| 0 <= i < j < |all| && all[i] == x && all[j] == y;
    var k :| 0 <= k < |part| && part[k] == y;
    assert all[k] == y;
    assert k == j;
    assert part[i] == x;
  }

  /** Within an owner the oldest waiting job goes first, one put back in the queue as much as any: of two waiting jobs of
      one owner, a tick that gives a child to the later submitted gives one to the earlier. */
  lemma OldestFirst(s: Store, env: Env, x: JobId, y: JobId)
    requires Valid(s, {}, {}) && Ahead(s.order, x, y)
    ensures Linked(s) && forall i | i in s.order :: i in s.jobs
    ensures var u, t, sends := Scan(s, s.order, env).0, Tick(s, env).0, Tick(s, env).1;
            Idle(u, x) && Idle(u, y) && u.jobs[x].owner == u.jobs[y].owner ==>
              (y in SentOf(u, sends, u.jobs[y].owner) ==> x in SentOf(u, sends, u.jobs[x].owner))
  {
    hide Valid, Calm, Scan, Dispatch, Lined, Ahead;
    Callable(s, {}, {});
    OrderDistinct(s);
    TickLined(s, env);
    ScanWaiting(s, s.order, env);
    AheadMembers(s.order, x, y);
    ScanOrder(s, s.order, env, x, y);
    var (u, waiting) := Scan(s, s.order, env);
    if Idle(u, x) && Idle(u, y) && u.jobs[x].owner == u.jobs[y].owner {
      var o := u.jobs[x].owner;
      assert Judged(u, x, waiting, env.now) && Judged(u, y, waiting, env.now);
      JobsOfOrder(u, waiting, o, x, y);
      JobsOfAre(u, waiting, o);
      QueuesLines(u, waiting, o);
      DispatchOldest(u, Queues(u, waiting), o);
      if y in SentOf(u, Tick(s, env).1, o) {
        PrefixAhead(SentOf(u, Tick(s, env).1, o), JobsOf(u, waiting, o), x, y);
      }
    }
  }

  lemma AheadMembers<T(!new)>(xs: seq<T>, x: T, y: T)
    requires Ahead(xs, x, y)
    ensures x in xs && y in xs
  {
  }

  // ---------------------------------------------------------------- no owner waits long

  lemma {:induction false} LastPickAfter(picks: seq<Pick>, k: nat, o: Owner)
    requires k < |picks|
    ensures picks[k].chosen == o ==> LastPick(picks, o) > k
    ensures (forall i | k <= i < |picks| :: picks[i].chosen != o) ==> LastPick(picks, o) <= k
  {
    var n := |picks| - 1;
    if k < n {
      LastPickAfter(picks[..n], k, o);
    } else {
      LastPickBound(picks[..n], o);
    }
  }

  lemma {:induction false} LastPickBound(picks: seq<Pick>, o: Owner)
    ensures -1 <= LastPick(picks, o) <= |picks|
  {
    if picks != [] {
      LastPickBound(picks[..|picks| - 1], o);
    }
  }

  /** While an owner with a waiting job is passed over, nobody else is chosen twice. */
  lemma NoSecondTurn(picks: seq<Pick>, first: nat, a: nat, b: nat, o: Owner)
    requires Fair(picks) && first <= a < b < |picks|
    requires forall k | first <= k <= b :: picks[k].chosen != o
    requires o in picks[b].waiting
    ensures picks[a].chosen != picks[b].chosen
  {
    var past := picks[..b];
    LastPickAfter(past, a, picks[a].chosen);
    LastPickAfter(past, a, o);
    assert forall k | a <= k < b :: past[k] == picks[k];
  }

  lemma {:induction false} Pigeonhole<T(!new)>(xs: seq<T>, room: set<T>)
    requires Distinct(xs) && forall x | x in xs :: x in room
    ensures |xs| <= |room|
  {
    if xs != [] {
      assert xs == [xs[0]] + xs[1..];
      forall x | x in xs[1..] ensures x in room - {xs[0]} {
      }
      Pigeonhole(xs[1..], room - {xs[0]});
    }
  }

  function ChosenIn(picks: seq<Pick>, first: nat, last: nat): (chosen: seq<Owner>)
    requires first <= last <= |picks|
    ensures |chosen| == last - first && forall k | 0 <= k < last - first :: chosen[k] == picks[first + k].chosen
  {
    seq(last - first, k requires 0 <= k < last - first => picks[first + k].chosen)
  }

  lemma PicksFair(s: Store)
    requires Valid(s, {}, {})
    ensures Fair(s.past.picks) && forall k | 0 <= k < |s.past.picks| :: s.past.picks[k].chosen in s.cfg.owners
  {
  }

  /** Bounded bypass: an owner that has a waiting job at each of a run of dispatch decisions and is never chosen is
      passed over at most once for every other owner. */
  lemma BoundedBypass(s: Store, first: nat, last: nat, o: Owner)
    requires Valid(s, {}, {}) && first <= last <= |s.past.picks| && o in s.cfg.owners
    requires forall k | first <= k < last :: o in s.past.picks[k].waiting && s.past.picks[k].chosen != o
    ensures last - first <= |s.cfg.owners| - 1
  {
    hide Valid, Fair;
    PicksFair(s);
    var picks := s.past.picks;
    var chosen := ChosenIn(picks, first, last);
    forall i, j | 0 <= i < j < |chosen| ensures chosen[i] != chosen[j] {
      NoSecondTurn(picks, first, first + i, first + j, o);
    }
    var all := set p | p in s.cfg.owners;
    forall x | x in chosen ensures x in all - {o} {
      var k :| 0 <= k < |chosen| && chosen[k] == x;
      assert picks[first + k].chosen in s.cfg.owners;
    }
    Pigeonhole(chosen, all - {o});
    SetOfSeq(s.cfg.owners, all);
  }

  lemma {:induction false} SetOfSeq<T(!new)>(xs: seq<T>, all: set<T>)
    requires forall x | x in all :: x in xs
    ensures |all| <= |xs|
  {
    if xs == [] {
      assert all == {};
    } else {
      SetOfSeq(xs[1..], all - {xs[0]});
    }
  }
}
