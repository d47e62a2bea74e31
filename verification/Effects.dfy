/** What the store's operations do to the jobs and to the children's records, told without following them. */
module Effects {
  import opened Wrappers
  import Metrics
  import opened JobTypes
  import opened StoreModel
  import opened StoreInvariant
  import opened StoreSteps
  import opened Dispatching

  /** What may become of a job in one step. */
  datatype Change =
    | Same
    | Starts
    | Advances(progress: Progress)
    | Requeues
    | Ends(status: Status, result: Option<Value>, code: Option<Code>)

  function Changed(j: Job, c: Change, now: Seconds): Job {
    match c
    case Same => j
    case Starts => j.(status := Running, startedAt := Some(now))
    case Advances(p) => j.(progress := Some(p))
    case Requeues => j.(retried := true)
    case Ends(status, result, code) =>
      j.(status := status, result := result, code := code, input := None, finished := Some(now))
  }

  /** How a child leaves service: told to stop by a message, or terminated. */
  datatype Leaving = Stays | Asked | Terminated

  function Left(k: Worker, how: Leaving, now: Seconds): Worker {
    match how
    case Stays => k
    case Asked => k.(job := None, retiredAt := Some(now), outbox := k.outbox + [Stop], closes := k.closes + 1)
    case Terminated =>
      k.(job := None, retiredAt := Some(now), terminated := true, closes := if k.sending then k.closes else k.closes + 1)
  }

  /** An idle child is told to stop, unless a send still owns its pipe. */
  function Dismissed(k: Worker): Leaving {
    if k.sending then Terminated else Asked
  }

  /** Nothing was submitted, refused or started. */
  predicate Uncounted(s: Store, t: Store) {
    t.stats.waits == s.stats.waits && t.stats.rejected == s.stats.rejected && t.stats.submitted == s.stats.submitted
  }

  // ---------------------------------------------------------------- jobs ended with their children

  ghost predicate EndedJobs(before: map<JobId, Job>, after: map<JobId, Job>, ends: map<JobId, Change>, now: Seconds) {
    && after.Keys == before.Keys
    && forall id | id in before :: after[id] == if id in ends then Changed(before[id], ends[id], now) else before[id]
  }

  predicate Serves(k: Worker, ends: map<JobId, Change>) {
    k.job.Some? && k.job.value in ends
  }

  ghost predicate EndedCrew(before: map<WorkerId, Worker>, after: map<WorkerId, Worker>, ends: map<JobId, Change>,
                            now: Seconds) {
    && after.Keys == before.Keys
    && forall w | w in before :: after[w] == if Serves(before[w], ends) then Left(before[w], Terminated, now) else before[w]
  }

  /** Exactly the given jobs have ended, as given, and their children were terminated. */
  ghost predicate Aborted(s: Store, t: Store, ends: map<JobId, Change>, now: Seconds) {
    && EndedJobs(s.jobs, t.jobs, ends, now) && EndedCrew(s.workers, t.workers, ends, now)
    && t.active == s.active - ends.Keys && Uncounted(s, t)
  }

  lemma AbortedNone(s: Store, t: Store, now: Seconds)
    requires t.jobs == s.jobs && t.workers == s.workers && t.active == s.active && Uncounted(s, t)
    ensures Aborted(s, t, map[], now)
  {
  }

  lemma JobsThen(a: map<JobId, Job>, b: map<JobId, Job>, c: map<JobId, Job>, d: map<JobId, Change>, e: map<JobId, Change>,
                 now: Seconds)
    requires EndedJobs(a, b, d, now) && EndedJobs(b, c, e, now) && d.Keys !! e.Keys
    ensures EndedJobs(a, c, d + e, now)
  {
    hide Changed;
  }

  lemma CrewThen(a: map<WorkerId, Worker>, b: map<WorkerId, Worker>, c: map<WorkerId, Worker>, d: map<JobId, Change>,
                 e: map<JobId, Change>, now: Seconds)
    requires EndedCrew(a, b, d, now) && EndedCrew(b, c, e, now) && d.Keys !! e.Keys
    ensures EndedCrew(a, c, d + e, now)
  {
  }

  lemma AbortedThen(s: Store, t: Store, u: Store, d: map<JobId, Change>, e: map<JobId, Change>, now: Seconds)
    requires Aborted(s, t, d, now) && Aborted(t, u, e, now) && d.Keys !! e.Keys
    ensures Aborted(s, u, d + e, now)
  {
    hide EndedJobs, EndedCrew;
    JobsThen(s.jobs, t.jobs, u.jobs, d, e, now);
    CrewThen(s.workers, t.workers, u.workers, d, e, now);
    assert (d + e).Keys == d.Keys + e.Keys;
  }

  /** One job ended, and with it the child that served it, if one did. */
  lemma AbortedOne(s: Store, t: Store, id: JobId, c: Change, w: WorkerId, now: Seconds)
    requires id in s.jobs && t.jobs == s.jobs[id := Changed(s.jobs[id], c, now)] && t.active == s.active - {id}
    requires forall v | v in s.workers && s.workers[v].job == Some(id) :: v == w
    requires t.workers == if w in s.workers && s.workers[w].job == Some(id)
                          then s.workers[w := Left(s.workers[w], Terminated, now)] else s.workers
    requires Uncounted(s, t)
    ensures Aborted(s, t, map[id := c], now)
  {
    hide Changed, Left;
  }

  lemma FinishParts(s: Store, id: JobId, status: Status, result: Option<Value>, code: Option<Code>, env: Env)
    requires id in s.jobs
    ensures var t := Finish(s, id, status, result, code, env);
            && t.jobs == s.jobs[id := Changed(s.jobs[id], Ends(status, result, code), env.now)]
            && t.workers == s.workers && t.active == s.active && Uncounted(s, t)
            && t.order == s.order && t.pool == s.pool && t.draining == s.draining
  {
  }

  lemma FinishAborts(s: Store, id: JobId, status: Status, code: Option<Code>, env: Env)
    requires id in s.jobs && id !in s.active && forall w | w in s.workers :: s.workers[w].job != Some(id)
    ensures Aborted(s, Finish(s, id, status, None, code, env), map[id := Ends(status, None, code)], env.now)
  {
    hide Finish, Changed, Aborted, SameDomain, Narrower, Uncounted;
    FinishParts(s, id, status, None, code, env);
    AbortedOne(s, Finish(s, id, status, None, code, env), id, Ends(status, None, code), 0, env.now);
  }

  /** The one child of a job. */
  lemma OnlyServes(s: Store, id: JobId, loose: set<JobId>, spent: set<WorkerId>)
    requires Valid(s, loose, spent)
    ensures forall w | w in s.workers && s.workers[w].job == Some(id) :: id in s.active && s.active[id] == w
  {
    hide Valid;
    Basics(s, loose, spent);
  }

  lemma AbortAborts(s: Store, id: JobId, status: Status, code: Option<Code>, env: Env)
    requires Valid(s, {}, {}) && Unfinished(s, id)
    ensures Linked(s) && forall i | i in s.order :: i in s.jobs
    ensures Aborted(s, Abort(s, id, status, code, env), map[id := Ends(status, None, code)], env.now)
  {
    hide Valid, Calm, Finish, Retire, Narrower, SameDomain, Aborted;
    Callable(s, {}, {});
    Basics(s, {}, {});
    OnlyServes(s, id, {}, {});
    if id in s.active {
      AbortDetach(s, id, env);
      EvictAborts(s, id, status, code, env);
    } else {
      FinishAborts(s, id, status, code, env);
    }
  }

  lemma EvictAborts(s: Store, id: JobId, status: Status, code: Option<Code>, env: Env)
    requires id in s.jobs && id in s.active && s.active[id] in s.workers && s.workers[s.active[id]].job == Some(id)
    requires forall w | w in s.workers && s.workers[w].job == Some(id) :: s.active[id] == w
    ensures var v := Detach(Unassign(s, s.active[id], id), s.active[id], false, env);
            && v.jobs == s.jobs && Aborted(s, Finish(v, id, status, None, code, env), map[id := Ends(status, None, code)], env.now)
  {
    hide Finish, Detach, Unassign, Changed, Left, Aborted, SameDomain, Narrower;
    var w := s.active[id];
    UnassignParts(s, w, id);
    EvictParts(s, w, id, env);
    var v := Detach(Unassign(s, w, id), w, false, env);
    FinishParts(v, id, status, None, code, env);
    AbortedOne(s, Finish(v, id, status, None, code, env), id, Ends(status, None, code), w, env.now);
  }

  lemma UnassignParts(s: Store, w: WorkerId, id: JobId)
    requires w in s.workers
    ensures w in Unassign(s, w, id).workers
  {
  }

  lemma EvictParts(s: Store, w: WorkerId, id: JobId, env: Env)
    requires w in s.workers
    ensures var v := Detach(Unassign(s, w, id), w, false, env);
            && v.jobs == s.jobs && v.workers == s.workers[w := Left(s.workers[w], Terminated, env.now)]
            && v.active == s.active - {id} && Uncounted(s, v)
  {
  }

  // ---------------------------------------------------------------- a pass over the table

  /** What a tick makes of a job: ended at its deadline, or, while draining, for being queued. */
  function Due(s: Store, id: JobId, now: Seconds): Change {
    if !Unfinished(s, id) then Same
    else if now >= s.jobs[id].deadline then Ends(TimedOut, None, Some(DeadlineExceeded))
    else if s.jobs[id].status.Queued? && s.draining then Ends(Failed, None, Some(ServiceRestarted))
    else Same
  }

  function Dues(s: Store, ids: seq<JobId>, now: Seconds): map<JobId, Change> {
    map id | id in ids && Due(s, id, now).Ends? :: Due(s, id, now)
  }

  lemma VisitAborts(s: Store, id: JobId, env: Env)
    requires Valid(s, {}, {})
    ensures Linked(s) && forall i | i in s.order :: i in s.jobs
    ensures var t := Visit(s, id, env).0;
            t.draining == s.draining && Aborted(s, t, if Due(s, id, env.now).Ends? then map[id := Due(s, id, env.now)] else map[], env.now)
  {
    hide Valid, Aborted, Abort, Narrower;
    Callable(s, {}, {});
    AbortedNone(s, s, env.now);
    if Due(s, id, env.now).Ends? {
      AbortAborts(s, id, Due(s, id, env.now).status, Due(s, id, env.now).code, env);
    }
  }

  lemma DueSame(s: Store, u: Store, id: JobId, now: Seconds)
    requires u.draining == s.draining && (id in u.jobs <==> id in s.jobs) && (id in s.jobs ==> u.jobs[id] == s.jobs[id])
    ensures Due(u, id, now) == Due(s, id, now)
  {
  }

  lemma AbortedElse(s: Store, u: Store, ends: map<JobId, Change>, id: JobId, now: Seconds)
    requires Aborted(s, u, ends, now) && id !in ends
    ensures (id in u.jobs <==> id in s.jobs) && (id in s.jobs ==> u.jobs[id] == s.jobs[id])
  {
  }

  lemma DuesTail(s: Store, u: Store, ids: seq<JobId>, now: Seconds)
    requires ids != [] && Distinct(ids) && u.draining == s.draining
    requires Aborted(s, u, if Due(s, ids[0], now).Ends? then map[ids[0] := Due(s, ids[0], now)] else map[], now)
    ensures ids[0] !in ids[1..] && Dues(u, ids[1..], now) == Dues(s, ids[1..], now)
    ensures Dues(s, ids, now) ==
            (if Due(s, ids[0], now).Ends? then map[ids[0] := Due(s, ids[0], now)] else map[]) + Dues(s, ids[1..], now)
  {
    hide Due, Aborted, Dues, Distinct;
    TailDistinct(ids);
    DuesSplit(s, ids, now);
    forall id | id in ids[1..] ensures Due(u, id, now) == Due(s, id, now) {
      AbortedElse(s, u, if Due(s, ids[0], now).Ends? then map[ids[0] := Due(s, ids[0], now)] else map[], id, now);
      DueSame(s, u, id, now);
    }
    DuesEqual(s, u, ids[1..], now);
  }

  lemma DuesSplit(s: Store, ids: seq<JobId>, now: Seconds)
    requires ids != []
    ensures Dues(s, ids, now) ==
            (if Due(s, ids[0], now).Ends? then map[ids[0] := Due(s, ids[0], now)] else map[]) + Dues(s, ids[1..], now)
  {
    hide Due;
    assert ids == [ids[0]] + ids[1..];
  }

  lemma DuesEqual(s: Store, u: Store, ids: seq<JobId>, now: Seconds)
    requires forall id | id in ids :: Due(u, id, now) == Due(s, id, now)
    ensures Dues(u, ids, now) == Dues(s, ids, now)
  {
    hide Due;
  }

  lemma {:induction false} ScanAborts(s: Store, ids: seq<JobId>, env: Env)
    requires Valid(s, {}, {}) && Distinct(ids)
    ensures Linked(s) && forall i | i in s.order :: i in s.jobs
    ensures Aborted(s, Scan(s, ids, env).0, Dues(s, ids, env.now), env.now)
    decreases |ids|
  {
    hide Valid, Calm, Aborted, Visit, Narrower, SameDomain, Due;
    Callable(s, {}, {});
    if ids == [] {
      AbortedNone(s, s, env.now);
      assert Dues(s, ids, env.now) == map[];
    } else {
      var u := Visit(s, ids[0], env).0;
      VisitKeeps(s, ids[0], env);
      VisitAborts(s, ids[0], env);
      DuesTail(s, u, ids, env.now);
      TailDistinct(ids);
      ScanAborts(u, ids[1..], env);
      AbortedThen(s, u, Scan(u, ids[1..], env).0,
                  if Due(s, ids[0], env.now).Ends? then map[ids[0] := Due(s, ids[0], env.now)] else map[],
                  Dues(s, ids[1..], env.now), env.now);
    }
  }

  /** The unfinished jobs of a list, or only the queued ones. */
  function Hits(s: Store, ids: seq<JobId>, queuedOnly: bool, c: Change): map<JobId, Change> {
    map id | id in ids && Hit(s, id, queuedOnly) :: c
  }

  lemma AbortIfAborts(s: Store, id: JobId, queuedOnly: bool, status: Status, code: Option<Code>, env: Env)
    requires Valid(s, {}, {})
    ensures Linked(s) && forall i | i in s.order :: i in s.jobs
    ensures Aborted(s, AbortIf(s, id, queuedOnly, status, code, env), Hits(s, [id], queuedOnly, Ends(status, None, code)), env.now)
  {
    hide Valid, Aborted, Abort, Narrower;
    Callable(s, {}, {});
    AbortedNone(s, s, env.now);
    if Unfinished(s, id) && (queuedOnly ==> s.jobs[id].status.Queued?) {
      AbortAborts(s, id, status, code, env);
      assert Hits(s, [id], queuedOnly, Ends(status, None, code)) == map[id := Ends(status, None, code)];
    } else {
      assert Hits(s, [id], queuedOnly, Ends(status, None, code)) == map[];
    }
  }

  predicate Hit(s: Store, id: JobId, queuedOnly: bool) {
    Unfinished(s, id) && (queuedOnly ==> s.jobs[id].status.Queued?)
  }

  lemma HitsTail(s: Store, u: Store, ids: seq<JobId>, queuedOnly: bool, c: Change, now: Seconds)
    requires ids != [] && Distinct(ids) && Aborted(s, u, Hits(s, [ids[0]], queuedOnly, c), now)
    ensures ids[0] !in ids[1..] && Hits(u, ids[1..], queuedOnly, c) == Hits(s, ids[1..], queuedOnly, c)
    ensures Hits(s, ids, queuedOnly, c) == Hits(s, [ids[0]], queuedOnly, c) + Hits(s, ids[1..], queuedOnly, c)
  {
    hide Aborted, Hit, Hits, Distinct;
    TailDistinct(ids);
    HitsSplit(s, ids, queuedOnly, c);
    forall id | id in ids[1..] ensures Hit(u, id, queuedOnly) == Hit(s, id, queuedOnly) {
      OnlyHit(s, ids[0], id, queuedOnly, c);
      AbortedElse(s, u, Hits(s, [ids[0]], queuedOnly, c), id, now);
      HitSame(s, u, id, queuedOnly);
    }
    HitsEqual(s, u, ids[1..], queuedOnly, c);
  }

  lemma OnlyHit(s: Store, first: JobId, id: JobId, queuedOnly: bool, c: Change)
    requires id != first
    ensures id !in Hits(s, [first], queuedOnly, c)
  {
  }

  lemma HitsSplit(s: Store, ids: seq<JobId>, queuedOnly: bool, c: Change)
    requires ids != []
    ensures Hits(s, ids, queuedOnly, c) == Hits(s, [ids[0]], queuedOnly, c) + Hits(s, ids[1..], queuedOnly, c)
  {
    hide Hit;
    assert ids == [ids[0]] + ids[1..];
  }

  lemma HitsEqual(s: Store, u: Store, ids: seq<JobId>, queuedOnly: bool, c: Change)
    requires forall id | id in ids :: Hit(u, id, queuedOnly) == Hit(s, id, queuedOnly)
    ensures Hits(u, ids, queuedOnly, c) == Hits(s, ids, queuedOnly, c)
  {
    hide Hit;
  }

  lemma HitSame(s: Store, u: Store, id: JobId, queuedOnly: bool)
    requires (id in u.jobs <==> id in s.jobs) && (id in s.jobs ==> u.jobs[id] == s.jobs[id])
    ensures Hit(u, id, queuedOnly) == Hit(s, id, queuedOnly)
  {
  }

  lemma {:induction false} AbortAllAborts(s: Store, ids: seq<JobId>, queuedOnly: bool, status: Status, code: Option<Code>,
                                          env: Env)
    requires Valid(s, {}, {}) && Distinct(ids) && status.Terminal() && !status.Succeeded?
    ensures Linked(s) && forall i | i in s.order :: i in s.jobs
    ensures Aborted(s, AbortAll(s, ids, queuedOnly, status, code, env), Hits(s, ids, queuedOnly, Ends(status, None, code)), env.now)
    decreases |ids|
  {
    hide Valid, Calm, Aborted, AbortIf, Narrower, SameDomain, Hits;
    Callable(s, {}, {});
    if ids == [] {
      AbortedNone(s, s, env.now);
      NoHits(s, queuedOnly, Ends(status, None, code));
    } else {
      var u := AbortIf(s, ids[0], queuedOnly, status, code, env);
      AbortIfKeeps(s, ids[0], queuedOnly, status, code, env);
      AbortIfAborts(s, ids[0], queuedOnly, status, code, env);
      HitsTail(s, u, ids, queuedOnly, Ends(status, None, code), env.now);
      TailDistinct(ids);
      AbortAllAborts(u, ids[1..], queuedOnly, status, code, env);
      HitsApart(s, ids, queuedOnly, Ends(status, None, code));
      AbortedThen(s, u, AbortAll(u, ids[1..], queuedOnly, status, code, env),
                  Hits(s, [ids[0]], queuedOnly, Ends(status, None, code)),
                  Hits(s, ids[1..], queuedOnly, Ends(status, None, code)), env.now);
    }
  }

  lemma NoHits(s: Store, queuedOnly: bool, c: Change)
    ensures Hits(s, [], queuedOnly, c) == map[]
  {
  }

  lemma HitsApart(s: Store, ids: seq<JobId>, queuedOnly: bool, c: Change)
    requires ids != [] && ids[0] !in ids[1..]
    ensures Hits(s, [ids[0]], queuedOnly, c).Keys !! Hits(s, ids[1..], queuedOnly, c).Keys
  {
  }

  lemma AbortIfKeeps(s: Store, id: JobId, queuedOnly: bool, status: Status, code: Option<Code>, env: Env)
    requires Valid(s, {}, {}) && status.Terminal() && !status.Succeeded?
    requires Linked(s) && forall i | i in s.order :: i in s.jobs
    ensures Valid(AbortIf(s, id, queuedOnly, status, code, env), {}, {})
  {
    hide Valid, Calm, Abort;
    if Unfinished(s, id) {
      AbortKeeps(s, id, status, code, env);
    }
  }

  // ---------------------------------------------------------------- a child that leaves service

  function Fails(s: Store, ids: seq<JobId>): map<JobId, Change> {
    map id | id in ids && Idle(s, id) :: Ends(Failed, None, Some(WorkerStartFailed))
  }

  lemma FailsSplit(s: Store, ids: seq<JobId>)
    requires ids != [] && Distinct(ids)
    ensures Fails(s, ids) ==
            (if Idle(s, ids[0]) then map[ids[0] := Ends(Failed, None, Some(WorkerStartFailed))] else map[]) + Fails(s, ids[1..])
    ensures ids[0] !in Fails(s, ids[1..])
  {
    hide Idle;
    TailDistinct(ids);
    assert ids == [ids[0]] + ids[1..];
  }

  lemma FailsEqual(s: Store, u: Store, ids: seq<JobId>)
    requires forall id | id in ids :: Idle(u, id) == Idle(s, id)
    ensures Fails(u, ids) == Fails(s, ids)
  {
    hide Idle;
  }

  lemma FinishIdle(s: Store, id: JobId, status: Status, code: Option<Code>, env: Env, other: JobId)
    requires id in s.jobs && other != id
    ensures Idle(Finish(s, id, status, None, code, env), other) == Idle(s, other)
  {
  }

  lemma {:induction false} FailQueuedAborts(s: Store, ids: seq<JobId>, env: Env, spent: set<WorkerId>)
    requires Valid(s, {}, spent) && Distinct(ids) && forall id | id in ids :: id in s.jobs
    ensures Aborted(s, FailQueued(s, ids, env), Fails(s, ids), env.now)
    decreases |ids|
  {
    hide Valid, Aborted, Finish, Fails, Narrower, SameDomain, Distinct;
    if ids == [] {
      AbortedNone(s, s, env.now);
      NoFails(s);
    } else {
      var id := ids[0];
      TailDistinct(ids);
      FailsSplit(s, ids);
      if Idle(s, id) {
        var u := Finish(s, id, Failed, None, Some(WorkerStartFailed), env);
        OnlyServes(s, id, {}, spent);
        FinishAborts(s, id, Failed, Some(WorkerStartFailed), env);
        FinishKeeps(s, id, Failed, None, Some(WorkerStartFailed), env, {}, spent);
        assert {} - {id} == {};
        FinishParts(s, id, Failed, None, Some(WorkerStartFailed), env);
        forall other | other in ids[1..] ensures Idle(u, other) == Idle(s, other) {
          FinishIdle(s, id, Failed, Some(WorkerStartFailed), env, other);
        }
        FailsEqual(s, u, ids[1..]);
        FailQueuedAborts(u, ids[1..], env, spent);
        AbortedThen(s, u, FailQueued(u, ids[1..], env), map[id := Ends(Failed, None, Some(WorkerStartFailed))],
                    Fails(s, ids[1..]), env.now);
      } else {
        FailQueuedAborts(s, ids[1..], env, spent);
        assert map[] + Fails(s, ids[1..]) == Fails(s, ids[1..]);
      }
    }
  }

  lemma NoFails(s: Store)
    ensures Fails(s, []) == map[]
  {
  }

  lemma {:induction false} FailQueuedCounts(s: Store, ids: seq<JobId>, env: Env)
    requires forall id | id in ids :: id in s.jobs
    ensures var t := FailQueued(s, ids, env); t.workers == s.workers && Uncounted(s, t)
    decreases |ids|
  {
    hide Finish, Narrower;
    if ids != [] {
      FinishParts(s, ids[0], Failed, None, Some(WorkerStartFailed), env);
      FailQueuedCounts(if s.jobs[ids[0]].status.Queued? && ids[0] !in s.active
                       then Finish(s, ids[0], Failed, None, Some(WorkerStartFailed), env) else s, ids[1..], env);
    }
  }

  lemma StartFailedCounts(s: Store, env: Env)
    requires forall id | id in s.order :: id in s.jobs
    ensures var t := StartFailed(s, env); t.workers == s.workers && Uncounted(s, t)
  {
    hide FailQueued, SameDomain, Narrower;
    FailQueuedCounts(s.(backoffUntil := env.now + BACKOFF), s.order, env);
  }

  /** What becomes of a job when a child leaves service on its own account: its own job goes back to the queue once, if no
      child had started it, and is crashed otherwise; a child that died before it was ready, leaving no other, fails the
      jobs that wait. */
  function Lost(s: Store, w: WorkerId, died: bool, id: JobId): Change
    requires w in s.workers && id in s.jobs
  {
    if s.jobs[id].status.Terminal() || s.workers[w].retiredAt.Some? then Same
    else if s.workers[w].job == Some(id) then
      if s.jobs[id].status.Queued? && !s.jobs[id].retried then Requeues else Ends(Failed, None, Some(WorkerCrashed))
    else if died && !s.workers[w].ready && !s.draining && (forall v | v in s.pool :: v == w) && Idle(s, id)
    then Ends(Failed, None, Some(WorkerStartFailed))
    else Same
  }

  ghost predicate LostJobs(s: Store, after: map<JobId, Job>, w: WorkerId, died: bool, now: Seconds)
    requires w in s.workers
  {
    after.Keys == s.jobs.Keys && forall id | id in s.jobs :: after[id] == Changed(s.jobs[id], Lost(s, w, died, id), now)
  }

  /** Exactly this child left service in this way, and its job was lost. */
  ghost predicate Departed(s: Store, t: Store, w: WorkerId, how: Leaving, died: bool, now: Seconds)
    requires w in s.workers
  {
    && LostJobs(s, t.jobs, w, died, now) && t.workers == s.workers[w := Left(s.workers[w], how, now)]
    && t.active == WithoutJob(s.active, s.workers[w].job) && Uncounted(s, t)
  }

  lemma DetachParts(s: Store, w: WorkerId, stop: bool, env: Env)
    requires w in s.workers
    ensures var v, how := Detach(s, w, stop, env), if stop then Dismissed(s.workers[w]) else Terminated;
            && v.jobs == s.jobs && v.workers == s.workers[w := Left(s.workers[w], how, env.now)]
            && v.active == WithoutJob(s.active, s.workers[w].job) && Uncounted(s, v)
            && v.pool == Remove(s.pool, w) && v.order == s.order && v.draining == s.draining
  {
  }

  lemma SettleParts(s: Store, id: JobId, env: Env)
    requires Unfinished(s, id)
    ensures var t := Settle(s, id, env);
            && t.jobs == s.jobs[id := Changed(s.jobs[id], if s.jobs[id].status.Queued? && !s.jobs[id].retried then Requeues
                                                          else Ends(Failed, None, Some(WorkerCrashed)), env.now)]
            && t.workers == s.workers && t.active == s.active && Uncounted(s, t)
  {
    hide Finish;
    FinishParts(s, id, Failed, None, Some(WorkerCrashed), env);
  }

  lemma RetireEffects(s: Store, w: WorkerId, stop: bool, died: bool, env: Env, loose: set<JobId>, spent: set<WorkerId>)
    requires Valid(s, loose, spent) && w in s.workers && (s.workers[w].ready || loose == {})
    requires s.workers[w].retiredAt.None?
    ensures forall id | id in s.order :: id in s.jobs
    ensures Departed(s, Retire(s, w, stop, died, env), w, if stop then Dismissed(s.workers[w]) else Terminated, died, env.now)
  {
    hide Valid, Narrower, SameDomain, Detach, Settle, HoldBack, Left, LostJobs, Remove;
    Basics(s, loose, spent);
    var v, k := Detach(s, w, stop, env), s.workers[w];
    DetachParts(s, w, stop, env);
    if k.job.Some? {
      assert HoldBack(v, k.ready, died, env) == v by { ReadyHolds(v, died, env); }
      SettleParts(v, k.job.value, env);
      LostOwn(s, Settle(v, k.job.value, env).jobs, w, died, env.now);
    } else {
      DetachKeeps(s, w, stop, env, loose, spent);
      PoolDistinct(s, loose, spent);
      assert loose + {} == loose;
      HeldParts(s, v, w, died, env, loose, spent - {w});
    }
  }

  lemma PoolDistinct(s: Store, loose: set<JobId>, spent: set<WorkerId>)
    requires Valid(s, loose, spent)
    ensures Distinct(s.pool)
  {
  }

  lemma ReadyHolds(s: Store, died: bool, env: Env)
    requires forall id | id in s.order :: id in s.jobs
    ensures HoldBack(s, true, died, env) == s
  {
  }

  lemma LostOwn(s: Store, after: map<JobId, Job>, w: WorkerId, died: bool, now: Seconds)
    requires w in s.workers && s.workers[w].retiredAt.None? && s.workers[w].job.Some? && s.workers[w].ready
    requires Unfinished(s, s.workers[w].job.value)
    requires var id := s.workers[w].job.value;
             after == s.jobs[id := Changed(s.jobs[id], if s.jobs[id].status.Queued? && !s.jobs[id].retried then Requeues
                                                       else Ends(Failed, None, Some(WorkerCrashed)), now)]
    ensures LostJobs(s, after, w, died, now)
  {
  }

  /** A child without a job leaves: what the next start and the waiting jobs make of it. */
  lemma HeldParts(s: Store, v: Store, w: WorkerId, died: bool, env: Env, loose: set<JobId>, spent: set<WorkerId>)
    requires Valid(v, loose, spent) && w in s.workers && s.workers[w].retiredAt.None? && s.workers[w].job.None?
    requires s.workers[w].ready || loose == {}
    requires v.jobs == s.jobs && v.active == s.active && v.pool == Remove(s.pool, w) && v.draining == s.draining
    requires Distinct(s.pool) && forall id | id in v.order :: id in v.jobs
    ensures var t := HoldBack(v, s.workers[w].ready, died, env);
            LostJobs(s, t.jobs, w, died, env.now) && t.workers == v.workers && t.active == v.active && Uncounted(v, t)
  {
    hide Valid, Narrower, SameDomain, StartFailed, LostJobs, Remove;
    if !s.workers[w].ready && died {
      StartFailedParts(s, v, w, env, spent);
    } else {
      NobodyLost(s, w, died, env.now);
    }
  }

  lemma StartFailedParts(s: Store, v: Store, w: WorkerId, env: Env, spent: set<WorkerId>)
    requires Valid(v, {}, spent) && w in s.workers && s.workers[w].retiredAt.None? && s.workers[w].job.None?
    requires !s.workers[w].ready && v.jobs == s.jobs && v.active == s.active && v.pool == Remove(s.pool, w)
    requires v.draining == s.draining && Distinct(s.pool) && forall id | id in v.order :: id in v.jobs
    ensures var t := StartFailed(v, env);
            LostJobs(s, t.jobs, w, true, env.now) && t.workers == v.workers && t.active == v.active && Uncounted(v, t)
  {
    hide Valid, Narrower, SameDomain, FailQueued, StartFailed, LostJobs, Remove, Distinct, Uncounted;
    RemoveFirst(s.pool, w);
    StartFailedIs(v, env);
    if v.pool == [] && !v.draining {
      AllFailedParts(s, v.(backoffUntil := env.now + BACKOFF), w, env, spent) by {
        BackoffKeeps(v, env.now + BACKOFF, {}, spent);
      }
    } else {
      assert v.pool != [] ==> v.pool[0] in v.pool;
      NobodyLost(s, w, true, env.now);
    }
  }

  lemma StartFailedIs(v: Store, env: Env)
    requires forall id | id in v.order :: id in v.jobs
    ensures var u := v.(backoffUntil := env.now + BACKOFF);
            && u.workers == v.workers && u.active == v.active && u.jobs == v.jobs && u.order == v.order
            && StartFailed(v, env) == (if v.pool == [] && !v.draining then FailQueued(u, u.order, env) else u)
            && (forall t :: Uncounted(u, t) <==> Uncounted(v, t)) && Uncounted(v, u)
  {
    hide FailQueued;
  }

  lemma AllFailedParts(s: Store, u: Store, w: WorkerId, env: Env, spent: set<WorkerId>)
    requires Valid(u, {}, spent) && w in s.workers && s.workers[w].retiredAt.None? && s.workers[w].job.None?
    requires !s.workers[w].ready && !s.draining && u.jobs == s.jobs && u.active == s.active
    requires (forall v | v in s.pool :: v == w) && forall id | id in u.order :: id in u.jobs
    ensures var t := FailQueued(u, u.order, env);
            LostJobs(s, t.jobs, w, true, env.now) && t.workers == u.workers && t.active == u.active && Uncounted(u, t)
  {
    hide Valid, Narrower, SameDomain, FailQueued, Fails, Aborted, LostJobs;
    OrderIs(u, spent);
    FailQueuedAborts(u, u.order, env, spent);
    Basics(u, {}, spent);
    FailedAll(s, u, FailQueued(u, u.order, env), w, env.now);
  }

  lemma OrderIs(s: Store, spent: set<WorkerId>)
    requires Valid(s, {}, spent)
    ensures Distinct(s.order) && forall id :: id in s.order <==> id in s.jobs
  {
  }

  lemma NobodyLost(s: Store, w: WorkerId, died: bool, now: Seconds)
    requires w in s.workers && s.workers[w].job.None?
    requires s.workers[w].ready || !died || s.draining || exists v | v in s.pool :: v != w
    ensures LostJobs(s, s.jobs, w, died, now)
  {
  }

  lemma FailedAll(s: Store, u: Store, t: Store, w: WorkerId, now: Seconds)
    requires w in s.workers && s.workers[w].retiredAt.None? && s.workers[w].job.None? && !s.workers[w].ready && !s.draining
    requires (forall v | v in s.pool :: v == w) && u.jobs == s.jobs && u.active == s.active
    requires (forall id :: id in u.order <==> id in u.jobs) && Aborted(u, t, Fails(u, u.order), now)
    requires forall v | v in u.workers && u.workers[v].job.Some? :: u.workers[v].job.value in u.active
    ensures LostJobs(s, t.jobs, w, true, now) && t.workers == u.workers && t.active == u.active && Uncounted(u, t)
  {
    hide Changed;
    LostIdle(s, u, t, w, now);
    assert forall v | v in u.workers :: !Serves(u.workers[v], Fails(u, u.order));
    assert t.workers == u.workers;
    assert t.active == u.active;
  }

  lemma LostIdle(s: Store, u: Store, t: Store, w: WorkerId, now: Seconds)
    requires w in s.workers && s.workers[w].retiredAt.None? && s.workers[w].job.None? && !s.workers[w].ready && !s.draining
    requires (forall v | v in s.pool :: v == w) && u.jobs == s.jobs && u.active == s.active
    requires (forall id :: id in u.order <==> id in u.jobs) && EndedJobs(u.jobs, t.jobs, Fails(u, u.order), now)
    ensures LostJobs(s, t.jobs, w, true, now)
  {
  }

  /** A child that leaves without a job, and not by dying before it was ready, changes no job. */
  lemma DepartedIdle(s: Store, t: Store, w: WorkerId, how: Leaving, died: bool, now: Seconds)
    requires w in s.workers && Departed(s, t, w, how, died, now) && s.workers[w].job.None? && (s.workers[w].ready || !died)
    ensures t.jobs == s.jobs && t.active == s.active
  {
  }

  /** A child that is found gone, in service or not. */
  lemma RetireGone(s: Store, w: WorkerId, died: bool, env: Env)
    requires Valid(s, {}, {}) && w in s.workers
    ensures forall id | id in s.order :: id in s.jobs
    ensures var t := Retire(s, w, false, died, env);
            && LostJobs(s, t.jobs, w, died, env.now) && Uncounted(s, t)
            && t.workers == if s.workers[w].retiredAt.Some? then s.workers
                            else s.workers[w := Left(s.workers[w], Terminated, env.now)]
  {
    hide Valid, LostJobs, Left, Narrower, SameDomain, Detach, HoldBack, Discharge;
    Callable(s, {}, {});
    if s.workers[w].retiredAt.Some? {
      NothingLost(s, w, died, env.now);
    } else {
      RetireEffects(s, w, false, died, env, {}, {});
    }
  }

  lemma NothingLost(s: Store, w: WorkerId, died: bool, now: Seconds)
    requires w in s.workers && s.workers[w].retiredAt.Some?
    ensures LostJobs(s, s.jobs, w, died, now)
  {
  }

  /** When a child with a job leaves service on its own account, that job is unfinished afterwards exactly when it was queued
      and had not been put back before: then it is queued again, marked as retried and without a child, and otherwise
      crashed. */
  lemma RetireSettles(s: Store, w: WorkerId, stop: bool, died: bool, env: Env, id: JobId)
    requires Valid(s, {}, {}) && w in s.workers && s.workers[w].retiredAt.None? && s.workers[w].job == Some(id)
    ensures id in s.jobs && forall i | i in s.order :: i in s.jobs
    ensures var j, t := s.jobs[id], Retire(s, w, stop, died, env);
            && id in t.jobs && id !in t.active
            && (Unfinished(t, id) <==> j.status.Queued? && !j.retried)
            && (Unfinished(t, id) ==> t.jobs[id].status.Queued? && t.jobs[id].retried && t.jobs[id].input == j.input)
            && (!Unfinished(t, id) ==>
                  t.jobs[id].status.Failed? && t.jobs[id].code == Some(WorkerCrashed) && t.jobs[id].result.None?)
  {
    hide Valid, Retire, Left, Narrower, SameDomain;
    Basics(s, {}, {});
    RetireEffects(s, w, stop, died, env, {}, {});
  }

  // ---------------------------------------------------------------- a message read

  /** What a message from a child says of a job. */
  function Told(k: Worker, m: Message, id: JobId): Change {
    if k.job != Some(id) then Same
    else
      match m
      case Ready => Same
      case Loaded => Same
      case Started(i) => if i == id then Starts else Same
      case Progressed(i, p) => if i == id then Advances(p) else Same
      case Returned(i, v) => if i == id then Ends(Succeeded, Some(v), None) else Same
      case Raised(i) => if i == id then Ends(Failed, None, Some(TaskFailed)) else Same
  }

  /** The message ends the child's job. */
  predicate Concludes(k: Worker, m: Message) {
    (m.Returned? || m.Raised?) && k.job == Some(m.id)
  }

  /** The child's record once the message was read: free of a job it ended, and dismissed when that was its last. */
  function Hearing(k: Worker, m: Message, maxJobs: nat, now: Seconds): Worker {
    if m.Ready? then k.(ready := true)
    else if m.Loaded? then k.(loaded := true)
    else if !Concludes(k, m) then k
    else if k.served >= maxJobs then Left(k, Dismissed(k), now)
    else k.(job := None)
  }

  ghost predicate ToldJobs(k: Worker, m: Message, before: map<JobId, Job>, after: map<JobId, Job>, now: Seconds) {
    after.Keys == before.Keys && forall id | id in before :: after[id] == Changed(before[id], Told(k, m, id), now)
  }

  /** The waiting times observed: one more when the message says that a job has started. */
  function Waited(s: Store, k: Worker, m: Message, now: Seconds): map<Task, Metrics.Histogram> {
    if m.Started? && k.job == Some(m.id) && m.id in s.jobs
    then Observe(s.stats.waits, s.jobs[m.id].task, now - s.jobs[m.id].submittedAt) else s.stats.waits
  }

  ghost predicate Heeded(s: Store, t: Store, w: WorkerId, m: Message, now: Seconds)
    requires w in s.workers
  {
    var k := s.workers[w];
    && ToldJobs(k, m, s.jobs, t.jobs, now) && t.workers == s.workers[w := Hearing(k, m, s.cfg.maxJobs, now)]
    && t.stats.waits == Waited(s, k, m, now)
    && t.stats.rejected == s.stats.rejected && t.stats.submitted == s.stats.submitted
  }

  lemma DeliverEffects(s: Store, w: WorkerId, m: Message, env: Env)
    requires Valid(s, {}, {}) && w in s.workers
    ensures forall id | id in s.order :: id in s.jobs
    ensures Heeded(s, Deliver(s, w, m, env).0, w, m, env.now)
  {
    hide Valid, Ended, Narrower, SameDomain, Heeded;
    Basics(s, {}, {});
    if Concludes(s.workers[w], m) {
      EndedEffects(s, w, m, if m.Returned? then Some(m.value) else None, env);
    } else {
      NotedEffects(s, w, m, env);
    }
  }

  /** The message speaks of the child's own job, and changes only that. */
  lemma ToldOne(k: Worker, m: Message, id: JobId, before: map<JobId, Job>, after: map<JobId, Job>, now: Seconds)
    requires k.job == Some(id) && id in before && after == before[id := Changed(before[id], Told(k, m, id), now)]
    ensures ToldJobs(k, m, before, after, now)
  {
  }

  /** The message speaks of none of the child's jobs. */
  lemma ToldNothing(k: Worker, m: Message, jobs: map<JobId, Job>, now: Seconds)
    requires m.Ready? || m.Loaded? || k.job != Some(m.id)
    ensures ToldJobs(k, m, jobs, jobs, now)
  {
  }

  lemma BegunParts(s: Store, id: JobId, env: Env)
    requires id in s.jobs
    ensures var t := Begun(s, id, env);
            && t.jobs == s.jobs[id := Changed(s.jobs[id], Starts, env.now)] && t.workers == s.workers
            && t.stats.waits == Observe(s.stats.waits, s.jobs[id].task, env.now - s.jobs[id].submittedAt)
            && t.stats.rejected == s.stats.rejected && t.stats.submitted == s.stats.submitted
  {
  }

  lemma AdvancedParts(s: Store, id: JobId, p: Progress)
    requires id in s.jobs
    ensures var t := Advanced(s, id, p);
            t.jobs == s.jobs[id := Changed(s.jobs[id], Advances(p), 0.0)] && t.workers == s.workers && t.stats == s.stats
  {
  }

  lemma AdvancesAnytime(j: Job, p: Progress, now: Seconds)
    ensures Changed(j, Advances(p), 0.0) == Changed(j, Advances(p), now)
  {
  }

  lemma NotedEffects(s: Store, w: WorkerId, m: Message, env: Env)
    requires w in s.workers && !Concludes(s.workers[w], m) && forall id | id in s.order :: id in s.jobs
    requires s.workers[w].job.Some? ==> Unfinished(s, s.workers[w].job.value)
    ensures Heeded(s, Deliver(s, w, m, env).0, w, m, env.now)
  {
    hide Ended, Narrower, SameDomain, ToldJobs, Begun, Advanced, Changed;
    var k := s.workers[w];
    if m.Ready? || m.Loaded? || k.job != Some(m.id) {
      ToldNothing(k, m, s.jobs, env.now);
    } else if m.Started? {
      BegunParts(s, m.id, env);
      ToldOne(k, m, m.id, s.jobs, Begun(s, m.id, env).jobs, env.now);
    } else {
      AdvancedParts(s, m.id, m.progress);
      AdvancesAnytime(s.jobs[m.id], m.progress, env.now);
      ToldOne(k, m, m.id, s.jobs, Advanced(s, m.id, m.progress).jobs, env.now);
    }
  }

  lemma EndedEffects(s: Store, w: WorkerId, m: Message, value: Option<Value>, env: Env)
    requires Valid(s, {}, {}) && w in s.workers && Concludes(s.workers[w], m)
    requires value == if m.Returned? then Some(m.value) else None
    ensures m.id in s.jobs && (forall i | i in s.order :: i in s.jobs) && Heard(s, w, m.id)
    ensures Heeded(s, Ended(s, w, m.id, value, env), w, m, env.now)
  {
    hide Valid, Calm, Concluded, Retire, Narrower, SameDomain, Left, Departed, ToldJobs;
    Basics(s, {}, {});
    var id, k := m.id, s.workers[w];
    var u := Concluded(s, w, id, value, env);
    ConcludedKeeps(s, w, id, value, env);
    ConcludedParts(s, w, m, value, env);
    var t := Ended(s, w, id, value, env);
    if k.served >= s.cfg.maxJobs {
      RetireEffects(u, w, true, false, env, {}, {w});
      DepartedIdle(u, t, w, Dismissed(u.workers[w]), false, env.now);
      DismissedFree(u, t, w, k, env.now);
    }
  }

  lemma ConcludedParts(s: Store, w: WorkerId, m: Message, value: Option<Value>, env: Env)
    requires w in s.workers && Concludes(s.workers[w], m) && m.id in s.jobs
    requires value == if m.Returned? then Some(m.value) else None
    ensures var u := Concluded(s, w, m.id, value, env);
            && ToldJobs(s.workers[w], m, s.jobs, u.jobs, env.now) && u.workers == s.workers[w := s.workers[w].(job := None)]
            && Uncounted(s, u) && u.cfg == s.cfg
  {
    hide Finish, Narrower, SameDomain, ToldJobs, Changed;
    var t := Unassign(s, w, m.id);
    FinishParts(t, m.id, Succeeded, value, None, env);
    FinishParts(t, m.id, Failed, None, Some(TaskFailed), env);
    ToldOne(s.workers[w], m, m.id, s.jobs, Concluded(s, w, m.id, value, env).jobs, env.now);
    FinishCfg(t, m.id, Succeeded, value, None, env);
    FinishCfg(t, m.id, Failed, None, Some(TaskFailed), env);
  }

  lemma FinishCfg(s: Store, id: JobId, status: Status, result: Option<Value>, code: Option<Code>, env: Env)
    requires id in s.jobs
    ensures Finish(s, id, status, result, code, env).cfg == s.cfg
  {
  }

  lemma DismissedFree(u: Store, t: Store, w: WorkerId, k: Worker, now: Seconds)
    requires w in u.workers && u.workers[w] == k.(job := None)
    requires Departed(u, t, w, Dismissed(u.workers[w]), false, now)
    ensures t.workers == u.workers[w := Left(k, Dismissed(k), now)] && Uncounted(u, t)
  {
  }

  /** The oldest message of a child, taken off its pipe and read. */
  lemma TakenEffects(s: Store, w: WorkerId, env: Env)
    requires Valid(s, {}, {}) && w in s.workers && s.workers[w].inbox != []
    ensures forall id | id in s.order :: id in s.jobs
    ensures var k, t := s.workers[w], Taken(s, w, env).0;
            && ToldJobs(k, k.inbox[0], s.jobs, t.jobs, env.now)
            && t.workers == s.workers[w := Hearing(k.(inbox := k.inbox[1..]), k.inbox[0], s.cfg.maxJobs, env.now)]
            && t.stats.waits == Waited(s, k, k.inbox[0], env.now)
            && t.stats.rejected == s.stats.rejected && t.stats.submitted == s.stats.submitted
  {
    hide Valid, Deliver, Told, Hearing, SameDomain, Narrower;
    Callable(s, {}, {});
    ReceivedKeeps(s, w);
    DeliverEffects(Received(s, w), w, s.workers[w].inbox[0], env);
    ReceivedTold(s.workers[w], s.workers[w].inbox[0]);
  }

  lemma ReceivedTold(k: Worker, m: Message)
    requires k.inbox != []
    ensures forall id :: Told(k.(inbox := k.inbox[1..]), m, id) == Told(k, m, id)
  {
  }

  // ---------------------------------------------------------------- a send confirmed

  /** A child's record once no send owns its pipe any more; a retired child's pipe is closed then. */
  function Released(k: Worker): Worker {
    k.(sending := false, closes := if k.retiredAt.Some? then k.closes + 1 else k.closes)
  }

  lemma ClearedParts(s: Store, w: WorkerId)
    requires w in s.workers
    ensures var t := Cleared(s, w);
            && t == s.(workers := s.workers[w := Released(s.workers[w])])
            && forall died, id | id in s.jobs :: Lost(t, w, died, id) == Lost(s, w, died, id)
  {
  }

  lemma SentEffects(s: Store, w: WorkerId, failed: bool, env: Env)
    requires Valid(s, {}, {}) && w in s.workers && s.workers[w].sending
    ensures forall id | id in s.order :: id in s.jobs
    ensures var k, t := s.workers[w], Sent(s, w, failed, env);
            && (if failed && k.retiredAt.None? then LostJobs(s, t.jobs, w, false, env.now) else t.jobs == s.jobs)
            && t.workers == s.workers[w := if failed && k.retiredAt.None? then Left(Released(k), Terminated, env.now) else Released(k)]
            && Uncounted(s, t)
  {
    hide Valid, Cleared, Retire, Narrower, SameDomain, Lost, Released, Left;
    Basics(s, {}, {});
    ClearedKeeps(s, w);
    ClearedParts(s, w);
    ReleasedSame(s.workers[w]);
    if failed && s.workers[w].retiredAt.None? {
      RetireEffects(Cleared(s, w), w, false, false, env, {}, {});
    }
  }

  lemma ReleasedSame(k: Worker)
    ensures Released(k).retiredAt == k.retiredAt && Released(k).job == k.job && Released(k).ready == k.ready
  {
  }

  // ---------------------------------------------------------------- closing

  ghost predicate AllLeft(before: map<WorkerId, Worker>, after: map<WorkerId, Worker>, ws: seq<WorkerId>, now: Seconds) {
    && after.Keys == before.Keys
    && forall w | w in before :: after[w] == if w in ws then Left(before[w], Dismissed(before[w]), now) else before[w]
  }

  lemma {:induction false} RetireAllEffects(s: Store, ws: seq<WorkerId>, env: Env)
    requires Valid(s, {}, {}) && Distinct(ws) && forall id | id in s.jobs :: !Unfinished(s, id)
    requires forall w | w in ws :: w in s.workers && s.workers[w].retiredAt.None?
    ensures forall id | id in s.order :: id in s.jobs
    ensures var t := RetireAll(s, ws, env); t.jobs == s.jobs && AllLeft(s.workers, t.workers, ws, env.now) && Uncounted(s, t)
    decreases |ws|
  {
    hide Valid, Calm, Retire, Narrower, SameDomain, Departed, Left, AllLeft, Distinct;
    Callable(s, {}, {});
    NobodyBusy(s);
    if ws == [] {
      NoneLeft(s.workers, env.now);
    } else {
      var w, t := ws[0], Retire(s, ws[0], true, false, env);
      TailDistinct(ws);
      RetireEffects(s, w, true, false, env, {}, {});
      RetireKeeps(s, w, true, false, env, {}, {});
      assert {} - {w} == {};
      DepartedIdle(s, t, w, Dismissed(s.workers[w]), false, env.now);
      DepartedCrew(s, t, w, Dismissed(s.workers[w]), false, env.now);
      RetireAllEffects(t, ws[1..], env);
      LeftMore(s.workers, t.workers, RetireAll(t, ws[1..], env).workers, ws, env.now);
    }
  }

  lemma DepartedCrew(s: Store, t: Store, w: WorkerId, how: Leaving, died: bool, now: Seconds)
    requires w in s.workers && Departed(s, t, w, how, died, now)
    ensures t.workers == s.workers[w := Left(s.workers[w], how, now)] && Uncounted(s, t)
  {
  }

  lemma NoneLeft(workers: map<WorkerId, Worker>, now: Seconds)
    ensures AllLeft(workers, workers, [], now)
  {
  }

  lemma LeftMore(a: map<WorkerId, Worker>, b: map<WorkerId, Worker>, c: map<WorkerId, Worker>, ws: seq<WorkerId>, now: Seconds)
    requires ws != [] && ws[0] in a && ws[0] !in ws[1..] && b == a[ws[0] := Left(a[ws[0]], Dismissed(a[ws[0]]), now)]
    requires AllLeft(b, c, ws[1..], now)
    ensures AllLeft(a, c, ws, now)
  {
    hide Left;
    assert ws == [ws[0]] + ws[1..];
  }

  /** How a child leaves when the service closes: terminated if it may be running a job, dismissed otherwise. */
  function Closing(k: Worker): Leaving {
    if k.retiredAt.Some? then Stays else if k.job.Some? then Terminated else Dismissed(k)
  }

  /** What closing makes of a job. */
  function Cut(j: Job): Change {
    if j.status.Terminal() then Same else Ends(Cancelled, None, None)
  }

  lemma CloseEffects(s: Store, env: Env)
    requires Valid(s, {}, {}) && s.stopping
    ensures Linked(s) && (forall id | id in s.order :: id in s.jobs) && forall w | w in s.pool :: w in s.workers
    ensures var t := Close(s, env);
            && t.jobs.Keys == s.jobs.Keys && (forall id | id in s.jobs :: t.jobs[id] == Changed(s.jobs[id], Cut(s.jobs[id]), env.now))
            && t.workers.Keys == s.workers.Keys
            && (forall w | w in s.workers :: t.workers[w] == Left(s.workers[w], Closing(s.workers[w]), env.now))
            && Uncounted(s, t)
  {
    hide Valid, Calm, AbortAll, RetireAll, Aborted, AllLeft, Narrower, SameDomain;
    Callable(s, {}, {});
    var v := s.(disk := s.disk.(open := false));
    ShutKeeps(s);
    OrderDistinct(v);
    var u := AbortAll(v, v.order, false, Cancelled, None, env);
    AbortAllKeeps(v, v.order, false, Cancelled, None, env);
    AbortAllEnds(v, v.order, false, Cancelled, None, env);
    AbortAllAborts(v, v.order, false, Cancelled, None, env);
    ShutUnfinished(s, v, u, env.now);
    PoolServing(u);
    RetireAllEffects(u, u.pool, env);
    JobServed(s);
    ClosedCrew(s, v, u, RetireAll(u, u.pool, env).workers, env.now);
  }

  lemma PoolServing(s: Store)
    requires Valid(s, {}, {})
    ensures Distinct(s.pool) && forall w | w in s.workers :: w in s.pool <==> s.workers[w].retiredAt.None?
    ensures forall w | w in s.pool :: w in s.workers
  {
  }

  lemma JobServed(s: Store)
    requires Valid(s, {}, {})
    ensures forall w | w in s.workers && s.workers[w].job.Some? :: Unfinished(s, s.workers[w].job.value) && s.workers[w].retiredAt.None?
  {
    hide Valid;
    Basics(s, {}, {});
  }

  lemma ShutUnfinished(s: Store, v: Store, u: Store, now: Seconds)
    requires v == s.(disk := v.disk) && (forall id :: id in v.order <==> id in v.jobs)
    requires Aborted(v, u, Hits(v, v.order, false, Ends(Cancelled, None, None)), now)
    ensures u.jobs.Keys == s.jobs.Keys && forall id | id in s.jobs :: u.jobs[id] == Changed(s.jobs[id], Cut(s.jobs[id]), now)
    ensures forall id | id in u.jobs :: !Unfinished(u, id)
    ensures Uncounted(s, u)
  {
  }

  lemma ClosedCrew(s: Store, v: Store, u: Store, after: map<WorkerId, Worker>, now: Seconds)
    requires v == s.(disk := v.disk) && (forall id :: id in v.order <==> id in v.jobs)
    requires forall w | w in s.workers && s.workers[w].job.Some? ::
               Unfinished(s, s.workers[w].job.value) && s.workers[w].retiredAt.None?
    requires Aborted(v, u, Hits(v, v.order, false, Ends(Cancelled, None, None)), now)
    requires forall w | w in u.workers :: w in u.pool <==> u.workers[w].retiredAt.None?
    requires AllLeft(u.workers, after, u.pool, now)
    ensures after.Keys == s.workers.Keys
    ensures forall w | w in s.workers :: after[w] == Left(s.workers[w], Closing(s.workers[w]), now)
  {
  }

  // ---------------------------------------------------------------- callers

  lemma ExpireParts(s: Store, env: Env)
    ensures var t := Expire(s, env);
            && (forall id :: id in t.jobs <==> id in s.jobs && !Stale(s.jobs[id], s.cfg.retention, env.now))
            && (forall id | id in t.jobs :: t.jobs[id] == s.jobs[id])
            && t.workers == s.workers && t.stats == s.stats && t.cfg == s.cfg
  {
  }

  lemma CancelEffects(s: Store, id: JobId, owner: Owner, env: Env)
    requires Valid(s, {}, {})
    ensures Linked(s) && forall i | i in s.order :: i in s.jobs
    ensures var t := Cancel(s, id, owner, env);
            var c := if Owned(s, id, owner) && Unfinished(s, id) then map[id := Ends(Cancelled, None, None)] else map[];
            && (forall i :: i in t.jobs <==> i in s.jobs && !Stale(s.jobs[i], s.cfg.retention, env.now))
            && (forall i | i in t.jobs :: t.jobs[i] == if i in c then Changed(s.jobs[i], c[i], env.now) else s.jobs[i])
            && EndedCrew(s.workers, t.workers, c, env.now) && Uncounted(s, t)
  {
    hide Valid, Expire, Abort, Changed, Narrower, SameDomain, Stale;
    Callable(s, {}, {});
    ExpireParts(s, env);
    ExpireKeeps(s, env);
    KeptFresh(s, id, env.now);
    var t := Expire(s, env);
    if Owned(t, id, owner) && Unfinished(t, id) {
      AbortAborts(t, id, Cancelled, None, env);
    }
  }

  lemma KeptFresh(s: Store, id: JobId, now: Seconds)
    requires Valid(s, {}, {})
    ensures Unfinished(s, id) ==> !Stale(s.jobs[id], s.cfg.retention, now)
  {
  }

  /** A submission that gets as far as the check of its key, when jobs past their retention have been let go of. */
  predicate Reaching(s: Store, req: Request) {
    req.owner in s.cfg.owners && 100 <= req.timeoutMs <= 300000 && !s.draining && !s.stopping
  }

  /** The job a submission gets. */
  function JobFor(req: Request, now: Seconds): Job {
    Job(task := req.task, owner := req.owner, key := req.key, timeoutMs := req.timeoutMs, status := Queued,
        result := None, code := None, progress := None, input := Some(req.payload),
        deadline := now + req.timeoutMs as real / 1000.0, submittedAt := now, startedAt := None, finished := None,
        retried := false)
  }

  /** A refusal for want of room, or of a way to record the job, counts as one for capacity. */
  predicate ForCapacity(a: Answer) {
    a.Refused? && a.why in {IsStopping, OwnerFull, ActiveFull, ResultsFull, NotWritten}
  }

  lemma AdmitParts(s: Store, req: Request, id: JobId, env: Env)
    ensures var t := Admit(s, req, id, env);
            && t.jobs == s.jobs[id := JobFor(req, env.now)] && t.workers == s.workers && t.stats.waits == s.stats.waits
            && t.stats.submitted == Bump(s.stats.submitted, (req.owner, req.task)) && t.stats.rejected == s.stats.rejected
  {
    hide Bump, Insert;
  }

  /** What a submission does, as far as the jobs and the children go, told from its answer. */
  ghost predicate Answered(s: Store, t: Store, req: Request, id: JobId, answer: Answer, now: Seconds) {
    && (forall i | i in s.jobs :: i in t.jobs <==> !(Reaching(s, req) && Stale(s.jobs[i], s.cfg.retention, now)))
    && (forall i | i in s.jobs && i in t.jobs :: t.jobs[i] == s.jobs[i])
    && (forall i | i in t.jobs && i !in s.jobs :: i == id)
    && (id in t.jobs <==> answer == Accepted(id)) && (answer.Accepted? ==> answer.id == id)
    && (id in t.jobs ==> t.jobs[id] == JobFor(req, now))
    && t.workers == s.workers
  }

  lemma AcceptEffects(s: Store, req: Request, id: JobId, pace: Option<Seconds>, env: Env)
    requires s.cfg.concurrency > 0 && id !in s.jobs && req.owner in s.cfg.owners && 100 <= req.timeoutMs <= 300000
    ensures var (t, answer) := Accept(s, req, id, pace, env);
            && Answered(s, t, req, id, answer, env.now) && t.stats.waits == s.stats.waits && t.stats.rejected == s.stats.rejected
            && t.stats.submitted == (if answer.Accepted? then Bump(s.stats.submitted, (req.owner, req.task)) else s.stats.submitted)
            && (ForCapacity(answer) <==> answer.Refused? && answer.why != IsDraining)
  {
    hide Expire, Limit, Bump, Stale, Admit, JobFor;
    var t := Expire(s, env);
    ExpireParts(s, env);
    LimitRefuses(t, req.owner, pace, env.now);
    AdmitParts(t, req, id, env);
  }

  lemma SubmitEffects(s: Store, req: Request, id: JobId, pace: Option<Seconds>, env: Env)
    requires s.cfg.concurrency > 0 && id !in s.jobs
    ensures var (t, answer) := Submit(s, req, id, pace, env);
            && Answered(s, t, req, id, answer, env.now) && t.stats.waits == s.stats.waits
            && t.stats.submitted == (if answer.Accepted? then Bump(s.stats.submitted, (req.owner, req.task)) else s.stats.submitted)
            && t.stats.rejected == (if ForCapacity(answer) then Bump(s.stats.rejected, req.owner) else s.stats.rejected)
  {
    hide Accept, Bump, JobFor, Stale;
    if req.owner in s.cfg.owners && 100 <= req.timeoutMs <= 300000 {
      AcceptEffects(s, req, id, pace, env);
    }
  }

  lemma LimitRefuses(s: Store, o: Owner, pace: Option<Seconds>, now: Seconds)
    requires s.cfg.concurrency > 0
    ensures Limit(s, o, pace, now).Some? ==> ForCapacity(Limit(s, o, pace, now).value)
  {
  }

  // ---------------------------------------------------------------- dispatch

  /** A child's record may have been given a job. */
  predicate Endowed(k: Worker, l: Worker) {
    l == k || (k.job.None? && k.ready && k.retiredAt.None? && l.job.Some?
               && l == k.(job := l.job, served := k.served + 1, sending := true))
  }

  ghost predicate Assigned(s: Store, t: Store) {
    && t.workers.Keys == s.workers.Keys && (forall w | w in s.workers :: Endowed(s.workers[w], t.workers[w])) && Uncounted(s, t)
  }

  lemma AssignedThen(s: Store, t: Store, u: Store)
    requires Assigned(s, t) && Assigned(t, u)
    ensures Assigned(s, u)
  {
    forall w | w in s.workers ensures Endowed(s.workers[w], u.workers[w]) {
      assert Endowed(s.workers[w], t.workers[w]) && Endowed(t.workers[w], u.workers[w]);
    }
  }

  lemma AssignedSame(s: Store)
    ensures Assigned(s, s)
  {
  }

  /** The pool's children are in service. */
  ghost predicate Serving(s: Store) {
    forall w | w in s.pool :: w in s.workers && s.workers[w].retiredAt.None?
  }

  lemma ChosenAssigns(s: Store, queues: seq<Queue>, w: WorkerId)
    requires Stocked(s, queues) && queues != [] && Free(s, w) && w in s.pool && Serving(s)
    ensures Assigned(s, Chosen(s, queues, w)) && Serving(Chosen(s, queues, w))
  {
    hide Stocked, Least, Owners;
    HeldLeast(s, queues);
  }

  lemma {:induction false} DispatchAssigns(s: Store, queues: seq<Queue>)
    requires Stocked(s, queues) && Serving(s)
    ensures Assigned(s, Dispatch(s, queues).0)
    decreases Waiters(queues)
  {
    hide Stocked, Dispatch, Pop, Least, Assigned, Chosen, Serving;
    AssignedSame(s);
    if queues == [] {
      DispatchNone(s);
    } else {
      DispatchOnce(s, queues);
      HeldLeast(s, queues);
      var free := FirstFree(s, s.pool);
      if free.Some? {
        var t, rest := Chosen(s, queues, free.value), Pop(queues, Least(s, queues));
        PopWaiters(queues, Least(s, queues));
        ChosenAssigns(s, queues, free.value);
        DispatchAssigns(t, rest);
        AssignedThen(s, t, Dispatch(t, rest).0);
      }
    }
  }

  /** What a tick does: the jobs due end and take their children along, and of the children left some get jobs. */
  lemma TickEffects(s: Store, env: Env)
    requires Valid(s, {}, {})
    ensures Linked(s) && forall id | id in s.order :: id in s.jobs
    ensures var u, t := Scan(s, s.order, env).0, Tick(s, env).0;
            Aborted(s, u, Dues(s, s.order, env.now), env.now) && Assigned(u, t) && t.jobs == u.jobs
  {
    hide Valid, Calm, Scan, Dispatch, Aborted, Assigned, Dues, Narrower;
    Callable(s, {}, {});
    OrderDistinct(s);
    ScanAborts(s, s.order, env);
    ScanKeeps(s, s.order, env);
    var (u, waiting) := Scan(s, s.order, env);
    QueuesReady(u, waiting);
    PoolServing(u);
    DispatchAssigns(u, Queues(u, waiting));
    DispatchJobs(u, Queues(u, waiting));
  }
}
