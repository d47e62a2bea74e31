/** How long the next start of a child is held back, along every step of the service. */
module Backoff {
  import opened Wrappers
  import opened JobTypes
  import opened StoreModel
  import opened Dispatching
  import opened Protocol

  /** A child leaves service before it was ready. */
  predicate Failing(s: Store, t: Store, w: WorkerId) {
    && w in s.workers && w in t.workers
    && !s.workers[w].ready && s.workers[w].retiredAt.None? && t.workers[w].retiredAt.Some?
  }

  /** Children that leave service join those that are watched until they have exited, and none of these is forgotten. */
  ghost predicate Watched(s: Store, t: Store) {
    && (forall w | w in s.retiring :: w in t.retiring)
    && forall w | w in s.workers && w in t.workers && s.workers[w].retiredAt.None? && t.workers[w].retiredAt.Some? ::
         w in t.retiring
  }

  /** The next start is held back for a whole backoff from now on when a child left service before it was ready, and only
      then. */
  ghost predicate Backs(s: Store, t: Store, now: Seconds) {
    && Watched(s, t) && (t.backoffUntil == s.backoffUntil || exists w :: Failing(s, t, w))
    && forall w | Failing(s, t, w) :: t.backoffUntil == now + BACKOFF
  }

  /** The same of a part of a step in which no child becomes ready. */
  ghost predicate Steady(s: Store, t: Store, now: Seconds) {
    && Backs(s, t, now) && t.workers.Keys == s.workers.Keys
    && forall w | w in s.workers ::
         t.workers[w].ready == s.workers[w].ready && (s.workers[w].retiredAt.Some? ==> t.workers[w].retiredAt.Some?)
  }

  lemma SteadyThen(s: Store, t: Store, u: Store, now: Seconds)
    requires Steady(s, t, now) && Steady(t, u, now)
    ensures Steady(s, u, now)
  {
    forall w ensures Failing(s, u, w) <==> Failing(s, t, w) || Failing(t, u, w) {
    }
  }

  lemma SteadySame(s: Store, t: Store, now: Seconds)
    requires t.backoffUntil == s.backoffUntil && t.workers == s.workers && t.retiring == s.retiring
    ensures Steady(s, t, now)
  {
  }

  lemma SteadyBacks(s: Store, t: Store, now: Seconds)
    requires Steady(s, t, now)
    ensures Backs(s, t, now)
  {
  }

  /** Children's records may change without anyone leaving service. */
  lemma BacksSame(s: Store, t: Store, now: Seconds)
    requires t.backoffUntil == s.backoffUntil && t.retiring == s.retiring
    requires forall w | w in s.workers && w in t.workers :: t.workers[w].retiredAt == s.workers[w].retiredAt
    ensures Backs(s, t, now)
  {
  }

  // ---------------------------------------------------------------- the store's operations

  lemma {:induction false} FailQueuedBacks(s: Store, ids: seq<JobId>, env: Env)
    requires forall id | id in ids :: id in s.jobs
    ensures var t := FailQueued(s, ids, env);
            t.backoffUntil == s.backoffUntil && t.workers == s.workers && t.retiring == s.retiring
    decreases |ids|
  {
    if ids != [] {
      var id := ids[0];
      FailQueuedBacks(if s.jobs[id].status.Queued? && id !in s.active
                      then Finish(s, id, Failed, None, Some(WorkerStartFailed), env) else s, ids[1..], env);
    }
  }

  lemma StartFailedBacks(s: Store, env: Env)
    requires forall id | id in s.order :: id in s.jobs
    ensures var t := StartFailed(s, env);
            t.backoffUntil == env.now + BACKOFF && t.workers == s.workers && t.retiring == s.retiring
  {
    hide FailQueued, SameDomain, Narrower;
    FailQueuedBacks(s.(backoffUntil := env.now + BACKOFF), s.order, env);
  }

  lemma HoldBackBacks(s: Store, ready: bool, died: bool, env: Env)
    requires forall id | id in s.order :: id in s.jobs
    ensures var t := HoldBack(s, ready, died, env);
            && t.workers == s.workers && t.retiring == s.retiring
            && t.backoffUntil == if ready then s.backoffUntil else env.now + BACKOFF
  {
    hide StartFailed, SameDomain, Narrower;
    StartFailedBacks(s, env);
  }

  lemma FinishStays(s: Store, id: JobId, status: Status, result: Option<Value>, code: Option<Code>, env: Env)
    requires id in s.jobs
    ensures var t := Finish(s, id, status, result, code, env);
            t.backoffUntil == s.backoffUntil && t.workers == s.workers && t.retiring == s.retiring
  {
  }

  lemma DischargeBacks(s: Store, job: Option<JobId>, env: Env)
    ensures var t := Discharge(s, job, env);
            t.backoffUntil == s.backoffUntil && t.workers == s.workers && t.retiring == s.retiring
  {
    hide Finish, SameDomain, Narrower;
    if job.Some? && Unfinished(s, job.value) {
      FinishStays(s, job.value, Failed, None, Some(WorkerCrashed), env);
    }
  }

  lemma DetachBacks(s: Store, w: WorkerId, stop: bool, env: Env)
    requires w in s.workers
    ensures var t := Detach(s, w, stop, env);
            && t.backoffUntil == s.backoffUntil && t.order == s.order && t.jobs == s.jobs
            && t.workers.Keys == s.workers.Keys && t.workers[w].retiredAt.Some? && t.retiring == s.retiring + [w]
            && forall v | v in s.workers :: t.workers[v].ready == s.workers[v].ready && (v != w ==> t.workers[v] == s.workers[v])
  {
  }

  lemma RetireBacks(s: Store, w: WorkerId, stop: bool, died: bool, env: Env)
    requires w in s.workers && forall id | id in s.order :: id in s.jobs
    ensures Steady(s, Retire(s, w, stop, died, env), env.now)
  {
    hide Detach, HoldBack, Discharge, SameDomain, Narrower;
    if s.workers[w].retiredAt.None? {
      var t := Detach(s, w, stop, env);
      DetachBacks(s, w, stop, env);
      HoldBackBacks(t, s.workers[w].ready, died, env);
      DischargeBacks(HoldBack(t, s.workers[w].ready, died, env), s.workers[w].job, env);
      assert Failing(s, Retire(s, w, stop, died, env), w) <==> !s.workers[w].ready;
    }
  }

  lemma UnassignBacks(s: Store, w: WorkerId, id: JobId, now: Seconds)
    requires w in s.workers
    ensures Steady(s, Unassign(s, w, id), now)
  {
  }

  lemma FinishBacks(s: Store, id: JobId, status: Status, result: Option<Value>, code: Option<Code>, env: Env)
    requires id in s.jobs
    ensures Steady(s, Finish(s, id, status, result, code, env), env.now)
  {
    hide Steady;
    SteadySame(s, Finish(s, id, status, result, code, env), env.now);
  }

  lemma AbortBacks(s: Store, id: JobId, status: Status, code: Option<Code>, env: Env)
    requires id in s.jobs && Linked(s) && forall i | i in s.order :: i in s.jobs
    ensures Steady(s, Abort(s, id, status, code, env), env.now)
  {
    hide Retire, Narrower, Steady, Finish, Unassign;
    if id in s.active {
      var w := s.active[id];
      var t := Unassign(s, w, id);
      var u := Retire(t, w, false, false, env);
      UnassignBacks(s, w, id, env.now);
      RetireBacks(t, w, false, false, env);
      SteadyThen(s, t, u, env.now);
      FinishBacks(u, id, status, None, code, env);
      SteadyThen(s, u, Finish(u, id, status, None, code, env), env.now);
    } else {
      FinishBacks(s, id, status, None, code, env);
    }
  }

  lemma ConcludedBacks(s: Store, w: WorkerId, id: JobId, value: Option<Value>, env: Env)
    requires w in s.workers && id in s.jobs
    ensures Steady(s, Concluded(s, w, id, value, env), env.now)
  {
    hide Steady, Finish, Unassign, Narrower;
    var t := Unassign(s, w, id);
    UnassignBacks(s, w, id, env.now);
    FinishBacks(t, id, Succeeded, value, None, env);
    FinishBacks(t, id, Failed, None, Some(TaskFailed), env);
    SteadyThen(s, t, Concluded(s, w, id, value, env), env.now);
  }

  lemma EndedBacks(s: Store, w: WorkerId, id: JobId, value: Option<Value>, env: Env)
    requires w in s.workers && id in s.jobs && forall i | i in s.order :: i in s.jobs
    ensures Steady(s, Ended(s, w, id, value, env), env.now)
  {
    hide Retire, Narrower, Steady, Concluded;
    var t := Concluded(s, w, id, value, env);
    ConcludedBacks(s, w, id, value, env);
    RetireBacks(t, w, true, false, env);
    SteadyThen(s, t, Retire(t, w, true, false, env), env.now);
  }

  /** A message may make a child ready, but then it retires none. */
  lemma DeliverBacks(s: Store, w: WorkerId, m: Message, env: Env)
    requires w in s.workers && forall i | i in s.order :: i in s.jobs
    ensures Backs(s, Deliver(s, w, m, env).0, env.now)
  {
    hide Ended, SameDomain, Narrower, Backs, Steady;
    if (m.Returned? || m.Raised?) && Heard(s, w, m.id) {
      var value := if m.Returned? then Some(m.value) else None;
      EndedBacks(s, w, m.id, value, env);
      SteadyBacks(s, Ended(s, w, m.id, value, env), env.now);
    } else {
      BacksSame(s, Deliver(s, w, m, env).0, env.now);
    }
  }

  lemma TakenBacks(s: Store, w: WorkerId, env: Env)
    requires w in s.workers && s.workers[w].inbox != [] && forall i | i in s.order :: i in s.jobs
    ensures Backs(s, Taken(s, w, env).0, env.now)
  {
    hide Deliver;
    DeliverBacks(Received(s, w), w, s.workers[w].inbox[0], env);
    ReceivedBacks(s, w, Taken(s, w, env).0, env.now);
  }

  lemma ReceivedBacks(s: Store, w: WorkerId, t: Store, now: Seconds)
    requires w in s.workers && s.workers[w].inbox != [] && Backs(Received(s, w), t, now)
    ensures Backs(s, t, now)
  {
    forall v ensures Failing(s, t, v) <==> Failing(Received(s, w), t, v) {
    }
  }

  lemma VisitBacks(s: Store, id: JobId, env: Env)
    requires Linked(s) && forall i | i in s.order :: i in s.jobs
    ensures var t := Visit(s, id, env).0;
            Steady(s, t, env.now) && Linked(t) && forall i | i in t.order :: i in t.jobs
  {
    hide Abort, Steady;
    SteadySame(s, s, env.now);
    if Unfinished(s, id) {
      AbortBacks(s, id, TimedOut, Some(DeadlineExceeded), env);
      AbortBacks(s, id, Failed, Some(ServiceRestarted), env);
    }
  }

  lemma {:induction false} ScanBacks(s: Store, ids: seq<JobId>, env: Env)
    requires Linked(s) && forall i | i in s.order :: i in s.jobs
    ensures Steady(s, Scan(s, ids, env).0, env.now)
    decreases |ids|
  {
    hide Visit, Linked, SameDomain, Narrower, Steady;
    if ids == [] {
      SteadySame(s, s, env.now);
    } else {
      var t := Visit(s, ids[0], env).0;
      VisitBacks(s, ids[0], env);
      ScanBacks(t, ids[1..], env);
      SteadyThen(s, t, Scan(t, ids[1..], env).0, env.now);
    }
  }

  lemma ChosenBacks(s: Store, queues: seq<Queue>, w: WorkerId, now: Seconds)
    requires queues != [] && w in s.workers && Stocked(s, queues)
    ensures Steady(s, Chosen(s, queues, w), now)
  {
    hide Stocked, Least, Owners;
    HeldLeast(s, queues);
  }

  lemma {:induction false} DispatchBacks(s: Store, queues: seq<Queue>, now: Seconds)
    requires Stocked(s, queues)
    ensures Steady(s, Dispatch(s, queues).0, now)
    decreases Waiters(queues)
  {
    hide Stocked, Dispatch, Pop, Least, Steady, Chosen;
    SteadySame(s, s, now);
    if queues == [] {
      DispatchNone(s);
    } else {
      DispatchOnce(s, queues);
      HeldLeast(s, queues);
      var free := FirstFree(s, s.pool);
      if free.Some? {
        var t, rest := Chosen(s, queues, free.value), Pop(queues, Least(s, queues));
        PopWaiters(queues, Least(s, queues));
        DispatchBacks(t, rest, now);
        ChosenBacks(s, queues, free.value, now);
        SteadyThen(s, t, Dispatch(t, rest).0, now);
      }
    }
  }

  lemma TickBacks(s: Store, env: Env)
    requires Linked(s) && forall i | i in s.order :: i in s.jobs
    ensures Steady(s, Tick(s, env).0, env.now)
  {
    hide Scan, Dispatch, Stocked, Narrower, Steady;
    ScanBacks(s, s.order, env);
    var (t, waiting) := Scan(s, s.order, env);
    QueuesReady(t, waiting);
    DispatchBacks(t, Queues(t, waiting), env.now);
    SteadyThen(s, t, Tick(s, env).0, env.now);
  }

  lemma AbortIfBacks(s: Store, id: JobId, queuedOnly: bool, status: Status, code: Option<Code>, env: Env)
    requires Linked(s) && forall i | i in s.order :: i in s.jobs
    ensures Steady(s, AbortIf(s, id, queuedOnly, status, code, env), env.now)
  {
    hide Abort, Steady;
    SteadySame(s, s, env.now);
    if Unfinished(s, id) {
      AbortBacks(s, id, status, code, env);
    }
  }

  lemma {:induction false} AbortAllBacks(s: Store, ids: seq<JobId>, queuedOnly: bool, status: Status, code: Option<Code>,
                                         env: Env)
    requires Linked(s) && forall i | i in s.order :: i in s.jobs
    ensures Steady(s, AbortAll(s, ids, queuedOnly, status, code, env), env.now)
    decreases |ids|
  {
    hide AbortIf, Steady;
    SteadySame(s, s, env.now);
    if ids != [] {
      var t := AbortIf(s, ids[0], queuedOnly, status, code, env);
      AbortIfBacks(s, ids[0], queuedOnly, status, code, env);
      AbortAllBacks(t, ids[1..], queuedOnly, status, code, env);
      SteadyThen(s, t, AbortAll(t, ids[1..], queuedOnly, status, code, env), env.now);
    }
  }

  lemma {:induction false} RetireAllBacks(s: Store, ws: seq<WorkerId>, env: Env)
    requires (forall w | w in ws :: w in s.workers) && forall i | i in s.order :: i in s.jobs
    ensures Steady(s, RetireAll(s, ws, env), env.now)
    decreases |ws|
  {
    hide Retire, Steady;
    if ws == [] {
      SteadySame(s, s, env.now);
    } else {
      var t := Retire(s, ws[0], true, false, env);
      RetireBacks(s, ws[0], true, false, env);
      RetireAllBacks(t, ws[1..], env);
      SteadyThen(s, t, RetireAll(t, ws[1..], env), env.now);
    }
  }

  lemma CloseBacks(s: Store, env: Env)
    requires Linked(s) && (forall i | i in s.order :: i in s.jobs) && forall w | w in s.pool :: w in s.workers
    ensures Steady(s, Close(s, env), env.now)
  {
    hide AbortAll, RetireAll, Steady;
    var t := s.(disk := s.disk.(open := false));
    SteadySame(s, t, env.now);
    AbortAllBacks(t, t.order, false, Cancelled, None, env);
    var u := AbortAll(t, t.order, false, Cancelled, None, env);
    SteadyThen(s, t, u, env.now);
    RetireAllBacks(u, u.pool, env);
    SteadyThen(s, u, RetireAll(u, u.pool, env), env.now);
  }

  lemma SentBacks(s: Store, w: WorkerId, failed: bool, env: Env)
    requires w in s.workers && forall id | id in s.order :: id in s.jobs
    ensures Steady(s, Sent(s, w, failed, env), env.now)
  {
    hide Retire, Steady, Cleared;
    var t := Cleared(s, w);
    ClearedBacks(s, w, env.now);
    RetireBacks(t, w, false, false, env);
    SteadyThen(s, t, Retire(t, w, false, false, env), env.now);
  }

  lemma ClearedBacks(s: Store, w: WorkerId, now: Seconds)
    requires w in s.workers
    ensures Steady(s, Cleared(s, w), now)
  {
  }

  lemma SubmitBacks(s: Store, req: Request, id: JobId, pace: Option<Seconds>, env: Env)
    requires s.cfg.concurrency > 0
    ensures var t := Submit(s, req, id, pace, env).0;
            t.backoffUntil == s.backoffUntil && t.workers == s.workers && t.retiring == s.retiring
  {
    hide Limit, Expire, Admit;
    ExpireBacks(s, env);
    AdmitBacks(Expire(s, env), req, id, env);
  }

  lemma ExpireBacks(s: Store, env: Env)
    ensures var t := Expire(s, env);
            t.backoffUntil == s.backoffUntil && t.workers == s.workers && t.retiring == s.retiring
  {
    hide Expired, Fresh;
  }

  lemma AdmitBacks(s: Store, req: Request, id: JobId, env: Env)
    ensures var t := Admit(s, req, id, env);
            t.backoffUntil == s.backoffUntil && t.workers == s.workers && t.retiring == s.retiring
  {
    hide Insert;
  }

  lemma CancelBacks(s: Store, id: JobId, owner: Owner, env: Env)
    requires Linked(s) && forall i | i in s.order :: i in s.jobs
    ensures Steady(s, Cancel(s, id, owner, env), env.now)
  {
    hide Abort, Steady;
    var t := Expire(s, env);
    SteadySame(s, t, env.now);
    if Owned(t, id, owner) && Unfinished(t, id) {
      ExpireLinked(s, env);
      AbortBacks(t, id, Cancelled, None, env);
      SteadyThen(s, t, Abort(t, id, Cancelled, None, env), env.now);
    }
  }

  lemma ExpireLinked(s: Store, env: Env)
    requires Linked(s) && forall i | i in s.order :: i in s.jobs
    ensures var t := Expire(s, env); Linked(t) && forall i | i in t.order :: i in t.jobs
  {
  }

  // ---------------------------------------------------------------- every step

  lemma ReadBacks(x: Sys, a: Action, env: Env, y: Sys)
    requires ReadStep(x, a, env, y)
    ensures Backs(x.store, y.store, env.now)
  {
    hide Retire, Taken, Tick, Backs, Steady;
    var s := x.store;
    if a.ReadOne? {
      TakenBacks(s, x.pc.w, env);
    } else if (a.ReadNone? || a.Judge?) && y.store != s {
      RetireBacks(s, x.pc.w, false, true, env);
      RetireBacks(s, x.pc.w, false, false, env);
      SteadyBacks(s, y.store, env.now);
    } else if a.EndTick? {
      TickBacks(s, env);
      SteadyBacks(s, y.store, env.now);
    } else {
      BacksSame(s, y.store, env.now);
    }
  }

  lemma OutsideBacks(x: Sys, a: Action, env: Env, y: Sys)
    requires OutsideStep(x, a, env, y)
    ensures if a.Launched? && !a.up then y.store.backoffUntil == env.now + BACKOFF && Watched(x.store, y.store)
            else if a.Reap? then Reaped(x.store, a.w, y.store)
            else Backs(x.store, y.store, env.now)
  {
    hide Sent, StartFailed, Narrower, Steady, Backs;
    if a.Confirm? {
      SentBacks(x.store, x.pc.w, x.pc.failed, env);
      SteadyBacks(x.store, y.store, env.now);
    } else if a.Launched? && !a.up {
      StartFailedBacks(x.store, env);
    } else if a.Reap? {
      ForgetReaps(x.store, a.w);
    } else {
      BacksSame(x.store, y.store, env.now);
    }
  }

  /** One child that has exited is watched no longer. */
  ghost predicate Reaped(s: Store, w: WorkerId, t: Store) {
    t.workers == s.workers && t.backoffUntil == s.backoffUntil && forall v | v in s.retiring && v != w :: v in t.retiring
  }

  lemma ForgetReaps(s: Store, w: WorkerId)
    ensures Reaped(s, w, Forget(s, w))
  {
    RemoveOther(s.retiring, w);
  }

  lemma {:induction false} RemoveOther<T(!new)>(xs: seq<T>, x: T)
    ensures forall y | y in xs && y != x :: y in Remove(xs, x)
  {
    if xs != [] {
      RemoveOther(xs[1..], x);
      assert xs == [xs[0]] + xs[1..];
    }
  }

  lemma ThreadBacks(x: Sys, a: Action, env: Env, y: Sys)
    requires ThreadStep(x, a, env, y)
    ensures Backs(x.store, y.store, env.now)
  {
    hide Retire, Taken, Submit, Cancel, AbortAll, Close, Narrower, Backs, Steady;
    var s := x.store;
    if a.DoSubmit? {
      SubmitBacks(s, a.req, a.id, a.pace, env);
      BacksSame(s, y.store, env.now);
    } else if a.CallReadOne? {
      TakenBacks(s, x.call.w, env);
    } else if a.DoCancel? || (a.CallReadNone? && y.store != s) || a.EndDrain? || a.DoClose? {
      if a.DoCancel? {
        CancelBacks(s, a.id, a.owner, env);
      } else if a.CallReadNone? {
        RetireBacks(s, x.call.w, false, true, env);
      } else if a.EndDrain? {
        AbortAllBacks(s, s.order, true, Failed, Some(ServiceRestarted), env);
      } else {
        CloseBacks(s, env);
      }
      SteadyBacks(s, y.store, env.now);
    } else {
      BacksSame(s, y.store, env.now);
    }
  }

  lemma ChildBacks(x: Sys, a: Action, y: Sys, now: Seconds)
    requires ChildStep(x, a, y)
    ensures Backs(x.store, y.store, now)
  {
    hide Backs;
    BacksSame(x.store, y.store, now);
  }

  /** When a child may be started next changes in a step exactly when a start fails in it: the system refuses the process,
      or a child leaves service before it was ready, because it exited, stayed silent, lost its pipe or was told to go. Then
      the next start is held back for a second from that step on. */
  lemma StepBacks(x: Sys, a: Action, env: Env, y: Sys)
    requires Step(x, a, env, y)
    ensures y.store.backoffUntil ==
            if (a.Launched? && !a.up) || exists w :: Failing(x.store, y.store, w) then env.now + 1.0
            else x.store.backoffUntil
    ensures if a.Reap? then Reaped(x.store, a.w, y.store) else Watched(x.store, y.store)
  {
    hide ChildStep, ReadStep, OutsideStep, ThreadStep, Watched;
    if ChildStep(x, a, y) {
      NoLaunch(x, a, env, y);
      ChildBacks(x, a, y, env.now);
    } else if ReadStep(x, a, env, y) {
      NoLaunch(x, a, env, y);
      ReadBacks(x, a, env, y);
    } else if OutsideStep(x, a, env, y) {
      OutsideBacks(x, a, env, y);
    } else {
      NoLaunch(x, a, env, y);
      ThreadBacks(x, a, env, y);
    }
  }

  lemma NoLaunch(x: Sys, a: Action, env: Env, y: Sys)
    requires ChildStep(x, a, y) || ReadStep(x, a, env, y) || ThreadStep(x, a, env, y)
    ensures !a.Launched? && !a.Reap?
  {
  }
}
