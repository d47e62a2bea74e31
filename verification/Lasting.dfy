/** What no step of the service takes back: a job's end, what was submitted, what was begun, and a drain. */
module Lasting {
  import opened Wrappers
  import opened JobTypes
  import opened StoreModel
  import opened StoreInvariant
  import opened StoreSteps
  import opened Dispatching
  import opened Protocol
  import opened ProtocolInvariant
  import opened ParentSteps
  import opened Service
  import opened CoordinatorSteps
  import opened PostSteps
  import opened ThreadSteps

  /** A job that has ended keeps its record until its retention is over, once gone an id does not come back, and what is
      submitted is held. */
  ghost predicate Lasts(s: Store, t: Store, now: Seconds) {
    && t.cfg == s.cfg && t.past.restored == s.past.restored
    && (s.draining ==> t.draining) && (s.stopping ==> t.stopping)
    && (forall id | id in s.past.issued :: id in t.past.issued && t.past.issued[id] == s.past.issued[id])
    && s.past.picks <= t.past.picks
    && (forall id | id in s.jobs && id in t.jobs && s.jobs[id].status.Terminal() :: t.jobs[id] == s.jobs[id])
    && (forall id | id in s.jobs && id in t.jobs :: t.jobs[id].deadline == s.jobs[id].deadline)
    && (forall id | id in s.jobs && id !in t.jobs :: Stale(s.jobs[id], s.cfg.retention, now))
    && (forall id | id in t.jobs && (id in s.past.issued || id in s.past.restored) :: id in s.jobs)
    && (forall id | id in t.past.issued && id !in s.past.issued :: id in t.jobs)
  }

  /** Once draining with nothing queued, nothing is accepted, queued or given to a child, and no job is unfinished that
      was not. */
  ghost predicate Settles(s: Store, t: Store) {
    s.draining && NoneQueued(s) ==>
      && NoneQueued(t) && t.past.issued == s.past.issued && t.past.attaches == s.past.attaches
      && OpenJobs(t.jobs) <= OpenJobs(s.jobs)
  }

  ghost predicate Holds(s: Store, t: Store, now: Seconds) {
    Lasts(s, t, now) && Settles(s, t)
  }

  lemma HoldsThen(s: Store, t: Store, u: Store, now: Seconds)
    requires Holds(s, t, now) && Holds(t, u, now)
    requires t.jobs.Keys <= u.jobs.Keys && forall id | id in u.jobs && id !in t.jobs :: id !in s.jobs
    ensures Holds(s, u, now)
  {
  }

  /** Steps that leave the jobs as they are. */
  lemma HoldsSame(s: Store, t: Store, now: Seconds)
    requires t.jobs == s.jobs && t.cfg == s.cfg && (s.draining ==> t.draining) && (s.stopping ==> t.stopping)
    requires t.past == s.past
    ensures Holds(s, t, now)
  {
  }

  lemma HoldsCalm(s: Store, t: Store, now: Seconds, freed: set<JobId>, won: set<JobId>)
    requires Calm(s, t, freed, won) && t.jobs.Keys == s.jobs.Keys
    ensures Holds(s, t, now)
  {
    forall id | id in OpenJobs(t.jobs) ensures id in OpenJobs(s.jobs) {
      assert Unfinished(t, id);
    }
  }

  lemma HoldsExpire(s: Store, env: Env)
    ensures Holds(s, Expire(s, env), env.now)
  {
  }

  lemma HoldsAdmit(s: Store, req: Request, id: JobId, env: Env)
    requires Unused(s, id) && !s.draining
    ensures Holds(s, Admit(s, req, id, env), env.now)
  {
  }

  lemma HoldsSubmit(s: Store, req: Request, id: JobId, pace: Option<Seconds>, env: Env)
    requires Valid(s, {}, {}) && Unused(s, id) && s.cfg.concurrency > 0
    ensures Holds(s, Submit(s, req, id, pace, env).0, env.now)
  {
    hide Valid, Holds, Expire, Admit, Limit, Unused;
    HoldsSame(s, s, env.now);
    HoldsExpire(s, env);
    ExpireFrame(s, id, env);
    var e := Expire(s, env);
    if !e.draining {
      HoldsAdmit(e, req, id, env);
      AdmitMore(s, e, req, id, env);
      HoldsThen(s, e, Admit(e, req, id, env), env.now);
    }
    var t := Accept(s, req, id, pace, env).0;
    assert Holds(s, t, env.now);
    var u := Submit(s, req, id, pace, env).0;
    HoldsStats(s, s, u, env.now);
    HoldsStats(s, t, u, env.now);
  }

  lemma AdmitMore(s: Store, e: Store, req: Request, id: JobId, env: Env)
    requires Unused(s, id)
    ensures var u := Admit(e, req, id, env);
            e.jobs.Keys <= u.jobs.Keys && forall i | i in u.jobs && i !in e.jobs :: i !in s.jobs
  {
  }

  lemma HoldsStats(s: Store, t: Store, u: Store, now: Seconds)
    requires Holds(s, t, now)
    ensures u == t.(stats := u.stats) ==> Holds(s, u, now)
  {
  }

  lemma HoldsCancel(s: Store, id: JobId, owner: Owner, env: Env)
    requires Linked(s) && (forall i | i in s.order :: i in s.jobs) && Valid(s, {}, {})
    ensures Holds(s, Cancel(s, id, owner, env), env.now)
  {
    hide Valid, Holds, Calm, Expire, Abort;
    var t := Expire(s, env);
    HoldsExpire(s, env);
    ExpireKeeps(s, env);
    Callable(t, {}, {});
    if Owned(t, id, owner) && Unfinished(t, id) {
      AbortKeeps(t, id, Cancelled, None, env);
      HoldsCalm(t, Abort(t, id, Cancelled, None, env), env.now, {}, {});
      HoldsThen(s, t, Abort(t, id, Cancelled, None, env), env.now);
    }
  }

  // ---------------------------------------------------------------- the tick

  lemma {:induction false} DispatchLasts(s: Store, queues: seq<Queue>, now: Seconds)
    requires Stocked(s, queues)
    ensures Lasts(s, Dispatch(s, queues).0, now)
    decreases Waiters(queues)
  {
    hide Chosen, Stocked, Pop, Least, Lasts;
    LastsSame(s, now);
    if queues != [] {
      DispatchOnce(s, queues);
      var free := FirstFree(s, s.pool);
      if free.Some? {
        HeldLeast(s, queues);
        PopWaiters(queues, Least(s, queues));
        var c := Chosen(s, queues, free.value);
        DispatchLasts(c, Pop(queues, Least(s, queues)), now);
        ChosenLasts(s, queues, free.value, now);
        DispatchJobs(c, Pop(queues, Least(s, queues)));
        LastsThen(s, c, Dispatch(c, Pop(queues, Least(s, queues))).0, now);
      }
    }
  }

  lemma LastsSame(s: Store, now: Seconds)
    ensures Lasts(s, s, now)
  {
  }

  lemma LastsThen(s: Store, t: Store, u: Store, now: Seconds)
    requires Lasts(s, t, now) && Lasts(t, u, now) && t.jobs.Keys == u.jobs.Keys
    ensures Lasts(s, u, now)
  {
  }

  lemma ChosenLasts(s: Store, queues: seq<Queue>, w: WorkerId, now: Seconds)
    requires Stocked(s, queues) && queues != [] && w in s.workers
    ensures Lasts(s, Chosen(s, queues, w), now)
  {
  }

  /** With nothing queued a tick hands out nothing. */
  lemma TickQuiet(s: Store, env: Env)
    requires Valid(s, {}, {}) && NoneQueued(s)
    ensures Tick(s, env) == (Scan(s, s.order, env).0, [])
  {
    hide Valid, Calm, Scan;
    Callable(s, {}, {});
    OrderDistinct(s);
    ScanKeeps(s, s.order, env);
    ScanWaiting(s, s.order, env);
    var (t, waiting) := Scan(s, s.order, env);
    CalmNoneQueued(s, t);
    forall id | id in waiting ensures Idle(t, id) {
      assert Judged(t, id, waiting, env.now);
    }
    NoneWaits(t, waiting);
    DispatchNone(t);
  }

  lemma NoneWaits(t: Store, waiting: seq<JobId>)
    requires NoneQueued(t) && forall id | id in waiting :: Idle(t, id)
    ensures waiting == []
  {
    HeadIn(waiting);
  }

  lemma HeadIn<T>(xs: seq<T>)
    ensures xs == [] || xs[0] in xs
  {
  }

  lemma CalmNoneQueued(s: Store, t: Store)
    requires Calm(s, t, {}, {}) && NoneQueued(s)
    ensures NoneQueued(t)
  {
  }

  lemma HoldsTick(s: Store, env: Env)
    requires Linked(s) && (forall i | i in s.order :: i in s.jobs) && Valid(s, {}, {})
    ensures Holds(s, Tick(s, env).0, env.now)
  {
    hide Valid, Calm, Scan, Dispatch, Lasts, NoneQueued;
    ScanKeeps(s, s.order, env);
    var (u, waiting) := Scan(s, s.order, env);
    HoldsCalm(s, u, env.now, {}, {});
    QueuesReady(u, waiting);
    DispatchLasts(u, Queues(u, waiting), env.now);
    DispatchJobs(u, Queues(u, waiting));
    LastsThen(s, u, Tick(s, env).0, env.now);
    if s.draining && NoneQueued(s) {
      TickQuiet(s, env);
    }
  }

  // ---------------------------------------------------------------- every step

  lemma ChildHolds(x: Sys, a: Action, y: Sys, now: Seconds)
    requires ChildStep(x, a, y)
    ensures Holds(x.store, y.store, now) && x.starts <= y.starts
  {
    hide Holds;
    HoldsSame(x.store, y.store, now);
  }

  lemma TakenHolds(s: Store, w: WorkerId, env: Env)
    requires w in s.workers && s.workers[w].inbox != [] && forall i | i in s.order :: i in s.jobs
    requires Valid(s, {}, {})
    ensures Holds(s, Taken(s, w, env).0, env.now)
  {
    hide Valid, Calm, Holds, Deliver;
    TakenCalm(s, w, env);
    HoldsSame(s, Received(s, w), env.now);
    HoldsCalm(Received(s, w), Taken(s, w, env).0, env.now, {}, Wins(s.workers[w].inbox[0]));
    HoldsThen(s, Received(s, w), Taken(s, w, env).0, env.now);
  }

  lemma RetireHolds(s: Store, w: WorkerId, stop: bool, died: bool, env: Env)
    requires w in s.workers && forall i | i in s.order :: i in s.jobs
    requires Valid(s, {}, {})
    ensures Holds(s, Retire(s, w, stop, died, env), env.now)
  {
    hide Valid, Calm, Holds, Retire;
    RetireKeeps(s, w, stop, died, env, {}, {});
    HoldsCalm(s, Retire(s, w, stop, died, env), env.now, JobOf(s, w), {});
  }

  lemma ReadHolds(x: Sys, a: Action, env: Env, y: Sys)
    requires Inv(x) && ReadStep(x, a, env, y)
    ensures Holds(x.store, y.store, env.now) && x.starts <= y.starts
  {
    hide Valid, Core, Pcs, Calm, Holds, Expire, Retire, Taken, Tick, SameDomain, Narrower;
    HoldsSame(x.store, x.store, env.now);
    if a.BeginTick? {
      HoldsExpire(x.store, env);
    } else if a.NextChild? {
    } else if a.ReadOne? {
      TakenHolds(x.store, x.pc.w, env);
    } else if a.ReadNone? {
      RetireHolds(x.store, x.pc.w, false, true, env);
    } else if a.Judge? {
      RetireHolds(x.store, x.pc.w, false, true, env);
      RetireHolds(x.store, x.pc.w, false, false, env);
    } else {
      HoldsTick(x.store, env);
    }
  }

  lemma ConfirmHolds(x: Sys, env: Env, y: Sys)
    requires Inv(x) && OutsideStep(x, Confirm, env, y)
    ensures Holds(x.store, y.store, env.now)
  {
    hide Valid, Core, Calm, Holds, Sent, Placed, Origins, Drained, Rereading, Claim;
    var s, w := x.store, x.pc.w;
    SentKeeps(s, w, x.pc.failed, env);
    HoldsSame(s, Cleared(s, w), env.now);
    HoldsCalm(Cleared(s, w), y.store, env.now, if x.pc.failed then JobOf(s, w) else {}, {});
    HoldsThen(s, Cleared(s, w), y.store, env.now);
  }

  lemma OutsideHolds(x: Sys, a: Action, env: Env, y: Sys)
    requires Inv(x) && OutsideStep(x, a, env, y)
    ensures Holds(x.store, y.store, env.now) && x.starts <= y.starts
  {
    hide Valid, Core, Pcs, Calm, Holds, Sent, StartFailed;
    if a.Confirm? {
      ConfirmHolds(x, env, y);
    } else if a.Launched? && !a.up {
      StartFailedKeeps(x.store, env, {});
      HoldsCalm(x.store, StartFailed(x.store, env), env.now, {}, {});
    } else {
      HoldsSame(x.store, y.store, env.now);
    }
  }

  lemma ThreadHolds(x: Sys, a: Action, env: Env, y: Sys)
    requires Inv(x) && ThreadStep(x, a, env, y)
    ensures Holds(x.store, y.store, env.now) && x.starts <= y.starts
  {
    hide Valid, Core, Pcs, Calm, Holds, Expire, Retire, Taken, Submit, Cancel, AbortAll, Close;
    if a.DoSubmit? {
      HoldsSubmit(x.store, a.req, a.id, a.pace, env);
    } else if a.DoGet? {
      HoldsExpire(x.store, env);
    } else if a.DoCancel? {
      HoldsCancel(x.store, a.id, a.owner, env);
    } else if a.CallReadOne? {
      TakenHolds(x.store, x.call.w, env);
    } else if a.CallReadNone? {
      HoldsSame(x.store, x.store, env.now);
      RetireHolds(x.store, x.call.w, false, true, env);
    } else if a.EndDrain? {
      AbortAllKeeps(x.store, x.store.order, true, Failed, Some(ServiceRestarted), env);
      HoldsCalm(x.store, y.store, env.now, {}, {});
    } else if a.DoClose? {
      CloseKeeps(x.store, env);
      CloseSame(x.store, env);
      HoldsCalm(x.store, y.store, env.now, {}, {});
    } else {
      HoldsSame(x.store, y.store, env.now);
    }
  }

  lemma CloseSame(s: Store, env: Env)
    requires Linked(s) && (forall i | i in s.order :: i in s.jobs) && forall w | w in s.pool :: w in s.workers
    ensures Close(s, env).jobs.Keys == s.jobs.Keys
  {
    hide AbortAll, RetireAll;
  }

  /** Whatever step is taken, nothing that lasts is lost. */
  lemma StepHolds(x: Sys, a: Action, env: Env, y: Sys)
    requires Inv(x) && Step(x, a, env, y)
    ensures Holds(x.store, y.store, env.now) && x.starts <= y.starts
  {
    hide Inv, ChildStep, ReadStep, OutsideStep, ThreadStep, Holds;
    if ChildStep(x, a, y) {
      ChildHolds(x, a, y, env.now);
    } else if ReadStep(x, a, env, y) {
      ReadHolds(x, a, env, y);
    } else if OutsideStep(x, a, env, y) {
      OutsideHolds(x, a, env, y);
    } else {
      ThreadHolds(x, a, env, y);
    }
  }

  // ---------------------------------------------------------------- children stay retired

  /** No child is forgotten, and a retired one stays so. */
  ghost predicate Retires(s: Store, t: Store) {
    forall w | w in s.workers :: w in t.workers && (s.workers[w].retiredAt.Some? ==> t.workers[w].retiredAt.Some?)
  }

  lemma RetiresThen(s: Store, t: Store, u: Store)
    requires Retires(s, t) && Retires(t, u)
    ensures Retires(s, u)
  {
  }

  lemma RetiresSame(s: Store, t: Store)
    requires t.workers == s.workers
    ensures Retires(s, t)
  {
  }

  /** One record changes, or joins, without coming back from retirement. */
  lemma RetiresOne(s: Store, t: Store, w: WorkerId)
    requires w in t.workers && t.workers == s.workers[w := t.workers[w]]
    requires w in s.workers && s.workers[w].retiredAt.Some? ==> t.workers[w].retiredAt.Some?
    ensures Retires(s, t)
  {
  }

  lemma RetiresCalm(s: Store, t: Store, freed: set<JobId>, won: set<JobId>)
    requires Calm(s, t, freed, won)
    ensures Retires(s, t)
  {
    forall w | w in s.workers ensures Untouched(s.workers[w], t.workers[w], won) {
    }
  }

  lemma {:induction false} DispatchRetires(s: Store, queues: seq<Queue>)
    requires Stocked(s, queues)
    ensures Retires(s, Dispatch(s, queues).0)
    decreases Waiters(queues)
  {
    hide Stocked, Dispatch, Pop, Least, Retires;
    RetiresSame(s, s);
    if queues == [] {
      DispatchNone(s);
    } else {
      DispatchOnce(s, queues);
      HeldLeast(s, queues);
      var free := FirstFree(s, s.pool);
      if free.Some? {
        var c := Chosen(s, queues, free.value);
        PopWaiters(queues, Least(s, queues));
        DispatchRetires(c, Pop(queues, Least(s, queues)));
        RetiresOne(s, c, free.value);
        RetiresThen(s, c, Dispatch(c, Pop(queues, Least(s, queues))).0);
      }
    }
  }

  lemma TickRetires(s: Store, env: Env)
    requires Linked(s) && (forall i | i in s.order :: i in s.jobs) && Valid(s, {}, {})
    ensures Retires(s, Tick(s, env).0)
  {
    hide Valid, Calm, Scan, Dispatch, Retires, Stocked;
    ScanKeeps(s, s.order, env);
    var (u, waiting) := Scan(s, s.order, env);
    RetiresCalm(s, u, {}, {});
    QueuesReady(u, waiting);
    DispatchRetires(u, Queues(u, waiting));
    RetiresThen(s, u, Tick(s, env).0);
  }

  lemma TakenRetires(s: Store, w: WorkerId, env: Env)
    requires w in s.workers && s.workers[w].inbox != [] && forall i | i in s.order :: i in s.jobs
    requires Valid(s, {}, {})
    ensures Retires(s, Taken(s, w, env).0)
  {
    hide Valid, Calm, Deliver, Retires;
    TakenCalm(s, w, env);
    RetiresOne(s, Received(s, w), w);
    RetiresCalm(Received(s, w), Taken(s, w, env).0, {}, Wins(s.workers[w].inbox[0]));
    RetiresThen(s, Received(s, w), Taken(s, w, env).0);
  }

  lemma RetireRetires(s: Store, w: WorkerId, stop: bool, died: bool, env: Env)
    requires w in s.workers && forall i | i in s.order :: i in s.jobs
    requires Valid(s, {}, {})
    ensures Retires(s, Retire(s, w, stop, died, env))
  {
    hide Valid, Calm, Retires, Retire;
    RetireKeeps(s, w, stop, died, env, {}, {});
    RetiresCalm(s, Retire(s, w, stop, died, env), JobOf(s, w), {});
  }

  lemma ChildRetires(x: Sys, a: Action, y: Sys)
    requires ChildStep(x, a, y)
    ensures Retires(x.store, y.store)
  {
    hide Retires;
    if a.Leave? || a.Die? {
      RetiresSame(x.store, y.store);
    } else {
      RetiresOne(x.store, y.store, a.w);
    }
  }

  lemma ReadRetires(x: Sys, a: Action, env: Env, y: Sys)
    requires Inv(x) && ReadStep(x, a, env, y)
    ensures Retires(x.store, y.store)
  {
    hide Valid, Core, Pcs, Calm, Retires, Retire, Taken, Tick;
    RetiresSame(x.store, x.store);
    if a.BeginTick? {
      RetiresSame(x.store, y.store);
    } else if a.NextChild? {
    } else if a.ReadOne? {
      TakenRetires(x.store, x.pc.w, env);
    } else if a.ReadNone? {
      RetireRetires(x.store, x.pc.w, false, true, env);
    } else if a.Judge? {
      RetireRetires(x.store, x.pc.w, false, true, env);
      RetireRetires(x.store, x.pc.w, false, false, env);
    } else {
      TickRetires(x.store, env);
    }
  }

  lemma ConfirmRetires(x: Sys, env: Env, y: Sys)
    requires Inv(x) && OutsideStep(x, Confirm, env, y)
    ensures Retires(x.store, y.store)
  {
    hide Valid, Core, Calm, Retires, Sent, Placed, Origins, Drained, Rereading, Claim;
    var s, w := x.store, x.pc.w;
    SentKeeps(s, w, x.pc.failed, env);
    RetiresOne(s, Cleared(s, w), w);
    RetiresCalm(Cleared(s, w), y.store, if x.pc.failed then JobOf(s, w) else {}, {});
    RetiresThen(s, Cleared(s, w), y.store);
  }

  lemma OutsideRetires(x: Sys, a: Action, env: Env, y: Sys)
    requires Inv(x) && OutsideStep(x, a, env, y)
    ensures Retires(x.store, y.store)
  {
    hide Valid, Core, Pcs, Calm, Retires, Sent, StartFailed;
    if a.Confirm? {
      ConfirmRetires(x, env, y);
    } else if a.Put? && a.delivered {
      RetiresOne(x.store, y.store, x.pc.sends[0].worker);
    } else if a.Launched? && !a.up {
      StartFailedKeeps(x.store, env, {});
      RetiresCalm(x.store, StartFailed(x.store, env), {}, {});
    } else if a.Launched? && !x.store.stopping {
      RetiresOne(x.store, y.store, a.w);
    } else if a.Kill? {
      RetiresOne(x.store, y.store, a.w);
    } else {
      RetiresSame(x.store, y.store);
    }
  }

  lemma SubmitRetires(s: Store, req: Request, id: JobId, pace: Option<Seconds>, env: Env)
    requires s.cfg.concurrency > 0
    ensures Retires(s, Submit(s, req, id, pace, env).0)
  {
    hide Retires, Limit;
    RetiresSame(s, Submit(s, req, id, pace, env).0);
  }

  lemma ThreadRetires(x: Sys, a: Action, env: Env, y: Sys)
    requires Inv(x) && ThreadStep(x, a, env, y)
    ensures Retires(x.store, y.store)
  {
    hide Valid, Core, Pcs, Calm, Retires, Retire, Taken, Submit, Cancel, AbortAll, Close;
    if a.DoSubmit? {
      SubmitRetires(x.store, a.req, a.id, a.pace, env);
    } else if a.DoCancel? {
      CancelKeeps(x.store, a.id, a.owner, env);
      RetiresCalm(x.store, y.store, {}, {});
    } else if a.CallReadOne? {
      TakenRetires(x.store, x.call.w, env);
    } else if a.CallReadNone? {
      RetiresSame(x.store, x.store);
      RetireRetires(x.store, x.call.w, false, true, env);
    } else if a.EndDrain? {
      AbortAllKeeps(x.store, x.store.order, true, Failed, Some(ServiceRestarted), env);
      RetiresCalm(x.store, y.store, {}, {});
    } else if a.DoClose? {
      CloseKeeps(x.store, env);
      RetiresCalm(x.store, y.store, {}, {});
    } else {
      RetiresSame(x.store, y.store);
    }
  }

  lemma StepRetires(x: Sys, a: Action, env: Env, y: Sys)
    requires Inv(x) && Step(x, a, env, y)
    ensures Retires(x.store, y.store)
  {
    hide Inv, ChildStep, ReadStep, OutsideStep, ThreadStep, Retires;
    if ChildStep(x, a, y) {
      ChildRetires(x, a, y);
    } else if ReadStep(x, a, env, y) {
      ReadRetires(x, a, env, y);
    } else if OutsideStep(x, a, env, y) {
      OutsideRetires(x, a, env, y);
    } else {
      ThreadRetires(x, a, env, y);
    }
  }
}
