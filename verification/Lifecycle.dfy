/** What every step of the service makes of every job and of every child, as tables that tell it without following the
    code. */
module Lifecycle {
  import opened Wrappers
  import Metrics
  import opened JobTypes
  import opened StoreModel
  import opened StoreInvariant
  import opened StoreSteps
  import opened Dispatching
  import opened Protocol
  import opened ProtocolInvariant
  import opened Service
  import opened Effects

  // ---------------------------------------------------------------- the tables

  /** The child whose oldest message a step reads. */
  function Reader(x: Sys, a: Action): Option<WorkerId> {
    if a.ReadOne? && x.pc.Reading? then Some(x.pc.w)
    else if a.CallReadOne? && x.call.CallReading? then Some(x.call.w)
    else None
  }

  predicate Reads(x: Sys, a: Action, w: WorkerId) {
    Reader(x, a) == Some(w) && w in x.store.workers && x.store.workers[w].inbox != []
  }

  /** The child that a step finds gone: its pipe ended, it exited, it said nothing for 30 seconds, or a send to it failed. */
  function Missing(x: Sys, a: Action, now: Seconds): Option<WorkerId> {
    match a
    case ReadNone => if x.pc.Reading? && Gone(x, x.pc.w) then Some(x.pc.w) else None
    case CallReadNone => if x.call.CallReading? && Gone(x, x.call.w) then Some(x.call.w) else None
    case Judge => if x.pc.Read? && (x.pc.again || Silent(x, x.pc.w, now)) then Some(x.pc.w) else None
    case Confirm => if x.pc.Confirming? && x.pc.failed then Some(x.pc.w) else None
    case _ => None
  }

  /** Not ready 30 seconds after it was started, though it may still be running. */
  predicate Silent(x: Sys, w: WorkerId, now: Seconds) {
    && w in x.store.workers && w in x.children && !x.store.workers[w].ready
    && (x.children[w].alive || x.store.workers[w].retiredAt.Some?) && now - x.store.workers[w].startedAt >= 30.0
  }

  /** A child that is gone by itself counts as one that died; one that is silent or cannot be sent to does not. */
  predicate Died(x: Sys, a: Action) {
    a.ReadNone? || a.CallReadNone? || (a.Judge? && x.pc.Read? && x.pc.again)
  }

  /** What a step makes of a job. */
  function JobChange(x: Sys, a: Action, now: Seconds, id: JobId): Change
    requires id in x.store.jobs
  {
    var s, j := x.store, x.store.jobs[id];
    if j.status.Terminal() then Same
    else if Reader(x, a).Some? then
      var w := Reader(x, a).value;
      if Reads(x, a, w) then Told(s.workers[w], s.workers[w].inbox[0], id) else Same
    else if Missing(x, a, now).Some? then
      var w := Missing(x, a, now).value;
      if w in s.workers then Lost(s, w, Died(x, a), id) else Same
    else
      match a
      case Launched(_, up) =>
        if !up && s.pool == [] && !s.draining && Idle(s, id) then Ends(Failed, None, Some(WorkerStartFailed)) else Same
      case EndTick => Due(s, id, now)
      case DoCancel(i, owner) => if i == id && j.owner == owner then Ends(Cancelled, None, None) else Same
      case EndDrain => if j.status.Queued? then Ends(Failed, None, Some(ServiceRestarted)) else Same
      case DoClose => Ends(Cancelled, None, None)
      case _ => Same
  }

  /** How a step makes a child leave service. */
  function ChildLeaves(x: Sys, a: Action, now: Seconds, w: WorkerId): Leaving
    requires w in x.store.workers
  {
    var s, k := x.store, x.store.workers[w];
    if k.retiredAt.Some? then Stays
    else if Reads(x, a, w) then
      if Concludes(k, k.inbox[0]) && k.served >= s.cfg.maxJobs then Dismissed(k) else Stays
    else if Missing(x, a, now) == Some(w) then Terminated
    else
      match a
      case EndTick => if k.job.Some? && Due(s, k.job.value, now).Ends? then Terminated else Stays
      case DoCancel(i, owner) => if k.job == Some(i) && Owned(s, i, owner) then Terminated else Stays
      case EndDrain => if k.job.Some? && Hit(s, k.job.value, true) then Terminated else Stays
      case DoClose => Closing(k)
      case _ => Stays
  }

  /** Steps that let go of the jobs whose retention is over. */
  predicate LetsGo(x: Sys, a: Action) {
    a.BeginTick? || a.DoGet? || a.DoCancel? || (a.DoSubmit? && Reaching(x.store, a.req))
  }

  predicate Over(j: Job, retention: Seconds, now: Seconds) {
    j.finished.Some? && now - j.finished.value >= retention
  }

  // ---------------------------------------------------------------- the jobs

  /** Every job is as the table says, and a new one is as it was submitted. */
  ghost predicate JobsAsTold(x: Sys, a: Action, now: Seconds, y: Sys) {
    && (forall id | id in x.store.jobs ::
          && (id in y.store.jobs <==> !(LetsGo(x, a) && Over(x.store.jobs[id], x.store.cfg.retention, now)))
          && (id in y.store.jobs ==> y.store.jobs[id] == Changed(x.store.jobs[id], JobChange(x, a, now, id), now)))
    && (forall id | id in y.store.jobs && id !in x.store.jobs ::
          a.DoSubmit? && a.id == id && y.store.jobs[id] == JobFor(a.req, now))
  }

  lemma SameJobs(x: Sys, a: Action, now: Seconds, y: Sys)
    requires y.store.jobs == x.store.jobs && !LetsGo(x, a)
    requires forall id | id in x.store.jobs :: JobChange(x, a, now, id).Same?
    ensures JobsAsTold(x, a, now, y)
  {
  }

  /** The jobs that the table lets end have ended, and the others are as they were. */
  lemma EndsAsTold(x: Sys, a: Action, now: Seconds, y: Sys, ends: map<JobId, Change>)
    requires EndedJobs(x.store.jobs, y.store.jobs, ends, now) && !LetsGo(x, a)
    requires forall id | id in x.store.jobs :: JobChange(x, a, now, id) == if id in ends then ends[id] else Same
    ensures JobsAsTold(x, a, now, y)
  {
    hide JobChange, LetsGo, Over;
  }

  /** The steps of children, which touch no job. */
  predicate ByChild(a: Action) {
    || a.Announce? || a.Load? || a.Receive? || a.Begin? || a.Report? || a.Reply? || a.Fault? || a.Leave? || a.Die?
  }

  lemma StepByChild(x: Sys, a: Action, y: Sys)
    requires ChildStep(x, a, y)
    ensures ByChild(a)
  {
    hide Enter, Posted;
  }

  lemma PostedStore(x: Sys, a: Action, y: Sys)
    requires ChildStep(x, a, y)
    ensures y.store == x.store.(workers := y.store.workers)
  {
    hide Enter;
    EnterKeeps();
  }

  lemma ChildQuiet(x: Sys, a: Action, y: Sys)
    requires ChildStep(x, a, y)
    ensures ByChild(a) && y.store.jobs == x.store.jobs && y.store.stats == x.store.stats
  {
    hide ChildStep;
    StepByChild(x, a, y);
    PostedStore(x, a, y);
  }

  lemma ChildJobs(x: Sys, a: Action, now: Seconds, y: Sys)
    requires ChildStep(x, a, y)
    ensures JobsAsTold(x, a, now, y)
  {
    hide ChildStep, JobsAsTold;
    ChildQuiet(x, a, y);
    SameJobs(x, a, now, y);
  }

  lemma ExpiredJobs(x: Sys, a: Action, env: Env, y: Sys)
    requires y.store == Expire(x.store, env) && (a.BeginTick? || a.DoGet?)
    ensures JobsAsTold(x, a, env.now, y)
  {
    hide Expire;
    ExpireParts(x.store, env);
  }

  lemma TakenJobs(x: Sys, a: Action, env: Env, y: Sys, w: WorkerId)
    requires Inv(x) && Reads(x, a, w) && forall id | id in x.store.order :: id in x.store.jobs
    requires y.store == Taken(x.store, w, env).0
    ensures JobsAsTold(x, a, env.now, y)
  {
    hide Core, Pcs, Valid, Taken, Told, Hearing, Waited;
    TakenEffects(x.store, w, env);
    JobsServed(x.store);
    ToldElse(x.store.workers[w], x.store.workers[w].inbox[0]);
  }

  lemma ToldElse(k: Worker, m: Message)
    ensures forall id | k.job != Some(id) :: Told(k, m, id).Same?
  {
  }

  lemma JobsServed(s: Store)
    requires Valid(s, {}, {})
    ensures forall w | w in s.workers && s.workers[w].job.Some? :: Unfinished(s, s.workers[w].job.value)
  {
    hide Valid;
    Basics(s, {}, {});
  }

  lemma MissingJobs(x: Sys, a: Action, env: Env, y: Sys, w: WorkerId)
    requires Missing(x, a, env.now) == Some(w) && w in x.store.workers
    requires LostJobs(x.store, y.store.jobs, w, Died(x, a), env.now)
    ensures JobsAsTold(x, a, env.now, y)
  {
    hide Died;
    LostEnded(x.store, w, Died(x, a));
  }

  lemma LostEnded(s: Store, w: WorkerId, died: bool)
    requires w in s.workers
    ensures forall id | id in s.jobs && s.jobs[id].status.Terminal() :: Lost(s, w, died, id).Same?
  {
  }

  lemma RetiredJobs(x: Sys, a: Action, env: Env, y: Sys, w: WorkerId)
    requires Inv(x) && Missing(x, a, env.now) == Some(w) && w in x.store.workers
    requires forall id | id in x.store.order :: id in x.store.jobs
    requires y.store == Retire(x.store, w, false, Died(x, a), env)
    ensures JobsAsTold(x, a, env.now, y)
  {
    hide Core, Pcs, Valid, Retire, LostJobs, Missing, Died, JobsAsTold;
    RetireGone(x.store, w, Died(x, a), env);
    MissingJobs(x, a, env, y, w);
  }

  lemma TickedJobs(x: Sys, env: Env, y: Sys)
    requires Inv(x) && Linked(x.store) && (forall id | id in x.store.order :: id in x.store.jobs)
    requires y.store == Tick(x.store, env).0
    ensures JobsAsTold(x, EndTick, env.now, y)
  {
    hide Core, Pcs, Valid, Tick, Scan, Assigned, EndedCrew, EndedJobs, Due, JobChange, Narrower, SameDomain;
    TickEffects(x.store, env);
    OrderDistinct(x.store);
    DueSome(x.store, env.now);
    forall id | id in x.store.jobs ensures JobChange(x, EndTick, env.now, id) == Due(x.store, id, env.now) {
      TickChange(x, env.now, id);
    }
    EndsAsTold(x, EndTick, env.now, y, Dues(x.store, x.store.order, env.now));
  }

  lemma TickChange(x: Sys, now: Seconds, id: JobId)
    requires id in x.store.jobs
    ensures JobChange(x, EndTick, now, id) == Due(x.store, id, now)
  {
  }

  lemma DueSome(s: Store, now: Seconds)
    ensures forall id :: Due(s, id, now).Same? || Due(s, id, now).Ends?
    ensures forall id | id in s.jobs && s.jobs[id].status.Terminal() :: Due(s, id, now).Same?
  {
  }

  lemma ReadJobs(x: Sys, a: Action, env: Env, y: Sys)
    requires Inv(x) && ReadStep(x, a, env, y)
    ensures JobsAsTold(x, a, env.now, y)
  {
    hide Inv, Expire, Taken, Retire, Tick, JobsAsTold, Linked;
    if a.BeginTick? {
      ExpiredJobs(x, a, env, y);
    } else if a.ReadOne? {
      TakenJobs(x, a, env, y, x.pc.w);
    } else if Missing(x, a, env.now).Some? {
      RetiredJobs(x, a, env, y, x.pc.w);
    } else if a.EndTick? {
      TickedJobs(x, env, y);
    } else {
      SameJobs(x, a, env.now, y);
    }
  }

  lemma SentJobs(x: Sys, env: Env, y: Sys)
    requires Inv(x) && OutsideStep(x, Confirm, env, y)
    ensures JobsAsTold(x, Confirm, env.now, y)
  {
    hide Core, Valid, Sent, LostJobs, Released, Left, Placed, Rereading, Drained, Origins, Claim, JobsAsTold;
    var w := x.pc.w;
    SentEffects(x.store, w, x.pc.failed, env);
    if !x.pc.failed {
      SameJobs(x, Confirm, env.now, y);
    } else if x.store.workers[w].retiredAt.None? {
      MissingJobs(x, Confirm, env, y, w);
    } else {
      NothingLost(x.store, w, false, env.now);
      MissingJobs(x, Confirm, env, y, w);
    }
  }

  lemma LaunchJobs(x: Sys, a: Action, env: Env, y: Sys)
    requires Inv(x) && a.Launched? && !a.up && (forall id | id in x.store.order :: id in x.store.jobs)
    requires y.store == StartFailed(x.store, env)
    ensures JobsAsTold(x, a, env.now, y)
  {
    hide Core, Pcs, Valid, StartFailed, FailQueued, Aborted, JobsAsTold;
    StartFailedIs(x.store, env);
    if x.store.pool == [] && !x.store.draining {
      var u := x.store.(backoffUntil := env.now + BACKOFF);
      BackoffKeeps(x.store, env.now + BACKOFF, {}, {});
      OrderIs(u, {});
      FailQueuedAborts(u, u.order, env, {});
      FailedAsTold(x, a, u, env.now, y);
    } else {
      SameJobs(x, a, env.now, y);
    }
  }

  lemma FailedAsTold(x: Sys, a: Action, u: Store, now: Seconds, y: Sys)
    requires a.Launched? && !a.up && x.store.pool == [] && !x.store.draining
    requires u.jobs == x.store.jobs && u.active == x.store.active && forall id :: id in u.order <==> id in u.jobs
    requires Aborted(u, y.store, Fails(u, u.order), now)
    ensures JobsAsTold(x, a, now, y)
  {
    hide Idle, EndedCrew, EndedJobs, JobChange;
    IdleIs(x.store, u);
    forall id | id in x.store.jobs
      ensures JobChange(x, a, now, id) == if Idle(x.store, id) then Ends(Failed, None, Some(WorkerStartFailed)) else Same
    {
      LaunchChange(x, a, now, id);
    }
    EndsAsTold(x, a, now, y, Fails(u, u.order));
  }

  lemma LaunchChange(x: Sys, a: Action, now: Seconds, id: JobId)
    requires a.Launched? && !a.up && x.store.pool == [] && !x.store.draining && id in x.store.jobs
    ensures JobChange(x, a, now, id) == if Idle(x.store, id) then Ends(Failed, None, Some(WorkerStartFailed)) else Same
  {
  }

  lemma IdleIs(s: Store, u: Store)
    requires u.jobs == s.jobs && u.active == s.active
    ensures forall id :: Idle(u, id) <==> Idle(s, id)
    ensures forall id | Idle(s, id) :: !s.jobs[id].status.Terminal()
  {
  }

  lemma OutsideJobs(x: Sys, a: Action, env: Env, y: Sys)
    requires Inv(x) && OutsideStep(x, a, env, y)
    ensures JobsAsTold(x, a, env.now, y)
  {
    hide Inv, Sent, StartFailed, JobsAsTold;
    if a.Confirm? {
      SentJobs(x, env, y);
    } else if a.Launched? && !a.up {
      LaunchJobs(x, a, env, y);
    } else {
      SameJobs(x, a, env.now, y);
    }
  }

  lemma SubmittedJobs(x: Sys, a: Action, env: Env, y: Sys)
    requires ThreadStep(x, a, env, y) && a.DoSubmit?
    ensures JobsAsTold(x, a, env.now, y)
  {
    hide Submit, JobFor, Reaching;
    SubmitEffects(x.store, a.req, a.id, a.pace, env);
  }

  lemma CancelledJobs(x: Sys, a: Action, env: Env, y: Sys)
    requires Inv(x) && ThreadStep(x, a, env, y) && a.DoCancel?
    ensures JobsAsTold(x, a, env.now, y)
  {
    hide Core, Pcs, Valid, Cancel, EndedCrew;
    CancelEffects(x.store, a.id, a.owner, env);
  }

  lemma DrainedJobs(x: Sys, env: Env, y: Sys)
    requires Inv(x) && ThreadStep(x, EndDrain, env, y)
    ensures JobsAsTold(x, EndDrain, env.now, y)
  {
    hide Core, Pcs, Valid, AbortAll, EndedCrew, EndedJobs, Hits, JobsAsTold;
    OrderDistinct(x.store);
    AbortAllAborts(x.store, x.store.order, true, Failed, Some(ServiceRestarted), env);
    DrainedAsTold(x, env.now, y);
  }

  lemma DrainedAsTold(x: Sys, now: Seconds, y: Sys)
    requires forall id :: id in x.store.order <==> id in x.store.jobs
    requires EndedJobs(x.store.jobs, y.store.jobs, Hits(x.store, x.store.order, true, Ends(Failed, None, Some(ServiceRestarted))), now)
    ensures JobsAsTold(x, EndDrain, now, y)
  {
    hide EndedJobs, JobChange, Hit;
    forall id | id in x.store.jobs
      ensures JobChange(x, EndDrain, now, id) == if Hit(x.store, id, true) then Ends(Failed, None, Some(ServiceRestarted)) else Same
    {
      DrainChange(x, now, id);
    }
    EndsAsTold(x, EndDrain, now, y, Hits(x.store, x.store.order, true, Ends(Failed, None, Some(ServiceRestarted))));
  }

  lemma DrainChange(x: Sys, now: Seconds, id: JobId)
    requires id in x.store.jobs
    ensures JobChange(x, EndDrain, now, id) == if Hit(x.store, id, true) then Ends(Failed, None, Some(ServiceRestarted)) else Same
  {
  }

  lemma ClosedJobs(x: Sys, env: Env, y: Sys)
    requires Inv(x) && ThreadStep(x, DoClose, env, y)
    ensures JobsAsTold(x, DoClose, env.now, y)
  {
    hide Core, Pcs, Valid, Close, Left;
    CloseEffects(x.store, env);
  }

  lemma ThreadJobs(x: Sys, a: Action, env: Env, y: Sys)
    requires Inv(x) && ThreadStep(x, a, env, y)
    ensures JobsAsTold(x, a, env.now, y)
  {
    hide Inv, Expire, Taken, Retire, Submit, Cancel, AbortAll, Close, JobsAsTold, Linked;
    if a.DoSubmit? {
      SubmittedJobs(x, a, env, y);
    } else if a.DoGet? {
      ExpiredJobs(x, a, env, y);
    } else if a.DoCancel? {
      CancelledJobs(x, a, env, y);
    } else if a.CallReadOne? {
      TakenJobs(x, a, env, y, x.call.w);
    } else if Missing(x, a, env.now).Some? {
      RetiredJobs(x, a, env, y, x.call.w);
    } else if a.EndDrain? {
      DrainedJobs(x, env, y);
    } else if a.DoClose? {
      ClosedJobs(x, env, y);
    } else {
      SameJobs(x, a, env.now, y);
    }
  }

  /** What a step makes of every job is what the table says. */
  lemma StepJobs(x: Sys, a: Action, env: Env, y: Sys)
    requires Inv(x) && Step(x, a, env, y)
    ensures JobsAsTold(x, a, env.now, y)
  {
    hide Inv, ChildStep, ReadStep, OutsideStep, ThreadStep, JobsAsTold;
    if ChildStep(x, a, y) {
      ChildJobs(x, a, env.now, y);
    } else if ReadStep(x, a, env, y) {
      ReadJobs(x, a, env, y);
    } else if OutsideStep(x, a, env, y) {
      OutsideJobs(x, a, env, y);
    } else {
      ThreadJobs(x, a, env, y);
    }
  }

  // ---------------------------------------------------------------- the children

  /** A child's record is as the table says: when and how it leaves service, what it has said of itself, the job it has and
      how many it was given. */
  ghost predicate ChildAsTold(x: Sys, a: Action, now: Seconds, w: WorkerId, l: Worker)
    requires w in x.store.workers
  {
    var k, how, heard := x.store.workers[w], ChildLeaves(x, a, now, w), Reads(x, a, w);
    && l.startedAt == k.startedAt && l.retiredAt == (if how.Stays? then k.retiredAt else Some(now))
    && (l.terminated <==> k.terminated || how.Terminated?)
    && (how.Asked? ==> l.outbox == k.outbox + [Stop]) && (how.Terminated? ==> l.outbox == k.outbox)
    && (l.ready <==> k.ready || (heard && k.inbox[0].Ready?))
    && (l.loaded <==> k.loaded || (heard && k.inbox[0].Loaded?))
    && (l.killed <==> k.killed || a == Kill(w))
    && (a == Kill(w) ==> k.retiredAt.Some? && now - k.retiredAt.value >= 0.2)
    && (k.job.Some? ==> l.job == if !how.Stays? || (heard && Concludes(k, k.inbox[0])) then None else k.job)
    && (k.job.None? && l.job.Some? ==> a.EndTick? && k.ready && k.retiredAt.None?)
    && l.served == k.served + if k.job.None? && l.job.Some? then 1 else 0
  }

  ghost predicate CrewAsTold(x: Sys, a: Action, now: Seconds, y: Sys) {
    && (forall w | w in x.store.workers :: w in y.store.workers && ChildAsTold(x, a, now, w, y.store.workers[w]))
    && (forall w | w in y.store.workers && w !in x.store.workers ::
          a == Launched(w, true) && y.store.workers[w] == Worker(now, false, false, None, false, 0, None, false, false, [], [], 0))
  }

  /** The counters are as the table says: a job that starts is timed from its submission, a submission that is accepted is
      counted, and so is one that is refused for capacity. */
  ghost predicate CountsAsTold(x: Sys, a: Action, env: Env, y: Sys) {
    var s, t := x.store.stats, y.store.stats;
    && t.waits == (if Reader(x, a).Some? && Reads(x, a, Reader(x, a).value)
                   then var k := x.store.workers[Reader(x, a).value]; Waited(x.store, k, k.inbox[0], env.now)
                   else s.waits)
    && t.submitted == (if a.DoSubmit? && a.id in y.store.jobs then Bump(s.submitted, (a.req.owner, a.req.task)) else s.submitted)
    && t.rejected == (if a.DoSubmit? && x.store.cfg.concurrency > 0
                         && ForCapacity(Submit(x.store, a.req, a.id, a.pace, env).1)
                      then Bump(s.rejected, a.req.owner) else s.rejected)
  }

  ghost predicate AsTold(x: Sys, a: Action, env: Env, y: Sys) {
    CrewAsTold(x, a, env.now, y) && CountsAsTold(x, a, env, y)
  }

  lemma SameChild(x: Sys, a: Action, now: Seconds, w: WorkerId, l: Worker)
    requires w in x.store.workers && ChildLeaves(x, a, now, w).Stays? && !Reads(x, a, w) && a != Kill(w)
    requires var k := x.store.workers[w];
             l == k.(inbox := l.inbox, outbox := l.outbox, sending := l.sending, closes := l.closes)
    ensures ChildAsTold(x, a, now, w, l)
  {
    hide ChildLeaves;
  }

  lemma Uncounting(x: Sys, a: Action, env: Env, y: Sys)
    requires Uncounted(x.store, y.store) && !a.DoSubmit? && Reader(x, a).None?
    ensures CountsAsTold(x, a, env, y)
  {
  }

  lemma ChildCrew(x: Sys, a: Action, env: Env, y: Sys)
    requires ChildStep(x, a, y)
    ensures AsTold(x, a, env, y)
  {
    hide ChildStep, ChildAsTold, CountsAsTold, ChildLeaves, Reads;
    ChildQuiet(x, a, y);
    Uncounting(x, a, env, y);
    ChildRecords(x, a, y);
    forall w | w in x.store.workers ensures ChildAsTold(x, a, env.now, w, y.store.workers[w]) {
      ChildStays(x, a, env.now, w);
      SameChild(x, a, env.now, w, y.store.workers[w]);
    }
  }

  lemma ChildStays(x: Sys, a: Action, now: Seconds, w: WorkerId)
    requires ByChild(a) && w in x.store.workers
    ensures ChildLeaves(x, a, now, w).Stays? && !Reads(x, a, w) && a != Kill(w)
  {
  }

  lemma ChildRecord(x: Sys, a: Action, y: Sys)
    requires ChildStep(x, a, y)
    ensures a.Leave? || a.Die? ==> y.store.workers == x.store.workers
    ensures !(a.Leave? || a.Die?) ==>
              && ByChild(a) && a.w in x.store.workers && a.w in y.store.workers
              && y.store.workers == x.store.workers[a.w := y.store.workers[a.w]]
              && var k, l := x.store.workers[a.w], y.store.workers[a.w]; l == k.(inbox := l.inbox, outbox := l.outbox)
  {
    hide Enter;
    EnterKeeps();
  }

  lemma EnterKeeps()
    ensures forall x: Sys, w: WorkerId, phase: Phase | w in x.children :: Enter(x, w, phase).store == x.store
  {
  }

  lemma ChildRecords(x: Sys, a: Action, y: Sys)
    requires ChildStep(x, a, y)
    ensures y.store.workers.Keys == x.store.workers.Keys
    ensures forall w | w in x.store.workers ::
              var k, l := x.store.workers[w], y.store.workers[w]; l == k.(inbox := l.inbox, outbox := l.outbox)
  {
    hide ChildStep;
    ChildRecord(x, a, y);
  }

  /** Steps that leave every child's record as it is. */
  lemma SameCrew(x: Sys, a: Action, env: Env, y: Sys)
    requires y.store.workers == x.store.workers && Uncounted(x.store, y.store) && !a.DoSubmit? && Reader(x, a).None? && !a.Kill?
    requires forall w | w in x.store.workers :: ChildLeaves(x, a, env.now, w).Stays?
    ensures AsTold(x, a, env, y)
  {
    hide ChildLeaves, ChildAsTold, CountsAsTold;
    Uncounting(x, a, env, y);
    forall w | w in x.store.workers ensures ChildAsTold(x, a, env.now, w, y.store.workers[w]) {
      SameChild(x, a, env.now, w, y.store.workers[w]);
    }
  }

  lemma TakenCrew(x: Sys, a: Action, env: Env, y: Sys, w: WorkerId)
    requires Inv(x) && Reads(x, a, w) && forall id | id in x.store.order :: id in x.store.jobs
    requires y.store == Taken(x.store, w, env).0
    ensures AsTold(x, a, env, y)
  {
    hide Core, Pcs, Valid, Taken, ToldJobs, ChildAsTold, Hearing, Waited;
    TakenEffects(x.store, w, env);
    JobsServed(x.store);
    JobsRetired(x.store);
    HearingChild(x, a, env.now, w);
    forall v | v in x.store.workers && v != w ensures ChildAsTold(x, a, env.now, v, y.store.workers[v]) {
      SameChild(x, a, env.now, v, y.store.workers[v]);
    }
  }

  lemma JobsRetired(s: Store)
    requires Valid(s, {}, {})
    ensures forall w | w in s.workers && s.workers[w].job.Some? :: s.workers[w].retiredAt.None?
  {
    hide Valid;
    Basics(s, {}, {});
  }

  lemma HearingChild(x: Sys, a: Action, now: Seconds, w: WorkerId)
    requires Reads(x, a, w) && (x.store.workers[w].job.Some? ==> x.store.workers[w].retiredAt.None?)
    ensures var k := x.store.workers[w];
            ChildAsTold(x, a, now, w, Hearing(k.(inbox := k.inbox[1..]), k.inbox[0], x.store.cfg.maxJobs, now))
  {
    hide ChildLeaves;
    ReadingLeaves(x, a, now, w);
  }

  lemma ReadingLeaves(x: Sys, a: Action, now: Seconds, w: WorkerId)
    requires Reads(x, a, w) && (x.store.workers[w].job.Some? ==> x.store.workers[w].retiredAt.None?)
    ensures var k := x.store.workers[w];
            ChildLeaves(x, a, now, w) == if Concludes(k, k.inbox[0]) && k.served >= x.store.cfg.maxJobs then Dismissed(k) else Stays
  {
  }

  /** One child is terminated, and no other changes. */
  lemma MissingCrew(x: Sys, a: Action, env: Env, y: Sys, w: WorkerId)
    requires Missing(x, a, env.now) == Some(w) && w in x.store.workers && Uncounted(x.store, y.store)
    requires w in y.store.workers && y.store.workers == x.store.workers[w := y.store.workers[w]]
    requires var k, l := x.store.workers[w], y.store.workers[w];
             l == if k.retiredAt.Some? then k.(sending := l.sending, closes := l.closes)
                  else Left(k, Terminated, env.now).(sending := l.sending, closes := l.closes)
    ensures AsTold(x, a, env, y)
  {
    hide ChildAsTold, CountsAsTold, Missing, Left;
    MissingAction(x, a, env.now);
    Uncounting(x, a, env, y);
    TerminatedChild(x, a, env.now, w, y.store.workers[w]);
    forall v | v in x.store.workers && v != w ensures ChildAsTold(x, a, env.now, v, y.store.workers[v]) {
      OtherStays(x, a, env.now, v);
      SameChild(x, a, env.now, v, y.store.workers[v]);
    }
  }

  lemma MissingAction(x: Sys, a: Action, now: Seconds)
    requires Missing(x, a, now).Some?
    ensures a.ReadNone? || a.CallReadNone? || a.Judge? || a.Confirm?
  {
  }

  lemma OtherStays(x: Sys, a: Action, now: Seconds, v: WorkerId)
    requires Missing(x, a, now).Some? && Missing(x, a, now) != Some(v) && v in x.store.workers
    ensures ChildLeaves(x, a, now, v).Stays?
  {
  }

  lemma TerminatedChild(x: Sys, a: Action, now: Seconds, w: WorkerId, l: Worker)
    requires Missing(x, a, now) == Some(w) && w in x.store.workers
    requires var k := x.store.workers[w];
             l == if k.retiredAt.Some? then k.(sending := l.sending, closes := l.closes)
                  else Left(k, Terminated, now).(sending := l.sending, closes := l.closes)
    ensures ChildAsTold(x, a, now, w, l)
  {
    MissingAction(x, a, now);
  }

  lemma RetiredCrew(x: Sys, a: Action, env: Env, y: Sys, w: WorkerId)
    requires Inv(x) && Missing(x, a, env.now) == Some(w) && w in x.store.workers
    requires forall id | id in x.store.order :: id in x.store.jobs
    requires y.store == Retire(x.store, w, false, Died(x, a), env)
    ensures AsTold(x, a, env, y)
  {
    hide Core, Pcs, Valid, Retire, LostJobs, Missing, Died, AsTold;
    RetireGone(x.store, w, Died(x, a), env);
    MissingCrew(x, a, env, y, w);
  }

  lemma TickedCrew(x: Sys, env: Env, y: Sys)
    requires Inv(x) && Linked(x.store) && (forall id | id in x.store.order :: id in x.store.jobs)
    requires y.store == Tick(x.store, env).0
    ensures AsTold(x, EndTick, env, y)
  {
    hide Core, Pcs, Valid, Tick, Scan, EndedJobs, Due, Narrower, SameDomain, ChildAsTold, Left, CountsAsTold;
    TickEffects(x.store, env);
    OrderDistinct(x.store);
    JobsServed(x.store);
    JobsRetired(x.store);
    var u := Scan(x.store, x.store.order, env).0;
    UncountedThen(x.store, u, y.store);
    Uncounting(x, EndTick, env, y);
    forall w | w in x.store.workers ensures ChildAsTold(x, EndTick, env.now, w, y.store.workers[w]) {
      var k := x.store.workers[w];
      var due := k.job.Some? && Due(x.store, k.job.value, env.now).Ends?;
      assert u.workers[w] == if due then Left(k, Terminated, env.now) else k;
      assert Endowed(u.workers[w], y.store.workers[w]);
      TickedChild(x, env.now, w, u.workers[w], y.store.workers[w]);
    }
  }

  lemma UncountedThen(s: Store, t: Store, u: Store)
    requires Uncounted(s, t) && Uncounted(t, u)
    ensures Uncounted(s, u)
  {
  }

  lemma TickedChild(x: Sys, now: Seconds, w: WorkerId, l: Worker, m: Worker)
    requires w in x.store.workers && (x.store.workers[w].job.Some? ==> x.store.workers[w].retiredAt.None?)
    requires var k := x.store.workers[w];
             l == if k.job.Some? && Due(x.store, k.job.value, now).Ends? then Left(k, Terminated, now) else k
    requires Endowed(l, m)
    ensures ChildAsTold(x, EndTick, now, w, m)
  {
    hide Due;
  }

  lemma ReadCrew(x: Sys, a: Action, env: Env, y: Sys)
    requires Inv(x) && ReadStep(x, a, env, y)
    ensures AsTold(x, a, env, y)
  {
    hide Inv, Expire, Taken, Retire, Tick, AsTold, Linked;
    if a.BeginTick? {
      ExpireParts(x.store, env);
      SameCrew(x, a, env, y);
    } else if a.ReadOne? {
      TakenCrew(x, a, env, y, x.pc.w);
    } else if Missing(x, a, env.now).Some? {
      RetiredCrew(x, a, env, y, x.pc.w);
    } else if a.EndTick? {
      TickedCrew(x, env, y);
    } else {
      SameCrew(x, a, env, y);
    }
  }

  lemma SentCrew(x: Sys, env: Env, y: Sys)
    requires Inv(x) && OutsideStep(x, Confirm, env, y)
    ensures AsTold(x, Confirm, env, y)
  {
    hide Core, Valid, Sent, LostJobs, Placed, Rereading, Drained, Origins, Claim, AsTold;
    var w := x.pc.w;
    SentEffects(x.store, w, x.pc.failed, env);
    if x.pc.failed {
      MissingCrew(x, Confirm, env, y, w);
    } else {
      OnePipe(x, Confirm, env, y, w);
    }
  }

  /** Nothing but one child's pipe changes. */
  lemma OnePipe(x: Sys, a: Action, env: Env, y: Sys, w: WorkerId)
    requires w in x.store.workers && w in y.store.workers && Uncounted(x.store, y.store)
    requires y.store.workers == x.store.workers[w := y.store.workers[w]]
    requires var k, l := x.store.workers[w], y.store.workers[w]; l == k.(outbox := l.outbox, sending := l.sending, closes := l.closes)
    requires a.Put? || (a.Confirm? && Missing(x, a, env.now).None?)
    ensures AsTold(x, a, env, y)
  {
    hide ChildAsTold, CountsAsTold;
    Uncounting(x, a, env, y);
    forall v | v in x.store.workers ensures ChildAsTold(x, a, env.now, v, y.store.workers[v]) {
      SameChild(x, a, env.now, v, y.store.workers[v]);
    }
  }

  lemma KilledCrew(x: Sys, a: Action, env: Env, y: Sys)
    requires OutsideStep(x, a, env, y) && a.Kill?
    ensures AsTold(x, a, env, y)
  {
    hide ChildAsTold, CountsAsTold;
    Uncounting(x, a, env, y);
    KilledChild(x, a, env.now, y.store.workers[a.w]);
    forall v | v in x.store.workers && v != a.w ensures ChildAsTold(x, a, env.now, v, y.store.workers[v]) {
      SameChild(x, a, env.now, v, y.store.workers[v]);
    }
  }

  lemma KilledChild(x: Sys, a: Action, now: Seconds, l: Worker)
    requires a.Kill? && a.w in x.store.workers && x.store.workers[a.w].retiredAt.Some?
    requires now - x.store.workers[a.w].retiredAt.value >= GRACE && l == x.store.workers[a.w].(killed := true)
    ensures ChildAsTold(x, a, now, a.w, l)
  {
  }

  lemma LaunchedCrew(x: Sys, a: Action, env: Env, y: Sys)
    requires OutsideStep(x, a, env, y) && a.Launched?
    ensures AsTold(x, a, env, y)
  {
    hide AsTold, StartFailed, Join;
    if !a.up {
      StartFailedCounts(x.store, env);
      SameCrew(x, a, env, y);
    } else if x.store.stopping {
      SameCrew(x, a, env, y);
    } else {
      JoinedCrew(x, a, env, y);
    }
  }

  lemma JoinedCrew(x: Sys, a: Action, env: Env, y: Sys)
    requires a.Launched? && a.up && a.w !in x.store.workers && y.store == Join(x.store, a.w, env.now)
    ensures AsTold(x, a, env, y)
  {
    hide ChildAsTold, CountsAsTold;
    Uncounting(x, a, env, y);
    forall v | v in x.store.workers ensures ChildAsTold(x, a, env.now, v, y.store.workers[v]) {
      SameChild(x, a, env.now, v, y.store.workers[v]);
    }
  }

  lemma OutsideCrew(x: Sys, a: Action, env: Env, y: Sys)
    requires Inv(x) && OutsideStep(x, a, env, y)
    ensures AsTold(x, a, env, y)
  {
    hide Inv, Sent, StartFailed, AsTold;
    if a.Confirm? {
      SentCrew(x, env, y);
    } else if a.Put? {
      if a.delivered {
        OnePipe(x, a, env, y, x.pc.sends[0].worker);
      } else {
        SameCrew(x, a, env, y);
      }
    } else if a.Launched? {
      LaunchedCrew(x, a, env, y);
    } else if a.Kill? {
      KilledCrew(x, a, env, y);
    } else {
      SameCrew(x, a, env, y);
    }
  }

  lemma SubmittedCrew(x: Sys, a: Action, env: Env, y: Sys)
    requires ThreadStep(x, a, env, y) && a.DoSubmit?
    ensures AsTold(x, a, env, y)
  {
    hide Submit, JobFor, Reaching, ChildAsTold, Bump, Stale;
    SubmitEffects(x.store, a.req, a.id, a.pace, env);
    forall w | w in x.store.workers ensures ChildAsTold(x, a, env.now, w, y.store.workers[w]) {
      SameChild(x, a, env.now, w, y.store.workers[w]);
    }
  }

  /** Jobs end, and with them their children leave. */
  lemma AbortedCrew(x: Sys, a: Action, env: Env, y: Sys, ends: map<JobId, Change>)
    requires EndedCrew(x.store.workers, y.store.workers, ends, env.now) && Uncounted(x.store, y.store)
    requires !a.DoSubmit? && !a.Kill? && Reader(x, a).None?
    requires forall w | w in x.store.workers :: ChildLeaves(x, a, env.now, w) == if Serves(x.store.workers[w], ends) then Terminated else Stays
    ensures AsTold(x, a, env, y)
  {
    hide ChildAsTold, CountsAsTold, ChildLeaves, Left, Serves;
    Uncounting(x, a, env, y);
    forall w | w in x.store.workers ensures ChildAsTold(x, a, env.now, w, y.store.workers[w]) {
      AbortedChild(x, a, env.now, w, y.store.workers[w], ends);
    }
  }

  lemma AbortedChild(x: Sys, a: Action, now: Seconds, w: WorkerId, l: Worker, ends: map<JobId, Change>)
    requires w in x.store.workers && !a.Kill? && Reader(x, a).None?
    requires ChildLeaves(x, a, now, w) == if Serves(x.store.workers[w], ends) then Terminated else Stays
    requires l == if Serves(x.store.workers[w], ends) then Left(x.store.workers[w], Terminated, now) else x.store.workers[w]
    ensures ChildAsTold(x, a, now, w, l)
  {
    hide ChildLeaves, ChildAsTold, Serves;
    if Serves(x.store.workers[w], ends) {
      LeavingChild(x, a, now, w);
    } else {
      SameChild(x, a, now, w, l);
    }
  }

  lemma LeavingChild(x: Sys, a: Action, now: Seconds, w: WorkerId)
    requires w in x.store.workers && !ChildLeaves(x, a, now, w).Stays? && !a.Kill? && Reader(x, a).None?
    ensures ChildAsTold(x, a, now, w, Left(x.store.workers[w], ChildLeaves(x, a, now, w), now))
  {
    hide ChildLeaves;
  }

  lemma CancelledCrew(x: Sys, a: Action, env: Env, y: Sys)
    requires Inv(x) && ThreadStep(x, a, env, y) && a.DoCancel?
    ensures AsTold(x, a, env, y)
  {
    hide Core, Pcs, Valid, Cancel, EndedCrew, Stale, AsTold;
    CancelEffects(x.store, a.id, a.owner, env);
    JobsServed(x.store);
    JobsRetired(x.store);
    AbortedCrew(x, a, env, y,
                if Owned(x.store, a.id, a.owner) && Unfinished(x.store, a.id) then map[a.id := Ends(Cancelled, None, None)] else map[]);
  }

  lemma DrainedCrew(x: Sys, env: Env, y: Sys)
    requires Inv(x) && ThreadStep(x, EndDrain, env, y)
    ensures AsTold(x, EndDrain, env, y)
  {
    hide Core, Pcs, Valid, AbortAll, EndedJobs, EndedCrew, AsTold, Hit;
    OrderDistinct(x.store);
    AbortAllAborts(x.store, x.store.order, true, Failed, Some(ServiceRestarted), env);
    JobsServed(x.store);
    JobsRetired(x.store);
    AbortedCrew(x, EndDrain, env, y, Hits(x.store, x.store.order, true, Ends(Failed, None, Some(ServiceRestarted))));
  }

  lemma ClosedCrew(x: Sys, env: Env, y: Sys)
    requires Inv(x) && ThreadStep(x, DoClose, env, y)
    ensures AsTold(x, DoClose, env, y)
  {
    hide Core, Pcs, Valid, Close, Left, Closing, ChildAsTold, CountsAsTold;
    CloseEffects(x.store, env);
    Uncounting(x, DoClose, env, y);
    JobsRetired(x.store);
    forall w | w in x.store.workers ensures ChildAsTold(x, DoClose, env.now, w, y.store.workers[w]) {
      ClosedChild(x, env.now, w);
    }
  }

  lemma ClosedChild(x: Sys, now: Seconds, w: WorkerId)
    requires w in x.store.workers && (x.store.workers[w].job.Some? ==> x.store.workers[w].retiredAt.None?)
    ensures ChildAsTold(x, DoClose, now, w, Left(x.store.workers[w], Closing(x.store.workers[w]), now))
  {
  }

  lemma ThreadCrew(x: Sys, a: Action, env: Env, y: Sys)
    requires Inv(x) && ThreadStep(x, a, env, y)
    ensures AsTold(x, a, env, y)
  {
    hide Inv, Expire, Taken, Retire, Submit, Cancel, AbortAll, Close, AsTold, Linked;
    if a.DoSubmit? {
      SubmittedCrew(x, a, env, y);
    } else if a.DoGet? {
      ExpireParts(x.store, env);
      SameCrew(x, a, env, y);
    } else if a.DoCancel? {
      CancelledCrew(x, a, env, y);
    } else if a.CallReadOne? {
      TakenCrew(x, a, env, y, x.call.w);
    } else if Missing(x, a, env.now).Some? {
      RetiredCrew(x, a, env, y, x.call.w);
    } else if a.EndDrain? {
      DrainedCrew(x, env, y);
    } else if a.DoClose? {
      ClosedCrew(x, env, y);
    } else {
      SameCrew(x, a, env, y);
    }
  }

  /** What a step makes of every child and of the counters is what the table says. */
  lemma StepCrew(x: Sys, a: Action, env: Env, y: Sys)
    requires Inv(x) && Step(x, a, env, y)
    ensures CrewAsTold(x, a, env.now, y) && CountsAsTold(x, a, env, y)
  {
    hide Inv, ChildStep, ReadStep, OutsideStep, ThreadStep, CrewAsTold, CountsAsTold;
    if ChildStep(x, a, y) {
      ChildCrew(x, a, env, y);
    } else if ReadStep(x, a, env, y) {
      ReadCrew(x, a, env, y);
    } else if OutsideStep(x, a, env, y) {
      OutsideCrew(x, a, env, y);
    } else {
      ThreadCrew(x, a, env, y);
    }
  }

  // ---------------------------------------------------------------- the table's order

  /** The jobs let go of leave the order as it is, and a new one joins at its end. */
  ghost predicate OrderAsTold(x: Sys, a: Action, now: Seconds, y: Sys) {
    y.store.order == (if LetsGo(x, a) then Fresh(x.store, x.store.order, now) else x.store.order)
                     + if a.DoSubmit? && a.id in y.store.jobs && a.id !in x.store.jobs then [a.id] else []
  }

  lemma TickOrder(s: Store, env: Env)
    requires Linked(s) && (forall i | i in s.order :: i in s.jobs)
    ensures Tick(s, env).0.order == s.order
  {
    hide Scan, Dispatch;
    var (u, waiting) := Scan(s, s.order, env);
    QueuesReady(u, waiting);
    DispatchJobs(u, Queues(u, waiting));
  }

  lemma ExpireOrder(s: Store, env: Env)
    ensures Expire(s, env).order == Fresh(s, s.order, env.now) && Expire(s, env).cfg == s.cfg
    ensures forall id | id in Expire(s, env).jobs :: id in s.jobs
  {
    hide Fresh;
  }

  lemma AcceptOrder(s: Store, req: Request, id: JobId, pace: Option<Seconds>, env: Env)
    requires s.cfg.concurrency > 0 && id !in s.jobs && !s.draining && !s.stopping
    ensures var t := Accept(s, req, id, pace, env).0;
            t.order == Fresh(s, s.order, env.now) + if id in t.jobs then [id] else []
  {
    hide Limit, Fresh, Insert, Expire, RowOf, NewJob, Bump;
    ExpireOrder(s, env);
    assert Fresh(s, s.order, env.now) + [] == Fresh(s, s.order, env.now);
  }

  lemma SubmitOrder(s: Store, req: Request, id: JobId, pace: Option<Seconds>, env: Env)
    requires s.cfg.concurrency > 0 && id !in s.jobs
    ensures var t := Submit(s, req, id, pace, env).0;
            t.order == (if Reaching(s, req) then Fresh(s, s.order, env.now) else s.order) + if id in t.jobs then [id] else []
  {
    hide Fresh, Bump;
    assert s.order + [] == s.order;
    if Reaching(s, req) {
      hide Accept;
      AcceptOrder(s, req, id, pace, env);
    }
  }

  lemma SameOrder(x: Sys, a: Action, now: Seconds, y: Sys)
    requires y.store.order == x.store.order && !LetsGo(x, a) && !a.DoSubmit?
    ensures OrderAsTold(x, a, now, y)
  {
    assert x.store.order + [] == x.store.order;
  }

  lemma LetGoOrder(x: Sys, a: Action, now: Seconds, y: Sys)
    requires y.store.order == Fresh(x.store, x.store.order, now) && LetsGo(x, a) && !a.DoSubmit?
    ensures OrderAsTold(x, a, now, y)
  {
    hide Fresh;
    assert Fresh(x.store, x.store.order, now) + [] == Fresh(x.store, x.store.order, now);
  }

  lemma ReadOrder(x: Sys, a: Action, env: Env, y: Sys)
    requires ReadStep(x, a, env, y)
    ensures OrderAsTold(x, a, env.now, y)
  {
    hide Fresh, Deliver, Retire, Tick, Narrower, OrderAsTold;
    if a.BeginTick? {
      LetGoOrder(x, a, env.now, y);
    } else {
      if a.EndTick? {
        TickOrder(x.store, env);
      }
      SameOrder(x, a, env.now, y);
    }
  }

  lemma OutsideOrder(x: Sys, a: Action, env: Env, y: Sys)
    requires OutsideStep(x, a, env, y)
    ensures OrderAsTold(x, a, env.now, y)
  {
    hide Sent, StartFailed, Narrower, OrderAsTold;
    SameOrder(x, a, env.now, y);
  }

  lemma ThreadOrder(x: Sys, a: Action, env: Env, y: Sys)
    requires ThreadStep(x, a, env, y)
    ensures OrderAsTold(x, a, env.now, y)
  {
    hide Fresh, Deliver, Retire, Submit, Abort, AbortAll, RetireAll, Narrower, OrderAsTold;
    if a.DoSubmit? {
      SubmittedOrder(x, a, env, y);
    } else if a.DoGet? || a.DoCancel? {
      LetGoOrder(x, a, env.now, y);
    } else {
      SameOrder(x, a, env.now, y);
    }
  }

  lemma SubmittedOrder(x: Sys, a: Action, env: Env, y: Sys)
    requires ThreadStep(x, a, env, y) && a.DoSubmit?
    ensures OrderAsTold(x, a, env.now, y)
  {
    hide Submit, Fresh;
    SubmitOrder(x.store, a.req, a.id, a.pace, env);
  }

  lemma ChildOrder(x: Sys, a: Action, now: Seconds, y: Sys)
    requires ChildStep(x, a, y)
    ensures OrderAsTold(x, a, now, y)
  {
    hide OrderAsTold;
    SameOrder(x, a, now, y);
  }

  lemma StepOrder(x: Sys, a: Action, env: Env, y: Sys)
    requires Step(x, a, env, y)
    ensures OrderAsTold(x, a, env.now, y)
  {
    hide ChildStep, ReadStep, OutsideStep, ThreadStep, OrderAsTold;
    if ChildStep(x, a, y) {
      ChildOrder(x, a, env.now, y);
    } else if ReadStep(x, a, env, y) {
      ReadOrder(x, a, env, y);
    } else if OutsideStep(x, a, env, y) {
      OutsideOrder(x, a, env, y);
    } else {
      ThreadOrder(x, a, env, y);
    }
  }

  // ---------------------------------------------------------------- the coordinator's other steps

  /** A child is started exactly when the store takes work, its pool has room and no backoff holds the start back. */
  lemma RefillStarts(x: Sys, a: Action, env: Env, y: Sys)
    requires Step(x, a, env, y) && a.Refill?
    ensures var s := x.store;
            y.pc.Launching? <==> !s.stopping && !s.draining && |s.pool| < s.cfg.concurrency && env.now >= s.backoffUntil
  {
    assert OutsideStep(x, a, env, y);
  }

  /** A child that has exited is let go of, and no other. */
  lemma ReapsOne(x: Sys, a: Action, env: Env, y: Sys)
    requires Inv(x) && Step(x, a, env, y) && a.Reap?
    ensures a.w in x.store.retiring && forall w :: w in y.store.retiring <==> w in x.store.retiring && w != a.w
  {
    hide Core, Pcs;
    assert OutsideStep(x, a, env, y);
    RemoveFirst(x.store.retiring, a.w);
  }

  /** The jobs a step of the coordinator lets go of leave no row behind, unless the disk refuses. */
  lemma TickErases(x: Sys, a: Action, env: Env, y: Sys)
    requires Step(x, a, env, y) && (a.BeginTick? || a.DoGet?)
    ensures forall id :: id in y.store.disk.rows <==>
              id in x.store.disk.rows &&
              !(x.store.disk.open && !env.kept && id in x.store.jobs && Over(x.store.jobs[id], x.store.cfg.retention, env.now))
  {
    hide Fresh;
    assert ReadStep(x, a, env, y) || ThreadStep(x, a, env, y);
  }
}
