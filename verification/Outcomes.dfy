/** What becomes of a submission in a run: the job it gets, how and when that ends, and what is counted. */
module Outcomes {
  import opened Wrappers
  import opened JobTypes
  import opened StoreModel
  import opened StoreInvariant
  import opened StoreSteps
  import opened Durations
  import opened Dispatching
  import opened Protocol
  import opened ProtocolInvariant
  import opened ChildSteps
  import opened Service
  import opened Effects
  import opened Lifecycle
  import opened Backoff
  import opened Safety

  // ---------------------------------------------------------------- the job a submission gets

  lemma ChangedKeeps(j: Job, c: Change, now: Seconds)
    ensures var k := Changed(j, c, now);
            && k.task == j.task && k.owner == j.owner && k.key == j.key && k.timeoutMs == j.timeoutMs
            && k.deadline == j.deadline && k.submittedAt == j.submittedAt
  {
  }

  lemma JobsAt(states: seq<Sys>, events: seq<Event>, i: nat)
    requires Safety.Run(states, events) && i < |events|
    ensures |states| == |events| + 1 && Inv(states[i]) && JobsAsTold(states[i], events[i].action, events[i].env.now, states[i + 1])
  {
    hide Safety.Run, Inv, Step, JobsAsTold;
    StepAt(states, events, i);
    RunInv(states, events, i);
    StepJobs(states[i], events[i].action, events[i].env, states[i + 1]);
  }

  /** At event i the request is submitted under the id drawn for it, and accepted. */
  ghost predicate Submits(states: seq<Sys>, events: seq<Event>, i: nat, req: Request, id: JobId) {
    && i < |events| && i + 1 < |states| && events[i].action.DoSubmit?
    && events[i].action.req == req && events[i].action.id == id && id in states[i + 1].store.jobs
  }

  lemma FreshId(states: seq<Sys>, events: seq<Event>, i: nat, req: Request, id: JobId)
    requires Safety.Run(states, events) && Submits(states, events, i, req, id)
    ensures id !in states[i].store.jobs && Known(states[i + 1].store, id)
  {
    hide Safety.Run, Inv, Submit, Known;
    StepAt(states, events, i);
    DrawnFresh(states[i], events[i].action, events[i].env, states[i + 1]);
    RunInv(states, events, i + 1);
    InvKnown(states[i + 1], id);
  }

  lemma DrawnFresh(x: Sys, a: Action, env: Env, y: Sys)
    requires Step(x, a, env, y) && a.DoSubmit?
    ensures a.id !in x.store.jobs
  {
    hide Submit;
    assert ThreadStep(x, a, env, y);
  }

  /** An accepted request's job starts out queued, with its input and nothing else; and as long as it is held it is the
      request's in task, owner, key and timeout, was submitted when the request was, and is due its timeout later. */
  lemma {:induction false} AcceptedAs(states: seq<Sys>, events: seq<Event>, i: nat, j: nat, req: Request, id: JobId)
    requires Safety.Run(states, events) && Submits(states, events, i, req, id) && i < j < |states| && id in states[j].store.jobs
    ensures var job, now := states[j].store.jobs[id], events[i].env.now;
            && job.task == req.task && job.owner == req.owner && job.key == req.key && job.timeoutMs == req.timeoutMs
            && job.submittedAt == now && job.deadline == now + req.timeoutMs as real / 1000.0
            && (j == i + 1 ==>
                  && job.status.Queued? && job.result.None? && job.code.None? && job.progress.None? && job.startedAt.None?
                  && job.finished.None? && !job.retried && job.input == Some(req.payload))
    decreases j
  {
    hide Safety.Run, Inv, Known, JobChange, Changed;
    RunLength(states, events);
    FreshId(states, events, i, req, id);
    JobsAt(states, events, j - 1);
    if j > i + 1 {
      KnownStays(states, events, i + 1, j - 1, id);
      HeldBefore(states, events, j, id);
      AcceptedAs(states, events, i, j - 1, req, id);
      ChangedKeeps(states[j - 1].store.jobs[id],
                   JobChange(states[j - 1], events[j - 1].action, events[j - 1].env.now, id), events[j - 1].env.now);
    }
  }

  /** A known job held after a step was held before it. */
  lemma HeldBefore(states: seq<Sys>, events: seq<Event>, j: nat, id: JobId)
    requires Safety.Run(states, events) && 0 < j < |states| && id in states[j].store.jobs && Known(states[j - 1].store, id)
    ensures id in states[j - 1].store.jobs
  {
    hide Safety.Run, Inv, Known;
    KnownStays(states, events, j - 1, j, id);
  }

  // ---------------------------------------------------------------- how a job ends

  lemma EndedSame(x: Sys, a: Action, now: Seconds, id: JobId)
    requires id in x.store.jobs && x.store.jobs[id].status.Terminal()
    ensures JobChange(x, a, now, id).Same?
  {
  }

  lemma OnlyEnds(j: Job, c: Change, now: Seconds)
    requires !j.status.Terminal() && Changed(j, c, now).status.Terminal()
    ensures c.Ends?
  {
  }

  /** Of a job that has ended there is one step at which it ended, unfinished before, for the reason the table gives, and
      what that step made of it is what is still held. */
  lemma {:induction false} EndedBecause(states: seq<Sys>, events: seq<Event>, j: nat, id: JobId) returns (k: nat)
    requires Safety.Run(states, events) && j < |states| && id in states[j].store.jobs
    requires states[j].store.jobs[id].status.Terminal() && id !in states[0].store.jobs
    ensures k < j && k < |events| && id in states[k].store.jobs && !states[k].store.jobs[id].status.Terminal()
    ensures var c := JobChange(states[k], events[k].action, events[k].env.now, id);
            c.Ends? && states[j].store.jobs[id] == Changed(states[k].store.jobs[id], c, events[k].env.now)
    decreases j
  {
    hide Safety.Run, Inv, JobChange, Changed;
    RunLength(states, events);
    k := j - 1;
    JobsAt(states, events, k);
    var a, now := events[k].action, events[k].env.now;
    if id !in states[k].store.jobs {
      NewQueued(a, now);
      assert false;
    } else if states[k].store.jobs[id].status.Terminal() {
      EndedSame(states[k], a, now, id);
      SameIs(states[k].store.jobs[id], now);
      k := EndedBecause(states, events, k, id);
    } else {
      OnlyEnds(states[k].store.jobs[id], JobChange(states[k], a, now, id), now);
    }
  }

  lemma SameIs(j: Job, now: Seconds)
    ensures Changed(j, Same, now) == j
  {
  }

  lemma NewQueued(a: Action, now: Seconds)
    ensures a.DoSubmit? ==> !JobFor(a.req, now).status.Terminal()
  {
  }

  /** A job times out only at a tick, and only when its deadline is reached. */
  lemma TimesOutAtTick(x: Sys, a: Action, now: Seconds, id: JobId)
    requires id in x.store.jobs && JobChange(x, a, now, id).Ends? && JobChange(x, a, now, id).status.TimedOut?
    ensures a.EndTick? && now >= x.store.jobs[id].deadline && JobChange(x, a, now, id).code == Some(DeadlineExceeded)
  {
  }

  /** No job times out before the tick that its timeout has passed at. */
  lemma TimedOutLate(states: seq<Sys>, events: seq<Event>, i: nat, j: nat, req: Request, id: JobId) returns (k: nat)
    requires Safety.Run(states, events) && Submits(states, events, i, req, id) && i < j < |states| && id in states[j].store.jobs
    requires states[j].store.jobs[id].status.TimedOut?
    ensures i < k < j && k < |events| && events[k].action.EndTick?
    ensures events[k].env.now >= events[i].env.now + req.timeoutMs as real / 1000.0
    ensures states[j].store.jobs[id].code == Some(DeadlineExceeded) && states[j].store.jobs[id].finished == Some(events[k].env.now)
  {
    hide Safety.Run, Inv, JobChange, Known;
    FreshId(states, events, i, req, id);
    NotYet(states, events, i, id);
    k := EndedBecause(states, events, j, id);
    NotBefore(states, events, i, k, id);
    TimesOutAtTick(states[k], events[k].action, events[k].env.now, id);
    AcceptedAs(states, events, i, k, req, id);
  }

  /** Before it is drawn an id has no job. */
  lemma NotBefore(states: seq<Sys>, events: seq<Event>, i: nat, k: nat, id: JobId)
    requires Safety.Run(states, events) && i < |states| && k < |states| && id in states[k].store.jobs && id !in states[i].store.jobs
    requires forall m | 0 <= m <= i :: id !in states[m].store.jobs
    ensures i < k
  {
  }

  lemma {:induction false} NotYet(states: seq<Sys>, events: seq<Event>, i: nat, id: JobId)
    requires Safety.Run(states, events) && i < |events| && i < |states| && events[i].action.DoSubmit? && events[i].action.id == id
    ensures forall m | 0 <= m <= i :: id !in states[m].store.jobs
  {
    hide Safety.Run, Inv, Known;
    forall m | 0 <= m <= i ensures id !in states[m].store.jobs {
      if id in states[m].store.jobs {
        RunInv(states, events, m);
        InvKnown(states[m], id);
        KnownStays(states, events, m, i, id);
        StepAt(states, events, i);
        DrawnUnknown(states[i], events[i].action, events[i].env, states[i + 1]);
      }
    }
  }

  lemma DrawnUnknown(x: Sys, a: Action, env: Env, y: Sys)
    requires Step(x, a, env, y) && a.DoSubmit?
    ensures !Known(x.store, a.id)
  {
    hide Submit;
    assert ThreadStep(x, a, env, y);
  }

  /** A tick at or after the time a submission's timeout has passed leaves its job ended, timed out if nothing ended it
      before. */
  lemma OnTime(states: seq<Sys>, events: seq<Event>, i: nat, k: nat, req: Request, id: JobId)
    requires Safety.Run(states, events) && Submits(states, events, i, req, id) && i < k < |events| && events[k].action.EndTick?
    requires events[k].env.now >= events[i].env.now + req.timeoutMs as real / 1000.0
    ensures |states| == |events| + 1 && !Unfinished(states[k + 1].store, id)
    ensures Unfinished(states[k].store, id) ==>
              && id in states[k + 1].store.jobs && states[k + 1].store.jobs[id].status.TimedOut?
              && states[k + 1].store.jobs[id].code == Some(DeadlineExceeded) && states[k + 1].store.jobs[id].result.None?
  {
    hide Safety.Run, Inv, Known, JobsAsTold;
    RunLength(states, events);
    if id in states[k + 1].store.jobs {
      AcceptedAs(states, events, i, k + 1, req, id);
      TickMeetsDeadlines(states, events, k, id);
    }
    if Unfinished(states[k].store, id) {
      AcceptedAs(states, events, i, k, req, id);
      JobsAt(states, events, k);
      TimesOut(states[k], events[k].env.now, states[k + 1], id);
    }
  }

  lemma TimesOut(x: Sys, now: Seconds, y: Sys, id: JobId)
    requires JobsAsTold(x, EndTick, now, y) && Unfinished(x.store, id) && now >= x.store.jobs[id].deadline
    ensures id in y.store.jobs && y.store.jobs[id].status.TimedOut? && y.store.jobs[id].code == Some(DeadlineExceeded)
    ensures y.store.jobs[id].result.None?
  {
  }

  /** What a job's end says of the step that brought it about. */
  ghost predicate Explained(x: Sys, a: Action, now: Seconds, id: JobId, c: Change)
    requires id in x.store.jobs && c.Ends?
  {
    var s, j := x.store, x.store.jobs[id];
    match c.status
    case Succeeded =>
      exists w :: Reads(x, a, w) && s.workers[w].job == Some(id) && c.result.Some?
                  && s.workers[w].inbox[0] == Returned(id, c.result.value)
    case TimedOut => a.EndTick? && now >= j.deadline && c.code == Some(DeadlineExceeded)
    case Cancelled => c.code.None? && (a.DoClose? || (a.DoCancel? && a.id == id && a.owner == j.owner))
    case Failed =>
      c.code.Some? &&
      (match c.code.value
       case TaskFailed => exists w :: Reads(x, a, w) && s.workers[w].job == Some(id) && s.workers[w].inbox[0] == Raised(id)
       case WorkerCrashed =>
         exists w :: Missing(x, a, now) == Some(w) && w in s.workers && s.workers[w].job == Some(id) && (j.status.Running? || j.retried)
       case WorkerStartFailed => Idle(s, id) && !s.draining && forall v | v in s.pool :: Missing(x, a, now) == Some(v)
       case ServiceRestarted => s.draining && j.status.Queued? && (a.EndDrain? || a.EndTick?)
       case DeadlineExceeded => false)
    case _ => false
  }

  lemma EndExplained(x: Sys, a: Action, env: Env, y: Sys, id: JobId)
    requires Inv(x) && Step(x, a, env, y) && id in x.store.jobs && JobChange(x, a, env.now, id).Ends?
    ensures Explained(x, a, env.now, id, JobChange(x, a, env.now, id))
    ensures !JobChange(x, a, env.now, id).status.Succeeded? ==> JobChange(x, a, env.now, id).result.None?
  {
    hide Inv, Step;
    if a.EndDrain? {
      DrainingCall(x, env, y);
    }
  }

  lemma DrainingCall(x: Sys, env: Env, y: Sys)
    requires Inv(x) && Step(x, EndDrain, env, y)
    ensures x.store.draining
  {
    hide Good;
    assert ThreadStep(x, EndDrain, env, y);
  }

  /** The child that a job was sent to is found gone: a job that no child has started, and that was not put back before, is
      queued again and without a child after that step; any other is crashed. */
  lemma LostOrRequeued(states: seq<Sys>, events: seq<Event>, i: nat, w: WorkerId, id: JobId)
    requires Safety.Run(states, events) && i < |events| && i < |states| && Missing(states[i], events[i].action, events[i].env.now) == Some(w)
    requires w in states[i].store.workers && states[i].store.workers[w].job == Some(id)
    ensures |states| == |events| + 1 && id in states[i].store.jobs && id in states[i + 1].store.jobs
    ensures var j, t := states[i].store.jobs[id], states[i + 1].store;
            && (Unfinished(t, id) <==> j.status.Queued? && !j.retried)
            && (Unfinished(t, id) ==> t.jobs[id].status.Queued? && t.jobs[id].retried && t.jobs[id].input == j.input && Idle(t, id))
            && (!Unfinished(t, id) ==>
                  t.jobs[id].status.Failed? && t.jobs[id].code == Some(WorkerCrashed) && t.jobs[id].result.None?)
  {
    hide Safety.Run, Inv, JobsAsTold, CrewAsTold, CountsAsTold, Missing, Idle;
    JobsAt(states, events, i);
    RunInv(states, events, i + 1);
    StepAt(states, events, i);
    StepCrew(states[i], events[i].action, events[i].env, states[i + 1]);
    LostStep(states[i], events[i].action, events[i].env, states[i + 1], w, id);
  }

  lemma LostStep(x: Sys, a: Action, env: Env, y: Sys, w: WorkerId, id: JobId)
    requires Inv(x) && Inv(y) && JobsAsTold(x, a, env.now, y) && CrewAsTold(x, a, env.now, y)
    requires Missing(x, a, env.now) == Some(w) && w in x.store.workers && x.store.workers[w].job == Some(id)
    ensures id in x.store.jobs && id in y.store.jobs
    ensures var j, t := x.store.jobs[id], y.store;
            && (Unfinished(t, id) <==> j.status.Queued? && !j.retried)
            && (Unfinished(t, id) ==> t.jobs[id].status.Queued? && t.jobs[id].retried && t.jobs[id].input == j.input && Idle(t, id))
            && (!Unfinished(t, id) ==>
                  t.jobs[id].status.Failed? && t.jobs[id].code == Some(WorkerCrashed) && t.jobs[id].result.None?)
  {
    hide Core, Pcs, Valid, JobsAsTold, CrewAsTold, Missing;
    Served(x.store, w, id);
    LostOne(x, a, env.now, y, w, id);
    LostChildren(x, a, env, y, w, id);
    Unserved(y.store, id);
  }

  lemma Served(s: Store, w: WorkerId, id: JobId)
    requires Valid(s, {}, {}) && w in s.workers && s.workers[w].job == Some(id)
    ensures Unfinished(s, id) && s.workers[w].retiredAt.None?
    ensures forall u | u in s.workers && s.workers[u].job == Some(id) :: u == w
  {
    hide Valid;
    Basics(s, {}, {});
  }

  lemma Unserved(s: Store, id: JobId)
    requires Valid(s, {}, {}) && forall v | v in s.workers :: s.workers[v].job != Some(id)
    ensures id !in s.active
  {
    hide Valid;
    Basics(s, {}, {});
  }

  lemma LostOne(x: Sys, a: Action, now: Seconds, y: Sys, w: WorkerId, id: JobId)
    requires JobsAsTold(x, a, now, y) && Missing(x, a, now) == Some(w) && w in x.store.workers
    requires x.store.workers[w].job == Some(id) && x.store.workers[w].retiredAt.None? && Unfinished(x.store, id)
    ensures id in y.store.jobs
    ensures var j, k := x.store.jobs[id], y.store.jobs[id];
            k == Changed(j, if j.status.Queued? && !j.retried then Requeues else Ends(Failed, None, Some(WorkerCrashed)), now)
  {
    MissingAction(x, a, now);
  }

  /** Nobody is given a job in such a step. */
  lemma LostChildren(x: Sys, a: Action, env: Env, y: Sys, w: WorkerId, id: JobId)
    requires CrewAsTold(x, a, env.now, y) && Missing(x, a, env.now) == Some(w) && w in x.store.workers
    requires x.store.workers[w].job == Some(id) && x.store.workers[w].retiredAt.None?
    requires forall u | u in x.store.workers && x.store.workers[u].job == Some(id) :: u == w
    ensures forall v | v in y.store.workers :: y.store.workers[v].job != Some(id)
  {
    hide ChildAsTold, Missing;
    MissingAction(x, a, env.now);
    forall v | v in x.store.workers ensures y.store.workers[v].job != Some(id) {
      LostChild(x, a, env.now, w, id, v, y.store.workers[v]);
    }
  }

  lemma LostChild(x: Sys, a: Action, now: Seconds, w: WorkerId, id: JobId, v: WorkerId, l: Worker)
    requires v in x.store.workers && ChildAsTold(x, a, now, v, l) && Missing(x, a, now) == Some(w)
    requires x.store.workers[v].job == Some(id) ==> v == w && x.store.workers[v].retiredAt.None?
    ensures l.job != Some(id)
  {
    MissingAction(x, a, now);
  }

  /** A child that left service is watched, and so killed when it lingers, until a step finds it exited and lets go of it. */
  lemma {:induction false} WatchedUntilReaped(states: seq<Sys>, events: seq<Event>, j: nat, w: WorkerId) returns (k: nat)
    requires Safety.Run(states, events) && j < |states| && w in states[j].store.workers
    requires states[j].store.workers[w].retiredAt.Some? && w !in states[j].store.retiring
    ensures k < j && k < |events| && events[k].action == Reap(w) && w in states[k].children && !states[k].children[w].alive
    decreases j
  {
    hide Safety.Run, Inv, CountsAsTold, Watched;
    RunLength(states, events);
    if j == 0 {
      NoChildren(states, events);
      assert false;
    }
    k := j - 1;
    var a, env := events[k].action, events[k].env;
    RunInv(states, events, k);
    StepAt(states, events, k);
    StepBacks(states[k], a, env, states[j]);
    StepCrew(states[k], a, env, states[j]);
    var s := states[k].store;
    assert w in s.workers;
    WatchedOn(s, states[j].store, a, w);
    if s.workers[w].retiredAt.Some? && w !in s.retiring {
      k := WatchedUntilReaped(states, events, k, w);
    } else {
      ReapsExited(states[k], a, env, states[j]);
    }
  }

  lemma WatchedOn(s: Store, t: Store, a: Action, w: WorkerId)
    requires w in s.workers && w in t.workers && t.workers[w].retiredAt.Some? && w !in t.retiring
    requires if a.Reap? then Reaped(s, a.w, t) else Watched(s, t)
    ensures (s.workers[w].retiredAt.Some? && w !in s.retiring) || a == Reap(w)
  {
  }

  lemma ReapsExited(x: Sys, a: Action, env: Env, y: Sys)
    requires Step(x, a, env, y) && a.Reap?
    ensures a.w in x.children && !x.children[a.w].alive
  {
    assert OutsideStep(x, a, env, y);
  }

  lemma NoChildren(states: seq<Sys>, events: seq<Event>)
    requires Safety.Run(states, events)
    ensures states[0].store.workers == map[]
  {
  }

  // ---------------------------------------------------------------- first come, first served

  lemma {:induction false} FreshAhead(s: Store, ids: seq<JobId>, now: Seconds, p: JobId, q: JobId)
    requires Distinct(ids) && Ahead(ids, p, q) && p in Fresh(s, ids, now) && q in Fresh(s, ids, now)
    ensures Ahead(Fresh(s, ids, now), p, q)
  {
    hide Stale, Ahead;
    AheadSome(ids, p, q);
    TailDistinct(ids);
    var rest := Fresh(s, ids[1..], now);
    if p in rest && q in rest && Ahead(ids[1..], p, q) {
      FreshAhead(s, ids[1..], now, p, q);
    }
    AheadNext(ids, !(ids[0] in s.jobs && Stale(s.jobs[ids[0]], s.cfg.retention, now)), rest, p, q);
  }

  lemma OrderAt(states: seq<Sys>, events: seq<Event>, i: nat)
    requires Safety.Run(states, events) && i < |events|
    ensures |states| == |events| + 1 && OrderAsTold(states[i], events[i].action, events[i].env.now, states[i + 1])
    ensures forall m | m in {i, i + 1} ::
              Distinct(states[m].store.order) && forall id :: id in states[m].store.order <==> id in states[m].store.jobs
  {
    hide Safety.Run, Inv, Step, OrderAsTold, Distinct;
    StepAt(states, events, i);
    StepOrder(states[i], events[i].action, events[i].env, states[i + 1]);
    RunInv(states, events, i);
    RunInv(states, events, i + 1);
    OrderOf(states[i]);
    OrderOf(states[i + 1]);
  }

  lemma OrderOf(x: Sys)
    requires Inv(x)
    ensures Distinct(x.store.order) && forall id :: id in x.store.order <==> id in x.store.jobs
  {
    hide Core, Pcs, Valid;
    OrderDistinct(x.store);
  }

  /** A step keeps the order of the jobs it keeps, and puts a new one behind them. */
  lemma StepAhead(x: Sys, a: Action, now: Seconds, y: Sys, p: JobId, q: JobId)
    requires OrderAsTold(x, a, now, y) && Distinct(x.store.order) && p in y.store.order && q in y.store.order && p in x.store.order
    requires (forall id :: id in x.store.order <==> id in x.store.jobs) && (forall id :: id in y.store.order <==> id in y.store.jobs)
    requires Ahead(x.store.order, p, q) || (q !in x.store.order && a.DoSubmit? && a.id == q)
    ensures Ahead(y.store.order, p, q)
  {
    hide Fresh, Distinct, LetsGo, Ahead;
    var s := x.store;
    var kept := if LetsGo(x, a) then Fresh(s, s.order, now) else s.order;
    var more := if a.DoSubmit? && a.id in y.store.jobs && a.id !in s.jobs then [a.id] else [];
    assert y.store.order == kept + more;
    assert p in kept;
    if Ahead(s.order, p, q) {
      AheadMembers(s.order, p, q);
      assert q in kept;
      if LetsGo(x, a) {
        FreshAhead(s, s.order, now, p, q);
      }
      AheadMore(kept, more, p, q);
    } else {
      AheadLast(kept, p, q);
    }
  }

  lemma AheadLast(xs: seq<JobId>, p: JobId, q: JobId)
    requires p in xs
    ensures Ahead(xs + [q], p, q)
  {
    var i :| 0 <= i < |xs| && xs[i] == p;
    AheadIn(xs + [q], i, |xs|);
  }

  /** Of two jobs held, the one submitted first is first in the table. */
  lemma {:induction false} SubmittedInOrder(states: seq<Sys>, events: seq<Event>, i: nat, k: nat, j: nat, req: Request, p: JobId,
                                            also: Request, q: JobId)
    requires Safety.Run(states, events) && Submits(states, events, i, req, p) && Submits(states, events, k, also, q)
    requires i < k < j < |states| && p in states[j].store.jobs && q in states[j].store.jobs
    ensures Ahead(states[j].store.order, p, q)
    decreases j
  {
    hide Safety.Run, Inv, Known, OrderAsTold, Ahead, Distinct;
    RunLength(states, events);
    FreshId(states, events, i, req, p);
    FreshId(states, events, k, also, q);
    OrderAt(states, events, j - 1);
    KnownStays(states, events, i + 1, j - 1, p);
    HeldBefore(states, events, j, p);
    if j > k + 1 {
      KnownStays(states, events, k + 1, j - 1, q);
      HeldBefore(states, events, j, q);
      SubmittedInOrder(states, events, i, k, j - 1, req, p, also, q);
    }
    StepAhead(states[j - 1], events[j - 1].action, events[j - 1].env.now, states[j], p, q);
  }

  /** Of two jobs of one owner that wait when a tick dispatches, the one submitted first gets a child if the other does. */
  lemma FirstSubmittedFirst(states: seq<Sys>, events: seq<Event>, i: nat, k: nat, j: nat, req: Request, p: JobId,
                            also: Request, q: JobId)
    requires Safety.Run(states, events) && Submits(states, events, i, req, p) && Submits(states, events, k, also, q)
    requires i < k < j < |events| && |states| == |events| + 1 && events[j].action == EndTick && req.owner == also.owner
    requires p in states[j].store.jobs && q in states[j].store.jobs
    ensures Linked(states[j].store) && forall id | id in states[j].store.order :: id in states[j].store.jobs
    ensures states[j + 1].pc.Sending?
    ensures var s, sends := Scan(states[j].store, states[j].store.order, events[j].env).0, states[j + 1].pc.sends;
            Idle(s, p) && Idle(s, q) ==>
              (q in SentOf(s, sends, req.owner) ==> p in SentOf(s, sends, req.owner))
  {
    hide Safety.Run, Inv, Known, Ahead, Idle, Scan, Tick, Linked, SentOf;
    SubmittedInOrder(states, events, i, k, j, req, p, also, q);
    OldestGoesFirst(states, events, j, p, q);
    AcceptedAs(states, events, i, j, req, p);
    AcceptedAs(states, events, k, j, also, q);
    RunInv(states, events, j);
    ScanOwners(states[j], events[j].env, p);
    ScanOwners(states[j], events[j].env, q);
  }

  lemma ScanOwners(x: Sys, env: Env, id: JobId)
    requires Inv(x) && id in x.store.jobs
    ensures Linked(x.store) && forall i | i in x.store.order :: i in x.store.jobs
    ensures var s := Scan(x.store, x.store.order, env).0; id in s.jobs && s.jobs[id].owner == x.store.jobs[id].owner
  {
    hide Core, Pcs, Valid, Scan, Due, EndedCrew, Narrower, SameDomain;
    OrderDistinct(x.store);
    ScanAborts(x.store, x.store.order, env);
  }

  // ---------------------------------------------------------------- what callers change

  /** An owner's unfinished job that it cancels has ended as cancelled after that step, whatever its child was doing. */
  lemma CancelEnds(states: seq<Sys>, events: seq<Event>, i: nat, id: JobId)
    requires Safety.Run(states, events) && i < |events| && i < |states| && Unfinished(states[i].store, id)
    requires events[i].action == DoCancel(id, states[i].store.jobs[id].owner)
    ensures |states| == |events| + 1 && id in states[i + 1].store.jobs
    ensures var k := states[i + 1].store.jobs[id];
            k.status.Cancelled? && k.code.None? && k.result.None? && k.input.None? && k.finished == Some(events[i].env.now)
  {
    hide Safety.Run, Inv;
    JobsAt(states, events, i);
    RunInv(states, events, i);
    UnfinishedStays(states[i], id, events[i].env.now);
  }

  lemma UnfinishedStays(x: Sys, id: JobId, now: Seconds)
    requires Inv(x) && Unfinished(x.store, id)
    ensures !Over(x.store.jobs[id], x.store.cfg.retention, now)
  {
    hide Core, Pcs, Valid;
    KeptFresh(x.store, id, now);
  }

  // ---------------------------------------------------------------- counting

  /** The ends are counted by owner, task and status, and what is held of a job that has ended is what was counted. */
  lemma EndedCounts(states: seq<Sys>, events: seq<Event>, i: nat, o: Owner, t: Task, status: Status)
    requires Safety.Run(states, events) && i < |states|
    ensures var s := states[i].store;
            && Get(s.stats.ended, (o, t, status)) == |EndedAs(s.past, o, t, status)|
            && forall id | id in s.jobs && id in s.past.issued ::
                 id in EndedAs(s.past, o, t, status) <==>
                 s.jobs[id].status.Terminal() && s.jobs[id].status == status && s.jobs[id].owner == o && s.jobs[id].task == t
  {
    hide Safety.Run, Core, Pcs;
    RunInv(states, events, i);
    CountedEnds(states[i].store, o, t, status);
  }

  lemma CountedEnds(s: Store, o: Owner, t: Task, status: Status)
    requires Tallied(s.stats.ended, s.past) && Filed(s.jobs, s.disk.rows, s.past) && Books(s.jobs, s.order, s.keys)
    ensures Get(s.stats.ended, (o, t, status)) == |EndedAs(s.past, o, t, status)|
    ensures forall id | id in s.jobs && id in s.past.issued ::
              id in EndedAs(s.past, o, t, status) <==>
              s.jobs[id].status.Terminal() && s.jobs[id].status == status && s.jobs[id].owner == o && s.jobs[id].task == t
  {
  }

  /** How often an owner was refused for want of capacity in the first n steps. */
  ghost function Refusals(states: seq<Sys>, events: seq<Event>, n: nat, o: Owner): nat
    requires n <= |events| && n <= |states|
  {
    if n == 0 then 0
    else
      var x, a, env := states[n - 1], events[n - 1].action, events[n - 1].env;
      Refusals(states, events, n - 1, o)
      + if a.DoSubmit? && x.store.cfg.concurrency > 0 && a.req.owner == o && ForCapacity(Submit(x.store, a.req, a.id, a.pace, env).1)
        then 1 else 0
  }

  /** Each refusal for want of capacity is counted once, for its owner. */
  lemma {:induction false} RefusalsCounted(states: seq<Sys>, events: seq<Event>, n: nat, o: Owner)
    requires Safety.Run(states, events) && n < |states| && n <= |events|
    ensures Get(states[n].store.stats.rejected, o) == Refusals(states, events, n, o)
  {
    hide Safety.Run, Inv, Submit, CrewAsTold;
    if n == 0 {
      NothingRefused(states, events, o);
    } else {
      RefusalsCounted(states, events, n - 1, o);
      RunInv(states, events, n - 1);
      StepAt(states, events, n - 1);
      StepCrew(states[n - 1], events[n - 1].action, events[n - 1].env, states[n]);
    }
  }

  lemma NothingRefused(states: seq<Sys>, events: seq<Event>, o: Owner)
    requires Safety.Run(states, events)
    ensures Get(states[0].store.stats.rejected, o) == 0
  {
  }
}
