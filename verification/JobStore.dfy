/** The store as it is kept: records of children and tables updated in place, each method one locked operation. */
module JobStore {
  import opened Wrappers
  import opened Metrics
  import opened JobTypes
  import opened StoreModel
  import opened StoreInvariant
  import opened StoreSteps
  import opened Dispatching
  import opened Passes
  import opened Recovery

  /** The parent's record of one child, with both queues of its pipe. */
  class Child {
    const number: WorkerId
    var startedAt: Seconds
    var ready: bool
    var loaded: bool
    var job: Option<JobId>
    var sending: bool
    var served: nat
    var retiredAt: Option<Seconds>
    var killed: bool
    var terminated: bool
    var inbox: seq<Message>
    var outbox: seq<Command>
    var closes: nat

    constructor (number: WorkerId, now: Seconds)
      ensures this.number == number && View() == NewWorker(now)
    {
      this.number := number;
      startedAt, ready, loaded, job, sending, served := now, false, false, None, false, 0;
      retiredAt, killed, terminated, inbox, outbox, closes := None, false, false, [], [], 0;
    }

    ghost function View(): Worker
      reads this
    {
      Worker(startedAt, ready, loaded, job, sending, served, retiredAt, killed, terminated, inbox, outbox, closes)
    }

    /** Take a job, its send still to be made. */
    method Take(id: JobId)
      modifies this
      ensures View() == old(View()).(job := Some(id), served := old(served) + 1, sending := true)
    {
      job, served, sending := Some(id), served + 1, true;
    }

    /** Leave service: asked to stop when idle and told so, terminated otherwise; a send in flight keeps the pipe. */
    method LeaveService(stop: bool, now: Seconds)
      modifies this
      ensures View() == Retired(old(View()), stop, now)
    {
      var asked := stop && !sending;
      job := None;
      if asked { outbox := outbox + [Stop]; }
      if !sending { closes := closes + 1; }
      if !asked { terminated := true; }
      retiredAt := Some(now);
    }
  }

  ghost function Numbers(cs: seq<Child>): (ws: seq<WorkerId>)
    ensures |ws| == |cs| && forall i | 0 <= i < |cs| :: ws[i] == cs[i].number
  {
    if cs == [] then [] else [cs[0].number] + Numbers(cs[1..])
  }

  ghost function Assigned(active: map<JobId, Child>): map<JobId, WorkerId> {
    map id | id in active :: active[id].number
  }

  ghost function Records(all: map<WorkerId, Child>): map<WorkerId, Worker>
    reads all.Values
  {
    map w | w in all :: all[w].View()
  }

  class JobStore {
    const cfg: Config
    var jobs: map<JobId, Job>
    var order: seq<JobId>
    var keys: map<(Owner, Key), JobId>
    var active: map<JobId, Child>
    var served: map<Owner, nat>
    var dispatched: nat
    var pool: seq<Child>
    var retiring: seq<Child>
    var backoffUntil: Seconds
    var stopping: bool
    var draining: bool
    var disk: Disk
    var stats: Stats
    ghost var all: map<WorkerId, Child> // every child there has been
    ghost var past: History

    ghost predicate Known(c: Child)
      reads this`all
    {
      c.number in all && all[c.number] == c
    }

    ghost predicate Rep()
      reads this`all, this`pool, this`retiring, this`active
    {
      && (forall w | w in all :: all[w].number == w)
      && (forall c | c in pool :: Known(c))
      && (forall c | c in retiring :: Known(c))
      && (forall id | id in active :: Known(active[id]))
    }

    ghost function View(): Store
      reads this, all.Values
    {
      Store(cfg, jobs, order, keys, Assigned(active), served, dispatched, Numbers(pool), Numbers(retiring),
            Records(all), backoffUntil, stopping, draining, disk, stats, past)
    }

    ghost predicate Valid()
      reads this, all.Values
    {
      Rep() && StoreInvariant.Valid(View(), {}, {})
    }

    // -------------------------------------------------------------- opening

    /** Open on the table an earlier run left: its rows kept are the jobs, read in the order listed. */
    constructor (cfg: Config, table: map<JobId, Row>, listed: seq<JobId>, env: Env)
      requires cfg.Legal() && Table(table) && Distinct(listed)
      requires forall id :: id in listed <==> id in Reopened(table, cfg.retention, env.wall)
      ensures Valid() && View() == Opened(cfg, table, listed, env)
    {
      hide StoreInvariant.Valid, Numbers, Assigned, Records, Reopened, NoStats, PastFrom, JobsFrom, KeysFrom;
      ReopenedDone(table, cfg.retention, env.wall);
      this.cfg := cfg;
      jobs, order, keys, active, served, dispatched := map[], listed, map[], map[], map[], 0;
      pool, retiring, backoffUntil, stopping, draining := [], [], 0.0, false, false;
      disk := Disk(Reopened(table, cfg.retention, env.wall), true);
      stats := NoStats(cfg);
      all := map[];
      past := PastFrom(Reopened(table, cfg.retention, env.wall), env);
      new;
      Load(env);
      OpenedValid(cfg, table, listed, env);
      assert View() == Opened(cfg, table, listed, env) by { NothingYet(); }
      assert Rep();
    }

    lemma NothingYet()
      ensures Numbers([]) == [] && Assigned(map[]) == map[] && Records(map[]) == map[]
    {
    }

    /** The jobs and keys of the rows, one row after the other. */
    method Load(env: Env)
      requires Distinct(order) && forall id :: id in order <==> id in disk.rows
      requires forall id | id in disk.rows :: disk.rows[id].finishedAt.Some?
      requires jobs == map[] && keys == map[]
      modifies this`jobs, this`keys
      ensures jobs == JobsFrom(disk.rows, env) && keys == KeysFrom(disk.rows, order)
    {
      hide KeysFrom;
      NoKeys(disk.rows);
      for i := 0 to |order|
        invariant jobs.Keys == set id | id in order[..i]
        invariant forall id | id in jobs :: id in disk.rows && jobs[id] == JobFrom(disk.rows[id], env)
        invariant keys == KeysFrom(disk.rows, order[..i])
      {
        var id := order[i];
        var r := disk.rows[id];
        KeysFromMore(disk.rows, order, i);
        assert order[..i + 1] == order[..i] + [id];
        jobs := jobs[id := JobFrom(r, env)];
        if r.key.Some? { keys := keys[(r.owner, r.key.value) := id]; }
      }
      assert order[..|order|] == order;
    }

    // -------------------------------------------------------------- ending a job

    method Write(id: JobId, env: Env)
      requires id in jobs
      modifies this`disk
      ensures disk == Updated(old(disk), id, jobs[id], env)
    {
      if !disk.open || id in env.lost || id !in disk.rows { return; }
      var j, r := jobs[id], disk.rows[id];
      disk := disk.(rows := disk.rows[id := r.(
        status := j.status, result := j.result, code := j.code, progress := j.progress,
        finishedAt := if j.finished.None? then None else Some(env.wall))]);
    }

    method Finish(id: JobId, status: Status, result: Option<Value>, code: Option<Code>, env: Env)
      requires Rep() && id in jobs
      modifies this`jobs, this`disk, this`stats, this`past
      ensures Rep() && View() == StoreModel.Finish(old(View()), id, status, result, code, env)
    {
      hide Numbers, Assigned, Records, Updated, StoreModel.Observe, Bump;
      var j := jobs[id].(status := status, result := result, code := code, input := None, finished := Some(env.now));
      jobs := jobs[id := j];
      Write(id, env);
      stats := stats.(ended := Bump(stats.ended, (j.owner, j.task, status)),
                      durations := StoreModel.Observe(stats.durations, j.task, env.now - j.submittedAt));
      past := past.(ends := past.ends[id := End(env.now, env.wall, j.owner, j.task, status)],
                    took := past.took + [Took(id, j.task, env.now - j.submittedAt)]);
    }

    method FailAllQueued(env: Env)
      requires Rep() && forall id | id in order :: id in jobs
      modifies this`jobs, this`disk, this`stats, this`past
      ensures Rep() && View() == FailQueued(old(View()), order, env)
    {
      hide Numbers, Records, StoreModel.Finish, SameDomain, Narrower;
      ghost var v := View();
      for i := 0 to |order|
        invariant Rep() && jobs.Keys == old(jobs.Keys)
        invariant FailQueued(v, order, env) == FailQueued(View(), order[i..], env)
      {
        var id := order[i];
        FailQueuedNext(View(), order[i..], env);
        assert order[i..][1..] == order[i + 1..];
        if jobs[id].status.Queued? && id !in active {
          FinishKeys(View(), id, Failed, None, Some(WorkerStartFailed), env);
          Finish(id, Failed, None, Some(WorkerStartFailed), env);
        }
      }
    }

    method StartFailed(env: Env)
      requires Rep() && forall id | id in order :: id in jobs
      modifies this`jobs, this`disk, this`stats, this`past, this`backoffUntil
      ensures Rep() && View() == StoreModel.StartFailed(old(View()), env)
    {
      hide Assigned, Records, FailQueued;
      backoffUntil := env.now + BACKOFF;
      if pool == [] && !draining {
        FailAllQueued(env);
      }
    }

    // -------------------------------------------------------------- retiring a child

    /** Only one child's record differs. */
    twostate lemma OnlyOne(c: Child)
      requires Known(c) && all == old(all) && old(allocated(c)) && Rep()
      requires forall w | w in all && all[w] != c :: all[w].View() == old(all[w].View())
      ensures c.number in old(Records(all)) && old(Records(all))[c.number] == old(c.View())
      ensures Records(all) == old(Records(all))[c.number := c.View()]
    {
    }

    lemma RecordOf(c: Child)
      requires Known(c)
      ensures c.number in Records(all) && Records(all)[c.number] == c.View() && c.View().job == c.job
    {
    }

    /** From the pool to the children that are leaving; its job has no child any more. */
    method TakeOut(c: Child)
      requires Rep() && Known(c)
      modifies this`pool, this`active, this`retiring
      ensures Rep()
      ensures View() == old(View()).(pool := Remove(old(View()).pool, c.number), active := WithoutJob(old(View()).active, c.job),
                                     retiring := old(View()).retiring + [c.number])
    {
      hide Numbers, Assigned, Records, Remove, WithoutJob, Child.View;
      RemoveNumber(pool, c);
      NumbersMore(retiring, c);
      AssignedLess(active, c.job);
      pool := Remove(pool, c);
      if c.job.Some? { active := active - {c.job.value}; }
      retiring := retiring + [c];
    }

    method Detach(c: Child, stop: bool, env: Env)
      requires Rep() && Known(c)
      modifies this`pool, this`active, this`retiring, c
      ensures Rep() && View() == StoreModel.Detach(old(View()), c.number, stop, env)
    {
      hide Retired, Numbers, Assigned, Records, SameDomain, Narrower, Remove, WithoutJob, Child.View;
      RecordOf(c);
      TakeOut(c);
      c.LeaveService(stop, env.now);
      OnlyOne(c);
    }

    method HoldBack(isReady: bool, died: bool, env: Env)
      requires Rep() && forall id | id in order :: id in jobs
      modifies this`jobs, this`disk, this`stats, this`past, this`backoffUntil
      ensures Rep() && View() == StoreModel.HoldBack(old(View()), isReady, died, env)
    {
      hide StoreModel.StartFailed, Numbers, Assigned, Records;
      if !isReady {
        if died {
          StartFailed(env);
        } else {
          backoffUntil := env.now + BACKOFF;
        }
      }
    }

    method Settle(id: JobId, env: Env)
      requires Rep()
      modifies this`jobs, this`disk, this`stats, this`past
      ensures Rep() && View() == StoreModel.Settle(old(View()), id, env)
    {
      hide StoreModel.Finish, Numbers, Assigned, Records;
      if id !in jobs || jobs[id].status.Terminal() { return; }
      if jobs[id].status.Queued? && !jobs[id].retried {
        jobs := jobs[id := jobs[id].(retried := true)];
      } else {
        Finish(id, Failed, None, Some(WorkerCrashed), env);
      }
    }

    method Retire(c: Child, stop: bool, died: bool, env: Env)
      requires Rep() && Known(c) && forall id | id in order :: id in jobs
      modifies this, c
      ensures Rep() && all == old(all) && View() == StoreModel.Retire(old(View()), c.number, stop, died, env)
    {
      hide StoreModel.Detach, StoreModel.HoldBack, StoreModel.Settle, Numbers, Assigned, SameDomain, Narrower;
      if c.retiredAt.Some? {
        RemoveNumber(pool, c);
        pool := Remove(pool, c);
        return;
      }
      var id, isReady := c.job, c.ready;
      Detach(c, stop, env);
      HoldBack(isReady, died, env);
      if id.Some? { Settle(id.value, env); }
    }

    method Unassign(c: Child, id: JobId)
      requires Rep() && Known(c)
      modifies this`active, c`job
      ensures Rep() && View() == StoreModel.Unassign(old(View()), c.number, id)
    {
      hide Numbers, Assigned, Records, SameDomain, Narrower;
      AssignedLess(active, Some(id));
      active := active - {id};
      c.job := None;
      OnlyOne(c);
    }

    lemma KnownLinked()
      requires Rep()
      ensures Linked(View())
    {
    }

    /** The job becomes terminal whatever its child does; if it has one, that child leaves service first. */
    method Abort(id: JobId, status: Status, code: Option<Code>, env: Env)
      requires Rep() && id in jobs && forall i | i in order :: i in jobs
      modifies this, all.Values
      ensures Rep() && all == old(all) && Linked(old(View()))
      ensures View() == StoreModel.Abort(old(View()), id, status, code, env)
    {
      hide StoreModel.Finish, StoreModel.Retire, StoreModel.Unassign, Numbers, Records, Narrower, Child.View, Linked;
      KnownLinked();
      if id in active {
        Evict(id, env);
      }
      Finish(id, status, None, code, env);
    }

    /** Take a job from its child and the child out of service. */
    method Evict(id: JobId, env: Env)
      requires Rep() && id in active && forall i | i in order :: i in jobs
      modifies this, active[id]
      ensures Rep() && all == old(all) && jobs.Keys == old(jobs.Keys)
      ensures var v := old(View());
              && id in v.active && v.active[id] in v.workers
              && View() == StoreModel.Retire(StoreModel.Unassign(v, v.active[id], id), v.active[id], false, false, env)
    {
      hide StoreModel.Retire, StoreModel.Unassign, Numbers, Records, Narrower, Child.View;
      var c := active[id];
      RecordOf(c);
      Unassign(c, id);
      Retire(c, false, false, env);
    }

    // -------------------------------------------------------------- giving children jobs

    lemma IsFree(c: Child)
      requires Rep() && Known(c)
      ensures Free(View(), c.number) <==> c.ready && c.job.None?
    {
    }

    /** The first child of the pool that is ready and has no job. */
    method FirstIdle() returns (c: Option<Child>)
      requires Rep()
      ensures match FirstFree(View(), View().pool) case None => c.None? case Some(w) => c.Some? && c.value in pool && c.value.number == w
    {
      hide Records, Assigned, Free;
      for i := 0 to |pool|
        invariant FirstFree(View(), Numbers(pool)) == FirstFree(View(), Numbers(pool)[i..])
      {
        assert Numbers(pool)[i..][0] == pool[i].number && Numbers(pool)[i..][1..] == Numbers(pool)[i + 1..];
        IsFree(pool[i]);
        if pool[i].ready && pool[i].job.None? { return Some(pool[i]); }
      }
      return None;
    }

    method Hand(c: Child, id: JobId)
      requires Rep() && Known(c)
      modifies this`active, this`past, c
      ensures Rep() && c.number in old(View()).workers && View() == AttachTo(old(View()), id, c.number)
    {
      hide Numbers, Assigned, Records, Bump;
      AssignedMore(active, id, c);
      c.Take(id);
      active := active[id := c];
      past := past.(attaches := Bump(past.attaches, id));
      OnlyOne(c);
    }

    /** A free child, if there is one, takes the job; the pair returned is a send still to be made. */
    method Attach(id: JobId) returns (send: Option<(Child, Work)>)
      requires Rep() && id in jobs
      modifies this`active, this`past, all.Values
      ensures Rep()
      ensures match StoreModel.Attach(old(View()), id)
              case None => send.None? && View() == old(View())
              case Some(r) =>
                && send.Some? && Known(send.value.0)
                && View() == r.0 && Send(send.value.0.number, send.value.1) == r.1
    {
      hide Numbers, Assigned, Records, FirstFree, AttachTo;
      var c := FirstIdle();
      if c.None? { return None; }
      Hand(c.value, id);
      return Some((c.value, Work(id, jobs[id].task, jobs[id].input)));
    }

    /** Of the owners with a queue, the one whose last turn is furthest back; on a tie the one queued first. */
    method LeastServed(queues: seq<Queue>) returns (i: nat)
      requires queues != []
      ensures i == Least(View(), queues)
    {
      hide Records, Assigned, Numbers;
      i := 0;
      for k := 1 to |queues|
        invariant i < k
        invariant forall m | 0 <= m < k :: LastServed(View(), queues[i].owner) <= LastServed(View(), queues[m].owner)
        invariant forall m | 0 <= m < i :: LastServed(View(), queues[i].owner) < LastServed(View(), queues[m].owner)
      {
        var best := if queues[i].owner in served then served[queues[i].owner] else -1;
        var next := if queues[k].owner in served then served[queues[k].owner] else -1;
        if next < best { i := k; }
      }
    }

    /** Queue the waiting jobs by owner, each owner's in the order given. */
    method Sort(waiting: seq<JobId>) returns (queues: seq<Queue>)
      requires forall id | id in waiting :: id in jobs
      ensures queues == Queues(View(), waiting)
    {
      hide Records, Assigned, Numbers, Enqueue;
      queues := [];
      for i := 0 to |waiting|
        invariant queues == Queues(View(), waiting[..i])
      {
        assert waiting[..i + 1][..i] == waiting[..i];
        queues := Enqueue(queues, jobs[waiting[i]].owner, waiting[i]);
      }
      assert waiting[..|waiting|] == waiting;
    }

    /** Turn by turn, while children are free, the owner due next gets one for the head of its queue. */
    method Dispatch(waiting: seq<JobId>) returns (sends: seq<(Child, Work)>)
      requires Rep() && forall id | id in waiting :: id in jobs
      modifies this`active, this`past, this`served, this`dispatched, all.Values
      ensures Rep() && Stocked(old(View()), Queues(old(View()), waiting))
      ensures (View(), SendsOf(sends)) == StoreModel.Dispatch(old(View()), Queues(old(View()), waiting))
    {
      hide StoreModel.Dispatch, Records, Assigned, Numbers, Queues, SendsOf, Stocked;
      var queues := Sort(waiting);
      QueuesReady(View(), waiting);
      sends := Serve(queues);
    }

    /** The owner whose job got a child is now the one served last. */
    method TakeTurn(ghost owners: seq<Owner>, owner: Owner)
      requires Rep()
      modifies this`past, this`served, this`dispatched
      ensures Rep() && View() == Dispatched(old(View()), owners, owner)
    {
      hide Records, Assigned, Numbers;
      past := past.(picks := past.picks + [Pick(owners, owner)]);
      dispatched := dispatched + 1;
      served := served[owner := dispatched];
    }

    method ServeOne(queues: seq<Queue>, i: nat) returns (send: Option<(Child, Work)>)
      requires Rep() && Stocked(View(), queues) && queues != [] && i == Least(View(), queues)
      modifies this`active, this`past, this`served, this`dispatched, all.Values
      ensures Rep() && queues[i].ids != []
      ensures match send
              case None => View() == old(View()) && StoreModel.Dispatch(old(View()), queues) == (View(), [])
              case Some(r) =>
                && Known(r.0) && Stocked(View(), Pop(queues, i))
                && StoreModel.Dispatch(old(View()), queues) ==
                   (StoreModel.Dispatch(View(), Pop(queues, i)).0,
                    [Send(r.0.number, r.1)] + StoreModel.Dispatch(View(), Pop(queues, i)).1)
    {
      hide StoreModel.Dispatch, StoreModel.Attach, Records, Assigned, Numbers, Least, Pop, Owners, Stocked, Dispatched;
      DispatchNext(View(), queues);
      send := Attach(queues[i].ids[0]);
      if send.Some? {
        TakeTurn(Owners(queues), queues[i].owner);
      }
    }

    method Serve(all0: seq<Queue>) returns (sends: seq<(Child, Work)>)
      requires Rep() && Stocked(View(), all0)
      modifies this`active, this`past, this`served, this`dispatched, all.Values
      ensures Rep() && (View(), SendsOf(sends)) == StoreModel.Dispatch(old(View()), all0)
    {
      hide StoreModel.Dispatch, View, Least, Pop, SendsOf, Stocked;
      var queues := all0;
      sends := [];
      NoSends();
      ghost var (u, rest) := StoreModel.Dispatch(View(), all0);
      assert [] + rest == rest;
      while queues != []
        invariant Rep() && Stocked(View(), queues)
        invariant u == StoreModel.Dispatch(View(), queues).0
        invariant rest == SendsOf(sends) + StoreModel.Dispatch(View(), queues).1
        decreases Waiters(queues)
      {
        var i := LeastServed(queues);
        ghost var done := SendsOf(sends);
        var send := ServeOne(queues, i);
        if send.None? {
          assert done + [] == done;
          return;
        }
        PopWaiters(queues, i);
        SendsMore(sends, send.value);
        sends := sends + [send.value];
        queues := Pop(queues, i);
        Regroup(done, Send(send.value.0.number, send.value.1), StoreModel.Dispatch(View(), queues).1);
      }
      DispatchDone(View());
      assert SendsOf(sends) + [] == SendsOf(sends);
    }

    /** After the send outside the lock: the pipe is let go of, and a child whose pipe failed is retired. */
    method Sent(c: Child, failed: bool, env: Env)
      requires Rep() && Known(c) && forall id | id in order :: id in jobs
      modifies this, c
      ensures Rep() && all == old(all) && View() == StoreModel.Sent(old(View()), c.number, failed, env)
    {
      hide StoreModel.Retire, Numbers, Assigned, Records, SameDomain, Narrower;
      c.sending := false;
      if c.retiredAt.Some? { c.closes := c.closes + 1; }
      OnlyOne(c);
      if failed && c.retiredAt.None? {
        Retire(c, false, false, env);
      }
    }

    // -------------------------------------------------------------- reading what children send

    method Conclude(c: Child, id: JobId, value: Option<Value>, env: Env)
      requires Rep() && Known(c) && id in jobs
      modifies this`active, this`jobs, this`disk, this`stats, this`past, c`job
      ensures Rep() && View() == Concluded(old(View()), c.number, id, value, env)
    {
      hide StoreModel.Finish, StoreModel.Unassign, Numbers, Assigned, Records, SameDomain, Narrower;
      Unassign(c, id);
      if value.Some? {
        Finish(id, Succeeded, value, None, env);
      } else {
        Finish(id, Failed, None, Some(TaskFailed), env);
      }
    }

    method EndJob(c: Child, id: JobId, value: Option<Value>, env: Env)
      requires Rep() && Known(c) && id in jobs && forall i | i in order :: i in jobs
      modifies this, c
      ensures Rep() && all == old(all) && View() == Ended(old(View()), c.number, id, value, env)
    {
      hide Concluded, StoreModel.Retire, Numbers, Assigned, Narrower;
      Conclude(c, id, value, env);
      if c.served >= cfg.maxJobs {
        Retire(c, true, false, env);
      }
    }

    lemma IsHeard(c: Child, id: JobId)
      requires Rep() && Known(c)
      ensures Heard(View(), c.number, id) <==> c.job == Some(id) && id in jobs && !jobs[id].status.Terminal()
    {
    }

    /** The child is ready, or has loaded its models. */
    method Mark(c: Child, isReady: bool)
      requires Rep() && Known(c)
      modifies c`ready, c`loaded
      ensures Rep() && c.number in old(View()).workers
      ensures var v := old(View()); var k := v.workers[c.number];
              View() == WithWorker(v, c.number, if isReady then k.(ready := true) else k.(loaded := true))
    {
      hide Numbers, Assigned, Records, SameDomain, Narrower;
      if isReady { c.ready := true; } else { c.loaded := true; }
      OnlyOne(c);
    }

    /** The effect of one message on the store; ended tells whether the sender's job is over because of it. */
    method DrainMessage(c: Child, m: Message, env: Env) returns (ended: bool)
      requires Rep() && Known(c) && forall id | id in order :: id in jobs
      modifies this, c
      ensures Rep() && all == old(all)
      ensures (View(), ended) == Deliver(old(View()), c.number, m, env)
    {
      hide Ended, Numbers, Assigned, Records, StoreModel.Observe, Heard, SameDomain, Narrower, WithWorker, Child.View;
      if m.Ready? || m.Loaded? {
        Mark(c, m.Ready?);
        return false;
      }
      IsHeard(c, m.id);
      if c.job != Some(m.id) || m.id !in jobs || jobs[m.id].status.Terminal() { return false; }
      if m.Started? {
        var j := jobs[m.id];
        jobs := jobs[m.id := j.(status := Running, startedAt := Some(env.now))];
        stats := stats.(waits := StoreModel.Observe(stats.waits, j.task, env.now - j.submittedAt));
        return false;
      } else if m.Progressed? {
        jobs := jobs[m.id := jobs[m.id].(progress := Some(m.progress))];
        return false;
      }
      EndJob(c, m.id, if m.Returned? then Some(m.value) else None, env);
      return true;
    }

    /** Take the oldest message off a child's pipe and apply it. */
    method Receive(c: Child, env: Env) returns (ended: bool)
      requires Rep() && Known(c) && c.inbox != [] && forall id | id in order :: id in jobs
      modifies this, c
      ensures Rep() && all == old(all) && c.inbox == old(c.inbox[1..]) && forall id | id in order :: id in jobs
      ensures c.number in old(View()).workers && old(View()).workers[c.number].inbox != []
      ensures (View(), ended) == Taken(old(View()), c.number, env)
    {
      hide Deliver, Numbers, Assigned, Narrower;
      var m := c.inbox[0];
      c.inbox := c.inbox[1..];
      OnlyOne(c);
      ended := DrainMessage(c, m, env);
    }

    /** Messages are applied in order until one ends the child's job or none is left; with the pipe at its end and read
        out, the child leaves service as one that died. */
    method Drain(c: Child, gone: bool, env: Env)
      requires Rep() && Known(c) && forall id | id in order :: id in jobs
      modifies this, c
      ensures Rep() && all == old(all) && View() == StoreModel.Drain(old(View()), c.number, gone, env)
    {
      hide StoreModel.Drain, Taken, StoreModel.Retire, Numbers, Assigned, Narrower, SameDomain;
      ghost var v := View();
      while c.retiredAt.None? && c.inbox != []
        invariant Rep() && all == old(all) && forall id | id in order :: id in jobs
        invariant StoreModel.Drain(v, c.number, gone, env) == StoreModel.Drain(View(), c.number, gone, env)
        decreases |c.inbox|
      {
        DrainNext(View(), c.number, gone, env);
        var ended := Receive(c, env);
        if ended { return; }
      }
      DrainNext(View(), c.number, gone, env);
      if c.retiredAt.Some? || gone {
        Retire(c, false, true, env);
      }
    }

    // -------------------------------------------------------------- retention and admission

    /** Drop every stale job and its key; what stays, in the table's order, and what goes. */
    method Sweep(now: Seconds) returns (kept: seq<JobId>, gone: set<JobId>)
      requires Rep() && Distinct(order) && forall id :: id in order <==> id in jobs
      modifies this`jobs, this`keys
      ensures Rep() && View() == old(View()).(jobs := jobs, keys := keys)
      ensures Swept(old(View()), |old(order)|, now, jobs, keys, kept, gone)
    {
      hide Numbers, Assigned, Records, Stale, StaleOf, KeysOf, Fresh, Swept, Rep, Known;
      ghost var v := View();
      kept, gone := [], {};
      SweepFirst(v, now);
      for i := 0 to |order|
        invariant Rep() && Swept(v, i, now, jobs, keys, kept, gone)
      {
        var id := order[i];
        SweepMeets(v, i, now, jobs, keys, kept, gone);
        if Stale(jobs[id], cfg.retention, now) {
          SweepGone(v, i, now, jobs, keys, kept, gone);
          if jobs[id].key.Some? { keys := keys - {(jobs[id].owner, jobs[id].key.value)}; }
          jobs := jobs - {id};
          gone := gone + {id};
        } else {
          SweepKept(v, i, now, jobs, keys, kept, gone);
          kept := kept + [id];
        }
      }
    }

    /** Let go of the jobs whose retention is over, with their keys and rows. */
    method Expire(env: Env)
      requires Rep() && Distinct(order) && forall id :: id in order <==> id in jobs
      modifies this`jobs, this`order, this`keys, this`disk
      ensures Rep() && View() == StoreModel.Expire(old(View()), env)
    {
      hide Numbers, Assigned, Records, Swept, StoreModel.Expire, Rep, Known;
      ghost var v := View();
      var kept, gone := Sweep(env.now);
      SweepLast(v, env, jobs, keys, kept, gone);
      order := kept;
      if disk.open && !env.kept { disk := disk.(rows := disk.rows - gone); }
    }

    /** The wait, rounded up and at least a second, until some finished job is dropped: any, or one of a given owner. */
    method RetryAfter(owner: Option<Owner>, now: Seconds) returns (wait: int)
      ensures wait == StoreModel.RetryAfter(View(), owner, now)
    {
      hide Numbers, Assigned, Records;
      var first: Option<Seconds> := None;
      var i: nat := |order|;
      while i > 0
        invariant 0 <= i <= |order| && first == FirstFinish(View(), order[i..], owner)
      {
        i := i - 1;
        assert order[i..][0] == order[i] && order[i..][1..] == order[i + 1..];
        var id := order[i];
        if id in jobs && jobs[id].finished.Some? && (owner.None? || owner == Some(jobs[id].owner)) {
          var f := jobs[id].finished.value;
          if first.None? || f <= first.value { first := Some(f); }
        }
      }
      assert order[0..] == order;
      if first.None? { return 1; }
      return Max(1, Ceil(first.value + cfg.retention - now));
    }

    /** How many jobs one owner holds. */
    method CountHeld(owner: Owner) returns (held: nat)
      requires Distinct(order) && forall id :: id in order <==> id in jobs
      ensures held == |HeldBy(jobs, owner)|
    {
      held := 0;
      for i := 0 to |order|
        invariant held == |HeldAmong(jobs, order[..i], owner)|
      {
        AmongMore(jobs, order, i, owner);
        if jobs[order[i]].owner == owner { held := held + 1; }
      }
      AmongAll(jobs, order, owner);
    }

    /** How many jobs are unfinished. */
    method CountOpen() returns (open: nat)
      requires Distinct(order) && forall id :: id in order <==> id in jobs
      ensures open == |OpenJobs(jobs)|
    {
      open := 0;
      for i := 0 to |order|
        invariant open == |OpenAmong(jobs, order[..i])|
      {
        AmongMore(jobs, order, i, jobs[order[i]].owner);
        if !jobs[order[i]].status.Terminal() { open := open + 1; }
      }
      OpenAll(jobs, order);
    }

    /** True exactly when a job without a terminal status is held. */
    method Busy() returns (busy: bool)
      requires forall id :: id in order <==> id in jobs
      ensures busy <==> exists id :: Unfinished(View(), id)
    {
      hide Numbers, Assigned, Records;
      for i := 0 to |order|
        invariant forall k | 0 <= k < i :: jobs[order[k]].status.Terminal()
      {
        if !jobs[order[i]].status.Terminal() {
          assert Unfinished(View(), order[i]);
          return true;
        }
      }
      return false;
    }

    method Full(owner: Owner, pace: Option<Seconds>, now: Seconds) returns (full: Option<Answer>)
      requires cfg.concurrency > 0 && Distinct(order) && forall id :: id in order <==> id in jobs
      ensures full == Limit(View(), owner, pace, now)
    {
      hide Numbers, Assigned, Records, HeldBy, OpenJobs, StoreModel.RetryAfter, Turnover, Min, Max;
      var held := CountHeld(owner);
      var open := CountOpen();
      if cfg.ownerCapacity.Some? && held >= cfg.ownerCapacity.value {
        var wait := RetryAfter(Some(owner), now);
        return Some(Refused(OwnerFull, wait));
      }
      if open >= cfg.capacity {
        var wait := if pace.None? then 1 else Turnover(open, cfg.concurrency, pace.value);
        return Some(Refused(ActiveFull, Min(300, Max(1, wait))));
      }
      if |jobs| - open >= cfg.resultCapacity {
        var wait := RetryAfter(None, now);
        return Some(Refused(ResultsFull, wait));
      }
      return None;
    }

    /** A new job under its id, with its key and its row. */
    method Enter(id: JobId, j: Job, env: Env)
      requires Rep()
      modifies this`jobs, this`order, this`keys, this`disk
      ensures Rep()
      ensures var v := old(View());
              View() == v.(
                jobs := v.jobs[id := j], order := v.order + [id],
                keys := if j.key.Some? then v.keys[(j.owner, j.key.value) := id] else v.keys,
                disk := if v.disk.open then v.disk.(rows := Insert(v.disk.rows, id, RowOf(j, env.wall))) else v.disk)
    {
      hide Numbers, Assigned, Records, Insert, RowOf, Rep, Known;
      if disk.open { disk := disk.(rows := Insert(disk.rows, id, RowOf(j, env.wall))); }
      jobs := jobs[id := j];
      order := order + [id];
      if j.key.Some? { keys := keys[(j.owner, j.key.value) := id]; }
    }

    method Admit(req: Request, id: JobId, env: Env)
      requires Rep()
      modifies this`jobs, this`order, this`keys, this`disk, this`stats, this`past
      ensures Rep() && View() == StoreModel.Admit(old(View()), req, id, env)
    {
      hide Numbers, Assigned, Records, Insert, RowOf, Bump, Rep, Known;
      Enter(id, NewJob(req, env.now), env);
      stats := stats.(submitted := Bump(stats.submitted, (req.owner, req.task)));
      past := past.(issued := past.issued[id := Work(id, req.task, Some(req.payload))],
                    arrivals := past.arrivals[id := env.now]);
    }

    /** What the methods below need of a valid store. */
    lemma Sound()
      requires Valid()
      ensures Rep() && cfg.Legal() && Distinct(order) && forall id :: id in order <==> id in jobs
    {
    }

    method Accept(req: Request, id: JobId, pace: Option<Seconds>, env: Env) returns (answer: Answer)
      requires Valid() && cfg.concurrency > 0
      modifies this
      ensures Rep() && all == old(all)
      ensures (View(), answer) == StoreModel.Accept(old(View()), req, id, pace, env)
    {
      hide Valid, StoreInvariant.Valid, StoreModel.Expire, StoreModel.Admit, Limit, Numbers, Assigned, Records;
      Sound();
      if draining { return Refused(IsDraining, 0); }
      if stopping { return Refused(IsStopping, 1); }
      ghost var v := View();
      Expire(env);
      ExpireBooks(v, env);
      if req.key.Some? && (req.owner, req.key.value) in keys {
        return Repeated(keys[(req.owner, req.key.value)]);
      }
      var full := Full(req.owner, pace, env.now);
      if full.Some? { return full.value; }
      if disk.open && id in env.lost { return Refused(NotWritten, 1); }
      Admit(req, id, env);
      return Accepted(id);
    }

    method Submit(req: Request, id: JobId, pace: Option<Seconds>, env: Env) returns (answer: Answer)
      requires Valid() && cfg.concurrency > 0 && Unused(View(), id)
      modifies this
      ensures Valid() && (View(), answer) == StoreModel.Submit(old(View()), req, id, pace, env)
    {
      hide StoreInvariant.Valid, StoreModel.Accept, Numbers, Assigned, Records, Unused, Bump;
      SubmitKeeps(View(), req, id, pace, env);
      Sound();
      if req.owner !in cfg.owners { return Refused(NotAnOwner, 0); }
      if !(100 <= req.timeoutMs <= 300000) { return Refused(BadTimeout, 0); }
      answer := Accept(req, id, pace, env);
      if answer.Refused? && answer.why != IsDraining {
        stats := stats.(rejected := Bump(stats.rejected, req.owner));
      }
    }

    /** A job's public record, for the owner that submitted it. */
    method Get(id: JobId, owner: Owner, env: Env) returns (shown: Option<Public>)
      requires Valid()
      modifies this
      ensures Valid() && View() == StoreModel.Expire(old(View()), env)
      ensures shown.Some? <==> Owned(View(), id, owner)
      ensures shown.Some? ==> Shows(shown.value, View().jobs[id])
    {
      hide StoreInvariant.Valid, StoreModel.Expire, Numbers, Assigned, Records;
      ExpireKeeps(View(), env);
      Sound();
      Expire(env);
      if id in jobs && jobs[id].owner == owner { return Some(PublicOf(jobs[id])); }
      return None;
    }

    method Cancel(id: JobId, owner: Owner, env: Env) returns (shown: Option<Public>)
      requires Valid()
      modifies this, all.Values
      ensures Valid() && Linked(old(View())) && (forall i | i in old(View()).order :: i in old(View()).jobs)
      ensures View() == StoreModel.Cancel(old(View()), id, owner, env)
      ensures shown.Some? <==> Owned(View(), id, owner)
      ensures shown.Some? ==> Shows(shown.value, View().jobs[id])
    {
      hide StoreInvariant.Valid, StoreModel.Expire, StoreModel.Abort, Numbers, Assigned, Records;
      ghost var v := View();
      CancelKeeps(v, id, owner, env);
      ExpireKeeps(v, env);
      Sound();
      KnownLinked();
      Expire(env);
      ExpireBooks(v, env);
      if id !in jobs || jobs[id].owner != owner { return None; }
      if !jobs[id].status.Terminal() {
        ghost var u := View();
        Abort(id, Cancelled, None, env);
        StaysOwned(u, id, env);
      }
      return Some(PublicOf(jobs[id]));
    }


    // -------------------------------------------------------------- draining

    lemma NumbersKnown(cs: seq<Child>)
      requires Rep() && forall c | c in cs :: Known(c)
      ensures forall w | w in Numbers(cs) :: w in View().workers
    {
      forall w | w in Numbers(cs) ensures w in View().workers {
        var i :| 0 <= i < |cs| && Numbers(cs)[i] == w;
        assert Known(cs[i]);
      }
    }

    lemma KnownRecord(c: Child)
      requires Rep() && Known(c)
      ensures c.number in View().workers && View().workers[c.number] == c.View()
    {
    }

    /** What passes through a child's pipe, at the child's end: the program only ever sees it happen. */
    method Carry(c: Child, traffic: Traffic)
      requires Rep() && Known(c)
      modifies c`inbox, c`outbox
      ensures Rep() && c.number in old(View()).workers && View() == Carried(old(View()), c.number, traffic)
    {
      hide Numbers, Assigned, Records;
      c.inbox := c.inbox + traffic.sent;
      if Takes(c.outbox, traffic.taken) { c.outbox := c.outbox[traffic.taken..]; }
      OnlyOne(c);
    }

    /** Read a child, what comes meanwhile included. */
    method ReadChild(c: Child, sight: Sight, env: Env)
      requires Rep() && Known(c) && forall id | id in order :: id in jobs
      modifies this, c
      ensures Rep() && all == old(all) && (forall id | id in order :: id in jobs) && Passes.Ready(old(View()), c.number)
      ensures View() == DrainOne(old(View()), c.number, sight, env)
    {
      hide StoreModel.Drain, Assigned, Numbers, Records, Carried;
      KnownRecord(c);
      Carry(c, sight.early);
      Drain(c, sight.ended, env);
    }

    /** Deliver what every child of the pool has sent by the time it is read. */
    method DrainPool(sights: map<WorkerId, Sight>, env: Env)
      requires Rep() && forall id | id in order :: id in jobs
      modifies this, all.Values
      ensures Rep() && all == old(all) && forall id | id in order :: id in jobs
      ensures PoolKnown(old(View())) && View() == DrainAll(old(View()), old(View()).pool, sights, env)
    {
      hide DrainOne, Assigned, Numbers;
      ghost var v := View();
      var cs := pool;
      NumbersKnown(cs);
      for i := 0 to |cs|
        invariant Rep() && all == old(all) && forall id | id in order :: id in jobs
        invariant View().workers.Keys == v.workers.Keys && forall c | c in cs :: Known(c)
        invariant DrainAll(v, Numbers(cs), sights, env) == DrainAll(View(), Numbers(cs)[i..], sights, env)
      {
        assert Numbers(cs)[i..][0] == cs[i].number && Numbers(cs)[i..][1..] == Numbers(cs)[i + 1..];
        assert Known(cs[i]);
        ReadChild(cs[i], SightOf(sights, cs[i].number), env);
      }
    }

    method AbortWhen(id: JobId, queuedOnly: bool, status: Status, code: Option<Code>, env: Env)
      requires Rep() && id in jobs && forall i | i in order :: i in jobs
      modifies this, all.Values
      ensures Rep() && all == old(all) && Linked(old(View()))
      ensures View() == AbortIf(old(View()), id, queuedOnly, status, code, env)
    {
      hide StoreModel.Abort, Assigned, Numbers, Records, Narrower, Linked;
      KnownLinked();
      if !jobs[id].status.Terminal() && (!queuedOnly || jobs[id].status.Queued?) {
        Abort(id, status, code, env);
      }
    }

    method AbortEvery(queuedOnly: bool, status: Status, code: Option<Code>, env: Env)
      requires Rep() && forall i | i in order :: i in jobs
      modifies this, all.Values
      ensures Rep() && all == old(all) && Linked(old(View())) && forall id | id in order :: id in jobs
      ensures View() == AbortAll(old(View()), old(order), queuedOnly, status, code, env)
    {
      hide AbortIf, AbortAll, Assigned, Numbers, Records, Narrower, Linked;
      ghost var v := View();
      KnownLinked();
      var ids := order;
      for i := 0 to |ids|
        invariant Rep() && all == old(all) && Linked(View()) && order == ids && forall id | id in order :: id in jobs
        invariant AbortAll(v, ids, queuedOnly, status, code, env) ==
                  AbortAll(View(), ids[i..], queuedOnly, status, code, env)
      {
        assert ids[i..][0] == ids[i] && ids[i..][1..] == ids[i + 1..];
        AbortAllNext(View(), ids[i..], queuedOnly, status, code, env);
        AbortWhen(ids[i], queuedOnly, status, code, env);
        KnownLinked();
      }
      AbortAllNone(View(), queuedOnly, status, code, env);
    }

    /** From here on nothing is accepted; queued jobs fail unless a start message that arrived in time says otherwise. */
    method DrainStore(sights: map<WorkerId, Sight>, env: Env)
      requires Valid()
      modifies this, all.Values
      ensures Valid() && draining && forall id | id in jobs :: !jobs[id].status.Queued?
      ensures View() == DrainedStore(old(View()), sights, env)
    {
      hide StoreInvariant.Valid, View, DrainAll, AbortAll, Narrower, Rep, Known;
      ghost var v := View();
      Exposed();
      DrainedKeeps(v, sights, env);
      DrainCalls(v, sights, env);
      Sound();
      Refuse();
      DrainPool(sights, env);
      Exposed();
      AbortEvery(true, Failed, Some(ServiceRestarted), env);
      Exposed();
    }

    method Refuse()
      requires Rep()
      modifies this`draining
      ensures Rep() && View() == old(View()).(draining := true)
    {
      hide Assigned, Numbers, Records;
      draining := true;
    }

    lemma Exposed()
      ensures View().jobs == jobs && View().draining == draining && View().order == order
    {
    }

    // -------------------------------------------------------------- the coordinator's tick

    /** An exited child: what it still sent is read, and it is retired. */
    method ReadAgain(c: Child, env: Env)
      requires Rep() && Known(c) && forall id | id in order :: id in jobs
      modifies this, c
      ensures Rep() && all == old(all) && Passes.Ready(old(View()), c.number)
      ensures View() ==
              StoreModel.Retire(StoreModel.Drain(old(View()), c.number, true, env), c.number, false, true, env)
    {
      hide StoreModel.Drain, StoreModel.Retire, Assigned, Numbers, Records, Narrower, SameDomain;
      KnownRecord(c);
      Drain(c, true, env);
      Retire(c, false, true, env);
    }

    /** One child: read out, and retired when it has exited or never said it was ready in time. */
    method PollChild(c: Child, sight: Sight, env: Env)
      requires Rep() && Known(c) && forall id | id in order :: id in jobs
      modifies this, c
      ensures Rep() && all == old(all) && forall id | id in order :: id in jobs
      ensures View() == Poll(old(View()), c.number, sight, env)
    {
      hide DrainOne, StoreModel.Drain, StoreModel.Retire, Assigned, Numbers, Records, Narrower, Carried;
      ReadChild(c, sight, env);
      Carry(c, sight.late);
      KnownRecord(c);
      if c.retiredAt.None? && sight.exited {
        ReadAgain(c, env);
      } else if !c.ready && env.now - c.startedAt >= READY {
        Retire(c, false, false, env);
      }
    }

    method PollPool(sights: map<WorkerId, Sight>, env: Env)
      requires Rep() && forall id | id in order :: id in jobs
      modifies this, all.Values
      ensures Rep() && all == old(all) && forall id | id in order :: id in jobs
      ensures PoolKnown(old(View())) && View() == PollAll(old(View()), old(View()).pool, sights, env)
    {
      hide Poll, Assigned, Numbers;
      ghost var v := View();
      var cs := pool;
      NumbersKnown(cs);
      for i := 0 to |cs|
        invariant Rep() && all == old(all) && forall id | id in order :: id in jobs
        invariant View().workers.Keys == v.workers.Keys && forall c | c in cs :: Known(c)
        invariant PollAll(v, Numbers(cs), sights, env) == PollAll(View(), Numbers(cs)[i..], sights, env)
      {
        assert Numbers(cs)[i..][0] == cs[i].number && Numbers(cs)[i..][1..] == Numbers(cs)[i + 1..];
        assert Known(cs[i]);
        PollChild(cs[i], SightOf(sights, cs[i].number), env);
      }
    }

    /** One job in the tick's pass: ended when due or drained; waits says it is queued without a child. */
    method Visit(id: JobId, env: Env) returns (waits: bool)
      requires Rep() && id in jobs && forall i | i in order :: i in jobs
      modifies this, all.Values
      ensures Rep() && all == old(all) && Linked(old(View()))
      ensures (View(), waits) == StoreModel.Visit(old(View()), id, env)
    {
      hide StoreModel.Abort, Numbers, Records, Narrower;
      KnownLinked();
      if jobs[id].status.Terminal() { return false; }
      if env.now >= jobs[id].deadline {
        Abort(id, TimedOut, Some(DeadlineExceeded), env);
        return false;
      }
      if jobs[id].status.Queued? && draining {
        Abort(id, Failed, Some(ServiceRestarted), env);
        return false;
      }
      return jobs[id].status.Queued? && id !in active;
    }

    /** The pass over the table: deadlines, and the jobs that wait for a child. */
    method Scan(env: Env) returns (waiting: seq<JobId>)
      requires Rep() && forall i | i in order :: i in jobs
      modifies this, all.Values
      ensures Rep() && all == old(all) && Linked(old(View())) && forall i | i in waiting :: i in jobs
      ensures (View(), waiting) == StoreModel.Scan(old(View()), old(order), env)
    {
      hide StoreModel.Visit, Assigned, Numbers, Records, Narrower;
      ghost var v := View();
      KnownLinked();
      var ids := order;
      waiting := [];
      ghost var (u, all0) := StoreModel.Scan(v, ids, env);
      assert [] + all0 == all0;
      for i := 0 to |ids|
        invariant Rep() && all == old(all) && Linked(View()) && order == ids && jobs.Keys == v.jobs.Keys
        invariant u == StoreModel.Scan(View(), ids[i..], env).0
        invariant all0 == waiting + StoreModel.Scan(View(), ids[i..], env).1
      {
        assert ids[i..][0] == ids[i] && ids[i..][1..] == ids[i + 1..];
        ghost var before := waiting;
        ScanNext(View(), ids[i..], before, env);
        var waits := Visit(ids[i], env);
        KnownLinked();
        if waits { waiting := waiting + [ids[i]]; }
      }
      assert waiting + [] == waiting;
    }

    /** The coordinator's locked section; what is to be sent once the lock is let go. */
    method Tick(sights: map<WorkerId, Sight>, env: Env) returns (sends: seq<(Child, Work)>)
      requires Valid()
      modifies this, all.Values
      ensures Valid()
      ensures (View(), SendsOf(sends)) == Ticked(old(View()), sights, env)
    {
      hide StoreInvariant.Valid, Assigned, Numbers, Records, StoreModel.Expire, PollAll, StoreModel.Scan,
        StoreModel.Dispatch, Narrower, Queues, SendsOf;
      ghost var v := View();
      TickedKeeps(v, sights, env);
      Sound();
      Expire(env);
      ExpireBooks(v, env);
      PollPool(sights, env);
      var waiting := Scan(env);
      sends := Dispatch(waiting);
    }

    // -------------------------------------------------------------- starting, reaping and closing

    /** Whether the pool wants another child now. */
    method Wanted(now: Seconds) returns (wanted: bool)
      ensures wanted == MayStart(View(), now)
    {
      hide Assigned, Records;
      return !stopping && !draining && |pool| < cfg.concurrency && now >= backoffUntil;
    }

    /** A start outside the lock has come to its end: it failed, or the child joins the pool unless the store is
        stopping meanwhile. */
    method Started(up: bool, w: WorkerId, env: Env)
      requires Valid() && w !in View().workers && |pool| < cfg.concurrency
      modifies this
      ensures Valid()
      ensures View() == if !up then StoreModel.StartFailed(old(View()), env)
                        else if old(stopping) then old(View()) else StoreModel.Join(old(View()), w, env.now)
    {
      hide StoreInvariant.Valid, StoreModel.StartFailed, Assigned, Numbers, Records, Calm, Narrower;
      Sound();
      if !up {
        StartFailedKeeps(View(), env, {});
        StartFailed(env);
      } else if !stopping {
        JoinKeeps(View(), w, env.now);
        KnownKeys();
        Join(w, env.now);
      }
    }

    lemma KnownKeys()
      ensures View().workers.Keys == all.Keys
    {
    }

    method Join(w: WorkerId, now: Seconds)
      requires Rep() && w !in all
      modifies this`pool, this`all
      ensures Rep() && View() == StoreModel.Join(old(View()), w, now)
    {
      hide Assigned, Numbers, Records, Child.View;
      var c := new Child(w, now);
      NumbersMore(pool, c);
      all := all[w := c];
      pool := pool + [c];
      NewRecord(c);
    }

    /** A new record beside the old ones. */
    twostate lemma NewRecord(new c: Child)
      requires old(Rep()) && c.number !in old(all) && all == old(all)[c.number := c]
      requires forall w | w in old(all) :: old(all)[w].View() == old(all[w].View())
      ensures Records(all) == old(Records(all))[c.number := c.View()]
    {
    }

    /** Outside the lock, over the children retired when the tick ended: kill those that linger, let go of the gone. */
    method Reap(cs: seq<Child>, alive: set<WorkerId>, now: Seconds)
      requires Valid() && forall c | c in cs :: Known(c) && c.retiredAt.Some?
      modifies this, all.Values
      ensures Valid() && Retirees(old(View()), Numbers(cs))
      ensures View() == ForgetAll(Killed(old(View()), Numbers(cs), alive, now), Numbers(cs), alive)
    {
      hide StoreInvariant.Valid, Assigned, Numbers, Records;
      ghost var v := View();
      NumbersRetired(cs);
      KilledKeeps(v, Numbers(cs), alive, now);
      ForgetAllKeeps(Killed(v, Numbers(cs), alive, now), Numbers(cs), alive);
      KillLate(cs, alive, now);
      LetGo(cs, alive);
    }

    lemma NumbersRetired(cs: seq<Child>)
      requires Rep() && forall c | c in cs :: Known(c) && c.retiredAt.Some?
      ensures Retirees(View(), Numbers(cs))
    {
      forall w | w in Numbers(cs) ensures w in View().workers && View().workers[w].retiredAt.Some? {
        var i :| 0 <= i < |cs| && Numbers(cs)[i] == w;
        assert Known(cs[i]);
      }
    }

    method Kill(c: Child)
      requires Rep() && Known(c)
      modifies c`killed
      ensures c.number in old(View()).workers
      ensures View() == old(View()).(workers := old(View()).workers[c.number := old(View()).workers[c.number].(killed := true)])
      ensures c.retiredAt == old(c.retiredAt)
    {
      hide Assigned, Numbers, Records;
      c.killed := true;
      OnlyOne(c);
    }

    method KillLate(cs: seq<Child>, alive: set<WorkerId>, now: Seconds)
      requires Rep() && forall c | c in cs :: Known(c) && c.retiredAt.Some?
      modifies all.Values
      ensures Rep() && Retirees(old(View()), Numbers(cs))
      ensures View() == Killed(old(View()), Numbers(cs), alive, now)
    {
      hide Assigned, Numbers, Records, Killed;
      NumbersRetired(cs);
      ghost var v := View();
      for i := 0 to |cs|
        invariant Rep() && forall c | c in cs :: Known(c) && c.retiredAt.Some?
        invariant Retirees(View(), Numbers(cs)[i..])
        invariant Killed(v, Numbers(cs), alive, now) == Killed(View(), Numbers(cs)[i..], alive, now)
      {
        assert Numbers(cs)[i..][0] == cs[i].number && Numbers(cs)[i..][1..] == Numbers(cs)[i + 1..];
        assert Known(cs[i]);
        KnownRecord(cs[i]);
        KilledNext(View(), Numbers(cs)[i..], alive, now);
        if cs[i].number in alive && !cs[i].killed && now - cs[i].retiredAt.value >= GRACE {
          Kill(cs[i]);
        }
      }
      KilledNone(View(), alive, now);
    }

    method LetGo(cs: seq<Child>, alive: set<WorkerId>)
      requires Rep() && forall c | c in cs :: Known(c)
      modifies this`retiring
      ensures Rep() && View() == ForgetAll(old(View()), Numbers(cs), alive)
    {
      hide Assigned, Numbers, Records;
      ghost var v := View();
      for i := 0 to |cs|
        invariant Rep() && forall c | c in cs :: Known(c)
        invariant ForgetAll(v, Numbers(cs), alive) == ForgetAll(View(), Numbers(cs)[i..], alive)
      {
        assert Numbers(cs)[i..][0] == cs[i].number && Numbers(cs)[i..][1..] == Numbers(cs)[i + 1..];
        if cs[i].number !in alive {
          assert Known(cs[i]);
          RemoveNumber(retiring, cs[i]);
          retiring := Remove(retiring, cs[i]);
        }
      }
    }

    method RetirePool(env: Env)
      requires Rep() && forall id | id in order :: id in jobs
      modifies this, all.Values
      ensures Rep() && all == old(all) && PoolKnown(old(View()))
      ensures View() == RetireAll(old(View()), old(View()).pool, env)
    {
      hide StoreModel.Retire, Assigned, Numbers;
      ghost var v := View();
      var cs := pool;
      NumbersKnown(cs);
      for i := 0 to |cs|
        invariant Rep() && all == old(all) && forall id | id in order :: id in jobs
        invariant View().workers.Keys == v.workers.Keys && forall c | c in cs :: Known(c)
        invariant RetireAll(v, Numbers(cs), env) == RetireAll(View(), Numbers(cs)[i..], env)
      {
        assert Numbers(cs)[i..][0] == cs[i].number && Numbers(cs)[i..][1..] == Numbers(cs)[i + 1..];
        assert Known(cs[i]);
        Retire(cs[i], true, false, env);
      }
    }

    /** The locked part of close: the table is let go of as it is, every job ends, every child is told to stop. The
        result is how many jobs this ended. */
    method Close(env: Env) returns (ended: nat)
      requires Valid() && stopping
      modifies this, all.Values
      ensures Valid() && ended == |OpenJobs(old(jobs))| && forall id | id in jobs :: jobs[id].status.Terminal()
      ensures PoolKnown(old(View())) && Linked(old(View())) && View() == StoreModel.Close(old(View()), env)
    {
      hide StoreInvariant.Valid, Assigned, Numbers, Records, AbortAll, RetireAll, Narrower, Rep, Known, OpenJobs, SameDomain;
      ghost var v := View();
      CloseEnds(v, env);
      Sound();
      ended := CountOpen();
      disk := disk.(open := false);
      AbortEvery(false, Cancelled, None, env);
      RetirePool(env);
    }
  }

  lemma KilledNext(s: Store, ws: seq<WorkerId>, alive: set<WorkerId>, now: Seconds)
    requires Retirees(s, ws) && ws != []
    ensures var k := s.workers[ws[0]];
            var late := ws[0] in alive && !k.killed && now - k.retiredAt.value >= GRACE;
            var t := if late then s.(workers := s.workers[ws[0] := k.(killed := true)]) else s;
            Retirees(t, ws[1..]) && Killed(s, ws, alive, now) == Killed(t, ws[1..], alive, now)
  {
  }

  lemma KilledNone(s: Store, alive: set<WorkerId>, now: Seconds)
    ensures Killed(s, [], alive, now) == s
  {
  }

  ghost predicate Retirees(s: Store, ws: seq<WorkerId>) {
    forall w | w in ws :: w in s.workers && s.workers[w].retiredAt.Some?
  }

  lemma CloseEnds(s: Store, env: Env)
    requires StoreInvariant.Valid(s, {}, {}) && s.stopping
    ensures Linked(s) && (forall i | i in s.order :: i in s.jobs) && PoolKnown(s)
    ensures var t := StoreModel.Close(s, env);
            StoreInvariant.Valid(t, {}, {}) && forall id | id in t.jobs :: t.jobs[id].status.Terminal()
  {
    hide StoreInvariant.Valid, AbortAll, RetireAll, Calm, Narrower;
    Callable(s, {}, {});
    CloseKeeps(s, env);
    var t := StoreModel.Close(s, env);
    forall id | id in t.jobs ensures t.jobs[id].status.Terminal() {
      assert id in s.jobs;
      assert !Unfinished(t, id);
    }
  }

  lemma VisitLinked(s: Store, id: JobId, env: Env)
    requires Linked(s) && forall i | i in s.order :: i in s.jobs
    ensures var t := StoreModel.Visit(s, id, env).0; Linked(t) && forall i | i in t.order :: i in t.jobs
  {
    hide StoreModel.Visit;
  }

  lemma ScanNext(s: Store, ids: seq<JobId>, before: seq<JobId>, env: Env)
    requires Linked(s) && (forall i | i in s.order :: i in s.jobs) && ids != []
    ensures var (t, waits) := StoreModel.Visit(s, ids[0], env);
            && Linked(t) && (forall i | i in t.order :: i in t.jobs)
            && StoreModel.Scan(s, ids, env).0 == StoreModel.Scan(t, ids[1..], env).0
            && before + StoreModel.Scan(s, ids, env).1 ==
               (if waits then before + [ids[0]] else before) + StoreModel.Scan(t, ids[1..], env).1
  {
    hide StoreModel.Visit, SameDomain, Narrower, Linked;
    VisitLinked(s, ids[0], env);
    var (t, waits) := StoreModel.Visit(s, ids[0], env);
    var rest := StoreModel.Scan(t, ids[1..], env).1;
    assert before + ([ids[0]] + rest) == before + [ids[0]] + rest;
    assert before + ([] + rest) == before + rest;
  }

  lemma AbortAllNext(s: Store, ids: seq<JobId>, queuedOnly: bool, status: Status, code: Option<Code>, env: Env)
    requires Linked(s) && (forall i | i in s.order :: i in s.jobs) && ids != []
    ensures var t := AbortIf(s, ids[0], queuedOnly, status, code, env);
            && Linked(t) && (forall i | i in t.order :: i in t.jobs)
            && AbortAll(s, ids, queuedOnly, status, code, env) == AbortAll(t, ids[1..], queuedOnly, status, code, env)
  {
    hide AbortIf;
  }

  lemma AbortAllNone(s: Store, queuedOnly: bool, status: Status, code: Option<Code>, env: Env)
    requires Linked(s) && forall i | i in s.order :: i in s.jobs
    ensures AbortAll(s, [], queuedOnly, status, code, env) == s
  {
  }

  ghost predicate PoolKnown(s: Store) {
    (forall w | w in s.pool :: w in s.workers) && forall id | id in s.order :: id in s.jobs
  }

  lemma StaysOwned(s: Store, id: JobId, env: Env)
    requires Linked(s) && (forall i | i in s.order :: i in s.jobs) && StoreInvariant.Valid(s, {}, {}) && Unfinished(s, id)
    ensures id in StoreModel.Abort(s, id, Cancelled, None, env).jobs
    ensures StoreModel.Abort(s, id, Cancelled, None, env).jobs[id].owner == s.jobs[id].owner
  {
    hide StoreInvariant.Valid, Calm, StoreModel.Retire, StoreModel.Unassign, StoreModel.Detach, Narrower, SameDomain;
    if id in s.active {
      AbortDetach(s, id, env);
    }
  }

  lemma ExpireBooks(s: Store, env: Env)
    requires Distinct(s.order) && forall id :: id in s.order <==> id in s.jobs
    ensures var t := StoreModel.Expire(s, env);
            && Distinct(t.order) && (forall id :: id in t.order <==> id in t.jobs)
            && t.draining == s.draining && t.stopping == s.stopping && t.cfg == s.cfg
  {
    FreshKeeps(s, s.order, env.now);
  }

  ghost function HeldAmong(jobs: map<JobId, Job>, ids: seq<JobId>, owner: Owner): set<JobId> {
    set id | id in ids && id in jobs && jobs[id].owner == owner
  }

  ghost function OpenAmong(jobs: map<JobId, Job>, ids: seq<JobId>): set<JobId> {
    set id | id in ids && id in jobs && !jobs[id].status.Terminal()
  }

  lemma AmongMore(jobs: map<JobId, Job>, ids: seq<JobId>, i: nat, owner: Owner)
    requires Distinct(ids) && i < |ids| && ids[i] in jobs
    ensures |HeldAmong(jobs, ids[..i + 1], owner)| ==
            |HeldAmong(jobs, ids[..i], owner)| + if jobs[ids[i]].owner == owner then 1 else 0
    ensures |OpenAmong(jobs, ids[..i + 1])| ==
            |OpenAmong(jobs, ids[..i])| + if jobs[ids[i]].status.Terminal() then 0 else 1
  {
    hide Distinct, HeldAmong, OpenAmong;
    assert ids[..i + 1] == ids[..i] + [ids[i]];
    assert ids[i] !in ids[..i] by { assert Distinct(ids); NotBefore(ids, i); }
    HeldMore(jobs, ids[..i], ids[i], owner);
    OpenMore(jobs, ids[..i], ids[i]);
  }

  lemma NotBefore<T(!new)>(xs: seq<T>, i: nat)
    requires Distinct(xs) && i < |xs|
    ensures xs[i] !in xs[..i]
  {
  }

  lemma HeldMore(jobs: map<JobId, Job>, ids: seq<JobId>, id: JobId, owner: Owner)
    requires id !in ids && id in jobs
    ensures |HeldAmong(jobs, ids + [id], owner)| == |HeldAmong(jobs, ids, owner)| + if jobs[id].owner == owner then 1 else 0
  {
    assert HeldAmong(jobs, ids + [id], owner) == HeldAmong(jobs, ids, owner) + if jobs[id].owner == owner then {id} else {};
  }

  lemma OpenMore(jobs: map<JobId, Job>, ids: seq<JobId>, id: JobId)
    requires id !in ids && id in jobs
    ensures |OpenAmong(jobs, ids + [id])| == |OpenAmong(jobs, ids)| + if jobs[id].status.Terminal() then 0 else 1
  {
    assert OpenAmong(jobs, ids + [id]) == OpenAmong(jobs, ids) + if jobs[id].status.Terminal() then {} else {id};
  }

  lemma AmongAll(jobs: map<JobId, Job>, ids: seq<JobId>, owner: Owner)
    requires forall id :: id in ids <==> id in jobs
    ensures HeldAmong(jobs, ids[..|ids|], owner) == HeldBy(jobs, owner)
  {
    assert ids[..|ids|] == ids;
  }

  lemma OpenAll(jobs: map<JobId, Job>, ids: seq<JobId>)
    requires forall id :: id in ids <==> id in jobs
    ensures OpenAmong(jobs, ids[..|ids|]) == OpenJobs(jobs)
  {
    assert ids[..|ids|] == ids;
  }

  /** The state of the sweep after its first i jobs. */
  ghost predicate Swept(s: Store, i: nat, now: Seconds, jobs: map<JobId, Job>, keys: map<(Owner, Key), JobId>,
                        kept: seq<JobId>, gone: set<JobId>) {
    && i <= |s.order|
    && gone == StaleOf(s, s.order[..i], now)
    && jobs == s.jobs - gone && keys == s.keys - KeysOf(s, gone)
    && kept + Fresh(s, s.order[i..], now) == Fresh(s, s.order, now)
  }

  lemma SweepFirst(s: Store, now: Seconds)
    ensures Swept(s, 0, now, s.jobs, s.keys, [], {})
  {
    assert StaleOf(s, s.order[..0], now) == {} && KeysOf(s, {}) == {};
    assert s.jobs - {} == s.jobs && s.keys - {} == s.keys;
    assert s.order[0..] == s.order;
  }

  lemma SweepGone(s: Store, i: nat, now: Seconds, jobs: map<JobId, Job>, keys: map<(Owner, Key), JobId>,
                  kept: seq<JobId>, gone: set<JobId>)
    requires Swept(s, i, now, jobs, keys, kept, gone) && i < |s.order| && s.order[i] in s.jobs
    requires Stale(s.jobs[s.order[i]], s.cfg.retention, now)
    ensures var id := s.order[i];
            Swept(s, i + 1, now, jobs - {id},
                  if s.jobs[id].key.Some? then keys - {(s.jobs[id].owner, s.jobs[id].key.value)} else keys,
                  kept, gone + {id})
  {
    hide Stale, StaleOf, KeysOf, Fresh;
    StaleMore(s, s.order, i, now);
    FreshNext(s, s.order[i..], now);
    assert s.order[i..][1..] == s.order[i + 1..];
    KeysMore(s, gone, s.order[i]);
    assert jobs - {s.order[i]} == s.jobs - (gone + {s.order[i]});
    assert [] + Fresh(s, s.order[i + 1..], now) == Fresh(s, s.order[i + 1..], now);
    LessKeys(s.keys, KeysOf(s, gone), (s.jobs[s.order[i]].owner, s.jobs[s.order[i]].key));
  }

  lemma LessKeys(keys: map<(Owner, Key), JobId>, some: set<(Owner, Key)>, one: (Owner, Option<Key>))
    ensures one.1.Some? ==> keys - some - {(one.0, one.1.value)} == keys - (some + {(one.0, one.1.value)})
    ensures keys - (some + {}) == keys - some
  {
  }

  lemma SweepKept(s: Store, i: nat, now: Seconds, jobs: map<JobId, Job>, keys: map<(Owner, Key), JobId>,
                  kept: seq<JobId>, gone: set<JobId>)
    requires Swept(s, i, now, jobs, keys, kept, gone) && i < |s.order| && s.order[i] in s.jobs
    requires !Stale(s.jobs[s.order[i]], s.cfg.retention, now)
    ensures Swept(s, i + 1, now, jobs, keys, kept + [s.order[i]], gone)
  {
    hide Stale, StaleOf, KeysOf, Fresh;
    StaleMore(s, s.order, i, now);
    FreshNext(s, s.order[i..], now);
    assert s.order[i..][1..] == s.order[i + 1..];
    var rest := Fresh(s, s.order[i + 1..], now);
    assert kept + ([s.order[i]] + rest) == kept + [s.order[i]] + rest;
    assert gone + {} == gone;
  }

  /** No job is listed twice, so each listed job is still there. */
  lemma SweepMeets(s: Store, i: nat, now: Seconds, jobs: map<JobId, Job>, keys: map<(Owner, Key), JobId>,
                   kept: seq<JobId>, gone: set<JobId>)
    requires Swept(s, i, now, jobs, keys, kept, gone) && i < |s.order| && s.order[i] in s.jobs && Distinct(s.order)
    ensures s.order[i] in jobs && jobs[s.order[i]] == s.jobs[s.order[i]]
  {
    assert s.order[i] !in s.order[..i];
  }

  lemma SweepLast(s: Store, env: Env, jobs: map<JobId, Job>, keys: map<(Owner, Key), JobId>,
                  kept: seq<JobId>, gone: set<JobId>)
    requires Swept(s, |s.order|, env.now, jobs, keys, kept, gone) && forall id :: id in s.order <==> id in s.jobs
    ensures StoreModel.Expire(s, env) ==
            s.(jobs := jobs, keys := keys, order := kept,
               disk := if s.disk.open && !env.kept then s.disk.(rows := s.disk.rows - gone) else s.disk)
  {
    hide Stale;
    assert s.order[..|s.order|] == s.order;
    StaleAll(s, env.now);
  }

  ghost function StaleOf(s: Store, ids: seq<JobId>, now: Seconds): set<JobId> {
    set id | id in ids && id in s.jobs && Stale(s.jobs[id], s.cfg.retention, now)
  }

  ghost function KeysOf(s: Store, ids: set<JobId>): set<(Owner, Key)> {
    set id | id in ids && id in s.jobs && s.jobs[id].key.Some? :: (s.jobs[id].owner, s.jobs[id].key.value)
  }

  lemma StaleMore(s: Store, ids: seq<JobId>, i: nat, now: Seconds)
    requires i < |ids|
    ensures StaleOf(s, ids[..i + 1], now) ==
            StaleOf(s, ids[..i], now)
            + if ids[i] in s.jobs && Stale(s.jobs[ids[i]], s.cfg.retention, now) then {ids[i]} else {}
  {
    assert ids[..i + 1] == ids[..i] + [ids[i]];
  }

  lemma StaleAll(s: Store, now: Seconds)
    requires forall id :: id in s.order <==> id in s.jobs
    ensures StaleOf(s, s.order, now) == Expired(s, now)
    ensures KeysOf(s, Expired(s, now)) ==
            set id | id in Expired(s, now) && s.jobs[id].key.Some? :: (s.jobs[id].owner, s.jobs[id].key.value)
  {
  }

  lemma KeysMore(s: Store, ids: set<JobId>, id: JobId)
    requires id in s.jobs
    ensures KeysOf(s, ids + {id}) ==
            KeysOf(s, ids) + if s.jobs[id].key.Some? then {(s.jobs[id].owner, s.jobs[id].key.value)} else {}
  {
  }

  lemma FreshNext(s: Store, ids: seq<JobId>, now: Seconds)
    requires ids != []
    ensures Fresh(s, ids, now) ==
            (if ids[0] in s.jobs && Stale(s.jobs[ids[0]], s.cfg.retention, now) then [] else [ids[0]])
            + Fresh(s, ids[1..], now)
  {
  }

  lemma DrainNext(s: Store, w: WorkerId, gone: bool, env: Env)
    requires w in s.workers && forall id | id in s.order :: id in s.jobs
    ensures var k := s.workers[w];
            if k.retiredAt.Some? then StoreModel.Drain(s, w, gone, env) == StoreModel.Retire(s, w, false, true, env)
            else if k.inbox == [] then
              StoreModel.Drain(s, w, gone, env) == if gone then StoreModel.Retire(s, w, false, true, env) else s
            else
              var (t, ended) := Taken(s, w, env);
              && w in t.workers && (forall id | id in t.order :: id in t.jobs)
              && StoreModel.Drain(s, w, gone, env) == if ended then t else StoreModel.Drain(t, w, gone, env)
  {
  }

  lemma Regroup(a: seq<Send>, b: Send, c: seq<Send>)
    ensures a + ([b] + c) == a + [b] + c
  {
  }

  /** The sends as the model tells them. */
  ghost function SendsOf(sends: seq<(Child, Work)>): seq<Send> {
    if sends == [] then []
    else SendsOf(sends[..|sends| - 1]) + [Send(sends[|sends| - 1].0.number, sends[|sends| - 1].1)]
  }

  lemma NoSends()
    ensures SendsOf([]) == []
  {
  }

  lemma SendsMore(sends: seq<(Child, Work)>, one: (Child, Work))
    ensures SendsOf(sends + [one]) == SendsOf(sends) + [Send(one.0.number, one.1)]
  {
    assert (sends + [one])[..|sends|] == sends;
  }

  lemma DispatchDone(s: Store)
    ensures Stocked(s, []) && StoreModel.Dispatch(s, []) == (s, [])
  {
  }

  /** One turn of dispatch. */
  lemma DispatchNext(s: Store, queues: seq<Queue>)
    requires Stocked(s, queues) && queues != []
    ensures var i := Least(s, queues);
            && queues[i].ids != [] && queues[i].ids[0] in s.jobs
            && var attached := StoreModel.Attach(s, queues[i].ids[0]);
               if attached.None? then StoreModel.Dispatch(s, queues) == (s, [])
               else
                 var t := Dispatched(attached.value.0, Owners(queues), queues[i].owner);
                 && Stocked(t, Pop(queues, i))
                 && StoreModel.Dispatch(s, queues) ==
                    (StoreModel.Dispatch(t, Pop(queues, i)).0,
                     [attached.value.1] + StoreModel.Dispatch(t, Pop(queues, i)).1)
  {
    hide StoreModel.Dispatch, Stocked, Least, Pop, Owners, FirstFree;
    HeldLeast(s, queues);
    DispatchOnce(s, queues);
  }

  lemma AssignedMore(active: map<JobId, Child>, id: JobId, c: Child)
    ensures Assigned(active[id := c]) == Assigned(active)[id := c.number]
  {
  }

  lemma {:induction false} RemoveNumber(cs: seq<Child>, c: Child)
    requires forall d | d in cs && d.number == c.number :: d == c
    ensures Numbers(Remove(cs, c)) == Remove(Numbers(cs), c.number)
  {
    if cs != [] {
      RemoveNumber(cs[1..], c);
    }
  }

  lemma AssignedLess(active: map<JobId, Child>, job: Option<JobId>)
    ensures Assigned(if job.Some? then active - {job.value} else active) == WithoutJob(Assigned(active), job)
  {
  }

  lemma {:induction false} NumbersMore(cs: seq<Child>, c: Child)
    ensures Numbers(cs + [c]) == Numbers(cs) + [c.number]
  {
    if cs == [] {
      assert cs + [c] == [c];
    } else {
      assert (cs + [c])[1..] == cs[1..] + [c];
      NumbersMore(cs[1..], c);
    }
  }

  lemma ReopenedDone(table: map<JobId, Row>, retention: Seconds, wall: Seconds)
    ensures var rows := Reopened(table, retention, wall); forall id | id in rows :: rows[id].finishedAt.Some?
  {
  }

  lemma NoKeys(rows: map<JobId, Row>)
    ensures KeysFrom(rows, []) == map[]
  {
  }

  lemma KeysFromMore(rows: map<JobId, Row>, order: seq<JobId>, i: nat)
    requires (forall id | id in order :: id in rows) && i < |order|
    ensures KeysFrom(rows, order[..i + 1]) ==
            if rows[order[i]].key.Some? then
              KeysFrom(rows, order[..i])[(rows[order[i]].owner, rows[order[i]].key.value) := order[i]]
            else KeysFrom(rows, order[..i])
  {
    assert order[..i + 1][..i] == order[..i];
  }

  lemma FailQueuedNext(s: Store, ids: seq<JobId>, env: Env)
    requires ids != [] && forall id | id in ids :: id in s.jobs
    ensures FailQueued(s, ids, env) ==
            FailQueued(if s.jobs[ids[0]].status.Queued? && ids[0] !in s.active
                       then Finish(s, ids[0], Failed, None, Some(WorkerStartFailed), env) else s, ids[1..], env)
  {
  }

  lemma FinishKeys(s: Store, id: JobId, status: Status, result: Option<Value>, code: Option<Code>, env: Env)
    requires id in s.jobs
    ensures Finish(s, id, status, result, code, env).jobs.Keys == s.jobs.Keys
  {
  }
}
