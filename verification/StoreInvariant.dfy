/** What every locked step of the job store keeps, and the primitive steps that keep it. */
module StoreInvariant {
  import opened Wrappers
  import opened Metrics
  import opened JobTypes
  import opened StoreModel
  import opened Durations

  ghost predicate Distinct<T(!new)>(xs: seq<T>) {
    forall i, j | 0 <= i < j < |xs| :: xs[i] != xs[j]
  }

  lemma TailDistinct<T(!new)>(xs: seq<T>)
    requires Distinct(xs) && xs != []
    ensures Distinct(xs[1..]) && xs[0] !in xs[1..]
  {
  }

  // ---------------------------------------------------------------- the parts of the invariant

  /** The table's order lists its jobs, a job has a finish time exactly when it has ended, and the keys are
      exactly the inverse of the retained keyed jobs. */
  ghost predicate Books(jobs: map<JobId, Job>, order: seq<JobId>, keys: map<(Owner, Key), JobId>) {
    && Distinct(order)
    && (forall id :: id in order <==> id in jobs)
    && (forall id | id in jobs :: jobs[id].finished.Some? <==> jobs[id].status.Terminal())
    && (forall k | k in keys :: keys[k] in jobs && jobs[keys[k]].owner == k.0 && jobs[keys[k]].key == Some(k.1))
    && (forall id | id in jobs && jobs[id].key.Some? ::
          (jobs[id].owner, jobs[id].key.value) in keys && keys[(jobs[id].owner, jobs[id].key.value)] == id)
  }

  /** One child's record: a job only when ready and in service, its share of jobs, its pipe closed exactly when it is
      retired and no send owns the pipe, and told to stop or terminated exactly when it is retired. */
  ghost predicate Sound(cfg: Config, k: Worker) {
    && (k.job.Some? ==> k.ready && k.retiredAt.None?)
    && (k.retiredAt.Some? <==> k.terminated || Stop in k.outbox)
    && (k.killed ==> k.retiredAt.Some?)
    && k.served <= cfg.maxJobs
    && k.closes == (if k.retiredAt.Some? && !k.sending then 1 else 0)
  }

  /** The pool holds exactly the children in service; spent ones are about to leave it. */
  ghost predicate Crew(cfg: Config, pool: seq<WorkerId>, retiring: seq<WorkerId>, workers: map<WorkerId, Worker>,
                       spent: set<WorkerId>) {
    && Distinct(pool) && |pool| <= cfg.concurrency
    && (forall w | w in pool :: w in workers)
    && (forall w | w in workers :: w in pool <==> workers[w].retiredAt.None?)
    && (forall w | w in workers :: Sound(cfg, workers[w]))
    && (forall w | w in workers && w !in spent ::
          workers[w].retiredAt.None? && workers[w].job.None? ==> workers[w].served < cfg.maxJobs)
    && Distinct(retiring) && (forall w | w in retiring :: w in workers && workers[w].retiredAt.Some?)
  }

  /** The jobs with a child and the children with a job are each other's inverse, and those jobs are unfinished. */
  ghost predicate Pairing(jobs: map<JobId, Job>, active: map<JobId, WorkerId>, workers: map<WorkerId, Worker>) {
    && (forall id | id in active :: active[id] in workers && workers[active[id]].job == Some(id))
    && (forall id | id in active :: Going(jobs, id))
    && (forall w | w in workers && workers[w].job.Some? ::
          workers[w].job.value in active && active[workers[w].job.value] == w)
  }

  function Tries(past: History, id: JobId): nat {
    if id in past.attaches then past.attaches[id] else 0
  }

  /** A running job has a child, and an unfinished job was given to a child once for its retry and once for the child
      it has; a loose job has just lost its child and is about to be settled. */
  ghost predicate Given(jobs: map<JobId, Job>, active: map<JobId, WorkerId>, past: History, loose: set<JobId>) {
    && (forall id | id in jobs && jobs[id].status.Running? && id !in loose :: id in active)
    && (forall id | id in loose :: id !in active)
    && (forall id | Going(jobs, id) ::
          Tries(past, id) == (if jobs[id].retried then 1 else 0) + (if id in active || id in loose then 1 else 0))
    && (forall id | id in past.attaches :: past.attaches[id] <= 2 && id in past.issued)
  }

  /** An unfinished job was submitted to this process, by one of its owners, and still has its input and clock. */
  ghost predicate Submitted(cfg: Config, jobs: map<JobId, Job>, past: History) {
    forall id | Going(jobs, id) ::
      && id in past.issued && past.issued[id] == Work(id, jobs[id].task, jobs[id].input)
      && id in past.arrivals && past.arrivals[id] == jobs[id].submittedAt
      && jobs[id].owner in cfg.owners
  }

  /** A row tells what was submitted; a finished row is the job's terminal record. */
  ghost predicate Recorded(j: Job, r: Row) {
    && r.task == j.task && r.owner == j.owner && r.key == j.key && r.timeoutMs == j.timeoutMs
    && (r.status.Terminal() ==>
          r.status == j.status && r.result == j.result && r.code == j.code && r.progress == j.progress)
    && (!r.status.Terminal() ==> r.progress.None?)
  }

  /** Rows finish when they end, and no two hold the same owner and key. */
  ghost predicate Table(rows: map<JobId, Row>) {
    && (forall id | id in rows :: rows[id].finishedAt.Some? <==> rows[id].status.Terminal())
    && (forall i, j | i in rows && j in rows && rows[i].key.Some? &&
          rows[i].key == rows[j].key && rows[i].owner == rows[j].owner :: i == j)
  }

  /** Every job in memory has its row, and one that has ended is what the step that ended it made of it. */
  ghost predicate Filed(jobs: map<JobId, Job>, rows: map<JobId, Row>, past: History) {
    && (forall id | id in jobs :: id in rows && Recorded(jobs[id], rows[id]))
    && (forall id | id in jobs && id in past.ends ::
          && jobs[id].finished == Some(past.ends[id].now) && jobs[id].status == past.ends[id].status
          && jobs[id].owner == past.ends[id].owner && jobs[id].task == past.ends[id].task
          && (rows[id].status.Terminal() ==> rows[id].finishedAt == Some(past.ends[id].wall)))
    && (forall id | id in jobs && jobs[id].finished.Some? :: id in past.ends)
    && (forall id | id in past.ends :: id in past.issued || id in past.restored)
  }

  /** How many jobs of one owner and task have ended, in any status. */
  function EndedOf(ended: map<(Owner, Task, Status), nat>, o: Owner, t: Task): nat {
    Get(ended, (o, t, Succeeded)) + Get(ended, (o, t, Failed)) + Get(ended, (o, t, TimedOut)) + Get(ended, (o, t, Cancelled))
  }

  function EndedBy(owners: seq<Owner>, ended: map<(Owner, Task, Status), nat>, t: Task): nat {
    if owners == [] then 0 else EndedOf(ended, owners[0], t) + EndedBy(owners[1..], ended, t)
  }

  function GoingOf(jobs: map<JobId, Job>, o: Owner, t: Task): set<JobId> {
    set id | id in jobs && !jobs[id].status.Terminal() && jobs[id].owner == o && jobs[id].task == t
  }

  function Timed(durations: map<Task, Histogram>, t: Task): nat {
    if t in durations then durations[t].count else 0
  }

  /** Every submission has ended or is still held. */
  ghost predicate Balanced(jobs: map<JobId, Job>, submitted: map<(Owner, Task), nat>,
                           ended: map<(Owner, Task, Status), nat>) {
    forall o: Owner, t: Task :: Get(submitted, (o, t)) == EndedOf(ended, o, t) + |GoingOf(jobs, o, t)|
  }

  /** Every job that ended was timed once. */
  ghost predicate Clocked(owners: seq<Owner>, ended: map<(Owner, Task, Status), nat>, durations: map<Task, Histogram>) {
    forall t: Task :: Timed(durations, t) == EndedBy(owners, ended, t)
  }

  /** The number of the last decision that chose an owner, or -1. */
  function LastPick(picks: seq<Pick>, o: Owner): int {
    if picks == [] then -1
    else if picks[|picks| - 1].chosen == o then |picks|
    else LastPick(picks[..|picks| - 1], o)
  }

  /** Each decision chose a waiting owner that no other waiting owner had been passed over longer than. */
  ghost predicate Fair(picks: seq<Pick>) {
    forall k, o | 0 <= k < |picks| && o in picks[k].waiting ::
      LastPick(picks[..k], picks[k].chosen) <= LastPick(picks[..k], o)
  }

  ghost predicate Turns(cfg: Config, served: map<Owner, nat>, dispatched: nat, picks: seq<Pick>) {
    && dispatched == |picks|
    && (forall o: Owner :: LastPick(picks, o) == if o in served then served[o] else -1)
    && (forall k | 0 <= k < |picks| :: picks[k].chosen in picks[k].waiting && picks[k].chosen in cfg.owners)
    && Fair(picks)
  }

  function RestoredBy(past: History, o: Owner): set<JobId> {
    set id | id in past.restored && past.restored[id] == o
  }

  /** What is limited: the unfinished jobs, all jobs, each owner's. */
  datatype Quota = ActiveQuota | TotalQuota | OwnerQuota(owner: Owner)

  function Counted(jobs: map<JobId, Job>, quota: Quota): set<JobId> {
    match quota
    case ActiveQuota => OpenJobs(jobs)
    case TotalQuota => jobs.Keys
    case OwnerQuota(o) => HeldBy(jobs, o)
  }

  /** The limits, the last two raised by what the table gave back. */
  function Allowed(cfg: Config, past: History, quota: Quota): Option<int> {
    match quota
    case ActiveQuota => Some(cfg.capacity)
    case TotalQuota => Some(Max(|past.restored|, cfg.capacity + cfg.resultCapacity - 1))
    case OwnerQuota(o) =>
      if cfg.ownerCapacity.None? then None else Some(Max(|RestoredBy(past, o)|, cfg.ownerCapacity.value))
  }

  ghost predicate Within(cfg: Config, jobs: map<JobId, Job>, past: History) {
    forall quota | Allowed(cfg, past, quota).Some? :: |Counted(jobs, quota)| <= Allowed(cfg, past, quota).value
  }

  /** The whole invariant; outside a step nothing is loose and nobody is spent. */
  ghost predicate Valid(s: Store, loose: set<JobId>, spent: set<WorkerId>) {
    && s.cfg.Legal()
    && Books(s.jobs, s.order, s.keys)
    && Crew(s.cfg, s.pool, s.retiring, s.workers, spent)
    && Pairing(s.jobs, s.active, s.workers)
    && Given(s.jobs, s.active, s.past, loose)
    && Submitted(s.cfg, s.jobs, s.past)
    && Table(s.disk.rows)
    && Filed(s.jobs, s.disk.rows, s.past)
    && (!s.disk.open ==> s.stopping)
    && Balanced(s.jobs, s.stats.submitted, s.stats.ended)
    && Clocked(s.cfg.owners, s.stats.ended, s.stats.durations)
    && Measured(s.stats.ended, s.stats.durations, s.past)
    && Turns(s.cfg, s.served, s.dispatched, s.past.picks)
    && Within(s.cfg, s.jobs, s.past)
  }

  // ---------------------------------------------------------------- a change to one job

  lemma JobBooks(s: Store, id: JobId, j: Job)
    requires Books(s.jobs, s.order, s.keys) && id in s.jobs
    requires j.owner == s.jobs[id].owner && j.key == s.jobs[id].key && (j.finished.Some? <==> j.status.Terminal())
    ensures Books(s.jobs[id := j], s.order, s.keys)
  {
  }

  lemma JobPairing(s: Store, id: JobId, j: Job)
    requires Pairing(s.jobs, s.active, s.workers) && id in s.jobs && (id in s.active ==> !j.status.Terminal())
    ensures Pairing(s.jobs[id := j], s.active, s.workers)
  {
    forall i | i in s.active ensures Going(s.jobs[id := j], i) {
      assert Going(s.jobs, i);
    }
  }

  lemma JobSubmitted(s: Store, id: JobId, j: Job)
    requires Submitted(s.cfg, s.jobs, s.past) && Going(s.jobs, id)
    requires j.owner == s.jobs[id].owner && j.task == s.jobs[id].task
    requires !j.status.Terminal() ==> j.input == s.jobs[id].input && j.submittedAt == s.jobs[id].submittedAt
    ensures Submitted(s.cfg, s.jobs[id := j], s.past)
  {
    forall i | Going(s.jobs[id := j], i) ensures Going(s.jobs, i) {
    }
  }

  lemma JobFiled(s: Store, id: JobId, j: Job)
    requires Filed(s.jobs, s.disk.rows, s.past) && Going(s.jobs, id)
    requires j.task == s.jobs[id].task && j.owner == s.jobs[id].owner && j.key == s.jobs[id].key
    requires j.timeoutMs == s.jobs[id].timeoutMs && j.finished == s.jobs[id].finished
    requires j.status == s.jobs[id].status || id !in s.past.ends
    ensures Filed(s.jobs[id := j], s.disk.rows, s.past)
  {
  }

  lemma JobGiven(s: Store, id: JobId, j: Job, loose: set<JobId>, after: set<JobId>)
    requires Given(s.jobs, s.active, s.past, loose) && Going(s.jobs, id)
    requires after == loose || after == loose - {id}
    requires j.status.Running? && id !in after ==> id in s.active
    requires !j.status.Terminal() ==>
               Tries(s.past, id) == (if j.retried then 1 else 0) + (if id in s.active || id in after then 1 else 0)
    ensures Given(s.jobs[id := j], s.active, s.past, after)
  {
    forall i | Going(s.jobs[id := j], i) ensures Going(s.jobs, i) {
    }
  }

  lemma JobBalanced(s: Store, id: JobId, j: Job)
    requires Balanced(s.jobs, s.stats.submitted, s.stats.ended) && Going(s.jobs, id)
    requires j.owner == s.jobs[id].owner && j.task == s.jobs[id].task && !j.status.Terminal()
    ensures Balanced(s.jobs[id := j], s.stats.submitted, s.stats.ended)
  {
    forall o: Owner, t: Task ensures GoingOf(s.jobs[id := j], o, t) == GoingOf(s.jobs, o, t) {
    }
  }

  lemma {:induction false} Fewer<T(!new)>(a: set<T>, b: set<T>)
    requires a <= b
    ensures |a| <= |b|
  {
    assert b == a + (b - a);
  }

  lemma JobWithin(cfg: Config, jobs: map<JobId, Job>, past: History, id: JobId, j: Job)
    requires Within(cfg, jobs, past) && Going(jobs, id) && j.owner == jobs[id].owner
    ensures Within(cfg, jobs[id := j], past)
  {
    forall quota ensures |Counted(jobs[id := j], quota)| <= |Counted(jobs, quota)| {
      Fewer(Counted(jobs[id := j], quota), Counted(jobs, quota));
    }
  }

  lemma {:induction false} EndedByFinish(owners: seq<Owner>, ended: map<(Owner, Task, Status), nat>,
                                         o: Owner, t: Task, status: Status, u: Task)
    requires Distinct(owners) && status.Terminal()
    ensures EndedBy(owners, Bump(ended, (o, t, status)), u) ==
            EndedBy(owners, ended, u) + (if o in owners && u == t then 1 else 0)
  {
    if owners != [] {
      BumpEnded(ended, o, t, status, owners[0], u);
      EndedByFinish(owners[1..], ended, o, t, status, u);
      assert owners == [owners[0]] + owners[1..];
    }
  }

  lemma BumpEnded(ended: map<(Owner, Task, Status), nat>, o: Owner, t: Task, status: Status, p: Owner, v: Task)
    requires status.Terminal()
    ensures EndedOf(Bump(ended, (o, t, status)), p, v) == EndedOf(ended, p, v) + (if p == o && v == t then 1 else 0)
  {
  }

  lemma FinishBalanced(jobs: map<JobId, Job>, submitted: map<(Owner, Task), nat>,
                       ended: map<(Owner, Task, Status), nat>, id: JobId, j: Job)
    requires Balanced(jobs, submitted, ended) && Going(jobs, id)
    requires j.owner == jobs[id].owner && j.task == jobs[id].task && j.status.Terminal()
    ensures Balanced(jobs[id := j], submitted, Bump(ended, (j.owner, j.task, j.status)))
  {
    forall o: Owner, t: Task
      ensures Get(submitted, (o, t)) ==
              EndedOf(Bump(ended, (j.owner, j.task, j.status)), o, t) + |GoingOf(jobs[id := j], o, t)|
    {
      BumpEnded(ended, j.owner, j.task, j.status, o, t);
      assert GoingOf(jobs[id := j], o, t) == GoingOf(jobs, o, t) - {id};
    }
  }

  lemma FinishClocked(owners: seq<Owner>, ended: map<(Owner, Task, Status), nat>, durations: map<Task, Histogram>,
                      o: Owner, t: Task, status: Status, x: Seconds)
    requires Clocked(owners, ended, durations) && Distinct(owners) && o in owners && status.Terminal()
    requires Shaped(SeenBy(durations, t))
    ensures Clocked(owners, Bump(ended, (o, t, status)), Observe(durations, t, x))
  {
    forall u: Task ensures Timed(Observe(durations, t, x), u) == EndedBy(owners, Bump(ended, (o, t, status)), u) {
      ObserveTimes(durations, t, x, u);
      EndedByFinish(owners, ended, o, t, status, u);
    }
  }

  lemma ObserveTimes(series: map<Task, Histogram>, t: Task, x: Seconds, u: Task)
    requires Shaped(SeenBy(series, t))
    ensures Timed(Observe(series, t, x), u) == Timed(series, u) + if u == t then 1 else 0
  {
  }

  // ---------------------------------------------------------------- primitive steps

  function EndOf(j: Job, env: Env): End {
    End(env.now, env.wall, j.owner, j.task, j.status)
  }

  lemma WriteFiled(s: Store, id: JobId, u: Store, past: History, env: Env)
    requires Filed(s.jobs, s.disk.rows, s.past) && Table(s.disk.rows) && Going(s.jobs, id) && id in s.past.issued
    requires u.disk == s.disk && id in u.jobs && u.jobs == s.jobs[id := u.jobs[id]]
    requires u.jobs[id].status.Terminal() && u.jobs[id].finished == Some(env.now)
    requires u.jobs[id].task == s.jobs[id].task && u.jobs[id].timeoutMs == s.jobs[id].timeoutMs
    requires u.jobs[id].progress == s.jobs[id].progress
    requires u.jobs[id].owner == s.jobs[id].owner && u.jobs[id].key == s.jobs[id].key
    requires past.ends == s.past.ends[id := EndOf(u.jobs[id], env)]
    requires past.issued == s.past.issued && past.restored == s.past.restored
    ensures Table(Write(u, id, env).rows)
    ensures Filed(u.jobs, Write(u, id, env).rows, past)
  {
    assert Recorded(s.jobs[id], s.disk.rows[id]);
  }

  lemma FinishPast(s: Store, id: JobId, j: Job, past: History, loose: set<JobId>)
    requires Given(s.jobs, s.active, s.past, loose) && Within(s.cfg, s.jobs, s.past)
    requires Going(s.jobs, id) && id !in s.active && j.status.Terminal() && j.owner == s.jobs[id].owner
    requires past == s.past.(ends := past.ends, took := past.took)
    ensures Given(s.jobs[id := j], s.active, past, loose - {id}) && Within(s.cfg, s.jobs[id := j], past)
  {
    JobGiven(s, id, j, loose, loose - {id});
    GivenPast(s.jobs[id := j], s.active, s.past, past, loose - {id});
    JobWithin(s.cfg, s.jobs, s.past, id, j);
    WithinPast(s.cfg, s.jobs[id := j], s.past, past);
  }

  lemma FinishKeeps(s: Store, id: JobId, status: Status, result: Option<Value>, code: Option<Code>, env: Env,
                    loose: set<JobId>, spent: set<WorkerId>)
    requires Valid(s, loose, spent) && Unfinished(s, id) && id !in s.active && status.Terminal()
    ensures Valid(Finish(s, id, status, result, code, env), loose - {id}, spent)
  {
    hide Books, Crew, Pairing, Given, Submitted, Table, Filed, Balanced, Clocked, Measured, Turns, Within;
    var t := Finish(s, id, status, result, code, env);
    var j := t.jobs[id];
    assert Going(s.jobs, id);
    GoingSubmitted(s, id);
    JobBooks(s, id, j);
    JobPairing(s, id, j);
    JobSubmitted(s, id, j);
    WriteFiled(s, id, s.(jobs := s.jobs[id := j]), t.past, env);
    FinishBalanced(s.jobs, s.stats.submitted, s.stats.ended, id, j);
    MeasuredShape(s.stats.ended, s.stats.durations, s.past, j.task);
    FinishClocked(s.cfg.owners, s.stats.ended, s.stats.durations, j.owner, j.task, status, env.now - j.submittedAt);
    NotEnded(s, id);
    MeasuredFinish(s.stats.ended, s.stats.durations, s.past, id, j.submittedAt, EndOf(j, env));
    FinishPast(s, id, j, t.past, loose);
    SubmittedPast(t.cfg, t.jobs, s.past, t.past);
  }

  lemma WithinPast(cfg: Config, jobs: map<JobId, Job>, p: History, q: History)
    requires Within(cfg, jobs, p) && q.restored == p.restored
    ensures Within(cfg, jobs, q)
  {
    forall quota ensures Allowed(cfg, q, quota) == Allowed(cfg, p, quota) {
      if quota.OwnerQuota? {
        assert RestoredBy(p, quota.owner) == RestoredBy(q, quota.owner);
      }
    }
  }

  lemma GoingSubmitted(s: Store, id: JobId)
    requires Submitted(s.cfg, s.jobs, s.past) && Going(s.jobs, id)
    ensures id in s.past.issued && s.past.issued[id] == WorkOf(s, id) && s.jobs[id].owner in s.cfg.owners
    ensures id in s.past.arrivals && s.past.arrivals[id] == s.jobs[id].submittedAt
  {
  }

  lemma NotEnded(s: Store, id: JobId)
    requires Books(s.jobs, s.order, s.keys) && Filed(s.jobs, s.disk.rows, s.past) && Going(s.jobs, id)
    ensures id !in s.past.ends
  {
  }

  lemma SubmittedPast(cfg: Config, jobs: map<JobId, Job>, p: History, q: History)
    requires Submitted(cfg, jobs, p) && q.issued == p.issued && q.arrivals == p.arrivals
    ensures Submitted(cfg, jobs, q)
  {
  }

  lemma GivenPast(jobs: map<JobId, Job>, active: map<JobId, WorkerId>, p: History, q: History, loose: set<JobId>)
    requires Given(jobs, active, p, loose) && q.attaches == p.attaches && q.issued == p.issued
    ensures Given(jobs, active, q, loose)
  {
    forall i ensures Tries(p, i) == Tries(q, i) {
    }
  }

  lemma {:induction false} RemoveFirst<T(!new)>(xs: seq<T>, x: T)
    requires Distinct(xs)
    ensures Distinct(Remove(xs, x)) && |Remove(xs, x)| <= |xs|
    ensures forall y :: y in Remove(xs, x) <==> y in xs && y != x
  {
    if xs != [] && xs[0] != x {
      RemoveFirst(xs[1..], x);
      var rest := Remove(xs[1..], x);
      assert xs == [xs[0]] + xs[1..];
      assert xs[0] !in xs[1..];
      assert xs[0] !in rest;
    }
  }

  function JobOf(s: Store, w: WorkerId): set<JobId> {
    if w in s.workers && s.workers[w].job.Some? then {s.workers[w].job.value} else {}
  }

  lemma PairRelease(jobs: map<JobId, Job>, active: map<JobId, WorkerId>, workers: map<WorkerId, Worker>,
                    w: WorkerId, k: Worker)
    requires Pairing(jobs, active, workers) && w in workers && k.job.None?
    ensures Pairing(jobs, WithoutJob(active, workers[w].job), workers[w := k])
  {
  }

  lemma PairOf(jobs: map<JobId, Job>, active: map<JobId, WorkerId>, workers: map<WorkerId, Worker>, w: WorkerId)
    requires Pairing(jobs, active, workers) && w in workers
    ensures workers[w].job.Some? ==> workers[w].job.value in active && active[workers[w].job.value] == w
  {
  }

  lemma GivenRelease(jobs: map<JobId, Job>, active: map<JobId, WorkerId>, past: History, loose: set<JobId>, id: JobId)
    requires Given(jobs, active, past, loose) && id in active
    ensures Given(jobs, active - {id}, past, loose + {id})
  {
  }

  lemma CrewDetach(s: Store, w: WorkerId, stop: bool, env: Env, spent: set<WorkerId>)
    requires Crew(s.cfg, s.pool, s.retiring, s.workers, spent) && w in s.workers && s.workers[w].retiredAt.None?
    ensures var t := Detach(s, w, stop, env); Crew(t.cfg, t.pool, t.retiring, t.workers, spent - {w})
  {
    RemoveFirst(s.pool, w);
  }

  lemma DetachKeeps(s: Store, w: WorkerId, stop: bool, env: Env, loose: set<JobId>, spent: set<WorkerId>)
    requires Valid(s, loose, spent) && w in s.workers && s.workers[w].retiredAt.None?
    ensures Valid(Detach(s, w, stop, env), loose + JobOf(s, w), spent - {w})
  {
    hide Books, Crew, Pairing, Given, Submitted, Table, Filed, Balanced, Clocked, Measured, Turns, Within;
    CrewDetach(s, w, stop, env, spent);
    PairRelease(s.jobs, s.active, s.workers, w, Retired(s.workers[w], stop, env.now));
    PairOf(s.jobs, s.active, s.workers, w);
    if s.workers[w].job.Some? {
      GivenRelease(s.jobs, s.active, s.past, loose, s.workers[w].job.value);
    } else {
      assert loose + {} == loose;
    }
  }

  lemma RequeueKeeps(s: Store, id: JobId, loose: set<JobId>, spent: set<WorkerId>)
    requires Valid(s, loose, spent) && id in loose && Unfinished(s, id) && s.jobs[id].status.Queued? && !s.jobs[id].retried
    ensures Valid(s.(jobs := s.jobs[id := s.jobs[id].(retried := true)]), loose - {id}, spent)
  {
    var j := s.jobs[id].(retried := true);
    assert Going(s.jobs, id);
    JobBooks(s, id, j);
    JobPairing(s, id, j);
    JobSubmitted(s, id, j);
    JobFiled(s, id, j);
    JobBalanced(s, id, j);
    JobWithin(s.cfg, s.jobs, s.past, id, j);
    JobGiven(s, id, j, loose, loose - {id});
  }

  lemma CrewChange(cfg: Config, pool: seq<WorkerId>, retiring: seq<WorkerId>, workers: map<WorkerId, Worker>,
                   w: WorkerId, k: Worker, spent: set<WorkerId>, after: set<WorkerId>)
    requires Crew(cfg, pool, retiring, workers, spent) && w in workers && Sound(cfg, k)
    requires k.retiredAt == workers[w].retiredAt
    requires w in after || k.retiredAt.Some? || k.job.Some? || k.served < cfg.maxJobs
    requires spent <= after
    ensures Crew(cfg, pool, retiring, workers[w := k], after)
  {
  }

  lemma UnassignKeeps(s: Store, w: WorkerId, id: JobId, loose: set<JobId>, spent: set<WorkerId>)
    requires Valid(s, loose, spent) && id in s.active && s.active[id] == w
    ensures Valid(Unassign(s, w, id), loose + {id}, spent + {w})
  {
    var k := s.workers[w].(job := None);
    CrewChange(s.cfg, s.pool, s.retiring, s.workers, w, k, spent, spent + {w});
    PairRelease(s.jobs, s.active, s.workers, w, k);
    GivenRelease(s.jobs, s.active, s.past, loose, id);
  }

  lemma GivenAttach(jobs: map<JobId, Job>, active: map<JobId, WorkerId>, past: History, id: JobId, w: WorkerId)
    requires Given(jobs, active, past, {}) && Going(jobs, id) && id !in active && id in past.issued
    ensures Given(jobs, active[id := w], past.(attaches := Bump(past.attaches, id)), {})
  {
    var after := past.(attaches := Bump(past.attaches, id));
    forall i ensures Tries(after, i) == Tries(past, i) + (if i == id then 1 else 0) {
    }
    assert Tries(past, id) <= 1;
  }

  lemma PairAttach(jobs: map<JobId, Job>, active: map<JobId, WorkerId>, workers: map<WorkerId, Worker>,
                   id: JobId, w: WorkerId, k: Worker)
    requires Pairing(jobs, active, workers) && w in workers && workers[w].job.None?
    requires Going(jobs, id) && id !in active && k.job == Some(id)
    ensures Pairing(jobs, active[id := w], workers[w := k])
  {
  }

  lemma PoolServes(s: Store, w: WorkerId)
    requires Crew(s.cfg, s.pool, s.retiring, s.workers, {}) && w in s.pool && Free(s, w)
    ensures s.workers[w].retiredAt.None? && s.workers[w].served < s.cfg.maxJobs && Sound(s.cfg, s.workers[w])
  {
  }

  lemma FiledAttach(s: Store, past: History)
    requires Filed(s.jobs, s.disk.rows, s.past)
    requires past.ends == s.past.ends && past.issued == s.past.issued && past.restored == s.past.restored
    ensures Filed(s.jobs, s.disk.rows, past)
  {
  }

  lemma AttachKeeps(s: Store, id: JobId, w: WorkerId)
    requires Valid(s, {}, {}) && Unfinished(s, id) && s.jobs[id].status.Queued? && id !in s.active
    requires w in s.pool && Free(s, w)
    ensures Valid(AttachTo(s, id, w), {}, {})
  {
    hide Books, Pairing, Given, Submitted, Table, Filed, Balanced, Clocked, Measured, Turns, Within;
    assert Going(s.jobs, id);
    var t := AttachTo(s, id, w);
    PoolServes(s, w);
    GoingSubmitted(s, id);
    SubmittedPast(s.cfg, s.jobs, s.past, t.past);
    FiledAttach(s, t.past);
    CrewChange(s.cfg, s.pool, s.retiring, s.workers, w, t.workers[w], {}, {});
    PairAttach(s.jobs, s.active, s.workers, id, w, t.workers[w]);
    GivenAttach(s.jobs, s.active, s.past, id, w);
    WithinPast(s.cfg, s.jobs, s.past, t.past);
    MeasuredPast(s.stats.ended, s.stats.durations, s.past, t.past);
  }

  lemma MarkKeeps(s: Store, w: WorkerId, k: Worker)
    requires Valid(s, {}, {}) && w in s.workers
    requires k.job == s.workers[w].job && k.served == s.workers[w].served && k.retiredAt == s.workers[w].retiredAt
    requires Sound(s.cfg, k)
    ensures Valid(s.(workers := s.workers[w := k]), {}, {})
  {
    CrewChange(s.cfg, s.pool, s.retiring, s.workers, w, k, {}, {});
    PairMark(s.jobs, s.active, s.workers, w, k);
  }

  lemma PairMark(jobs: map<JobId, Job>, active: map<JobId, WorkerId>, workers: map<WorkerId, Worker>,
                 w: WorkerId, k: Worker)
    requires Pairing(jobs, active, workers) && w in workers && k.job == workers[w].job
    ensures Pairing(jobs, active, workers[w := k])
  {
  }

  lemma BegunKeeps(s: Store, id: JobId, env: Env)
    requires Valid(s, {}, {}) && id in s.active
    ensures Valid(Begun(s, id, env), {}, {})
  {
    assert Going(s.jobs, id);
    NotEnded(s, id);
    var j := s.jobs[id].(status := Running, startedAt := Some(env.now));
    JobBooks(s, id, j);
    JobPairing(s, id, j);
    JobSubmitted(s, id, j);
    JobFiled(s, id, j);
    JobBalanced(s, id, j);
    JobWithin(s.cfg, s.jobs, s.past, id, j);
    JobGiven(s, id, j, {}, {});
  }

  lemma AdvancedKeeps(s: Store, id: JobId, p: Progress)
    requires Valid(s, {}, {}) && Unfinished(s, id)
    ensures Valid(Advanced(s, id, p), {}, {})
  {
    assert Going(s.jobs, id);
    var j := s.jobs[id].(progress := Some(p));
    JobBooks(s, id, j);
    JobPairing(s, id, j);
    JobSubmitted(s, id, j);
    JobFiled(s, id, j);
    JobBalanced(s, id, j);
    JobWithin(s.cfg, s.jobs, s.past, id, j);
    JobGiven(s, id, j, {}, {});
  }

  lemma {:induction false} FreshKeeps(s: Store, ids: seq<JobId>, now: Seconds)
    requires Distinct(ids)
    ensures Distinct(Fresh(s, ids, now))
    ensures forall id :: id in Fresh(s, ids, now) <==> id in ids && !(id in s.jobs && Stale(s.jobs[id], s.cfg.retention, now))
  {
    if ids != [] {
      FreshKeeps(s, ids[1..], now);
      assert ids == [ids[0]] + ids[1..];
    }
  }

  lemma ExpireKeeps(s: Store, env: Env)
    requires Valid(s, {}, {})
    ensures Valid(Expire(s, env), {}, {})
  {
    FreshKeeps(s, s.order, env.now);
    var t := Expire(s, env);
    ExpireLeaves(s, env);
    ExpireFiled(s, env);
    ExpireTally(s, env);
    ExpireWithin(s, env);
  }

  /** Only jobs that have ended go. */
  lemma ExpireLeaves(s: Store, env: Env)
    requires Books(s.jobs, s.order, s.keys) && Pairing(s.jobs, s.active, s.workers)
    requires Given(s.jobs, s.active, s.past, {}) && Submitted(s.cfg, s.jobs, s.past)
    ensures var t := Expire(s, env);
            && Books(t.jobs, t.order, t.keys) && Pairing(t.jobs, t.active, t.workers)
            && Given(t.jobs, t.active, t.past, {}) && Submitted(t.cfg, t.jobs, t.past)
  {
    FreshKeeps(s, s.order, env.now);
    var t := Expire(s, env);
    forall id ensures Going(t.jobs, id) <==> Going(s.jobs, id) {
    }
  }

  lemma ExpireFiled(s: Store, env: Env)
    requires Table(s.disk.rows) && Filed(s.jobs, s.disk.rows, s.past)
    ensures var t := Expire(s, env); Table(t.disk.rows) && Filed(t.jobs, t.disk.rows, t.past)
  {
  }

  lemma ExpireTally(s: Store, env: Env)
    requires Books(s.jobs, s.order, s.keys) && Balanced(s.jobs, s.stats.submitted, s.stats.ended)
    ensures var t := Expire(s, env); Balanced(t.jobs, t.stats.submitted, t.stats.ended)
  {
    forall o: Owner, v: Task ensures GoingOf(Expire(s, env).jobs, o, v) == GoingOf(s.jobs, o, v) {
    }
  }

  lemma ExpireWithin(s: Store, env: Env)
    requires Within(s.cfg, s.jobs, s.past)
    ensures var t := Expire(s, env); Within(t.cfg, t.jobs, t.past)
  {
    var t := Expire(s, env);
    forall quota ensures |Counted(t.jobs, quota)| <= |Counted(s.jobs, quota)| {
      Fewer(Counted(t.jobs, quota), Counted(s.jobs, quota));
    }
  }

  /** A fresh id: never drawn before, and of no row. */
  ghost predicate Unused(s: Store, id: JobId) {
    && id !in s.past.issued && id !in s.past.restored && id !in s.past.attaches && id !in s.past.ends
    && id !in s.jobs && id !in s.disk.rows
  }

  lemma BooksAdmit(s: Store, id: JobId, j: Job)
    requires Books(s.jobs, s.order, s.keys) && id !in s.jobs && j.finished.None? && !j.status.Terminal()
    requires j.key.Some? ==> (j.owner, j.key.value) !in s.keys
    ensures Books(s.jobs[id := j], s.order + [id], if j.key.Some? then s.keys[(j.owner, j.key.value) := id] else s.keys)
  {
  }

  /** A submission's row replaces no row of a job in memory: the key of such a row is still held. */
  lemma InsertFiled(s: Store, id: JobId, j: Job, wall: Seconds)
    requires Books(s.jobs, s.order, s.keys) && Table(s.disk.rows) && Filed(s.jobs, s.disk.rows, s.past)
    requires id !in s.jobs && id !in s.past.ends && j.finished.None? && !j.status.Terminal() && j.progress.None?
    requires j.key.Some? ==> (j.owner, j.key.value) !in s.keys
    ensures Table(Insert(s.disk.rows, id, RowOf(j, wall)))
    ensures Filed(s.jobs[id := j], Insert(s.disk.rows, id, RowOf(j, wall)), s.past)
  {
    hide Books, Filed, Table;
    InsertTable(s.disk.rows, id, RowOf(j, wall));
    InsertSpares(s, id, j, wall);
    FiledMore(s.jobs, s.disk.rows, s.past, id, j, Insert(s.disk.rows, id, RowOf(j, wall)));
  }

  lemma InsertTable(rows: map<JobId, Row>, id: JobId, row: Row)
    requires Table(rows) && (row.finishedAt.Some? <==> row.status.Terminal())
    ensures Table(Insert(rows, id, row))
  {
  }

  lemma InsertSpares(s: Store, id: JobId, j: Job, wall: Seconds)
    requires Books(s.jobs, s.order, s.keys) && Filed(s.jobs, s.disk.rows, s.past) && id !in s.jobs
    requires j.key.Some? ==> (j.owner, j.key.value) !in s.keys
    ensures var after := Insert(s.disk.rows, id, RowOf(j, wall));
            id in after && after[id] == RowOf(j, wall) && forall i | i in s.jobs :: i in after && after[i] == s.disk.rows[i]
  {
    var after := Insert(s.disk.rows, id, RowOf(j, wall));
    forall i | i in s.jobs ensures i in after && after[i] == s.disk.rows[i] {
      assert Recorded(s.jobs[i], s.disk.rows[i]);
    }
  }

  lemma FiledMore(jobs: map<JobId, Job>, rows: map<JobId, Row>, past: History, id: JobId, j: Job, after: map<JobId, Row>)
    requires Filed(jobs, rows, past) && id !in jobs && id !in past.ends && j.finished.None?
    requires id in after && Recorded(j, after[id]) && forall i | i in jobs :: i in rows && i in after && after[i] == rows[i]
    ensures Filed(jobs[id := j], after, past)
  {
  }

  lemma GoingAdmit(s: Store, id: JobId, j: Job)
    requires Pairing(s.jobs, s.active, s.workers) && Given(s.jobs, s.active, s.past, {}) && Submitted(s.cfg, s.jobs, s.past)
    requires id !in s.jobs && id !in s.past.attaches && !j.status.Terminal() && !j.status.Running? && !j.retried
    requires j.owner in s.cfg.owners
    ensures var past := s.past.(issued := s.past.issued[id := Work(id, j.task, j.input)],
                                arrivals := s.past.arrivals[id := j.submittedAt]);
            && Pairing(s.jobs[id := j], s.active, s.workers)
            && Given(s.jobs[id := j], s.active, past, {})
            && Submitted(s.cfg, s.jobs[id := j], past)
  {
    hide Pairing, Given, Submitted;
    var past := s.past.(issued := s.past.issued[id := Work(id, j.task, j.input)],
                        arrivals := s.past.arrivals[id := j.submittedAt]);
    PairingAdmit(s, id, j);
    GivenAdmit(s, id, j, past);
    SubmittedAdmit(s, id, j, past);
  }

  lemma PairingAdmit(s: Store, id: JobId, j: Job)
    requires Pairing(s.jobs, s.active, s.workers) && id !in s.jobs
    ensures Pairing(s.jobs[id := j], s.active, s.workers) && id !in s.active
  {
    forall i | i in s.active ensures Going(s.jobs[id := j], i) {
      assert Going(s.jobs, i);
    }
  }

  lemma GivenAdmit(s: Store, id: JobId, j: Job, past: History)
    requires Given(s.jobs, s.active, s.past, {}) && id !in s.jobs && id !in s.active && id !in s.past.attaches
    requires !j.status.Running? && !j.retried && past.attaches == s.past.attaches && s.past.issued.Keys <= past.issued.Keys
    ensures Given(s.jobs[id := j], s.active, past, {})
  {
    forall i ensures Tries(past, i) == Tries(s.past, i) {
    }
    forall i | Going(s.jobs[id := j], i) && i != id ensures Going(s.jobs, i) {
    }
  }

  lemma SubmittedAdmit(s: Store, id: JobId, j: Job, past: History)
    requires Submitted(s.cfg, s.jobs, s.past) && id !in s.jobs && j.owner in s.cfg.owners
    requires past.issued == s.past.issued[id := Work(id, j.task, j.input)]
    requires past.arrivals == s.past.arrivals[id := j.submittedAt]
    ensures Submitted(s.cfg, s.jobs[id := j], past)
  {
    forall i | Going(s.jobs[id := j], i) && i != id ensures Going(s.jobs, i) {
    }
  }

  /** Room for one more job of an owner. */
  ghost predicate Roomy(s: Store, o: Owner) {
    && |OpenJobs(s.jobs)| < s.cfg.capacity
    && |s.jobs| - |OpenJobs(s.jobs)| < s.cfg.resultCapacity
    && (s.cfg.ownerCapacity.Some? ==> |HeldBy(s.jobs, o)| < s.cfg.ownerCapacity.value)
  }

  lemma AdmitGoingOf(jobs: map<JobId, Job>, id: JobId, j: Job, o: Owner, t: Task)
    requires id !in jobs && !j.status.Terminal()
    ensures |GoingOf(jobs[id := j], o, t)| == |GoingOf(jobs, o, t)| + if o == j.owner && t == j.task then 1 else 0
  {
    assert GoingOf(jobs[id := j], o, t) == GoingOf(jobs, o, t) + (if o == j.owner && t == j.task then {id} else {});
  }

  lemma AdmitBalanced(jobs: map<JobId, Job>, submitted: map<(Owner, Task), nat>,
                      ended: map<(Owner, Task, Status), nat>, id: JobId, j: Job)
    requires Balanced(jobs, submitted, ended) && id !in jobs && !j.status.Terminal()
    ensures Balanced(jobs[id := j], Bump(submitted, (j.owner, j.task)), ended)
  {
    forall o: Owner, t: Task
      ensures |GoingOf(jobs[id := j], o, t)| == |GoingOf(jobs, o, t)| + if o == j.owner && t == j.task then 1 else 0
    {
      AdmitGoingOf(jobs, id, j, o, t);
    }
  }

  lemma AdmitOwned(jobs: map<JobId, Job>, id: JobId, j: Job, o: Owner)
    requires id !in jobs
    ensures |HeldBy(jobs[id := j], o)| == |HeldBy(jobs, o)| + if o == j.owner then 1 else 0
  {
    assert HeldBy(jobs[id := j], o) == HeldBy(jobs, o) + (if o == j.owner then {id} else {});
  }

  lemma AdmitGoing(jobs: map<JobId, Job>, id: JobId, j: Job)
    requires id !in jobs && !j.status.Terminal()
    ensures |OpenJobs(jobs[id := j])| == |OpenJobs(jobs)| + 1
  {
    assert OpenJobs(jobs[id := j]) == OpenJobs(jobs) + {id};
  }

  lemma AdmitCount(jobs: map<JobId, Job>, id: JobId, j: Job)
    requires id !in jobs
    ensures |jobs[id := j]| == |jobs| + 1
  {
    assert jobs[id := j].Keys == jobs.Keys + {id};
  }

  lemma AdmitWithin(s: Store, id: JobId, j: Job)
    requires Within(s.cfg, s.jobs, s.past) && Roomy(s, j.owner) && id !in s.jobs && !j.status.Terminal()
    ensures Within(s.cfg, s.jobs[id := j], s.past)
  {
    hide HeldBy, OpenJobs, RestoredBy;
    forall quota | Allowed(s.cfg, s.past, quota).Some?
      ensures |Counted(s.jobs[id := j], quota)| <= Allowed(s.cfg, s.past, quota).value
    {
      assert |Counted(s.jobs, quota)| <= Allowed(s.cfg, s.past, quota).value;
      match quota
      case ActiveQuota => AdmitGoing(s.jobs, id, j);
      case TotalQuota => AdmitCount(s.jobs, id, j);
      case OwnerQuota(o) => AdmitOwned(s.jobs, id, j, o);
    }
  }

  lemma AdmitKeeps(s: Store, req: Request, id: JobId, env: Env)
    requires Valid(s, {}, {}) && Unused(s, id) && s.disk.open && !s.stopping && req.owner in s.cfg.owners
    requires req.key.Some? ==> (req.owner, req.key.value) !in s.keys
    requires Roomy(s, req.owner)
    ensures Valid(Admit(s, req, id, env), {}, {})
  {
    AdmitBalanced(s.jobs, s.stats.submitted, s.stats.ended, id, NewJob(req, env.now));
    AdmitWithin(s, id, NewJob(req, env.now));
    WithinPast(s.cfg, s.jobs[id := NewJob(req, env.now)], s.past, Admit(s, req, id, env).past);
    var j := NewJob(req, env.now);
    BooksAdmit(s, id, j);
    GoingAdmit(s, id, j);
    InsertFiled(s, id, j, env.wall);
    FiledPast(s.jobs[id := j], Insert(s.disk.rows, id, RowOf(j, env.wall)), s.past, Admit(s, req, id, env).past);
    MeasuredAdmit(s.stats.ended, s.stats.durations, s.past, id, Work(id, req.task, Some(req.payload)), env.now);
  }

  lemma FiledPast(jobs: map<JobId, Job>, rows: map<JobId, Row>, p: History, q: History)
    requires Filed(jobs, rows, p) && q.ends == p.ends && p.issued.Keys <= q.issued.Keys && q.restored == p.restored
    ensures Filed(jobs, rows, q)
  {
  }

  lemma {:induction false} OwnersAt(queues: seq<Queue>)
    ensures |Owners(queues)| == |queues|
    ensures forall k | 0 <= k < |queues| :: Owners(queues)[k] == queues[k].owner
  {
    if queues != [] {
      OwnersAt(queues[1..]);
    }
  }

  /** The owner served longest ago is a fair choice, and becomes the one served last. */
  lemma PickKeeps(cfg: Config, s: Store, queues: seq<Queue>)
    requires Turns(cfg, s.served, s.dispatched, s.past.picks) && queues != []
    requires queues[Least(s, queues)].owner in cfg.owners
    ensures var t := Dispatched(s, Owners(queues), queues[Least(s, queues)].owner);
            Turns(cfg, t.served, t.dispatched, t.past.picks)
  {
    OwnersAt(queues);
    var chosen := queues[Least(s, queues)].owner;
    var t := Dispatched(s, Owners(queues), chosen);
    var picks, after := s.past.picks, t.past.picks;
    assert after[..|picks|] == picks;
    assert Owners(queues)[Least(s, queues)] == chosen;
    forall k, o | 0 <= k < |after| && o in after[k].waiting
      ensures LastPick(after[..k], after[k].chosen) <= LastPick(after[..k], o)
    {
      assert after[..k] == picks[..k];
      if k == |picks| {
        assert picks[..k] == picks;
        var q :| 0 <= q < |queues| && queues[q].owner == o;
        assert LastServed(s, chosen) <= LastServed(s, o);
      }
    }
  }

  lemma JoinKeeps(s: Store, w: WorkerId, now: Seconds)
    requires Valid(s, {}, {}) && w !in s.workers && |s.pool| < s.cfg.concurrency
    ensures Valid(Join(s, w, now), {}, {})
  {
    CrewJoin(s, w, now);
    PairJoin(s, w, NewWorker(now));
  }

  lemma PairJoin(s: Store, w: WorkerId, k: Worker)
    requires Pairing(s.jobs, s.active, s.workers) && w !in s.workers && k.job.None?
    ensures Pairing(s.jobs, s.active, s.workers[w := k])
  {
  }

  lemma CrewJoin(s: Store, w: WorkerId, now: Seconds)
    requires s.cfg.Legal() && Crew(s.cfg, s.pool, s.retiring, s.workers, {})
    requires w !in s.workers && |s.pool| < s.cfg.concurrency
    ensures var t := Join(s, w, now); Crew(t.cfg, t.pool, t.retiring, t.workers, {})
  {
  }

  lemma ForgetKeeps(s: Store, w: WorkerId)
    requires Valid(s, {}, {})
    ensures Valid(Forget(s, w), {}, {})
  {
    RemoveFirst(s.retiring, w);
  }
}
