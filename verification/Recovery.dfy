/** Opening the store: what an earlier run left in the table becomes this run's jobs. */
module Recovery {
  import opened Wrappers
  import opened Metrics
  import opened JobTypes
  import opened StoreModel
  import opened StoreInvariant
  import opened Durations

  // ---------------------------------------------------------------- the table, as it is opened

  /** What never completed is failed, not replayed. */
  function Restarted(r: Row, wall: Seconds): Row {
    if r.status.Terminal() then r
    else r.(status := Failed, result := None, code := Some(ServiceRestarted), finishedAt := Some(wall))
  }

  /** The rows kept: those whose retention is not over on the wall clock. */
  predicate Retained(r: Row, retention: Seconds, wall: Seconds) {
    r.finishedAt.Some? && r.finishedAt.value > wall - retention
  }

  function Reopened(rows: map<JobId, Row>, retention: Seconds, wall: Seconds): map<JobId, Row> {
    map id | id in rows && Retained(Restarted(rows[id], wall), retention, wall) :: Restarted(rows[id], wall)
  }

  /** How long before now a job finished, as the wall clock tells it. */
  function Age(r: Row, wall: Seconds): Seconds
    requires r.finishedAt.Some?
  {
    if wall - r.finishedAt.value > 0.0 then wall - r.finishedAt.value else 0.0
  }

  function JobFrom(r: Row, env: Env): Job
    requires r.finishedAt.Some?
  {
    Job(r.task, r.owner, r.key, r.timeoutMs, r.status, r.result, r.code, r.progress, None, env.now, env.now, None,
        Some(env.now - Age(r, env.wall)), true)
  }

  function KeysFrom(rows: map<JobId, Row>, order: seq<JobId>): map<(Owner, Key), JobId>
    requires forall id | id in order :: id in rows
  {
    if order == [] then map[]
    else
      var id := order[|order| - 1];
      var keys := KeysFrom(rows, order[..|order| - 1]);
      if rows[id].key.Some? then keys[(rows[id].owner, rows[id].key.value) := id] else keys
  }

  function NoStats(cfg: Config): Stats {
    Stats(
      map o, t, s | o in cfg.owners && t in cfg.tasks && s in {Succeeded, Failed, TimedOut, Cancelled} :: (o, t, s) := 0,
      map o, t | o in cfg.owners && t in cfg.tasks :: (o, t) := 0,
      map o | o in cfg.owners :: 0,
      map t | t in cfg.tasks :: Empty(),
      map t | t in cfg.tasks :: Empty())
  }

  function JobsFrom(rows: map<JobId, Row>, env: Env): map<JobId, Job>
    requires forall id | id in rows :: rows[id].finishedAt.Some?
  {
    map id | id in rows :: JobFrom(rows[id], env)
  }

  function PastFrom(rows: map<JobId, Row>, env: Env): History
    requires forall id | id in rows :: rows[id].finishedAt.Some?
  {
    History(map id | id in rows :: rows[id].owner, map[], map[], map[],
            map id | id in rows :: End(env.now - Age(rows[id], env.wall), rows[id].finishedAt.value, rows[id].owner,
                                       rows[id].task, rows[id].status),
            [], [])
  }

  /** The store a process opens on a table, with the rows it keeps read in the given order. */
  function Opened(cfg: Config, table: map<JobId, Row>, order: seq<JobId>, env: Env): Store
    requires forall id :: id in order <==> id in Reopened(table, cfg.retention, env.wall)
  {
    var rows := Reopened(table, cfg.retention, env.wall);
    Store(
      cfg, JobsFrom(rows, env), order, KeysFrom(rows, order), map[], map[], 0, [], [], map[], 0.0, false, false,
      Disk(rows, true), NoStats(cfg), PastFrom(rows, env))
  }

  // ---------------------------------------------------------------- an opened store is a sound one

  /** Rows that can be opened: finished ones, no two of one owner and key. */
  ghost predicate Finished(rows: map<JobId, Row>) {
    Table(rows) && forall id | id in rows :: rows[id].status.Terminal()
  }

  ghost predicate Opens(s: Store, cfg: Config, table: map<JobId, Row>, order: seq<JobId>, env: Env) {
    && cfg.Legal() && Table(table) && Distinct(order)
    && (forall id :: id in order <==> id in Reopened(table, cfg.retention, env.wall))
    && s == Opened(cfg, table, order, env)
  }

  lemma ReopenedEnded(table: map<JobId, Row>, retention: Seconds, wall: Seconds)
    requires Table(table)
    ensures Finished(Reopened(table, retention, wall))
  {
  }

  /** The keys are the inverse of the keyed rows among those listed. */
  ghost predicate Inverse(keys: map<(Owner, Key), JobId>, rows: map<JobId, Row>, ids: seq<JobId>)
    requires forall id | id in ids :: id in rows
  {
    && (forall k | k in keys :: keys[k] in ids && rows[keys[k]].owner == k.0 && rows[keys[k]].key == Some(k.1))
    && (forall id | id in ids && rows[id].key.Some? ::
          (rows[id].owner, rows[id].key.value) in keys && keys[(rows[id].owner, rows[id].key.value)] == id)
  }

  lemma InverseMore(keys: map<(Owner, Key), JobId>, rows: map<JobId, Row>, ids: seq<JobId>, id: JobId)
    requires Table(rows) && id in rows && id !in ids && forall i | i in ids :: i in rows
    requires Inverse(keys, rows, ids)
    ensures Inverse(if rows[id].key.Some? then keys[(rows[id].owner, rows[id].key.value) := id] else keys, rows, ids + [id])
  {
  }

  lemma {:induction false} KeysFromAre(rows: map<JobId, Row>, order: seq<JobId>)
    requires Table(rows) && Distinct(order) && forall id | id in order :: id in rows
    ensures Inverse(KeysFrom(rows, order), rows, order)
  {
    if order != [] {
      var n := |order| - 1;
      KeysFromAre(rows, order[..n]);
      assert order == order[..n] + [order[n]];
      InverseMore(KeysFrom(rows, order[..n]), rows, order[..n], order[n]);
    }
  }

  lemma OpenedBooks(rows: map<JobId, Row>, order: seq<JobId>, env: Env)
    requires Finished(rows) && Distinct(order) && forall id :: id in order <==> id in rows
    ensures Books(JobsFrom(rows, env), order, KeysFrom(rows, order))
  {
    KeysFromAre(rows, order);
  }

  lemma OpenedFiled(rows: map<JobId, Row>, env: Env)
    requires Finished(rows)
    ensures Filed(JobsFrom(rows, env), rows, PastFrom(rows, env))
  {
  }

  lemma OpenedCounts(cfg: Config, rows: map<JobId, Row>, env: Env)
    requires Finished(rows)
    ensures Balanced(JobsFrom(rows, env), NoStats(cfg).submitted, NoStats(cfg).ended)
    ensures Clocked(cfg.owners, NoStats(cfg).ended, NoStats(cfg).durations)
    ensures Measured(NoStats(cfg).ended, NoStats(cfg).durations, PastFrom(rows, env))
  {
    assert Of([]) == Empty();
    forall t: Task ensures EndedBy(cfg.owners, NoStats(cfg).ended, t) == 0 {
      NothingEnded(cfg, cfg.owners, t);
    }
    forall o: Owner, t: Task ensures GoingOf(JobsFrom(rows, env), o, t) == {} {
    }
  }

  lemma {:induction false} NothingEnded(cfg: Config, owners: seq<Owner>, t: Task)
    ensures EndedBy(owners, NoStats(cfg).ended, t) == 0
  {
    if owners != [] {
      NothingEnded(cfg, owners[1..], t);
    }
  }

  lemma OpenedWithin(cfg: Config, rows: map<JobId, Row>, env: Env)
    requires Finished(rows)
    ensures Within(cfg, JobsFrom(rows, env), PastFrom(rows, env))
  {
    var jobs, past := JobsFrom(rows, env), PastFrom(rows, env);
    forall quota | Allowed(cfg, past, quota).Some? ensures |Counted(jobs, quota)| <= Allowed(cfg, past, quota).value {
      match quota
      case ActiveQuota => assert OpenJobs(jobs) == {};
      case TotalQuota => assert jobs.Keys == past.restored.Keys;
      case OwnerQuota(o) => assert HeldBy(jobs, o) == RestoredBy(past, o);
    }
  }

  lemma OpenedRest(cfg: Config, rows: map<JobId, Row>, env: Env)
    requires Finished(rows)
    ensures Crew(cfg, [], [], map[], {}) && Pairing(JobsFrom(rows, env), map[], map[])
    ensures Given(JobsFrom(rows, env), map[], PastFrom(rows, env), {})
    ensures Submitted(cfg, JobsFrom(rows, env), PastFrom(rows, env))
    ensures Turns(cfg, map[], 0, PastFrom(rows, env).picks)
  {
  }

  /** A store opened on a table that an earlier run left satisfies the invariant, and every job in it has ended. */
  lemma OpenedValid(cfg: Config, table: map<JobId, Row>, order: seq<JobId>, env: Env)
    requires Table(table) && cfg.Legal() && Distinct(order)
    requires forall id :: id in order <==> id in Reopened(table, cfg.retention, env.wall)
    ensures Valid(Opened(cfg, table, order, env), {}, {})
    ensures forall id | id in Opened(cfg, table, order, env).jobs ::
              Opened(cfg, table, order, env).jobs[id].status.Terminal()
  {
    hide Books, Balanced, Clocked, Filed, Within, Crew, Pairing, Given, Submitted, Turns, NoStats, PastFrom, Reopened, Table,
      Measured;
    var rows := Reopened(table, cfg.retention, env.wall);
    ReopenedEnded(table, cfg.retention, env.wall);
    OpenedBooks(rows, order, env);
    OpenedFiled(rows, env);
    OpenedCounts(cfg, rows, env);
    OpenedWithin(cfg, rows, env);
    OpenedRest(cfg, rows, env);
  }

  /** An opened store takes submissions and starts children at once, and has counted nothing. */
  lemma OpenedServes(cfg: Config, table: map<JobId, Row>, order: seq<JobId>, env: Env)
    requires forall id :: id in order <==> id in Reopened(table, cfg.retention, env.wall)
    ensures var s := Opened(cfg, table, order, env);
            && !s.draining && !s.stopping && s.disk.open && s.pool == [] && s.backoffUntil == 0.0
            && forall o: Owner, t: Task ::
                 Get(s.stats.submitted, (o, t)) == 0 && Get(s.stats.rejected, o) == 0 && SeenBy(s.stats.waits, t) == Of([])
  {
    hide Reopened;
    assert Of([]) == Empty();
  }

  // ---------------------------------------------------------------- what survives

  /** A job's end reached the table. */
  predicate Written(s: Store, id: JobId) {
    id in s.disk.rows && s.disk.rows[id].status.Terminal()
  }

  /** A recovered job is the one it was, as it ended. */
  ghost predicate AsEnded(j: Job, k: Job) {
    && k.task == j.task && k.owner == j.owner && k.key == j.key && k.timeoutMs == j.timeoutMs
    && k.status == j.status && k.result == j.result && k.code == j.code && k.progress == j.progress
  }

  /** A recovered job is the one it was, failed by the restart. */
  ghost predicate AsLost(j: Job, k: Job) {
    && k.task == j.task && k.owner == j.owner && k.key == j.key && k.timeoutMs == j.timeoutMs
    && k.status.Failed? && k.result.None? && k.code == Some(ServiceRestarted) && k.progress.None?
  }

  /** The retention a job still has at one instant. */
  function Remaining(s: Store, id: JobId, now: Seconds): Seconds
    requires id in s.jobs && s.jobs[id].finished.Some?
  {
    s.cfg.retention - (now - s.jobs[id].finished.value)
  }

  /** The store u is opened on the table as s left it, whatever s was doing. */
  ghost predicate Reopens(s: Store, u: Store, order: seq<JobId>, env: Env) {
    Opens(u, s.cfg, s.disk.rows, order, env)
  }

  lemma RecordedOf(s: Store, id: JobId)
    requires Valid(s, {}, {}) && id in s.jobs
    ensures id in s.disk.rows && Recorded(s.jobs[id], s.disk.rows[id]) && s.cfg.Legal()
    ensures s.disk.rows[id].finishedAt.Some? <==> s.disk.rows[id].status.Terminal()
    ensures Written(s, id) ==> id in s.past.ends && s.disk.rows[id].finishedAt == Some(s.past.ends[id].wall)
  {
  }

  /** A job the process held, unless its end was written and its retention is over on the wall clock, is held by the
      next one: as it ended when that was written, and otherwise as a restart's failure. */
  lemma NothingLost(s: Store, u: Store, order: seq<JobId>, env: Env, id: JobId)
    requires Valid(s, {}, {}) && Reopens(s, u, order, env) && id in s.jobs
    ensures Written(s, id) ==> id in s.past.ends
    ensures id in u.jobs <==> !(Written(s, id) && env.wall - s.past.ends[id].wall >= s.cfg.retention)
    ensures id in u.jobs ==>
              u.jobs[id].status.Terminal() && if Written(s, id) then AsEnded(s.jobs[id], u.jobs[id]) else AsLost(s.jobs[id], u.jobs[id])
  {
    hide Valid;
    RecordedOf(s, id);
  }

  lemma HeldKey(s: Store, k: (Owner, Key))
    requires Valid(s, {}, {}) && k in s.keys
    ensures s.keys[k] in s.jobs && s.jobs[s.keys[k]].owner == k.0 && s.jobs[s.keys[k]].key == Some(k.1)
  {
  }

  lemma KeyedJob(s: Store, id: JobId, k: (Owner, Key))
    requires Valid(s, {}, {}) && id in s.jobs && s.jobs[id].owner == k.0 && s.jobs[id].key == Some(k.1)
    ensures k in s.keys && s.keys[k] == id
  {
  }

  lemma ReopensValid(s: Store, u: Store, order: seq<JobId>, env: Env)
    requires Valid(s, {}, {}) && Reopens(s, u, order, env)
    ensures Valid(u, {}, {})
  {
    OpenedValid(s.cfg, s.disk.rows, order, env);
  }

  /** A recovered job keeps its idempotency key: a repeat of its submission is answered with the same id. */
  lemma KeysKeepIds(s: Store, u: Store, order: seq<JobId>, env: Env, k: (Owner, Key))
    requires Valid(s, {}, {}) && Reopens(s, u, order, env) && k in s.keys && s.keys[k] in u.jobs
    ensures k in u.keys && u.keys[k] == s.keys[k]
  {
    hide Valid, Reopens;
    HeldKey(s, k);
    NothingLost(s, u, order, env, s.keys[k]);
    ReopensValid(s, u, order, env);
    KeyedJob(u, s.keys[k], k);
  }

  lemma EndFiled(s: Store, id: JobId)
    requires Valid(s, {}, {}) && id in s.jobs && Written(s, id)
    ensures id in s.past.ends && s.jobs[id].finished == Some(s.past.ends[id].now)
    ensures s.disk.rows[id].finishedAt == Some(s.past.ends[id].wall)
  {
    assert Recorded(s.jobs[id], s.disk.rows[id]);
  }

  /** A recovered job has the retention it had when it ended, less the time since on the wall clock, but never more than the
      whole of it when that clock was set back; and all of it when the restart failed it. */
  lemma RetentionLeft(s: Store, u: Store, order: seq<JobId>, env: Env, id: JobId)
    requires Valid(s, {}, {}) && Reopens(s, u, order, env) && id in s.jobs && id in u.jobs
    ensures Written(s, id) ==> id in s.past.ends
    ensures u.jobs[id].finished.Some?
    ensures Remaining(u, id, env.now) ==
            if Written(s, id) && s.past.ends[id].wall < env.wall then s.cfg.retention - (env.wall - s.past.ends[id].wall)
            else s.cfg.retention
  {
    hide Valid;
    RecordedOf(s, id);
  }

  /** So when the clocks advance together, from the job's end to the instant now of the first process and to the opening, a
      recovered job has exactly the retention left that it had. */
  lemma RetentionCarriesOver(s: Store, u: Store, order: seq<JobId>, env: Env, now: Seconds, id: JobId)
    requires Valid(s, {}, {}) && Reopens(s, u, order, env) && id in s.jobs && id in u.jobs && Written(s, id)
    requires id in s.past.ends
    requires s.past.ends[id].wall <= env.wall && now - s.past.ends[id].now == env.wall - s.past.ends[id].wall
    ensures s.jobs[id].finished.Some? && u.jobs[id].finished.Some?
    ensures Remaining(u, id, env.now) == Remaining(s, id, now)
  {
    hide Valid, Reopens;
    EndFiled(s, id);
    RetentionLeft(s, u, order, env, id);
    SameRetention(s, u, order, env);
  }

  lemma SameRetention(s: Store, u: Store, order: seq<JobId>, env: Env)
    requires Reopens(s, u, order, env)
    ensures u.cfg == s.cfg
  {
  }

  lemma ReopenedAgain(rows: map<JobId, Row>, retention: Seconds, wall: Seconds)
    ensures Reopened(Reopened(rows, retention, wall), retention, wall) == Reopened(rows, retention, wall)
  {
  }

  /** Opening twice at one instant is opening once. */
  lemma TwiceIsOnce(cfg: Config, table: map<JobId, Row>, order: seq<JobId>, env: Env)
    requires forall id :: id in order <==> id in Reopened(table, cfg.retention, env.wall)
    ensures var s := Opened(cfg, table, order, env);
            && (forall id :: id in order <==> id in Reopened(s.disk.rows, cfg.retention, env.wall))
            && Opened(cfg, s.disk.rows, order, env) == s
  {
    ReopenedAgain(table, cfg.retention, env.wall);
  }

  /** A submission's row replaces only rows that no job in memory has. */
  lemma ReplaceSpares(s: Store, req: Request, id: JobId, env: Env, i: JobId)
    requires Valid(s, {}, {}) && Unused(s, id) && i in s.jobs && s.disk.open
    requires req.key.Some? ==> (req.owner, req.key.value) !in s.keys
    ensures i in s.disk.rows && i in Admit(s, req, id, env).disk.rows
    ensures Admit(s, req, id, env).disk.rows[i] == s.disk.rows[i]
  {
    assert Recorded(s.jobs[i], s.disk.rows[i]);
  }

  /** A job's end is written unless the table is closed or the disk refuses that write. */
  lemma FinishWritten(s: Store, id: JobId, status: Status, result: Option<Value>, code: Option<Code>, env: Env)
    requires Filed(s.jobs, s.disk.rows, s.past) && Unfinished(s, id) && status.Terminal()
    ensures !Written(s, id)
    ensures Written(Finish(s, id, status, result, code, env), id) <==> s.disk.open && id !in env.lost
  {
    assert Recorded(s.jobs[id], s.disk.rows[id]);
  }
}
