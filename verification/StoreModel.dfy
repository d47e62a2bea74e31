/** The job store's operations as functions on its state, each one what happens while the lock is held. */
module StoreModel {
  import opened Wrappers
  import opened Metrics
  import opened JobTypes

  function Bump<K>(counts: map<K, nat>, k: K): map<K, nat> {
    counts[k := (if k in counts then counts[k] else 0) + 1]
  }

  function Get<K>(counts: map<K, nat>, k: K): nat {
    if k in counts then counts[k] else 0
  }

  function Observe(series: map<Task, Histogram>, t: Task, x: Seconds): map<Task, Histogram> {
    var h := if t in series && Shaped(series[t]) then series[t] else Empty();
    series[t := Observed(h, x)]
  }

  /** A sequence without the first occurrence of x, as a list's remove leaves it. */
  function Remove<T(==)>(xs: seq<T>, x: T): (rest: seq<T>)
    ensures forall y | y in rest :: y in xs
  {
    if xs == [] then []
    else if xs[0] == x then xs[1..]
    else [xs[0]] + Remove(xs[1..], x)
  }

  predicate Going(jobs: map<JobId, Job>, id: JobId) {
    id in jobs && !jobs[id].status.Terminal()
  }

  predicate Unfinished(s: Store, id: JobId) {
    Going(s.jobs, id)
  }

  /** The same jobs in the same order, and the same children with the same unread messages. */
  predicate SameDomain(s: Store, t: Store) {
    && t.jobs.Keys == s.jobs.Keys
    && t.order == s.order && t.draining == s.draining
    && t.workers.Keys == s.workers.Keys
    && forall w | w in s.workers :: t.workers[w].inbox == s.workers[w].inbox
  }

  /** Every job with a child has one the store knows. */
  predicate Linked(s: Store) {
    forall i | i in s.active :: s.active[i] in s.workers
  }

  /** The jobs with a child are among the ones before, on the same children, and so is the pool. */
  predicate Narrower(s: Store, t: Store) {
    && (forall i | i in t.active :: i in s.active && t.active[i] == s.active[i])
    && (forall w | w in t.pool :: w in s.pool)
  }

  // ---------------------------------------------------------------- the table

  function RowOf(j: Job, wall: Seconds): Row {
    Row(j.task, j.owner, j.key, j.timeoutMs, j.status, j.result, j.code, j.progress,
        if j.finished.None? then None else Some(wall))
  }

  /** The update of a job's row, unless the table is closed or the disk refuses. */
  function Updated(disk: Disk, id: JobId, j: Job, env: Env): Disk {
    if !disk.open || id in env.lost || id !in disk.rows then disk
    else
      disk.(rows := disk.rows[id := disk.rows[id].(
        status := j.status, result := j.result, code := j.code, progress := j.progress,
        finishedAt := if j.finished.None? then None else Some(env.wall))])
  }

  function Write(s: Store, id: JobId, env: Env): Disk
    requires id in s.jobs
  {
    Updated(s.disk, id, s.jobs[id], env)
  }

  /** A submission's row; a row holding the same owner and key, or the same id, is replaced. */
  function Insert(rows: map<JobId, Row>, id: JobId, row: Row): map<JobId, Row> {
    (map i | i in rows && !(row.key.Some? && rows[i].key == row.key && rows[i].owner == row.owner) :: rows[i])[id := row]
  }

  // ---------------------------------------------------------------- ending a job

  function Finish(s: Store, id: JobId, status: Status, result: Option<Value>, code: Option<Code>, env: Env): (t: Store)
    requires id in s.jobs
    ensures SameDomain(s, t) && Narrower(s, t)
  {
    var j := s.jobs[id].(status := status, result := result, code := code, input := None, finished := Some(env.now));
    var u := s.(jobs := s.jobs[id := j]);
    u.(disk := Write(u, id, env),
       stats := u.stats.(
         ended := Bump(u.stats.ended, (j.owner, j.task, status)),
         durations := Observe(u.stats.durations, j.task, env.now - j.submittedAt)),
       past := u.past.(
         ends := u.past.ends[id := End(env.now, env.wall, j.owner, j.task, status)],
         took := u.past.took + [Took(id, j.task, env.now - j.submittedAt)]))
  }

  /** Every job still queued and with no child fails, in the table's order. */
  function FailQueued(s: Store, ids: seq<JobId>, env: Env): (t: Store)
    requires forall id | id in ids :: id in s.jobs
    ensures SameDomain(s, t) && Narrower(s, t)
    decreases |ids|
  {
    if ids == [] then s
    else
      var id := ids[0];
      var t := if s.jobs[id].status.Queued? && id !in s.active
               then Finish(s, id, Failed, None, Some(WorkerStartFailed), env) else s;
      FailQueued(t, ids[1..], env)
  }

  /** A failed start: the next one is held back, and with no child left in service the queued jobs fail. */
  function StartFailed(s: Store, env: Env): (t: Store)
    requires forall id | id in s.order :: id in s.jobs
    ensures SameDomain(s, t) && Narrower(s, t)
  {
    var t := s.(backoffUntil := env.now + BACKOFF);
    if t.pool == [] && !t.draining then FailQueued(t, t.order, env) else t
  }

  // ---------------------------------------------------------------- retiring a child

  /** A child's record as it leaves service: a stop request only when no send owns the pipe, the pipe closed
      unless one does, and a child that was not asked to stop terminated. */
  function Retired(w: Worker, stop: bool, now: Seconds): Worker {
    var asked := stop && !w.sending;
    w.(job := None,
       outbox := if asked then w.outbox + [Stop] else w.outbox,
       closes := if w.sending then w.closes else w.closes + 1,
       terminated := w.terminated || !asked,
       retiredAt := Some(now))
  }

  function WithoutJob(active: map<JobId, WorkerId>, job: Option<JobId>): map<JobId, WorkerId> {
    if job.Some? then active - {job.value} else active
  }

  /** The child is out of the pool and of the job it had, before anything is decided about that job. */
  function Detach(s: Store, w: WorkerId, stop: bool, env: Env): (t: Store)
    requires w in s.workers
    ensures SameDomain(s, t) && Narrower(s, t)
  {
    s.(pool := Remove(s.pool, w),
       active := WithoutJob(s.active, s.workers[w].job),
       workers := s.workers[w := Retired(s.workers[w], stop, env.now)],
       retiring := s.retiring + [w])
  }

  /** A child retired before it was ready holds the next start back; one that died counts as a failed start. */
  function HoldBack(s: Store, ready: bool, died: bool, env: Env): (t: Store)
    requires forall id | id in s.order :: id in s.jobs
    ensures SameDomain(s, t) && Narrower(s, t)
  {
    if ready then s
    else if died then StartFailed(s, env)
    else s.(backoffUntil := env.now + BACKOFF)
  }

  /** What becomes of the job of a retired child: back to the queue once, when no child has started it. */
  function Settle(s: Store, id: JobId, env: Env): (t: Store)
    ensures SameDomain(s, t) && Narrower(s, t)
  {
    if !Unfinished(s, id) then s
    else if s.jobs[id].status.Queued? && !s.jobs[id].retried
    then s.(jobs := s.jobs[id := s.jobs[id].(retried := true)])
    else Finish(s, id, Failed, None, Some(WorkerCrashed), env)
  }

  function Unpool(s: Store, w: WorkerId): (t: Store)
    ensures SameDomain(s, t) && Narrower(s, t)
  {
    s.(pool := Remove(s.pool, w))
  }

  function Discharge(s: Store, job: Option<JobId>, env: Env): (t: Store)
    ensures SameDomain(s, t) && Narrower(s, t)
  {
    if job.Some? then Settle(s, job.value, env) else s
  }

  function Retire(s: Store, w: WorkerId, stop: bool, died: bool, env: Env): (t: Store)
    requires w in s.workers && forall id | id in s.order :: id in s.jobs
    ensures SameDomain(s, t) && Narrower(s, t)
  {
    if s.workers[w].retiredAt.Some? then Unpool(s, w)
    else
      var t := Detach(s, w, stop, env);
      var u := HoldBack(t, s.workers[w].ready, died, env);
      Discharge(u, s.workers[w].job, env)
  }

  function Abort(s: Store, id: JobId, status: Status, code: Option<Code>, env: Env): (t: Store)
    requires id in s.jobs && Linked(s) && forall i | i in s.order :: i in s.jobs
    ensures SameDomain(s, t) && Narrower(s, t)
  {
    if id in s.active then
      Finish(Retire(Unassign(s, s.active[id], id), s.active[id], false, false, env), id, status, None, code, env)
    else Finish(s, id, status, None, code, env)
  }

  // ---------------------------------------------------------------- giving a child a job

  predicate Free(s: Store, w: WorkerId) {
    w in s.workers && s.workers[w].ready && s.workers[w].job.None?
  }

  /** The first free child of the pool. */
  function FirstFree(s: Store, pool: seq<WorkerId>): (w: Option<WorkerId>)
    ensures w.Some? ==> w.value in pool && Free(s, w.value)
    ensures w.None? ==> forall x | x in pool :: !Free(s, x)
  {
    if pool == [] then None
    else if Free(s, pool[0]) then Some(pool[0])
    else FirstFree(s, pool[1..])
  }

  datatype Send = Send(worker: WorkerId, work: Work)

  function AttachTo(s: Store, id: JobId, w: WorkerId): Store
    requires w in s.workers
  {
    var k := s.workers[w];
    s.(workers := s.workers[w := k.(job := Some(id), served := k.served + 1, sending := true)],
       active := s.active[id := w],
       past := s.past.(attaches := Bump(s.past.attaches, id)))
  }

  function WorkOf(s: Store, id: JobId): Work
    requires id in s.jobs
  {
    Work(id, s.jobs[id].task, s.jobs[id].input)
  }

  function Attach(s: Store, id: JobId): Option<(Store, Send)>
    requires id in s.jobs
  {
    var w := FirstFree(s, s.pool);
    if w.None? then None else Some((AttachTo(s, id, w.value), Send(w.value, WorkOf(s, id))))
  }

  /** The waiting jobs of one owner, oldest first. */
  datatype Queue = Queue(owner: Owner, ids: seq<JobId>)

  function Enqueue(queues: seq<Queue>, owner: Owner, id: JobId): seq<Queue> {
    if queues == [] then [Queue(owner, [id])]
    else if queues[0].owner == owner then [Queue(owner, queues[0].ids + [id])] + queues[1..]
    else [queues[0]] + Enqueue(queues[1..], owner, id)
  }

  function Queues(s: Store, waiting: seq<JobId>): seq<Queue>
    requires forall id | id in waiting :: id in s.jobs
  {
    if waiting == [] then []
    else
      var id := waiting[|waiting| - 1];
      Enqueue(Queues(s, waiting[..|waiting| - 1]), s.jobs[id].owner, id)
  }

  function LastServed(s: Store, owner: Owner): int {
    if owner in s.served then s.served[owner] else -1
  }

  /** The first queue of an owner served longest ago. */
  function Least(s: Store, queues: seq<Queue>): (i: nat)
    requires queues != []
    ensures i < |queues|
    ensures forall k | 0 <= k < |queues| :: LastServed(s, queues[i].owner) <= LastServed(s, queues[k].owner)
    ensures forall k | 0 <= k < i :: LastServed(s, queues[i].owner) < LastServed(s, queues[k].owner)
  {
    if |queues| == 1 then 0
    else
      var j := Least(s, queues[1..]);
      if LastServed(s, queues[0].owner) <= LastServed(s, queues[1..][j].owner) then 0 else j + 1
  }

  function Owners(queues: seq<Queue>): seq<Owner> {
    if queues == [] then [] else [queues[0].owner] + Owners(queues[1..])
  }

  function Waiters(queues: seq<Queue>): nat {
    if queues == [] then 0 else |queues[0].ids| + Waiters(queues[1..])
  }

  /** The queues without the head of queue i; an emptied queue goes. */
  function Pop(queues: seq<Queue>, i: nat): seq<Queue>
    requires i < |queues| && queues[i].ids != []
  {
    queues[..i] + (if |queues[i].ids| == 1 then [] else [Queue(queues[i].owner, queues[i].ids[1..])]) + queues[i + 1..]
  }

  lemma {:induction false} WaitersSplit(a: seq<Queue>, b: seq<Queue>)
    ensures Waiters(a + b) == Waiters(a) + Waiters(b)
  {
    if a == [] {
      assert a + b == b;
    } else {
      assert (a + b)[1..] == a[1..] + b;
      WaitersSplit(a[1..], b);
    }
  }

  lemma PopWaiters(queues: seq<Queue>, i: nat)
    requires i < |queues| && queues[i].ids != []
    ensures Waiters(Pop(queues, i)) + 1 == Waiters(queues)
  {
    hide Waiters;
    var q, before, after := queues[i], queues[..i], queues[i + 1..];
    var mid := if |q.ids| == 1 then [] else [Queue(q.owner, q.ids[1..])];
    assert queues == before + [q] + after;
    WaitersSplit(before + [q], after);
    WaitersSplit(before, [q]);
    WaitersSplit(before + mid, after);
    WaitersSplit(before, mid);
    WaitersOne(q);
    WaitersOne(Queue(q.owner, q.ids[1..]));
    WaitersNone();
  }

  lemma WaitersOne(q: Queue)
    ensures Waiters([q]) == |q.ids|
  {
    assert [q][1..] == [];
  }

  lemma WaitersNone()
    ensures Waiters([]) == 0
  {
  }

  predicate Stocked(s: Store, queues: seq<Queue>) {
    forall k | 0 <= k < |queues| :: queues[k].ids != [] && forall id | id in queues[k].ids :: id in s.jobs
  }

  function Dispatched(s: Store, owners: seq<Owner>, owner: Owner): Store {
    s.(dispatched := s.dispatched + 1,
       served := s.served[owner := s.dispatched + 1],
       past := s.past.(picks := s.past.picks + [Pick(owners, owner)]))
  }

  /** Turn by turn the owner due next gets a free child for the head of its queue, until no child is free or no job
      waits. */
  function Dispatch(s: Store, queues: seq<Queue>): (Store, seq<Send>)
    requires Stocked(s, queues)
    decreases Waiters(queues)
  {
    if queues == [] then (s, [])
    else
      var i := Least(s, queues);
      var attached := Attach(s, queues[i].ids[0]);
      if attached.None? then (s, [])
      else
        PopWaiters(queues, i);
        var t := Dispatched(attached.value.0, Owners(queues), queues[i].owner);
        var (u, sends) := Dispatch(t, Pop(queues, i));
        (u, [attached.value.1] + sends)
  }

  function WithWorker(s: Store, w: WorkerId, k: Worker): (t: Store)
    requires w in s.workers && k.inbox == s.workers[w].inbox
    ensures SameDomain(s, t) && Narrower(s, t)
  {
    s.(workers := s.workers[w := k])
  }

  /** No send owns the pipe any more, and a retired child's is closed by the sender. */
  function Cleared(s: Store, w: WorkerId): (t: Store)
    requires w in s.workers
    ensures SameDomain(s, t) && Narrower(s, t)
  {
    var k := s.workers[w];
    WithWorker(s, w, k.(sending := false, closes := if k.retiredAt.Some? then k.closes + 1 else k.closes))
  }

  /** What follows a send: the pipe has no sender any more, and when the send failed its child leaves service. */
  function Sent(s: Store, w: WorkerId, failed: bool, env: Env): (t: Store)
    requires w in s.workers && forall id | id in s.order :: id in s.jobs
    ensures SameDomain(s, t) && Narrower(s, t)
  {
    var t := Cleared(s, w);
    if failed && t.workers[w].retiredAt.None? then Retire(t, w, false, false, env) else t
  }

  // ---------------------------------------------------------------- reading a child's messages

  /** The job leaves the child it was sent to. */
  function Unassign(s: Store, w: WorkerId, id: JobId): (t: Store)
    requires w in s.workers
    ensures SameDomain(s, t) && Narrower(s, t)
  {
    s.(active := s.active - {id}, workers := s.workers[w := s.workers[w].(job := None)])
  }

  /** The job's end, as its child reported it: with a value, or as a task that failed. */
  function Concluded(s: Store, w: WorkerId, id: JobId, value: Option<Value>, env: Env): (t: Store)
    requires w in s.workers && id in s.jobs
    ensures SameDomain(s, t) && Narrower(s, t)
  {
    var t := Unassign(s, w, id);
    if value.Some? then Finish(t, id, Succeeded, value, None, env) else Finish(t, id, Failed, None, Some(TaskFailed), env)
  }

  /** A job's last message: the child is free of it, and retired when it has had its share. */
  function Ended(s: Store, w: WorkerId, id: JobId, value: Option<Value>, env: Env): (t: Store)
    requires w in s.workers && id in s.jobs && forall i | i in s.order :: i in s.jobs
    ensures SameDomain(s, t) && Narrower(s, t)
  {
    var t := Concluded(s, w, id, value, env);
    if t.workers[w].served >= t.cfg.maxJobs then Retire(t, w, true, false, env) else t
  }

  function Begun(s: Store, id: JobId, env: Env): (t: Store)
    requires id in s.jobs
    ensures SameDomain(s, t) && Narrower(s, t)
  {
    var j := s.jobs[id];
    s.(jobs := s.jobs[id := j.(status := Running, startedAt := Some(env.now))],
       stats := s.stats.(waits := Observe(s.stats.waits, j.task, env.now - j.submittedAt)))
  }

  function Advanced(s: Store, id: JobId, p: Progress): (t: Store)
    requires id in s.jobs
    ensures SameDomain(s, t) && Narrower(s, t)
  {
    s.(jobs := s.jobs[id := s.jobs[id].(progress := Some(p))])
  }

  /** A message about a job goes nowhere unless the child still runs that job for the parent. */
  predicate Heard(s: Store, w: WorkerId, id: JobId)
    requires w in s.workers
  {
    s.workers[w].job == Some(id) && Unfinished(s, id)
  }

  /** One message from a child, and whether it ended the child's job. */
  function Deliver(s: Store, w: WorkerId, m: Message, env: Env): (r: (Store, bool))
    requires w in s.workers && forall id | id in s.order :: id in s.jobs
    ensures SameDomain(s, r.0) && Narrower(s, r.0)
  {
    match m
    case Ready => (WithWorker(s, w, s.workers[w].(ready := true)), false)
    case Loaded => (WithWorker(s, w, s.workers[w].(loaded := true)), false)
    case Started(id) => (if Heard(s, w, id) then Begun(s, id, env) else s, false)
    case Progressed(id, p) => (if Heard(s, w, id) then Advanced(s, id, p) else s, false)
    case Returned(id, v) => if Heard(s, w, id) then (Ended(s, w, id, Some(v), env), true) else (s, false)
    case Raised(id) => if Heard(s, w, id) then (Ended(s, w, id, None, env), true) else (s, false)
  }

  /** The parent takes the oldest message off a child's pipe. */
  function Received(s: Store, w: WorkerId): Store
    requires w in s.workers && s.workers[w].inbox != []
  {
    s.(workers := s.workers[w := s.workers[w].(inbox := s.workers[w].inbox[1..])])
  }

  /** The oldest message is taken off the pipe and applied. */
  function Taken(s: Store, w: WorkerId, env: Env): (Store, bool)
    requires w in s.workers && s.workers[w].inbox != [] && forall id | id in s.order :: id in s.jobs
  {
    Deliver(Received(s, w), w, s.workers[w].inbox[0], env)
  }

  /** Read what the child has sent up to its job's end; at the end of the pipe, retire it as one that died. */
  function Drain(s: Store, w: WorkerId, gone: bool, env: Env): (t: Store)
    requires w in s.workers && forall id | id in s.order :: id in s.jobs
    ensures t.jobs.Keys == s.jobs.Keys && t.order == s.order && t.workers.Keys == s.workers.Keys
    ensures t.draining == s.draining
    decreases |s.workers[w].inbox|
  {
    if s.workers[w].retiredAt.Some? then s.(pool := Remove(s.pool, w))
    else if s.workers[w].inbox == [] then if gone then Retire(s, w, false, true, env) else s
    else
      var (t, ended) := Taken(s, w, env);
      if ended then t else Drain(t, w, gone, env)
  }

  // ---------------------------------------------------------------- retention and admission

  predicate Stale(j: Job, retention: Seconds, now: Seconds) {
    j.finished.Some? && now - j.finished.value >= retention
  }

  function Fresh(s: Store, ids: seq<JobId>, now: Seconds): (kept: seq<JobId>)
    ensures forall id | id in kept :: id in ids && !(id in s.jobs && Stale(s.jobs[id], s.cfg.retention, now))
  {
    if ids == [] then []
    else (if ids[0] in s.jobs && Stale(s.jobs[ids[0]], s.cfg.retention, now) then [] else [ids[0]])
         + Fresh(s, ids[1..], now)
  }

  function Expired(s: Store, now: Seconds): set<JobId> {
    set id | id in s.jobs && Stale(s.jobs[id], s.cfg.retention, now)
  }

  /** Jobs whose retention is over go, with their keys and, unless the disk refuses, their rows. */
  function Expire(s: Store, env: Env): Store {
    var gone := Expired(s, env.now);
    s.(jobs := s.jobs - gone,
       order := Fresh(s, s.order, env.now),
       keys := s.keys - (set id | id in gone && s.jobs[id].key.Some? :: (s.jobs[id].owner, s.jobs[id].key.value)),
       disk := if s.disk.open && !env.kept then s.disk.(rows := s.disk.rows - gone) else s.disk)
  }

  function HeldBy(jobs: map<JobId, Job>, owner: Owner): set<JobId> {
    set id | id in jobs && jobs[id].owner == owner
  }

  function OpenJobs(jobs: map<JobId, Job>): set<JobId> {
    set id | id in jobs && !jobs[id].status.Terminal()
  }

  function Ceil(x: real): int {
    -((-x).Floor)
  }

  function Max(a: int, b: int): int {
    if a >= b then a else b
  }

  function Min(a: int, b: int): int {
    if a <= b then a else b
  }

  /** The earliest finish among the given jobs, of one owner when one is given. */
  function FirstFinish(s: Store, ids: seq<JobId>, owner: Option<Owner>): Option<Seconds> {
    if ids == [] then None
    else
      var rest := FirstFinish(s, ids[1..], owner);
      if ids[0] in s.jobs && s.jobs[ids[0]].finished.Some? && (owner.None? || owner == Some(s.jobs[ids[0]].owner)) then
        var f := s.jobs[ids[0]].finished.value;
        if rest.Some? && rest.value < f then rest else Some(f)
      else rest
  }

  function RetryAfter(s: Store, owner: Option<Owner>, now: Seconds): int {
    var first := FirstFinish(s, s.order, owner);
    if first.None? then 1 else Max(1, Ceil(first.value + s.cfg.retention - now))
  }

  /** How long the unfinished jobs take at a given pace each, shared by the children. */
  function Turnover(open: nat, children: nat, pace: Seconds): int
    requires children > 0
  {
    Ceil(open as real / children as real * pace)
  }

  datatype Request = Request(task: Task, payload: Value, timeoutMs: int, key: Option<Key>, owner: Owner)

  datatype Refusal = NotAnOwner | BadTimeout | IsDraining | IsStopping | OwnerFull | ActiveFull | ResultsFull | NotWritten

  datatype Answer = Accepted(id: JobId) | Repeated(id: JobId) | Refused(why: Refusal, retryAfter: int)

  function NewJob(req: Request, now: Seconds): Job {
    Job(req.task, req.owner, req.key, req.timeoutMs, Queued, None, None, None, Some(req.payload),
        now + req.timeoutMs as real / 1000.0, now, None, None, false)
  }

  /** Room for one more job, after the stale ones went; pace is the median run time, when one is known. */
  function Limit(s: Store, owner: Owner, pace: Option<Seconds>, now: Seconds): (full: Option<Answer>)
    requires s.cfg.concurrency > 0
    ensures full.Some? ==> full.value.Refused? && full.value.retryAfter >= 1
  {
    if s.cfg.ownerCapacity.Some? && |HeldBy(s.jobs, owner)| >= s.cfg.ownerCapacity.value then
      Some(Refused(OwnerFull, RetryAfter(s, Some(owner), now)))
    else if |OpenJobs(s.jobs)| >= s.cfg.capacity then
      var retry := if pace.None? then 1 else Turnover(|OpenJobs(s.jobs)|, s.cfg.concurrency, pace.value);
      Some(Refused(ActiveFull, Min(300, Max(1, retry))))
    else if |s.jobs| - |OpenJobs(s.jobs)| >= s.cfg.resultCapacity then
      Some(Refused(ResultsFull, RetryAfter(s, None, now)))
    else None
  }

  function Admit(s: Store, req: Request, id: JobId, env: Env): Store {
    var j := NewJob(req, env.now);
    s.(jobs := s.jobs[id := j],
       order := s.order + [id],
       keys := if req.key.Some? then s.keys[(req.owner, req.key.value) := id] else s.keys,
       disk := if s.disk.open then s.disk.(rows := Insert(s.disk.rows, id, RowOf(j, env.wall))) else s.disk,
       stats := s.stats.(submitted := Bump(s.stats.submitted, (req.owner, req.task))),
       past := s.past.(
         issued := s.past.issued[id := Work(id, req.task, Some(req.payload))],
         arrivals := s.past.arrivals[id := env.now]))
  }

  /** A submission under the lock; id is the identifier drawn for it. */
  function Accept(s: Store, req: Request, id: JobId, pace: Option<Seconds>, env: Env): (Store, Answer)
    requires s.cfg.concurrency > 0
  {
    if s.draining then (s, Refused(IsDraining, 0))
    else if s.stopping then (s, Refused(IsStopping, 1))
    else
      var t := Expire(s, env);
      if req.key.Some? && (req.owner, req.key.value) in t.keys then (t, Repeated(t.keys[(req.owner, req.key.value)]))
      else
        var full := Limit(t, req.owner, pace, env.now);
        if full.Some? then (t, full.value)
        else if t.disk.open && id in env.lost then (t, Refused(NotWritten, 1))
        else (Admit(t, req, id, env), Accepted(id))
  }

  function Submit(s: Store, req: Request, id: JobId, pace: Option<Seconds>, env: Env): (Store, Answer)
    requires s.cfg.concurrency > 0
  {
    if req.owner !in s.cfg.owners then (s, Refused(NotAnOwner, 0))
    else if !(100 <= req.timeoutMs <= 300000) then (s, Refused(BadTimeout, 0))
    else
      var (t, answer) := Accept(s, req, id, pace, env);
      if answer.Refused? && answer.why != IsDraining
      then (t.(stats := t.stats.(rejected := Bump(t.stats.rejected, req.owner))), answer)
      else (t, answer)
  }

  predicate Owned(s: Store, id: JobId, owner: Owner) {
    id in s.jobs && s.jobs[id].owner == owner
  }

  function Cancel(s: Store, id: JobId, owner: Owner, env: Env): Store
    requires Linked(s) && forall i | i in s.order :: i in s.jobs
  {
    var t := Expire(s, env);
    if Owned(t, id, owner) && Unfinished(t, id) then Abort(t, id, Cancelled, None, env) else t
  }

  // ---------------------------------------------------------------- the coordinator

  /** One job in the tick's pass over the table: ended at its deadline, or while draining, or waiting for a child. */
  function Visit(s: Store, id: JobId, env: Env): (r: (Store, bool))
    requires Linked(s) && forall i | i in s.order :: i in s.jobs
    ensures SameDomain(s, r.0) && Narrower(s, r.0)
  {
    if !Unfinished(s, id) then (s, false)
    else if env.now >= s.jobs[id].deadline then (Abort(s, id, TimedOut, Some(DeadlineExceeded), env), false)
    else if s.jobs[id].status.Queued? && s.draining then (Abort(s, id, Failed, Some(ServiceRestarted), env), false)
    else (s, s.jobs[id].status.Queued? && id !in s.active)
  }

  function Scan(s: Store, ids: seq<JobId>, env: Env): (r: (Store, seq<JobId>))
    requires Linked(s) && forall i | i in s.order :: i in s.jobs
    ensures SameDomain(s, r.0) && Narrower(s, r.0)
    ensures forall i | i in r.1 :: i in s.jobs
    decreases |ids|
  {
    if ids == [] then (s, [])
    else
      var (t, waits) := Visit(s, ids[0], env);
      var (u, rest) := Scan(t, ids[1..], env);
      (u, (if waits then [ids[0]] else []) + rest)
  }

  lemma {:induction false} EnqueueReady(s: Store, queues: seq<Queue>, owner: Owner, id: JobId)
    requires Stocked(s, queues) && id in s.jobs
    ensures Stocked(s, Enqueue(queues, owner, id))
  {
    if queues != [] && queues[0].owner != owner {
      EnqueueReady(s, queues[1..], owner, id);
    }
  }

  lemma {:induction false} QueuesReady(s: Store, waiting: seq<JobId>)
    requires forall id | id in waiting :: id in s.jobs
    ensures Stocked(s, Queues(s, waiting))
  {
    if waiting != [] {
      var n := |waiting| - 1;
      QueuesReady(s, waiting[..n]);
      EnqueueReady(s, Queues(s, waiting[..n]), s.jobs[waiting[n]].owner, waiting[n]);
    }
  }

  /** The end of a tick's locked section: deadlines, then dispatch. */
  function Tick(s: Store, env: Env): (Store, seq<Send>)
    requires Linked(s) && forall i | i in s.order :: i in s.jobs
  {
    var (t, waiting) := Scan(s, s.order, env);
    QueuesReady(t, waiting);
    Dispatch(t, Queues(t, waiting))
  }

  /** A started child joins the pool. */
  function Join(s: Store, w: WorkerId, now: Seconds): Store {
    s.(pool := s.pool + [w], workers := s.workers[w := NewWorker(now)])
  }

  predicate MayStart(s: Store, now: Seconds) {
    !s.stopping && !s.draining && |s.pool| < s.cfg.concurrency && now >= s.backoffUntil
  }

  function AbortIf(s: Store, id: JobId, queuedOnly: bool, status: Status, code: Option<Code>, env: Env): (t: Store)
    requires Linked(s) && forall i | i in s.order :: i in s.jobs
    ensures SameDomain(s, t) && Narrower(s, t) && Linked(t)
  {
    if Unfinished(s, id) && (queuedOnly ==> s.jobs[id].status.Queued?) then Abort(s, id, status, code, env) else s
  }

  function AbortAll(s: Store, ids: seq<JobId>, queuedOnly: bool, status: Status, code: Option<Code>, env: Env): (t: Store)
    requires Linked(s) && forall i | i in s.order :: i in s.jobs
    ensures SameDomain(s, t) && Narrower(s, t)
    decreases |ids|
  {
    if ids == [] then s
    else
      AbortAll(AbortIf(s, ids[0], queuedOnly, status, code, env), ids[1..], queuedOnly, status, code, env)
  }

  function RetireAll(s: Store, ws: seq<WorkerId>, env: Env): (t: Store)
    requires (forall w | w in ws :: w in s.workers) && forall i | i in s.order :: i in s.jobs
    ensures SameDomain(s, t) && Narrower(s, t)
    decreases |ws|
  {
    if ws == [] then s else RetireAll(Retire(s, ws[0], true, false, env), ws[1..], env)
  }

  /** The locked part of close. The table goes first: no end this brings about reaches a row. */
  function Close(s: Store, env: Env): Store
    requires Linked(s) && forall i | i in s.order :: i in s.jobs
    requires forall w | w in s.pool :: w in s.workers
  {
    var t := s.(disk := s.disk.(open := false));
    var u := AbortAll(t, t.order, false, Cancelled, None, env);
    RetireAll(u, u.pool, env)
  }

  /** Retired children that have exited are let go of. */
  function Forget(s: Store, w: WorkerId): Store {
    s.(retiring := Remove(s.retiring, w))
  }
}
