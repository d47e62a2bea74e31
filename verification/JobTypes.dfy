/** The values the job store keeps: jobs, table rows, children and the counters of GET /metrics. */
module JobTypes {
  import opened Wrappers
  import opened Metrics

  type JobId(==, !new)
  type Owner(==, !new)
  type Task(==, !new)
  type Key(==, !new)   // an idempotency key
  type Value(==, !new) // JSON the store never looks into: an input, a result
  type WorkerId = nat  // children are numbered as they join the pool
  type Seconds = real

  const BACKOFF: Seconds := 1.0
  const READY: Seconds := 30.0
  const GRACE: Seconds := 0.2

  datatype Status = Queued | Running | Succeeded | Failed | TimedOut | Cancelled {
    predicate Terminal() {
      !Queued? && !Running?
    }
  }

  datatype Code = DeadlineExceeded | ServiceRestarted | WorkerCrashed | TaskFailed | WorkerStartFailed

  datatype Progress = Progress(completed: nat, total: nat)

  datatype Job = Job(
    task: Task, owner: Owner, key: Option<Key>, timeoutMs: int,
    status: Status, result: Option<Value>, code: Option<Code>, progress: Option<Progress>,
    input: Option<Value>, deadline: Seconds, submittedAt: Seconds, startedAt: Option<Seconds>,
    finished: Option<Seconds>, retried: bool)

  /** What a client may see of a job. */
  datatype Public = Public(
    task: Task, timeoutMs: int, status: Status, result: Option<Value>, code: Option<Code>, progress: Option<Progress>)

  function PublicOf(j: Job): Public {
    Public(j.task, j.timeoutMs, j.status, j.result, j.code, j.progress)
  }

  /** The record shown is the job's, in everything a client may see. */
  predicate Shows(p: Public, j: Job) {
    && p.task == j.task && p.timeoutMs == j.timeoutMs && p.status == j.status
    && p.result == j.result && p.code == j.code && p.progress == j.progress
  }

  /** A row of the table; finishedAt is on the wall clock. */
  datatype Row = Row(
    task: Task, owner: Owner, key: Option<Key>, timeoutMs: int,
    status: Status, result: Option<Value>, code: Option<Code>, progress: Option<Progress>,
    finishedAt: Option<Seconds>)

  datatype Disk = Disk(rows: map<JobId, Row>, open: bool)

  /** What was submitted under a job id, and what a child is sent. */
  datatype Work = Work(id: JobId, task: Task, payload: Option<Value>)

  datatype Command = Run(work: Work) | Stop

  datatype Message =
    | Ready
    | Loaded
    | Started(id: JobId)
    | Progressed(id: JobId, progress: Progress)
    | Returned(id: JobId, value: Value)
    | Raised(id: JobId)

  /** The parent's record of a child, with the parent's end of its pipe. */
  datatype Worker = Worker(
    startedAt: Seconds, ready: bool, loaded: bool, job: Option<JobId>, sending: bool, served: nat,
    retiredAt: Option<Seconds>, killed: bool, terminated: bool,
    inbox: seq<Message>, outbox: seq<Command>, closes: nat)

  function NewWorker(now: Seconds): Worker {
    Worker(now, false, false, None, false, 0, None, false, false, [], [], 0)
  }

  datatype Config = Config(
    concurrency: nat, capacity: nat, resultCapacity: nat, retention: Seconds, maxJobs: nat,
    owners: seq<Owner>, tasks: seq<Task>, ownerCapacity: Option<nat>)
  {
    /** The ranges the constructor accepts. */
    predicate Legal() {
      && 1 <= concurrency <= 8
      && 1 <= capacity <= 1024
      && 1 <= resultCapacity <= 65536
      && 1 <= maxJobs <= 1000000
      && retention > 0.0
      && (ownerCapacity.Some? ==> 1 <= ownerCapacity.value <= capacity + resultCapacity)
      && |owners| > 0
      && (forall i, j | 0 <= i < j < |owners| :: owners[i] != owners[j])
      && (forall i, j | 0 <= i < j < |tasks| :: tasks[i] != tasks[j])
    }
  }

  datatype Stats = Stats(
    ended: map<(Owner, Task, Status), nat>, submitted: map<(Owner, Task), nat>, rejected: map<Owner, nat>,
    durations: map<Task, Histogram>, waits: map<Task, Histogram>)

  /** One dispatch decision: the owners with a waiting job, and the one whose job got the child. */
  datatype Pick = Pick(waiting: seq<Owner>, chosen: Owner)

  /** Both clocks when a job ended, whose it was and how it ended. */
  datatype End = End(now: Seconds, wall: Seconds, owner: Owner, task: Task, status: Status)

  /** How long a job took, as its task's duration histogram saw it when the job ended. */
  datatype Took = Took(id: JobId, task: Task, seconds: Seconds)

  /** What has happened, for stating properties of whole runs; the service keeps none of it. The restored jobs are
      those read back from the table when the store opened, with their owners; arrivals are the clocks of submissions. */
  datatype History = History(
    restored: map<JobId, Owner>, issued: map<JobId, Work>, arrivals: map<JobId, Seconds>,
    attaches: map<JobId, nat>, ends: map<JobId, End>, took: seq<Took>, picks: seq<Pick>)

  /** What surrounds one locked step: both clocks, and which of its writes the disk refuses. */
  datatype Env = Env(now: Seconds, wall: Seconds, lost: set<JobId>, kept: bool)

  datatype Store = Store(
    cfg: Config,
    jobs: map<JobId, Job>, order: seq<JobId>, keys: map<(Owner, Key), JobId>,
    active: map<JobId, WorkerId>, served: map<Owner, nat>, dispatched: nat,
    pool: seq<WorkerId>, retiring: seq<WorkerId>, workers: map<WorkerId, Worker>,
    backoffUntil: Seconds, stopping: bool, draining: bool,
    disk: Disk, stats: Stats, past: History)
}
