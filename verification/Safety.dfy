/** What holds in every run of the service: any order of its threads' and children's steps, with crashes, failed sends,
    lost writes, cancels, deadlines and drains. */
module Safety {
  import opened Wrappers
  import opened Metrics
  import opened JobTypes
  import opened StoreModel
  import opened StoreInvariant
  import opened Durations
  import opened StoreSteps
  import opened Dispatching
  import opened Recovery
  import opened Protocol
  import opened ProtocolInvariant
  import opened ChildSteps
  import opened Service
  import opened ThreadSteps
  import opened Lasting
  import opened Backoff

  lemma InitialCore(n: Net)
    requires n.ch == map[] && n.pend == [] && n.starts == [] && n.computed == map[]
    requires n.s.workers == map[] && n.s.active == map[] && forall id | id in n.s.jobs :: id in n.s.past.restored
    requires forall id | id in n.s.jobs :: n.s.jobs[id].status.Terminal()
    ensures Core(n)
  {
  }

  lemma InitialInv(x: Sys)
    requires Initial(x)
    ensures Inv(x)
  {
    hide Valid, Core, Reopened, NoStats, KeysFrom;
    var cfg: Config, table, order, env :| Opens(x.store, cfg, table, order, env);
    OpenedValid(cfg, table, order, env);
    InitialCore(NetOf(x));
  }

  ghost predicate Run(states: seq<Sys>, events: seq<Event>) {
    Trace(states, events) && Initial(states[0])
  }

  lemma {:induction false} RunInv(states: seq<Sys>, events: seq<Event>, i: nat)
    requires Run(states, events) && i < |states|
    ensures Inv(states[i])
  {
    hide Inv, Initial, Step;
    if i == 0 {
      InitialInv(states[0]);
    } else {
      RunInv(states, events, i - 1);
      StepInv(states[i - 1], events[i - 1].action, events[i - 1].env, states[i]);
    }
  }

  lemma RunStep(states: seq<Sys>, events: seq<Event>, i: nat)
    requires Run(states, events) && i < |events|
    ensures Holds(states[i].store, states[i + 1].store, events[i].env.now) && states[i].starts <= states[i + 1].starts
  {
    hide Inv, Initial, Step, Holds;
    RunInv(states, events, i);
    StepHolds(states[i], events[i].action, events[i].env, states[i + 1]);
  }

  /** A service just started with an empty table is a run by itself. */
  lemma SomeRun(cfg: Config, env: Env) returns (x: Sys)
    requires cfg.Legal()
    ensures Run([x], [])
  {
    assert forall id :: id in [] <==> id in Reopened(map[], cfg.retention, env.wall);
    x := Sys(Opened(cfg, map[], [], env), map[], Refilling, NoCall, [], map[]);
    assert Opens(x.store, cfg, map[], [], env);
  }

  // ---------------------------------------------------------------- a job and its children

  /** No job is begun twice, by one child or by two, and what is begun is what was submitted under that id. */
  lemma BegunOnce(states: seq<Sys>, events: seq<Event>, i: nat, j: nat, k: nat)
    requires Run(states, events) && i < |states| && j < |states[i].starts| && k < |states[i].starts|
    ensures states[i].starts[j].work.id == states[i].starts[k].work.id ==> j == k
    ensures var work := states[i].starts[j].work;
            work.id in states[i].store.past.issued && states[i].store.past.issued[work.id] == work
  {
    hide Initial, Trace, Valid, Pcs, Lines, Posts, Claims, Computing, Mail, Unread, Answered;
    RunInv(states, events, i);
  }

  /** A child has a job's input in hand, executes it, or has begun it at any time. */
  ghost predicate Touches(x: Sys, w: WorkerId, id: JobId) {
    || Began(x.starts, w, id)
    || (w in x.children && x.children[w].phase.Got? && x.children[w].phase.work.id == id)
    || (w in x.children && x.children[w].phase.Executing? && x.children[w].phase.work.id == id)
  }

  lemma TouchClaims(n: Net, x: Sys, w: WorkerId, id: JobId)
    requires n == NetOf(x) && Lines(n) && Computing(n) && Touches(x, w, id)
    ensures Claim(n, w, id)
  {
    if w in x.children && x.children[w].phase.Got? && x.children[w].phase.work.id == id {
      assert LineOf(n, w)[0] == x.children[w].phase.work;
    }
  }

  /** A job reaches at most one child, and while it is unfinished that is the child the store gave it to. */
  lemma OneChild(states: seq<Sys>, events: seq<Event>, i: nat, v: WorkerId, w: WorkerId, id: JobId)
    requires Run(states, events) && i < |states| && Touches(states[i], v, id) && Touches(states[i], w, id)
    ensures v == w
    ensures Unfinished(states[i].store, id) ==> id in states[i].store.active && states[i].store.active[id] == w
  {
    hide Initial, Trace, Valid, Pcs, Touches, Claim, Lines, Posts, Once, Computing, Mail, Unread, Answered;
    RunInv(states, events, i);
    TouchClaims(NetOf(states[i]), states[i], v, id);
    TouchClaims(NetOf(states[i]), states[i], w, id);
  }

  /** A job is given to a child at most twice; an unfinished one once for its retry and once for the child it has. */
  lemma GivenTwice(states: seq<Sys>, events: seq<Event>, i: nat, id: JobId)
    requires Run(states, events) && i < |states|
    ensures var s := states[i].store;
            && Tries(s.past, id) <= 2
            && (Unfinished(s, id) ==>
                  Tries(s.past, id) == (if s.jobs[id].retried then 1 else 0) + (if id in s.active then 1 else 0))
  {
    hide Initial, Trace, Core, Pcs;
    RunInv(states, events, i);
    assert Unfinished(states[i].store, id) ==> Going(states[i].store.jobs, id);
  }

  /** A job that succeeded has the value that the one child that began it computed for it. */
  lemma SucceededValue(states: seq<Sys>, events: seq<Event>, i: nat, id: JobId)
    requires Run(states, events) && i < |states| && id in states[i].store.jobs
    requires states[i].store.jobs[id].status.Succeeded? && id !in states[i].store.past.restored
    ensures id in states[i].computed
    ensures states[i].store.jobs[id].result == Some(states[i].computed[id].value)
    ensures Began(states[i].starts, states[i].computed[id].worker, id)
    ensures forall w | Touches(states[i], w, id) :: w == states[i].computed[id].worker
  {
    hide Initial, Trace, Valid, Pcs, Lines, Posts, Claims, Once, Mail, Unread, Began;
    RunInv(states, events, i);
    var v := states[i].computed[id].worker;
    forall w | Touches(states[i], w, id) ensures w == v {
      OneChild(states, events, i, v, w, id);
    }
  }

  // ---------------------------------------------------------------- what lasts

  ghost predicate Known(s: Store, id: JobId) {
    id in s.past.issued || id in s.past.restored
  }

  lemma InvKnown(x: Sys, id: JobId)
    requires Inv(x) && id in x.store.jobs
    ensures Known(x.store, id)
  {
    hide Good;
  }

  /** What one step keeps of a known job. */
  lemma KeptKnown(s: Store, t: Store, now: Seconds, id: JobId)
    requires Holds(s, t, now) && Known(s, id)
    ensures Known(t, id) && (id in t.jobs ==> id in s.jobs && t.jobs[id].deadline == s.jobs[id].deadline)
    ensures id in t.jobs && s.jobs[id].status.Terminal() ==> t.jobs[id] == s.jobs[id]
    ensures id in s.jobs && id !in t.jobs ==> Stale(s.jobs[id], s.cfg.retention, now)
    ensures t.cfg == s.cfg
  {
  }

  lemma {:induction false} KnownStays(states: seq<Sys>, events: seq<Event>, i: nat, j: nat, id: JobId)
    requires Run(states, events) && i <= j < |states| && Known(states[i].store, id)
    ensures Known(states[j].store, id) && states[j].store.cfg == states[i].store.cfg
    ensures id in states[j].store.jobs ==>
              id in states[i].store.jobs && states[j].store.jobs[id].deadline == states[i].store.jobs[id].deadline
    decreases j
  {
    hide Run, Known;
    if i < j {
      KnownStays(states, events, i, j - 1, id);
      assert |states| == |events| + 1 by { RunLength(states, events); }
      RunStep(states, events, j - 1);
      KeptKnown(states[j - 1].store, states[j].store, events[j - 1].env.now, id);
    }
  }

  lemma RunLength(states: seq<Sys>, events: seq<Event>)
    requires Run(states, events)
    ensures |states| == |events| + 1
  {
  }

  /** A job that has ended never changes while it is kept. */
  lemma {:induction false} EndedForGood(states: seq<Sys>, events: seq<Event>, i: nat, j: nat, id: JobId)
    requires Run(states, events) && i <= j < |states| && id in states[i].store.jobs && id in states[j].store.jobs
    requires states[i].store.jobs[id].status.Terminal()
    ensures states[j].store.jobs[id] == states[i].store.jobs[id]
    decreases j
  {
    hide Run, Inv, Known, Holds;
    RunLength(states, events);
    if i < j {
      RunInv(states, events, i);
      InvKnown(states[i], id);
      KnownStays(states, events, i, j - 1, id);
      RunStep(states, events, j - 1);
      KeptKnown(states[j - 1].store, states[j].store, events[j - 1].env.now, id);
      EndedForGood(states, events, i, j - 1, id);
    }
  }

  /** And it is kept until its retention is over. */
  lemma {:induction false} KeptUntilStale(states: seq<Sys>, events: seq<Event>, i: nat, j: nat, id: JobId)
    returns (k: nat)
    requires Run(states, events) && i <= j < |states| && id in states[i].store.jobs && id !in states[j].store.jobs
    requires states[i].store.jobs[id].status.Terminal()
    ensures i <= k < j && k < |events|
    ensures Stale(states[i].store.jobs[id], states[i].store.cfg.retention, events[k].env.now)
    decreases j
  {
    hide Run, Inv, Known, Holds, Stale;
    RunLength(states, events);
    RunInv(states, events, i);
    InvKnown(states[i], id);
    KnownStays(states, events, i, j - 1, id);
    if id in states[j - 1].store.jobs {
      k := j - 1;
      RunStep(states, events, k);
      KeptKnown(states[k].store, states[j].store, events[k].env.now, id);
      EndedForGood(states, events, i, k, id);
    } else {
      k := KeptUntilStale(states, events, i, j - 1, id);
    }
  }

  lemma NothingIssued(states: seq<Sys>, events: seq<Event>)
    requires Run(states, events)
    ensures states[0].store.past.issued == map[]
  {
    hide Reopened, NoStats, KeysFrom;
  }

  lemma NewlyIssued(s: Store, t: Store, now: Seconds, id: JobId)
    requires Holds(s, t, now) && id in t.past.issued && id !in s.past.issued
    ensures id in t.jobs
  {
  }

  lemma StaleEnded(x: Sys, id: JobId, now: Seconds)
    requires Inv(x) && id in x.store.jobs && Stale(x.store.jobs[id], x.store.cfg.retention, now)
    ensures x.store.jobs[id].status.Terminal()
  {
    hide Core, Pcs, Pairing, Given, Submitted, Filed, Measured, Turns, Within, Crew;
  }

  /** At this step the job, ended, was let go of because its retention was over. */
  ghost predicate LetGo(states: seq<Sys>, events: seq<Event>, k: nat, id: JobId) {
    && k < |states| && k < |events| && id in states[k].store.jobs && states[k].store.jobs[id].status.Terminal()
    && Stale(states[k].store.jobs[id], states[k].store.cfg.retention, events[k].env.now)
  }

  /** A job submitted in a run is held until, at some step, it was let go of. */
  lemma {:induction false} HeldOrLetGo(states: seq<Sys>, events: seq<Event>, i: nat, id: JobId) returns (k: nat)
    requires Run(states, events) && i < |states| && id in states[i].store.past.issued && id !in states[i].store.jobs
    ensures k < i && LetGo(states, events, k, id)
  {
    hide Run, Inv, Holds, Stale, Initial;
    RunLength(states, events);
    NothingIssued(states, events);
    k := i - 1;
    RunStep(states, events, k);
    RunInv(states, events, k);
    if id !in states[k].store.past.issued {
      NewlyIssued(states[k].store, states[i].store, events[k].env.now, id);
    } else {
      KeptKnown(states[k].store, states[i].store, events[k].env.now, id);
      if id in states[k].store.jobs {
        StaleEnded(states[k], id, events[k].env.now);
      } else {
        k := HeldOrLetGo(states, events, k, id);
      }
    }
  }

  // ---------------------------------------------------------------- deadlines and draining

  /** After a tick no unfinished job has a deadline at or before its time. */
  lemma TickMeetsDeadlines(states: seq<Sys>, events: seq<Event>, i: nat, id: JobId)
    requires Run(states, events) && i < |events| && events[i].action == EndTick && |states| == |events| + 1
    ensures Unfinished(states[i + 1].store, id) ==> events[i].env.now < states[i + 1].store.jobs[id].deadline
  {
    hide Run, Inv, Initial, Tick, Valid;
    assert Step(states[i], EndTick, events[i].env, states[i + 1]) by { StepAt(states, events, i); }
    RunInv(states, events, i);
    assert Valid(states[i].store, {}, {}) by { ValidOf(states[i]); }
    TickDeadlines(states[i].store, events[i].env);
  }

  lemma StepAt(states: seq<Sys>, events: seq<Event>, i: nat)
    requires Run(states, events) && i < |events|
    ensures |states| == |events| + 1 && Step(states[i], events[i].action, events[i].env, states[i + 1])
  {
  }

  lemma ValidOf(x: Sys)
    requires Inv(x)
    ensures Valid(x.store, {}, {})
  {
  }

  /** The store after drain returned. */
  ghost predicate DrainedStore(s: Store) {
    s.draining && NoneQueued(s)
  }

  lemma DrainEnds(states: seq<Sys>, events: seq<Event>, i: nat)
    requires Run(states, events) && i < |events| && events[i].action == EndDrain
    ensures |states| == |events| + 1 && DrainedStore(states[i + 1].store)
  {
    hide Run, Initial, Step, Good, NoneQueued, Lasts, Settles;
    RunLength(states, events);
    RunInv(states, events, i + 1);
    RunInv(states, events, i);
    StepAt(states, events, i);
    RunStep(states, events, i);
    EndedDrain(states[i], events[i].env, states[i + 1]);
  }

  lemma EndedDrain(x: Sys, env: Env, y: Sys)
    requires Step(x, EndDrain, env, y) && Pcs(x) && Pcs(y) && Holds(x.store, y.store, env.now)
    ensures DrainedStore(y.store)
  {
    hide NoneQueued, Confirmable, Rereading, Origins, AbortAll, Settles;
  }

  lemma {:induction false} StaysDrained(states: seq<Sys>, events: seq<Event>, i: nat, j: nat)
    requires Run(states, events) && i <= j < |states| && DrainedStore(states[i].store)
    ensures var s, t := states[i].store, states[j].store;
            && DrainedStore(t) && t.past.issued == s.past.issued && t.past.attaches == s.past.attaches
            && OpenJobs(t.jobs) <= OpenJobs(s.jobs)
    decreases j
  {
    hide Run, NoneQueued;
    RunLength(states, events);
    if i < j {
      StaysDrained(states, events, i, j - 1);
      RunStep(states, events, j - 1);
    }
  }

  /** Once drain has returned, no job is ever queued, accepted or given to a child again, and no job is unfinished that
      was not then. */
  lemma DrainedForGood(states: seq<Sys>, events: seq<Event>, i: nat, j: nat)
    requires Run(states, events) && i < |events| && events[i].action == EndDrain && i < j < |states|
    requires |states| == |events| + 1
    ensures var s, t := states[i + 1].store, states[j].store;
            && t.draining && (forall id | id in t.jobs :: !t.jobs[id].status.Queued?)
            && t.past.issued == s.past.issued && t.past.attaches == s.past.attaches
            && OpenJobs(t.jobs) <= OpenJobs(s.jobs)
  {
    hide Run;
    DrainEnds(states, events, i);
    StaysDrained(states, events, i + 1, j);
  }

  lemma DrainedDeadline(states: seq<Sys>, events: seq<Event>, i: nat, j: nat, id: JobId)
    requires Run(states, events) && i < j < |events| && events[i].action == EndDrain && events[j].action == EndTick
    requires |states| == |events| + 1
    requires Unfinished(states[i + 1].store, id) ==> events[j].env.now >= states[i + 1].store.jobs[id].deadline
    ensures !Unfinished(states[j + 1].store, id)
  {
    hide Run, Inv, Known;
    DrainedForGood(states, events, i, j + 1);
    TickMeetsDeadlines(states, events, j, id);
    if id in states[i + 1].store.jobs {
      RunInv(states, events, i + 1);
      InvKnown(states[i + 1], id);
      KnownStays(states, events, i + 1, j + 1, id);
    }
    OpenHas(states[j + 1].store, id);
  }

  lemma OpenHas(s: Store, id: JobId)
    ensures Unfinished(s, id) <==> id in OpenJobs(s.jobs)
  {
  }

  /** No unfinished job has longer than now. */
  ghost predicate AllDue(s: Store, now: Seconds) {
    forall id | Unfinished(s, id) :: now >= s.jobs[id].deadline
  }

  lemma NoneOpen(s: Store)
    requires forall id :: !Unfinished(s, id)
    ensures OpenJobs(s.jobs) == {}
  {
    assert forall id | id in OpenJobs(s.jobs) :: Unfinished(s, id);
  }

  /** After a drain the service is not busy once a tick has come at or past the last deadline of the jobs that were
      then unfinished. */
  lemma DrainTerminates(states: seq<Sys>, events: seq<Event>, i: nat, j: nat, k: nat)
    requires Run(states, events) && i < j < |events| && events[i].action == EndDrain && events[j].action == EndTick
    requires |states| == |events| + 1 && j < k < |states|
    requires AllDue(states[i + 1].store, events[j].env.now)
    ensures OpenJobs(states[k].store.jobs) == {}
  {
    hide Run;
    var t := states[j + 1].store;
    forall id ensures !Unfinished(t, id) {
      DrainedDeadline(states, events, i, j, id);
    }
    NoneOpen(t);
    DrainEnds(states, events, i);
    StaysDrained(states, events, i + 1, j + 1);
    StaysDrained(states, events, j + 1, k);
  }

  /** Outside a drain in progress a draining store has nothing queued, so the tick never meets a queued job while
      draining: its branch for one is never taken. */
  lemma NothingQueuedWhileDraining(states: seq<Sys>, events: seq<Event>, i: nat, id: JobId)
    requires Run(states, events) && i < |states| && states[i].call.NoCall? && states[i].store.draining
    ensures id in states[i].store.jobs ==> !states[i].store.jobs[id].status.Queued?
  {
    hide Run, Good, Placed, Confirmable, Rereading, Origins;
    RunInv(states, events, i);
  }

  // ---------------------------------------------------------------- the children

  /** The jobs with a child and the children of the pool with a job are each other's inverse; those jobs are unfinished,
      and a running job is among them. */
  lemma ActiveIsInverse(states: seq<Sys>, events: seq<Event>, i: nat, id: JobId, w: WorkerId)
    requires Run(states, events) && i < |states|
    ensures var s := states[i].store;
            && (id in s.active && s.active[id] == w <==> w in s.workers && s.workers[w].job == Some(id))
            && (id in s.active ==> Unfinished(s, id) && s.active[id] in s.pool)
            && (id in s.jobs && s.jobs[id].status.Running? ==> id in s.active)
  {
    hide Run, Core, Pcs;
    RunInv(states, events, i);
    var s := states[i].store;
    assert id in s.active ==> Going(s.jobs, id);
  }

  /** A retired child is out of the pool, has no job, and was told to stop or terminated; one in service was neither; a
      child serves at most its share, and the pool its limit; the parent's end of the pipe is closed once, exactly when
      the child is retired and no send is in flight. */
  lemma ChildrenSound(states: seq<Sys>, events: seq<Event>, i: nat, w: WorkerId)
    requires Run(states, events) && i < |states| && w in states[i].store.workers
    ensures var s, k := states[i].store, states[i].store.workers[w];
            && (w in s.pool <==> k.retiredAt.None?)
            && (k.retiredAt.Some? ==> k.job.None?) && (k.killed ==> k.retiredAt.Some?)
            && (k.retiredAt.Some? <==> k.terminated || Stop in k.outbox)
            && k.served <= s.cfg.maxJobs && |s.pool| <= s.cfg.concurrency
            && k.closes == (if k.retiredAt.Some? && !k.sending then 1 else 0)
  {
    hide Run, Core, Pcs;
    RunInv(states, events, i);
  }

  /** Once retired, a child never serves again: in no later state is it in the pool or has it a job. */
  lemma {:induction false} RetiredForGood(states: seq<Sys>, events: seq<Event>, i: nat, j: nat, w: WorkerId)
    requires Run(states, events) && i <= j < |states|
    requires w in states[i].store.workers && states[i].store.workers[w].retiredAt.Some?
    ensures w in states[j].store.workers && states[j].store.workers[w].retiredAt.Some?
    ensures w !in states[j].store.pool && states[j].store.workers[w].job.None?
    decreases j
  {
    hide Run, Inv, Step;
    RunLength(states, events);
    if i < j {
      RetiredForGood(states, events, i, j - 1, w);
      RunInv(states, events, j - 1);
      StepAt(states, events, j - 1);
      StepRetires(states[j - 1], events[j - 1].action, events[j - 1].env, states[j]);
    }
    ChildrenSound(states, events, j, w);
  }

  ghost predicate ClocksRise(events: seq<Event>) {
    forall i, j | 0 <= i <= j < |events| :: events[i].env.now <= events[j].env.now
  }

  lemma {:induction false} HeldBackUntil(states: seq<Sys>, events: seq<Event>, i: nat, k: nat, until: Seconds)
    requires Run(states, events) && ClocksRise(events) && |states| == |events| + 1 && i <= k < |events|
    requires states[i].store.backoffUntil >= until && until <= events[i].env.now + BACKOFF
    ensures states[k].store.backoffUntil >= until
    decreases k
  {
    hide Run, Inv, Step;
    if i < k {
      HeldBackUntil(states, events, i, k - 1, until);
      RunInv(states, events, k - 1);
      StepAt(states, events, k - 1);
      StepBacks(states[k - 1], events[k - 1].action, events[k - 1].env, states[k]);
    }
  }

  /** A start fails: the system refuses the process, or a child leaves service before it was ready, because it exited,
      stayed silent too long, lost its pipe or was told to go. */
  ghost predicate FailedStart(s: Store, a: Action, t: Store) {
    (a.Launched? && !a.up) || exists w :: Failing(s, t, w)
  }

  /** A fault that ends every child at its start is no spawn loop: with a clock that never goes back, once a start has
      failed no other is begun before the backoff is over. */
  lemma NoSpawnLoop(states: seq<Sys>, events: seq<Event>, i: nat, k: nat)
    requires Run(states, events) && ClocksRise(events) && |states| == |events| + 1 && i < k < |events|
    requires FailedStart(states[i].store, events[i].action, states[i + 1].store)
    requires events[k].action == Refill && states[k + 1].pc.Launching?
    ensures events[k].env.now >= events[i].env.now + 1.0
  {
    hide Run, Inv, Step;
    StepAt(states, events, i);
    StepAt(states, events, k);
    StepBacks(states[i], events[i].action, events[i].env, states[i + 1]);
    HeldBackUntil(states, events, i + 1, k, events[i].env.now + BACKOFF);
    RefillWaits(states[k], events[k].action, events[k].env, states[k + 1]);
  }

  lemma RefillWaits(x: Sys, a: Action, env: Env, y: Sys)
    requires Step(x, a, env, y) && a == Refill && y.pc.Launching?
    ensures env.now >= x.store.backoffUntil
  {
    assert OutsideStep(x, a, env, y);
  }

  // ---------------------------------------------------------------- counting

  /** What was submitted has ended, in one status or another, or is still held; and every end was timed. */
  lemma Conserved(states: seq<Sys>, events: seq<Event>, i: nat, o: Owner, t: Task)
    requires Run(states, events) && i < |states|
    ensures var s := states[i].store;
            && Get(s.stats.submitted, (o, t)) == EndedOf(s.stats.ended, o, t) + |GoingOf(s.jobs, o, t)|
            && Timed(s.stats.durations, t) == EndedBy(s.cfg.owners, s.stats.ended, t)
  {
    hide Run, Core, Pcs;
    RunInv(states, events, i);
  }

  /** A rendered bucket of a task's durations counts exactly the jobs of that task that were submitted to this process,
      have ended, and took at most its bound from submission to end; the one without a bound counts all that ended. */
  lemma DurationBuckets(states: seq<Sys>, events: seq<Event>, i: nat, t: Task, b: nat)
    requires Run(states, events) && i < |states| && b <= |BUCKETS|
    ensures var h, past := SeenBy(states[i].store.stats.durations, t), states[i].store.past;
            && Shaped(h) && h.count == |EndedJobs(past, t)|
            && Sum(h.buckets[..b + 1]) ==
               if b < |BUCKETS| then |EndedWithin(past, t, BUCKETS[b])| else |EndedJobs(past, t)|
  {
    hide Run, Core, Pcs;
    RunInv(states, events, i);
    BucketsCount(states[i].store.stats.ended, states[i].store.stats.durations, states[i].store.past, t, b);
  }

  // ---------------------------------------------------------------- admission

  /** The limits on what is held hold in every state. */
  lemma LimitsHold(states: seq<Sys>, events: seq<Event>, i: nat, o: Owner)
    requires Run(states, events) && i < |states|
    ensures var s := states[i].store;
            && |OpenJobs(s.jobs)| <= s.cfg.capacity
            && |s.jobs| <= Max(|s.past.restored|, s.cfg.capacity + s.cfg.resultCapacity - 1)
            && (s.cfg.ownerCapacity.Some? ==>
                  |HeldBy(s.jobs, o)| <= Max(|RestoredBy(s.past, o)|, s.cfg.ownerCapacity.value))
  {
    hide Run, Core, Pcs;
    RunInv(states, events, i);
    LimitsOf(states[i].store, o);
  }

  lemma LimitsOf(s: Store, o: Owner)
    requires Within(s.cfg, s.jobs, s.past)
    ensures |OpenJobs(s.jobs)| <= s.cfg.capacity
    ensures |s.jobs| <= Max(|s.past.restored|, s.cfg.capacity + s.cfg.resultCapacity - 1)
    ensures s.cfg.ownerCapacity.Some? ==>
              |HeldBy(s.jobs, o)| <= Max(|RestoredBy(s.past, o)|, s.cfg.ownerCapacity.value)
  {
    assert |Counted(s.jobs, ActiveQuota)| <= s.cfg.capacity;
    assert Allowed(s.cfg, s.past, TotalQuota).Some?;
    assert Allowed(s.cfg, s.past, OwnerQuota(o)).Some? <==> s.cfg.ownerCapacity.Some?;
  }

  /** The keys are exactly the inverse of the retained keyed jobs. */
  lemma KeysAreInverse(states: seq<Sys>, events: seq<Event>, i: nat, k: (Owner, Key), id: JobId)
    requires Run(states, events) && i < |states|
    ensures var s := states[i].store;
            k in s.keys && s.keys[k] == id <==> id in s.jobs && s.jobs[id].owner == k.0 && s.jobs[id].key == Some(k.1)
  {
    hide Run, Core, Pcs;
    RunInv(states, events, i);
  }

  // ---------------------------------------------------------------- fairness and recovery

  /** An owner with a waiting job at every dispatch decision of a stretch, and never chosen, is passed over at most once
      for each other owner. */
  lemma NoOwnerStarves(states: seq<Sys>, events: seq<Event>, i: nat, first: nat, last: nat, o: Owner)
    requires Run(states, events) && i < |states| && o in states[i].store.cfg.owners
    requires first <= last <= |states[i].store.past.picks|
    requires forall k | first <= k < last ::
               o in states[i].store.past.picks[k].waiting && states[i].store.past.picks[k].chosen != o
    ensures last - first <= |states[i].store.cfg.owners| - 1
  {
    hide Run, Core, Pcs, Valid;
    RunInv(states, events, i);
    BoundedBypass(states[i].store, first, last, o);
  }

  /** The rows a restart keeps, read in some order. */
  ghost predicate Listed(s: Store, order: seq<JobId>, env: Env) {
    Distinct(order) && forall id :: id in order <==> id in Reopened(s.disk.rows, s.cfg.retention, env.wall)
  }

  ghost function Restart(s: Store, order: seq<JobId>, env: Env): Sys
    requires Listed(s, order, env)
  {
    Sys(Opened(s.cfg, s.disk.rows, order, env), map[], Refilling, NoCall, [], map[])
  }

  lemma RestartOf(s: Store, order: seq<JobId>, env: Env)
    requires Valid(s, {}, {}) && Listed(s, order, env)
    ensures Initial(Restart(s, order, env)) && Reopens(s, Restart(s, order, env).store, order, env)
    ensures forall id | id in Restart(s, order, env).store.jobs :: Restart(s, order, env).store.jobs[id].status.Terminal()
  {
    hide Opened, Reopened, Valid, Table, Distinct;
    RowsLegal(s);
    OpenedValid(s.cfg, s.disk.rows, order, env);
    assert Opens(Restart(s, order, env).store, s.cfg, s.disk.rows, order, env);
  }

  lemma RowsLegal(s: Store)
    requires Valid(s, {}, {})
    ensures Table(s.disk.rows) && s.cfg.Legal()
  {
  }

  /** Whenever the process dies, the next one starts where every result above holds again, with only ended jobs. */
  lemma RestartIsInitial(states: seq<Sys>, events: seq<Event>, i: nat, order: seq<JobId>, env: Env)
    requires Run(states, events) && i < |states| && Listed(states[i].store, order, env)
    ensures var x := Restart(states[i].store, order, env);
            && Initial(x) && Inv(x) && Reopens(states[i].store, x.store, order, env)
            && forall id | id in x.store.jobs :: x.store.jobs[id].status.Terminal()
  {
    hide Run, Core, Pcs, Valid, Listed, Restart, Initial, Reopens;
    RunInv(states, events, i);
    RestartOf(states[i].store, order, env);
    InitialInv(Restart(states[i].store, order, env));
  }

  /** Wherever a run is cut off, every job submitted in it is held by the next process, as it ended if its end was written
      and as a restart's failure if not; unless it had ended and its retention was over, on the wall clock at the restart or
      on the process's own at an earlier step. */
  lemma AcceptedSurvives(states: seq<Sys>, events: seq<Event>, i: nat, order: seq<JobId>, env: Env, id: JobId)
      returns (k: nat)
    requires Run(states, events) && i < |states| && Listed(states[i].store, order, env)
    requires id in states[i].store.past.issued
    ensures var s, u := states[i].store, Restart(states[i].store, order, env).store;
            && (Written(s, id) && id in s.jobs ==> id in s.past.ends)
            && (id !in u.jobs ==>
                  if id in s.jobs then Written(s, id) && env.wall - s.past.ends[id].wall >= s.cfg.retention
                  else k < i && LetGo(states, events, k, id))
            && (id in u.jobs && id in s.jobs ==>
                  if Written(s, id) then AsEnded(s.jobs[id], u.jobs[id]) else AsLost(s.jobs[id], u.jobs[id]))
  {
    hide Run, Inv, Core, Pcs, Valid, Listed, Restart, Initial, Reopens, Holds, LetGo, Written, AsEnded, AsLost;
    k := 0;
    var s := states[i].store;
    RunInv(states, events, i);
    ValidOf(states[i]);
    RestartOf(s, order, env);
    if id in s.jobs {
      NothingLost(s, Restart(s, order, env).store, order, env, id);
    } else {
      k := HeldOrLetGo(states, events, i, id);
    }
  }

  // ---------------------------------------------------------------- order within an owner

  /** In every run, of two waiting jobs of one owner, a tick that gives a child to the later submitted gives one to the
      earlier. */
  lemma OldestGoesFirst(states: seq<Sys>, events: seq<Event>, i: nat, x: JobId, y: JobId)
    requires Run(states, events) && i < |events| && |states| == |events| + 1 && events[i].action == EndTick
    requires Ahead(states[i].store.order, x, y)
    ensures Linked(states[i].store) && forall id | id in states[i].store.order :: id in states[i].store.jobs
    ensures states[i + 1].pc.Sending? && states[i + 1].pc.sends == Tick(states[i].store, events[i].env).1
    ensures var s, sends := Scan(states[i].store, states[i].store.order, events[i].env).0, states[i + 1].pc.sends;
            Idle(s, x) && Idle(s, y) && s.jobs[x].owner == s.jobs[y].owner ==>
              (y in SentOf(s, sends, s.jobs[y].owner) ==> x in SentOf(s, sends, s.jobs[x].owner))
  {
    hide Run, Inv, Valid, Ahead, Idle, Scan, Tick, Linked, SentOf;
    RunInv(states, events, i);
    ValidOf(states[i]);
    StepAt(states, events, i);
    OldestFirst(states[i].store, events[i].env, x, y);
    TickSends(states[i], events[i].env, states[i + 1]);
  }

  lemma TickSends(x: Sys, env: Env, y: Sys)
    requires Step(x, EndTick, env, y)
    ensures Linked(x.store) && (forall id | id in x.store.order :: id in x.store.jobs)
    ensures y.pc == Sending(Tick(x.store, env).1)
  {
    hide Tick;
    assert ReadStep(x, EndTick, env, y);
  }
}
