/** A run that serves a request from its submission to its value. */
module Serving {
  import opened Wrappers
  import opened JobTypes
  import opened StoreModel
  import opened StoreInvariant
  import opened Recovery
  import opened Protocol
  import opened Safety

  /** Both clocks at once, with a disk that takes every write. */
  function Moment(): Env {
    Env(0.0, 0.0, {}, false)
  }

  /** The one job, the one child by the parent's record and by its own state, and where the coordinator is. */
  datatype Stage = Stage(j: Job, k: Worker, phase: Phase, pc: Pc)

  ghost predicate At(x: Sys, cfg: Config, id: JobId, st: Stage) {
    && x.store.cfg == cfg && !x.store.stopping && !x.store.draining
    && x.store.order == [id] && x.store.jobs == map[id := st.j]
    && x.store.active == (if st.k.job.Some? then map[id := 0] else map[])
    && x.store.pool == [0] && x.store.workers == map[0 := st.k] && st.k.retiredAt.None? && (st.k.job.None? || st.k.job == Some(id))
    && x.children == map[0 := Child(st.phase, true)] && x.pc == st.pc && x.call.NoCall?
  }

  /** The run so far starts with the submission. */
  ghost predicate Reached(states: seq<Sys>, events: seq<Event>, req: Request, id: JobId, x: Sys) {
    && Safety.Run(states, events) && |states| == |events| + 1 && events != [] && events[0].action == DoSubmit(req, id, None)
    && id in states[1].store.jobs && states[|events|] == x
  }

  lemma Grow(states: seq<Sys>, events: seq<Event>, x: Sys, a: Action, y: Sys)
    requires Safety.Run(states, events) && |states| == |events| + 1 && states[|events|] == x && Step(x, a, Moment(), y)
    ensures Safety.Run(states + [y], events + [Event(a, Moment())])
  {
    hide Step, Initial;
    var more, all := states + [y], events + [Event(a, Moment())];
    forall i | 0 <= i < |all| ensures Step(more[i], all[i].action, all[i].env, more[i + 1]) {
      if i < |events| {
        assert Step(states[i], events[i].action, events[i].env, states[i + 1]);
      }
    }
  }

  lemma Next(states: seq<Sys>, events: seq<Event>, req: Request, id: JobId, x: Sys, a: Action, y: Sys)
      returns (more: seq<Sys>, all: seq<Event>)
    requires Reached(states, events, req, id, x) && Step(x, a, Moment(), y)
    ensures Reached(more, all, req, id, y)
  {
    hide Step, Safety.Run;
    more, all := states + [y], events + [Event(a, Moment())];
    Grow(states, events, x, a, y);
  }

  // ---------------------------------------------------------------- the submission and the start of the child

  ghost predicate Bare(s: Store) {
    && s.jobs == map[] && s.order == [] && s.keys == map[] && s.disk.rows == map[] && s.active == map[]
    && s.pool == [] && s.workers == map[] && s.backoffUntil == 0.0 && !s.draining && !s.stopping
    && forall id :: Unused(s, id)
  }

  lemma Empty(cfg: Config) returns (x: Sys)
    requires cfg.Legal()
    ensures Safety.Run([x], []) && Bare(x.store) && x.store.cfg == cfg
    ensures x.children == map[] && x.pc == Refilling && x.call == NoCall
  {
    hide Unused, Step;
    assert forall id :: id in [] <==> id in Reopened(map[], cfg.retention, 0.0);
    x := Sys(Opened(cfg, map[], [], Moment()), map[], Refilling, NoCall, [], map[]);
    assert Opens(x.store, cfg, map[], [], Moment());
    AllUnused(x.store);
  }

  lemma AllUnused(s: Store)
    requires s.past.issued == map[] && s.past.restored == map[] && s.past.attaches == map[] && s.past.ends == map[]
    requires s.jobs == map[] && s.disk.rows == map[]
    ensures forall id :: Unused(s, id)
  {
  }

  lemma NothingHeld(s: Store)
    requires s.jobs == map[] && s.order == [] && s.keys == map[]
    ensures Expire(s, Moment()) == s.(disk := Expire(s, Moment()).disk)
  {
    assert Expired(s, 0.0) == {};
  }

  lemma Room(s: Store, owner: Owner)
    requires s.jobs == map[] && s.cfg.Legal()
    ensures Limit(s, owner, None, 0.0).None?
  {
    assert HeldBy(s.jobs, owner) == {} && OpenJobs(s.jobs) == {};
  }

  lemma Admitted(s: Store, req: Request, id: JobId)
    requires s.cfg.Legal() && req.owner in s.cfg.owners && 100 <= req.timeoutMs <= 300000 && Bare(s)
    ensures var t := Submit(s, req, id, None, Moment()).0;
            && t.jobs == map[id := NewJob(req, 0.0)] && t.order == [id] && t.cfg == s.cfg && t.pool == []
            && t.workers == map[] && t.active == map[] && t.backoffUntil == 0.0 && !t.draining && !t.stopping
  {
    hide Expire, Limit, Unused;
    NothingHeld(s);
    Room(Expire(s, Moment()), req.owner);
  }

  lemma Submits(x: Sys, req: Request, id: JobId) returns (y: Sys)
    requires Bare(x.store) && x.store.cfg.Legal() && x.pc == Refilling && x.call == NoCall
    requires req.owner in x.store.cfg.owners && 100 <= req.timeoutMs <= 300000
    ensures Step(x, DoSubmit(req, id, None), Moment(), y) && y == x.(store := Submit(x.store, req, id, None, Moment()).0)
  {
    hide Submit, Unused, ChildStep, ReadStep, OutsideStep;
    y := x.(store := Submit(x.store, req, id, None, Moment()).0);
    assert ThreadStep(x, DoSubmit(req, id, None), Moment(), y);
  }

  lemma Wants(x: Sys) returns (y: Sys)
    requires |x.store.pool| < x.store.cfg.concurrency && x.store.backoffUntil == 0.0 && !x.store.stopping && !x.store.draining
    requires x.pc == Refilling && x.call == NoCall
    ensures Step(x, Refill, Moment(), y) && y == x.(pc := Launching)
  {
    hide ChildStep, ReadStep, ThreadStep;
    y := x.(pc := Launching);
    assert OutsideStep(x, Refill, Moment(), y);
  }

  lemma Starts(x: Sys) returns (y: Sys)
    requires x.store.workers == map[] && x.children == map[] && x.pc == Launching && x.call == NoCall && !x.store.stopping
    requires forall id | id in x.store.order :: id in x.store.jobs
    ensures Step(x, Launched(0, true), Moment(), y)
    ensures y == x.(store := Join(x.store, 0, 0.0), children := map[0 := Child(Starting, true)], pc := Refilling)
  {
    hide ChildStep, ReadStep, ThreadStep;
    y := x.(store := Join(x.store, 0, 0.0), children := x.children[0 := Child(Starting, true)], pc := Refilling);
    assert OutsideStep(x, Launched(0, true), Moment(), y);
  }

  lemma Begins(cfg: Config, req: Request, id: JobId) returns (states: seq<Sys>, events: seq<Event>, x: Sys)
    requires cfg.Legal() && req.owner in cfg.owners && 100 <= req.timeoutMs <= 300000
    ensures Reached(states, events, req, id, x)
    ensures At(x, cfg, id, Stage(NewJob(req, 0.0), NewWorker(0.0), Starting, Refilling))
  {
    hide Submit, Safety.Run, Step;
    var x0 := Empty(cfg);
    var x1 := Submits(x0, req, id);
    Admitted(x0.store, req, id);
    var x2 := Wants(x1);
    x := Starts(x2);
    Grow([x0], [], x0, DoSubmit(req, id, None), x1);
    assert [x0] + [x1] == [x0, x1] && [] + [Event(DoSubmit(req, id, None), Moment())] == [Event(DoSubmit(req, id, None), Moment())];
    states, events := Next([x0, x1], [Event(DoSubmit(req, id, None), Moment())], req, id, x1, Refill, x2);
    states, events := Next(states, events, req, id, x2, Launched(0, true), x);
  }

  // ---------------------------------------------------------------- the child

  lemma Announces(x: Sys, cfg: Config, id: JobId, st: Stage) returns (y: Sys)
    requires At(x, cfg, id, st) && st.phase.Starting?
    ensures Step(x, Announce(0, false), Moment(), y)
    ensures At(y, cfg, id, st.(k := st.k.(inbox := st.k.inbox + [Ready]), phase := Waiting))
  {
    hide ReadStep, OutsideStep, ThreadStep;
    y := Enter(x.(store := Posted(x.store, 0, [Ready])), 0, Waiting);
    assert ChildStep(x, Announce(0, false), y);
  }

  lemma Receives(x: Sys, cfg: Config, id: JobId, st: Stage, work: Work) returns (y: Sys)
    requires At(x, cfg, id, st) && st.phase.Waiting? && st.k.outbox == [Command.Run(work)]
    ensures Step(x, Receive(0), Moment(), y) && At(y, cfg, id, st.(k := st.k.(outbox := []), phase := Got(work)))
  {
    hide ReadStep, OutsideStep, ThreadStep;
    assert st.k.outbox[1..] == [];
    y := Enter(x.(store := x.store.(workers := x.store.workers[0 := st.k.(outbox := [])])), 0, Got(work));
    assert ChildStep(x, Receive(0), y);
  }

  lemma Executes(x: Sys, cfg: Config, id: JobId, st: Stage) returns (y: Sys)
    requires At(x, cfg, id, st) && st.phase.Got?
    ensures Step(x, Begin(0), Moment(), y)
    ensures At(y, cfg, id, st.(k := st.k.(inbox := st.k.inbox + [Started(st.phase.work.id)]), phase := Executing(st.phase.work)))
  {
    hide ReadStep, OutsideStep, ThreadStep;
    var work := st.phase.work;
    y := Enter(x.(store := Posted(x.store, 0, [Started(work.id)]), starts := x.starts + [Start(0, work)]), 0, Executing(work));
    assert ChildStep(x, Begin(0), y);
  }

  lemma Replies(x: Sys, cfg: Config, id: JobId, st: Stage, v: Value) returns (y: Sys)
    requires At(x, cfg, id, st) && st.phase.Executing?
    ensures Step(x, Reply(0, v), Moment(), y)
    ensures At(y, cfg, id, st.(k := st.k.(inbox := st.k.inbox + [Returned(st.phase.work.id, v)]), phase := Waiting))
  {
    hide ReadStep, OutsideStep, ThreadStep;
    var work := st.phase.work;
    y := Enter(x.(store := Posted(x.store, 0, [Returned(work.id, v)]), computed := x.computed[work.id := Outcome(0, v)]), 0, Waiting);
    assert ChildStep(x, Reply(0, v), y);
  }

  // ---------------------------------------------------------------- the coordinator

  /** To the end of the tick, through a start that fails when there is room for one more child. */
  lemma Rests(states0: seq<Sys>, events0: seq<Event>, req: Request, cfg: Config, id: JobId, x0: Sys, st: Stage)
      returns (states: seq<Sys>, events: seq<Event>, x: Sys)
    requires Reached(states0, events0, req, id, x0) && At(x0, cfg, id, st) && (st.pc == Refilling || st.pc == Sending([]))
    ensures Reached(states, events, req, id, x) && At(x, cfg, id, st.(pc := Resting))
  {
    hide Reached, Step, At;
    var x1, more := Refills(x0, cfg, id, st);
    states, events := Next(states0, events0, req, id, x0, Refill, x1);
    if more {
      var x2 := Fails(x1, cfg, id, st.(pc := Launching));
      states, events := Next(states, events, req, id, x1, Launched(1, false), x2);
      x1 := x2;
    }
    x := Reaps(x1, cfg, id, st.(pc := Reaping));
    states, events := Next(states, events, req, id, x1, EndReap, x);
  }

  lemma Refills(x: Sys, cfg: Config, id: JobId, st: Stage) returns (y: Sys, more: bool)
    requires At(x, cfg, id, st) && (st.pc == Refilling || st.pc == Sending([]))
    ensures Step(x, Refill, Moment(), y) && At(y, cfg, id, st.(pc := if more then Launching else Reaping))
  {
    hide ChildStep, ReadStep, ThreadStep;
    more := MayStart(x.store, 0.0);
    y := x.(pc := if more then Launching else Reaping);
    assert OutsideStep(x, Refill, Moment(), y);
  }

  lemma Fails(x: Sys, cfg: Config, id: JobId, st: Stage) returns (y: Sys)
    requires At(x, cfg, id, st) && st.pc == Launching
    ensures Step(x, Launched(1, false), Moment(), y) && At(y, cfg, id, st.(pc := Reaping))
  {
    hide ChildStep, ReadStep, ThreadStep, FailQueued;
    y := x.(store := StartFailed(x.store, Moment()), pc := Reaping);
    assert OutsideStep(x, Launched(1, false), Moment(), y);
  }

  lemma Reaps(x: Sys, cfg: Config, id: JobId, st: Stage) returns (y: Sys)
    requires At(x, cfg, id, st) && st.pc == Reaping
    ensures Step(x, EndReap, Moment(), y) && At(y, cfg, id, st.(pc := Resting))
  {
    hide ChildStep, ReadStep, ThreadStep;
    y := x.(pc := Resting);
    assert OutsideStep(x, EndReap, Moment(), y);
  }

  lemma NothingStale(s: Store, id: JobId, j: Job)
    requires s.order == [id] && s.jobs == map[id := j] && j.finished.None?
    ensures Expire(s, Moment()).jobs == s.jobs && Expire(s, Moment()).order == [id]
  {
    assert Expired(s, 0.0) == {};
    assert Fresh(s, [id][1..], 0.0) == [];
  }

  /** A tick begins with its first child. */
  lemma Turns(states0: seq<Sys>, events0: seq<Event>, req: Request, cfg: Config, id: JobId, x0: Sys, st: Stage)
      returns (states: seq<Sys>, events: seq<Event>, x: Sys)
    requires Reached(states0, events0, req, id, x0) && At(x0, cfg, id, st) && st.pc == Resting && st.j.finished.None?
    ensures Reached(states, events, req, id, x) && At(x, cfg, id, st.(pc := Reading(0, false, [])))
  {
    hide Reached, Step, At;
    var x1 := Ticks(x0, cfg, id, st);
    states, events := Next(states0, events0, req, id, x0, BeginTick, x1);
    x := Looks(x1, cfg, id, st.(pc := Polling([0])));
    states, events := Next(states, events, req, id, x1, NextChild, x);
  }

  lemma Ticks(x: Sys, cfg: Config, id: JobId, st: Stage) returns (y: Sys)
    requires At(x, cfg, id, st) && st.pc == Resting && st.j.finished.None?
    ensures Step(x, BeginTick, Moment(), y) && At(y, cfg, id, st.(pc := Polling([0])))
  {
    hide ChildStep, OutsideStep, ThreadStep;
    NothingStale(x.store, id, st.j);
    y := x.(store := Expire(x.store, Moment()), pc := Polling(x.store.pool));
    assert ReadStep(x, BeginTick, Moment(), y);
  }

  lemma Looks(x: Sys, cfg: Config, id: JobId, st: Stage) returns (y: Sys)
    requires At(x, cfg, id, st) && st.pc == Polling([0])
    ensures Step(x, NextChild, Moment(), y) && At(y, cfg, id, st.(pc := Reading(0, false, [])))
  {
    hide ChildStep, OutsideStep, ThreadStep;
    assert [0][1..] == [];
    y := x.(pc := Reading(0, false, []));
    assert ReadStep(x, NextChild, Moment(), y);
  }

  ghost predicate Holds(s: Store, id: JobId, j: Job, k: Worker) {
    && s.order == [id] && s.jobs == map[id := j] && s.workers == map[0 := k] && s.pool == [0] && k.retiredAt.None?
    && s.active == (if k.job.Some? then map[id := 0] else map[]) && (k.job.None? || k.job == Some(id))
  }

  /** What does not change while a child is read. */
  ghost predicate Alike(s: Store, t: Store) {
    t.cfg == s.cfg && t.stopping == s.stopping && t.draining == s.draining
  }

  lemma HearsReady(s: Store, id: JobId, j: Job, k: Worker)
    requires Holds(s, id, j, k) && k.inbox == [Ready]
    ensures var t := Taken(s, 0, Moment()).0; Holds(t, id, j, k.(inbox := [], ready := true)) && Alike(s, t)
    ensures !Taken(s, 0, Moment()).1
  {
    hide Received;
    ReceivedOnly(s, k);
    assert k.inbox[1..] == [];
    assert map[0 := k][0 := k.(inbox := [])] == map[0 := k.(inbox := [])];
  }

  lemma HearsStarted(s: Store, id: JobId, j: Job, k: Worker, v: Value)
    requires Holds(s, id, j, k) && k.inbox == [Started(id), Returned(id, v)] && k.job == Some(id) && j.status.Queued?
    ensures var t := Taken(s, 0, Moment()).0;
            Holds(t, id, j.(status := Running, startedAt := Some(0.0)), k.(inbox := [Returned(id, v)])) && Alike(s, t)
    ensures !Taken(s, 0, Moment()).1
  {
    hide Observe;
    assert k.inbox[1..] == [Returned(id, v)];
  }

  lemma HearsValue(s: Store, id: JobId, j: Job, k: Worker, v: Value)
    requires Holds(s, id, j, k) && k.inbox == [Returned(id, v)] && k.job == Some(id) && j.status.Running?
    ensures var t := Taken(s, 0, Moment()).0;
            id in t.jobs && t.jobs[id].status.Succeeded? && t.jobs[id].result == Some(v)
    ensures Taken(s, 0, Moment()).1
  {
    hide Ended, Received;
    var r := Received(s, 0);
    ReceivedOnly(s, k);
    assert Taken(s, 0, Moment()) == (Ended(r, 0, id, Some(v), Moment()), true);
    EndsWell(r, id, v);
  }

  lemma ReceivedOnly(s: Store, k: Worker)
    requires s.workers == map[0 := k] && k.inbox != []
    ensures Received(s, 0) == s.(workers := map[0 := k.(inbox := k.inbox[1..])])
  {
  }

  lemma EndsWell(s: Store, id: JobId, v: Value)
    requires 0 in s.workers && s.workers[0].job == Some(id) && id in s.jobs && forall i | i in s.order :: i in s.jobs
    ensures var t := Ended(s, 0, id, Some(v), Moment());
            id in t.jobs && t.jobs[id].status.Succeeded? && t.jobs[id].result == Some(v)
  {
    hide Retire, Write, Observe, Bump;
    var t := Concluded(s, 0, id, Some(v), Moment());
    assert t.workers[0].job.None?;
    RetireIdle(t);
  }

  lemma RetireIdle(s: Store)
    requires 0 in s.workers && s.workers[0].job.None? && forall i | i in s.order :: i in s.jobs
    ensures forall id | id in s.jobs && s.jobs[id].status.Terminal() ::
              Retire(s, 0, true, false, Moment()).jobs[id] == s.jobs[id]
  {
  }

  lemma ReadsOn(x: Sys, cfg: Config, id: JobId, st: Stage, j: Job, k: Worker) returns (y: Sys)
    requires At(x, cfg, id, st) && st.pc == Reading(0, false, []) && st.k.inbox != []
    requires var (t, ended) := Taken(x.store, 0, Moment()); !ended && Holds(t, id, j, k) && Alike(x.store, t)
    ensures Step(x, ReadOne, Moment(), y) && At(y, cfg, id, st.(j := j, k := k))
  {
    hide ChildStep, OutsideStep, ThreadStep, Taken;
    y := x.(store := Taken(x.store, 0, Moment()).0);
    assert ReadStep(x, ReadOne, Moment(), y);
  }

  lemma ReadsLast(x: Sys, cfg: Config, id: JobId, st: Stage) returns (y: Sys)
    requires At(x, cfg, id, st) && st.pc == Reading(0, false, []) && st.k.inbox != []
    requires Taken(x.store, 0, Moment()).1
    ensures Step(x, ReadOne, Moment(), y) && y.store == Taken(x.store, 0, Moment()).0
  {
    hide ChildStep, OutsideStep, ThreadStep, Taken;
    y := x.(store := Taken(x.store, 0, Moment()).0, pc := Read(0, false, []));
    assert ReadStep(x, ReadOne, Moment(), y);
  }

  lemma ReadsOut(x: Sys, cfg: Config, id: JobId, st: Stage) returns (y: Sys)
    requires At(x, cfg, id, st) && st.pc == Reading(0, false, []) && st.k.inbox == [] && !st.phase.Done?
    ensures Step(x, ReadNone, Moment(), y) && At(y, cfg, id, st.(pc := Read(0, false, [])))
  {
    hide ChildStep, OutsideStep, ThreadStep, Retire;
    y := x.(pc := Read(0, false, []));
    assert ReadStep(x, ReadNone, Moment(), y);
  }

  lemma Judges(x: Sys, cfg: Config, id: JobId, st: Stage) returns (y: Sys)
    requires At(x, cfg, id, st) && st.pc == Read(0, false, []) && st.k.ready
    ensures Step(x, Judge, Moment(), y) && At(y, cfg, id, st.(pc := Polling([])))
  {
    hide ChildStep, OutsideStep, ThreadStep, Retire;
    y := x.(pc := Polling([]));
    assert ReadStep(x, Judge, Moment(), y);
  }

  // ---------------------------------------------------------------- the dispatch

  /** The record of the child once the job is attached to it. */
  function Given(k: Worker, id: JobId): Worker {
    k.(job := Some(id), served := k.served + 1, sending := true)
  }

  lemma Dispatches(s: Store, id: JobId, j: Job, k: Worker)
    requires Holds(s, id, j, k) && j.status.Queued? && j.deadline > 0.0 && !s.draining && k.ready && k.job.None?
    ensures Linked(s)
    ensures var (t, sends) := Tick(s, Moment());
            Holds(t, id, j, Given(k, id)) && Alike(s, t) && sends == [Send(0, Work(id, j.task, j.input))]
  {
    hide Dispatch;
    hide Scan, Queues, Stocked;
    ScansOne(s, id, j, k);
    QueuesReady(s, [id]);
    QueuesOne(s, id, j);
    GivesOne(s, id, j, k);
  }

  lemma ScansOne(s: Store, id: JobId, j: Job, k: Worker)
    requires Holds(s, id, j, k) && j.status.Queued? && j.deadline > 0.0 && !s.draining && k.job.None?
    ensures Linked(s) && Scan(s, s.order, Moment()) == (s, [id])
  {
    hide Abort;
    assert Visit(s, id, Moment()) == (s, true);
    assert s.order[1..] == [] && [id] + [] == [id];
  }

  lemma QueuesOne(s: Store, id: JobId, j: Job)
    requires s.jobs == map[id := j]
    ensures Queues(s, [id]) == [Queue(j.owner, [id])]
  {
    assert [id][..0] == [];
    assert Queues(s, [id][..0]) == [];
  }

  lemma GivesOne(s: Store, id: JobId, j: Job, k: Worker)
    requires Holds(s, id, j, k) && k.ready && k.job.None?
    ensures Stocked(s, [Queue(j.owner, [id])])
    ensures var (t, sends) := Dispatch(s, [Queue(j.owner, [id])]);
            Holds(t, id, j, Given(k, id)) && Alike(s, t) && sends == [Send(0, Work(id, j.task, j.input))]
  {
    var queues := [Queue(j.owner, [id])];
    assert FirstFree(s, s.pool) == Some(0);
    assert Least(s, queues) == 0;
    PopWaiters(queues, 0);
    assert Pop(queues, 0) == [];
  }

  lemma EndsTick(x: Sys, cfg: Config, id: JobId, st: Stage) returns (y: Sys)
    requires At(x, cfg, id, st) && st.pc == Polling([]) && st.j.status.Queued? && st.j.deadline > 0.0
    requires st.k.ready && st.k.job.None?
    ensures Step(x, EndTick, Moment(), y)
    ensures At(y, cfg, id, st.(k := Given(st.k, id), pc := Sending([Send(0, Work(id, st.j.task, st.j.input))])))
  {
    hide ChildStep, OutsideStep, ThreadStep, Tick;
    Dispatches(x.store, id, st.j, st.k);
    y := x.(store := Tick(x.store, Moment()).0, pc := Sending(Tick(x.store, Moment()).1));
    assert ReadStep(x, EndTick, Moment(), y);
  }

  lemma Puts(x: Sys, cfg: Config, id: JobId, st: Stage, work: Work) returns (y: Sys)
    requires At(x, cfg, id, st) && st.pc == Sending([Send(0, work)]) && st.k.outbox == []
    ensures Step(x, Put(true), Moment(), y)
    ensures At(y, cfg, id, st.(k := st.k.(outbox := [Command.Run(work)]), pc := Confirming(0, false, [])))
  {
    hide ChildStep, ReadStep, ThreadStep;
    assert st.pc.sends[1..] == [];
    assert st.k.outbox + [Command.Run(work)] == [Command.Run(work)];
    y := x.(store := x.store.(workers := x.store.workers[0 := st.k.(outbox := [Command.Run(work)])]), pc := Confirming(0, false, []));
    assert OutsideStep(x, Put(true), Moment(), y);
  }

  lemma Confirms(x: Sys, cfg: Config, id: JobId, st: Stage) returns (y: Sys)
    requires At(x, cfg, id, st) && st.pc == Confirming(0, false, [])
    ensures Step(x, Confirm, Moment(), y) && At(y, cfg, id, st.(k := st.k.(sending := false), pc := Sending([])))
  {
    hide ChildStep, ReadStep, ThreadStep, Retire;
    y := x.(store := Sent(x.store, 0, false, Moment()), pc := Sending([]));
    assert OutsideStep(x, Confirm, Moment(), y);
  }

  // ---------------------------------------------------------------- the whole of it

  /** Until the job is on the child's pipe. */
  lemma Sends(cfg: Config, req: Request, id: JobId) returns (states: seq<Sys>, events: seq<Event>, x: Sys, st: Stage)
    requires cfg.Legal() && req.owner in cfg.owners && 100 <= req.timeoutMs <= 300000
    ensures Reached(states, events, req, id, x) && At(x, cfg, id, st) && st.pc == Sending([]) && st.phase.Waiting?
    ensures st.j == NewJob(req, 0.0) && st.k.job == Some(id) && st.k.ready && st.k.inbox == []
    ensures st.k.outbox == [Command.Run(Work(id, req.task, Some(req.payload)))]
  {
    hide Reached, Step, At, Taken;
    states, events, x := Begins(cfg, req, id);
    var j, work := NewJob(req, 0.0), Work(id, req.task, Some(req.payload));
    st := Stage(j, NewWorker(0.0), Starting, Refilling);
    var y := Announces(x, cfg, id, st);
    assert [] + [Ready] == [Ready];
    states, events := Next(states, events, req, id, x, Announce(0, false), y);
    st := st.(k := st.k.(inbox := [Ready]), phase := Waiting);
    states, events, x := Rests(states, events, req, cfg, id, y, st);
    states, events, x := Turns(states, events, req, cfg, id, x, st.(pc := Resting));
    st := st.(pc := Reading(0, false, []));
    HoldsAt(x, cfg, id, st);
    HearsReady(x.store, id, j, st.k);
    y := ReadsOn(x, cfg, id, st, j, st.k.(inbox := [], ready := true));
    states, events := Next(states, events, req, id, x, ReadOne, y);
    st := st.(k := st.k.(inbox := [], ready := true));
    x := ReadsOut(y, cfg, id, st);
    states, events := Next(states, events, req, id, y, ReadNone, x);
    y := Judges(x, cfg, id, st.(pc := Read(0, false, [])));
    states, events := Next(states, events, req, id, x, Judge, y);
    x := EndsTick(y, cfg, id, st.(pc := Polling([])));
    states, events := Next(states, events, req, id, y, EndTick, x);
    st := st.(k := Given(st.k, id), pc := Sending([Send(0, work)]));
    y := Puts(x, cfg, id, st, work);
    states, events := Next(states, events, req, id, x, Put(true), y);
    st := st.(k := st.k.(outbox := [Command.Run(work)]), pc := Confirming(0, false, []));
    x := Confirms(y, cfg, id, st);
    states, events := Next(states, events, req, id, y, Confirm, x);
    st := st.(k := st.k.(sending := false), pc := Sending([]));
  }

  lemma HoldsAt(x: Sys, cfg: Config, id: JobId, st: Stage)
    requires At(x, cfg, id, st)
    ensures Holds(x.store, id, st.j, st.k)
  {
  }

  /** Whatever is asked for within the limits and whatever value its child computes, there is a run in which the request is
      accepted, and its job succeeds with that value. */
  lemma Serves(cfg: Config, req: Request, id: JobId, v: Value) returns (states: seq<Sys>, events: seq<Event>)
    requires cfg.Legal() && req.owner in cfg.owners && 100 <= req.timeoutMs <= 300000
    ensures Safety.Run(states, events) && |states| == |events| + 1 && events != [] && events[0].action == DoSubmit(req, id, None)
    ensures id in states[1].store.jobs
    ensures var s := states[|events|].store;
            id in s.jobs && s.jobs[id].status.Succeeded? && s.jobs[id].result == Some(v)
  {
    hide Step, At, Taken, Safety.Run;
    var x, st;
    states, events, x, st := Sends(cfg, req, id);
    var work := Work(id, req.task, Some(req.payload));
    var y := Receives(x, cfg, id, st, work);
    states, events := Next(states, events, req, id, x, Receive(0), y);
    st := st.(k := st.k.(outbox := []), phase := Got(work));
    x := Executes(y, cfg, id, st);
    assert [] + [Started(id)] == [Started(id)] && [Started(id)] + [Returned(id, v)] == [Started(id), Returned(id, v)];
    states, events := Next(states, events, req, id, y, Begin(0), x);
    st := st.(k := st.k.(inbox := [Started(id)]), phase := Executing(work));
    y := Replies(x, cfg, id, st, v);
    states, events := Next(states, events, req, id, x, Reply(0, v), y);
    st := st.(k := st.k.(inbox := [Started(id), Returned(id, v)]), phase := Waiting);
    states, events, x := Rests(states, events, req, cfg, id, y, st);
    states, events, x := Turns(states, events, req, cfg, id, x, st.(pc := Resting));
    st := st.(pc := Reading(0, false, []));
    HoldsAt(x, cfg, id, st);
    HearsStarted(x.store, id, st.j, st.k, v);
    var j, k := st.j.(status := Running, startedAt := Some(0.0)), st.k.(inbox := [Returned(id, v)]);
    y := ReadsOn(x, cfg, id, st, j, k);
    states, events := Next(states, events, req, id, x, ReadOne, y);
    HoldsAt(y, cfg, id, st.(j := j, k := k));
    HearsValue(y.store, id, j, k, v);
    x := ReadsLast(y, cfg, id, st.(j := j, k := k));
    states, events := Next(states, events, req, id, y, ReadOne, x);
  }
}
