/** The whole service as a state machine: the store under its lock, the coordinator outside it, and the children. */
module Protocol {
  import opened Wrappers
  import opened JobTypes
  import opened StoreModel
  import opened StoreInvariant
  import opened Recovery

  /** Where a child is in its life: Announced has said it is ready and not yet that its models are loaded; at Done its end
      of the pipe is closed and it will never read or write again. */
  datatype Phase = Starting | Announced | Waiting | Got(work: Work) | Executing(work: Work) | Done

  datatype Child = Child(phase: Phase, alive: bool)

  /** Where the coordinator is; from Polling to Read it holds the lock. */
  datatype Pc =
    | Resting
    | Polling(todo: seq<WorkerId>)
    | Reading(w: WorkerId, again: bool, todo: seq<WorkerId>)
    | Read(w: WorkerId, again: bool, todo: seq<WorkerId>)
    | Sending(sends: seq<Send>)
    | Confirming(w: WorkerId, failed: bool, sends: seq<Send>)
    | Refilling
    | Launching
    | Reaping
    | Halted

  /** A call of drain in progress; it holds the lock. */
  datatype Call = NoCall | CallPolling(todo: seq<WorkerId>) | CallReading(w: WorkerId, todo: seq<WorkerId>)

  /** One execution begun by a child. */
  datatype Start = Start(worker: WorkerId, work: Work)

  /** What a child computed for a job. */
  datatype Outcome = Outcome(worker: WorkerId, value: Value)

  datatype Sys = Sys(
    store: Store, children: map<WorkerId, Child>, pc: Pc, call: Call, starts: seq<Start>, computed: map<JobId, Outcome>)

  datatype Action =
    // a child
    | Announce(w: WorkerId, loaded: bool)
    | Load(w: WorkerId)
    | Receive(w: WorkerId)
    | Begin(w: WorkerId)
    | Report(w: WorkerId, progress: Progress)
    | Reply(w: WorkerId, value: Value)
    | Fault(w: WorkerId)
    | Leave(w: WorkerId)
    | Die(w: WorkerId)
    // the coordinator
    | BeginTick
    | NextChild
    | ReadOne
    | ReadNone
    | Judge
    | EndTick
    | Put(delivered: bool)
    | Confirm
    | Refill
    | Launched(w: WorkerId, up: bool)
    | Reap(w: WorkerId)
    | Kill(w: WorkerId)
    | EndReap
    // other threads
    | DoSubmit(req: Request, id: JobId, pace: Option<Seconds>)
    | DoGet
    | DoCancel(id: JobId, owner: Owner)
    | BeginDrain
    | CallNext
    | CallReadOne
    | CallReadNone
    | EndDrain
    | Stopping
    | DoClose

  predicate Locked(x: Sys) {
    x.pc.Polling? || x.pc.Reading? || x.pc.Read? || !x.call.NoCall?
  }

  /** The end of a child's pipe, once everything in it has been read. */
  predicate Gone(x: Sys, w: WorkerId) {
    w in x.children && x.children[w].phase.Done?
  }

  function Posted(s: Store, w: WorkerId, ms: seq<Message>): Store
    requires w in s.workers
  {
    s.(workers := s.workers[w := s.workers[w].(inbox := s.workers[w].inbox + ms)])
  }

  function Enter(x: Sys, w: WorkerId, phase: Phase): Sys
    requires w in x.children
  {
    x.(children := x.children[w := x.children[w].(phase := phase)])
  }

  // ---------------------------------------------------------------- a child's steps

  /** A child's program, each write to its pipe one step; it may leave at any point, as a crash or a failed write
      makes it. */
  ghost predicate ChildStep(x: Sys, a: Action, y: Sys) {
    match a
    case Announce(w, loaded) =>
      && w in x.children && w in x.store.workers && x.children[w].phase.Starting?
      && y == Enter(x.(store := Posted(x.store, w, [Ready])), w, if loaded then Announced else Waiting)
    case Load(w) =>
      && w in x.children && w in x.store.workers && x.children[w].phase.Announced?
      && y == Enter(x.(store := Posted(x.store, w, [Loaded])), w, Waiting)
    case Receive(w) =>
      && w in x.children && w in x.store.workers && x.children[w].phase.Waiting?
      && x.store.workers[w].outbox != [] && x.store.workers[w].outbox[0].Run?
      && var k := x.store.workers[w];
         y == Enter(x.(store := x.store.(workers := x.store.workers[w := k.(outbox := k.outbox[1..])])),
                    w, Got(k.outbox[0].work))
    case Begin(w) =>
      && w in x.children && w in x.store.workers && x.children[w].phase.Got?
      && var work := x.children[w].phase.work;
         y == Enter(x.(store := Posted(x.store, w, [Started(work.id)]), starts := x.starts + [Start(w, work)]),
                    w, Executing(work))
    case Report(w, p) =>
      && w in x.children && w in x.store.workers && x.children[w].phase.Executing?
      && y == x.(store := Posted(x.store, w, [Progressed(x.children[w].phase.work.id, p)]))
    case Reply(w, v) =>
      && w in x.children && w in x.store.workers && x.children[w].phase.Executing?
      && var id := x.children[w].phase.work.id;
         y == Enter(x.(store := Posted(x.store, w, [Returned(id, v)]), computed := x.computed[id := Outcome(w, v)]),
                    w, Waiting)
    case Fault(w) =>
      && w in x.children && w in x.store.workers && x.children[w].phase.Executing?
      && y == Enter(x.(store := Posted(x.store, w, [Raised(x.children[w].phase.work.id)])), w, Waiting)
    case Leave(w) =>
      && w in x.children
      && y == Enter(x, w, Done)
    case Die(w) =>
      && w in x.children && x.children[w].phase.Done?
      && y == x.(children := x.children[w := Child(Done, false)])
    case _ => false
  }

  // ---------------------------------------------------------------- the coordinator's steps

  ghost predicate ReadStep(x: Sys, a: Action, env: Env, y: Sys) {
    var s := x.store;
    match a
    case BeginTick =>
      && x.pc.Resting? && !Locked(x)
      && y == x.(store := Expire(s, env), pc := Polling(s.pool))
    case NextChild =>
      && x.pc.Polling? && x.call.NoCall? && x.pc.todo != []
      && y == x.(pc := Reading(x.pc.todo[0], false, x.pc.todo[1..]))
    case ReadOne =>
      && x.pc.Reading? && x.call.NoCall? && x.pc.w in s.workers && s.workers[x.pc.w].inbox != []
      && (forall id | id in s.order :: id in s.jobs)
      && var (t, ended) := Taken(s, x.pc.w, env);
         y == x.(store := t, pc := if ended then Read(x.pc.w, x.pc.again, x.pc.todo) else x.pc)
    case ReadNone =>
      && x.pc.Reading? && x.call.NoCall? && x.pc.w in s.workers && s.workers[x.pc.w].inbox == []
      && (forall id | id in s.order :: id in s.jobs)
      && y == x.(store := if Gone(x, x.pc.w) then Retire(s, x.pc.w, false, true, env) else s,
                 pc := Read(x.pc.w, x.pc.again, x.pc.todo))
    case Judge =>
      && x.pc.Read? && x.call.NoCall? && x.pc.w in s.workers && x.pc.w in x.children
      && (forall id | id in s.order :: id in s.jobs)
      && var w := x.pc.w;
         if x.pc.again then
           y == x.(store := Retire(s, w, false, true, env), pc := Polling(x.pc.todo))
         else if s.workers[w].retiredAt.None? && !x.children[w].alive then
           y == x.(pc := Reading(w, true, x.pc.todo))
         else if !s.workers[w].ready && env.now - s.workers[w].startedAt >= READY then
           y == x.(store := Retire(s, w, false, false, env), pc := Polling(x.pc.todo))
         else
           y == x.(pc := Polling(x.pc.todo))
    case EndTick =>
      && x.pc == Polling([]) && x.call.NoCall? && Linked(s)
      && (forall id | id in s.order :: id in s.jobs)
      && y == x.(store := Tick(s, env).0, pc := Sending(Tick(s, env).1))
    case _ => false
  }

  ghost predicate OutsideStep(x: Sys, a: Action, env: Env, y: Sys) {
    var s := x.store;
    match a
    case Put(delivered) =>
      && x.pc.Sending? && x.pc.sends != [] && x.pc.sends[0].worker in s.workers
      && var send, rest := x.pc.sends[0], x.pc.sends[1..];
         var k := s.workers[send.worker];
         y == x.(store := if delivered
                          then s.(workers := s.workers[send.worker := k.(outbox := k.outbox + [Run(send.work)])]) else s,
                 pc := Confirming(send.worker, !delivered, rest))
    case Confirm =>
      && x.pc.Confirming? && !Locked(x) && x.pc.w in s.workers
      && (forall id | id in s.order :: id in s.jobs)
      && y == x.(store := Sent(s, x.pc.w, x.pc.failed, env), pc := Sending(x.pc.sends))
    case Refill =>
      && (x.pc == Sending([]) || x.pc.Refilling?) && !Locked(x)
      && y == x.(pc := if MayStart(s, env.now) then Launching else if s.stopping then Halted else Reaping)
    case Launched(w, up) =>
      && x.pc.Launching? && !Locked(x) && w !in s.workers && w !in x.children
      && (forall id | id in s.order :: id in s.jobs)
      && (if !up then y == x.(store := StartFailed(s, env), pc := if s.stopping then Halted else Reaping)
          else if s.stopping then y == x.(pc := Halted)
          else y == x.(store := Join(s, w, env.now), children := x.children[w := Child(Starting, true)], pc := Refilling))
    case Reap(w) =>
      && x.pc.Reaping? && !Locked(x) && w in s.retiring && w in x.children && !x.children[w].alive
      && y == x.(store := Forget(s, w))
    case Kill(w) =>
      && x.pc.Reaping? && w in s.retiring && w in s.workers && w in x.children && x.children[w].alive
      && s.workers[w].retiredAt.Some? && !s.workers[w].killed && env.now - s.workers[w].retiredAt.value >= GRACE
      && y == x.(store := s.(workers := s.workers[w := s.workers[w].(killed := true)]))
    case EndReap =>
      && x.pc.Reaping?
      && y == x.(pc := if s.stopping then Halted else Resting)
    case _ => false
  }

  // ---------------------------------------------------------------- the other threads' steps

  ghost predicate ThreadStep(x: Sys, a: Action, env: Env, y: Sys) {
    var s := x.store;
    match a
    case DoSubmit(req, id, pace) =>
      && !Locked(x) && Unused(s, id) && s.cfg.concurrency > 0
      && y == x.(store := Submit(s, req, id, pace, env).0)
    case DoGet =>
      && !Locked(x)
      && y == x.(store := Expire(s, env))
    case DoCancel(id, owner) =>
      && !Locked(x) && Linked(s) && (forall i | i in s.order :: i in s.jobs)
      && y == x.(store := Cancel(s, id, owner, env))
    case BeginDrain =>
      && !Locked(x)
      && y == x.(store := s.(draining := true), call := CallPolling(s.pool))
    case CallNext =>
      && x.call.CallPolling? && x.call.todo != []
      && y == x.(call := CallReading(x.call.todo[0], x.call.todo[1..]))
    case CallReadOne =>
      && x.call.CallReading? && x.call.w in s.workers && s.workers[x.call.w].inbox != []
      && (forall i | i in s.order :: i in s.jobs)
      && var (t, ended) := Taken(s, x.call.w, env);
         y == x.(store := t, call := if ended then CallPolling(x.call.todo) else x.call)
    case CallReadNone =>
      && x.call.CallReading? && x.call.w in s.workers && s.workers[x.call.w].inbox == []
      && (forall i | i in s.order :: i in s.jobs)
      && y == x.(store := if Gone(x, x.call.w) then Retire(s, x.call.w, false, true, env) else s,
                 call := CallPolling(x.call.todo))
    case EndDrain =>
      && x.call == CallPolling([]) && Linked(s) && (forall i | i in s.order :: i in s.jobs)
      && y == x.(store := AbortAll(s, s.order, true, Failed, Some(ServiceRestarted), env), call := NoCall)
    case Stopping =>
      && y == x.(store := s.(stopping := true))
    case DoClose =>
      && !Locked(x) && s.stopping && Linked(s)
      && (forall i | i in s.order :: i in s.jobs) && (forall w | w in s.pool :: w in s.workers)
      && y == x.(store := Close(s, env))
    case _ => false
  }

  ghost predicate Step(x: Sys, a: Action, env: Env, y: Sys) {
    || ChildStep(x, a, y)
    || ReadStep(x, a, env, y)
    || OutsideStep(x, a, env, y)
    || ThreadStep(x, a, env, y)
  }

  /** A service just started on a table that an earlier run left: there is no child yet. */
  ghost predicate Initial(x: Sys) {
    && (exists cfg: Config, table, order, env :: Opens(x.store, cfg, table, order, env))
    && x.children == map[] && x.pc == Refilling && x.call == NoCall && x.starts == [] && x.computed == map[]
  }

  /** A run: the states, with the action and surroundings that led from each to the next. */
  datatype Event = Event(action: Action, env: Env)

  ghost predicate Trace(states: seq<Sys>, events: seq<Event>) {
    && |states| == |events| + 1
    && forall i | 0 <= i < |events| :: Step(states[i], events[i].action, events[i].env, states[i + 1])
  }
}
