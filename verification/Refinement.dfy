/** The store's longer locked operations, a whole tick and a whole drain, are runs of the service's small steps. */
module Refinement {
  import opened Wrappers
  import opened JobTypes
  import opened StoreModel
  import opened StoreInvariant
  import opened StoreSteps
  import opened Dispatching
  import opened Passes
  import opened Protocol
  import opened ProtocolInvariant
  import opened ChildSteps
  import opened ParentSteps
  import opened Service
  import opened CoordinatorSteps
  import opened ThreadSteps

  /** Some n steps, all in the same surroundings, lead from x to y. */
  ghost predicate Reaches(x: Sys, y: Sys, env: Env, n: nat)
    decreases n
  {
    if n == 0 then x == y else exists a, z :: Step(x, a, env, z) && Reaches(z, y, env, n - 1)
  }

  lemma Once(x: Sys, a: Action, env: Env, y: Sys)
    requires Step(x, a, env, y)
    ensures Reaches(x, y, env, 1)
  {
    assert Reaches(y, y, env, 0);
  }

  lemma {:induction false} Joined(x: Sys, y: Sys, z: Sys, env: Env, n: nat, m: nat)
    requires Reaches(x, y, env, n) && Reaches(y, z, env, m)
    ensures Reaches(x, z, env, n + m)
    decreases n
  {
    hide Step;
    if n > 0 {
      var a, u :| Step(x, a, env, u) && Reaches(u, y, env, n - 1);
      Joined(u, y, z, env, n - 1, m);
    }
  }

  lemma {:induction false} ReachesInv(x: Sys, y: Sys, env: Env, n: nat)
    requires Inv(x) && Reaches(x, y, env, n)
    ensures Inv(y)
    decreases n
  {
    hide Inv, Step;
    if n > 0 {
      var a, z :| Step(x, a, env, z) && Reaches(z, y, env, n - 1);
      StepInv(x, a, env, z);
      ReachesInv(z, y, env, n - 1);
    }
  }

  // ---------------------------------------------------------------- a pass touches one child at a time

  lemma {:induction false} FailQueuedWorkers(s: Store, ids: seq<JobId>, env: Env)
    requires forall id | id in ids :: id in s.jobs
    ensures FailQueued(s, ids, env).workers == s.workers
    decreases |ids|
  {
    if ids != [] {
      var id := ids[0];
      FailQueuedWorkers(if s.jobs[id].status.Queued? && id !in s.active
                        then Finish(s, id, Failed, None, Some(WorkerStartFailed), env) else s, ids[1..], env);
    }
  }

  /** Only that child's record differs. */
  ghost predicate OnlyChild(s: Store, t: Store, w: WorkerId) {
    t.workers.Keys == s.workers.Keys && forall v | v in s.workers && v != w :: t.workers[v] == s.workers[v]
  }

  lemma RetireOnly(s: Store, w: WorkerId, stop: bool, died: bool, env: Env)
    requires w in s.workers && forall id | id in s.order :: id in s.jobs
    ensures OnlyChild(s, Retire(s, w, stop, died, env), w)
  {
    hide HoldBack, Discharge, Retired, SameDomain, Narrower, WithoutJob, Remove;
    if s.workers[w].retiredAt.None? {
      var t := Detach(s, w, stop, env);
      HoldBackOnly(t, s.workers[w].ready, died, env) by { DetachOrder(s, w, stop, env); }
      DischargeOnly(HoldBack(t, s.workers[w].ready, died, env), s.workers[w].job, env);
      DetachOrder(s, w, stop, env);
    }
  }

  lemma DetachOrder(s: Store, w: WorkerId, stop: bool, env: Env)
    requires w in s.workers
    ensures var t := Detach(s, w, stop, env); t.order == s.order && t.jobs == s.jobs && OnlyChild(s, t, w)
  {
  }

  lemma DischargeOnly(s: Store, job: Option<JobId>, env: Env)
    ensures Discharge(s, job, env).workers == s.workers
  {
  }

  lemma HoldBackOnly(s: Store, ready: bool, died: bool, env: Env)
    requires forall id | id in s.order :: id in s.jobs
    ensures HoldBack(s, ready, died, env).workers == s.workers
  {
    hide FailQueued, SameDomain, Narrower;
    FailQueuedWorkers(s.(backoffUntil := env.now + BACKOFF), s.order, env);
  }

  lemma EndedOnly(s: Store, w: WorkerId, id: JobId, value: Option<Value>, env: Env)
    requires w in s.workers && id in s.jobs && forall i | i in s.order :: i in s.jobs
    ensures OnlyChild(s, Ended(s, w, id, value, env), w)
  {
    hide Retire, Narrower;
    var u := Concluded(s, w, id, value, env);
    RetireOnly(u, w, true, false, env);
  }

  /** Delivering a message changes nothing of other children, and does not retire the child unless its job ended. */
  lemma DeliverOnly(s: Store, w: WorkerId, m: Message, env: Env)
    requires w in s.workers && forall i | i in s.order :: i in s.jobs
    ensures var (t, ended) := Deliver(s, w, m, env);
            OnlyChild(s, t, w) && (!ended ==> t.workers[w].retiredAt == s.workers[w].retiredAt)
  {
    hide Ended, SameDomain, Narrower;
    if (m.Returned? || m.Raised?) && Heard(s, w, m.id) {
      EndedOnly(s, w, m.id, if m.Returned? then Some(m.value) else None, env);
    }
  }

  lemma DeliverSame(s: Store, w: WorkerId, m: Message, env: Env)
    requires w in s.workers && forall i | i in s.order :: i in s.jobs
    ensures var t := Deliver(s, w, m, env).0;
            (forall i | i in t.order :: i in t.jobs) && w in t.workers && t.workers[w].inbox == s.workers[w].inbox
  {
    hide *;
    SameOf(s, Deliver(s, w, m, env).0, w);
  }

  lemma SameOf(s: Store, t: Store, w: WorkerId)
    requires w in s.workers && forall i | i in s.order :: i in s.jobs
    ensures SameDomain(s, t) ==>
              (forall i | i in t.order :: i in t.jobs) && w in t.workers && t.workers[w].inbox == s.workers[w].inbox
  {
  }

  lemma TakenOnly(s: Store, w: WorkerId, env: Env)
    requires w in s.workers && s.workers[w].inbox != [] && forall i | i in s.order :: i in s.jobs
    ensures var (t, ended) := Taken(s, w, env);
            && OnlyChild(s, t, w) && (forall i | i in t.order :: i in t.jobs)
            && |t.workers[w].inbox| < |s.workers[w].inbox|
            && (!ended ==> t.workers[w].retiredAt == s.workers[w].retiredAt)
  {
    hide Deliver, Narrower, SameDomain;
    DeliverOnly(Received(s, w), w, s.workers[w].inbox[0], env);
    DeliverSame(Received(s, w), w, s.workers[w].inbox[0], env);
  }

  lemma {:induction false} DrainOnly(s: Store, w: WorkerId, gone: bool, env: Env)
    requires w in s.workers && forall id | id in s.order :: id in s.jobs
    ensures OnlyChild(s, Drain(s, w, gone, env), w)
    decreases |s.workers[w].inbox|
  {
    hide Taken, Retire;
    if s.workers[w].retiredAt.None? {
      if s.workers[w].inbox == [] {
        RetireOnly(s, w, false, true, env);
      } else {
        TakenOnly(s, w, env);
        if !Taken(s, w, env).1 {
          DrainOnly(Taken(s, w, env).0, w, gone, env);
        }
      }
    }
  }

  lemma CarriedOnly(s: Store, w: WorkerId, traffic: Traffic)
    requires w in s.workers
    ensures OnlyChild(s, Carried(s, w, traffic), w)
  {
  }

  lemma OnlyThen(s: Store, t: Store, u: Store, w: WorkerId)
    requires OnlyChild(s, t, w) && OnlyChild(t, u, w)
    ensures OnlyChild(s, u, w)
  {
  }

  lemma DrainOneOnly(s: Store, w: WorkerId, sight: Sight, env: Env)
    requires Passes.Ready(s, w)
    ensures OnlyChild(s, DrainOne(s, w, sight, env), w)
  {
    hide Drain, Carried, OnlyChild;
    var t := Carried(s, w, sight.early);
    CarriedOnly(s, w, sight.early);
    DrainOnly(t, w, sight.ended, env);
    OnlyThen(s, t, Drain(t, w, sight.ended, env), w);
  }

  lemma VerdictOnly(s: Store, w: WorkerId, exited: bool, env: Env)
    requires Passes.Ready(s, w)
    ensures OnlyChild(s, Verdict(s, w, exited, env), w)
  {
    hide Drain, Retire, Narrower;
    DrainOnly(s, w, true, env);
    RetireOnly(Drain(s, w, true, env), w, false, true, env);
    RetireOnly(s, w, false, false, env);
  }

  lemma PollOnly(s: Store, w: WorkerId, sight: Sight, env: Env)
    requires Passes.Ready(s, w)
    ensures OnlyChild(s, Poll(s, w, sight, env), w)
  {
    hide DrainOne, Carried, Verdict, OnlyChild;
    var t := DrainOne(s, w, sight, env);
    DrainOneOnly(s, w, sight, env);
    var u := Carried(t, w, sight.late);
    CarriedOnly(t, w, sight.late);
    OnlyThen(s, t, u, w);
    VerdictOnly(u, w, sight.exited, env);
    OnlyThen(s, u, Verdict(u, w, sight.exited, env), w);
  }

  // ---------------------------------------------------------------- what the children do meanwhile

  predicate MoveOf(a: Action, w: WorkerId) {
    (a.Announce? || a.Load? || a.Receive? || a.Begin? || a.Report? || a.Reply? || a.Fault? || a.Leave? || a.Die?) && a.w == w
  }

  /** A child's move; one it cannot make is none. */
  ghost function Made(x: Sys, w: WorkerId, a: Action): Sys {
    if MoveOf(a, w) && exists y :: ChildStep(x, a, y) then var y :| ChildStep(x, a, y); y else x
  }

  ghost function Moved(x: Sys, w: WorkerId, moves: seq<Action>): Sys
    decreases |moves|
  {
    if moves == [] then x else Moved(Made(x, w, moves[0]), w, moves[1..])
  }

  /** What a child is about to do while the lock is held: before it is read, and after that. */
  datatype Plan = Plan(early: seq<Action>, late: seq<Action>)

  function PlanOf(plans: map<WorkerId, Plan>, w: WorkerId): Plan {
    if w in plans then plans[w] else Plan([], [])
  }

  function Between(k: Worker, l: Worker): Traffic {
    Traffic(if |k.inbox| <= |l.inbox| then l.inbox[|k.inbox|..] else [],
            if |l.outbox| <= |k.outbox| then |k.outbox| - |l.outbox| else 0)
  }

  /** A child used its pipe, and nothing else of its record changed. */
  predicate Used(k: Worker, l: Worker) {
    && k.inbox <= l.inbox && |l.outbox| <= |k.outbox| && Takes(k.outbox, |k.outbox| - |l.outbox|)
    && l == After(k, Between(k, l))
  }

  lemma UsedThen(k: Worker, l: Worker, m: Worker)
    requires Used(k, l) && Used(l, m)
    ensures Used(k, m)
  {
    var n := |k.outbox| - |l.outbox|;
    assert l.outbox == k.outbox[n..];
    forall i | 0 <= i < |k.outbox| - |m.outbox| ensures k.outbox[i].Run? {
      if i >= n {
        assert k.outbox[i] == l.outbox[i - n];
      }
    }
  }

  /** Only what the child itself touches differs. */
  ghost predicate Beside(x: Sys, y: Sys, w: WorkerId)
    requires w in x.store.workers
  {
    && w in y.store.workers
    && y.store == x.store.(workers := x.store.workers[w := y.store.workers[w]])
    && Used(x.store.workers[w], y.store.workers[w])
    && y == x.(store := y.store, children := y.children, starts := y.starts, computed := y.computed)
    && y.children.Keys == x.children.Keys
  }

  lemma BesideThen(x: Sys, y: Sys, z: Sys, w: WorkerId)
    requires w in x.store.workers && Beside(x, y, w) && Beside(y, z, w)
    ensures Beside(x, z, w)
  {
    hide Used;
    UsedThen(x.store.workers[w], y.store.workers[w], z.store.workers[w]);
  }

  lemma MoveBeside(x: Sys, w: WorkerId, a: Action, y: Sys)
    requires w in x.store.workers && MoveOf(a, w) && ChildStep(x, a, y)
    ensures Beside(x, y, w)
  {
    hide Used;
    assert x.store.workers[w := x.store.workers[w]] == x.store.workers;
    MoveUses(x, w, a, y);
  }

  lemma MoveUses(x: Sys, w: WorkerId, a: Action, y: Sys)
    requires w in x.store.workers && MoveOf(a, w) && ChildStep(x, a, y)
    ensures w in y.store.workers && Used(x.store.workers[w], y.store.workers[w])
  {
    hide Used;
    var k, l := x.store.workers[w], y.store.workers[w];
    if a.Receive? {
      TakingUses(k, l);
    } else {
      WritingUses(k, l);
    }
  }

  lemma WritingUses(k: Worker, l: Worker)
    requires k.inbox <= l.inbox && l == k.(inbox := l.inbox)
    ensures Used(k, l)
  {
  }

  lemma TakingUses(k: Worker, l: Worker)
    requires k.outbox != [] && k.outbox[0].Run? && l == k.(outbox := k.outbox[1..])
    ensures Used(k, l)
  {
    assert k.inbox + [] == k.inbox;
  }

  lemma StillBeside(x: Sys, w: WorkerId)
    requires w in x.store.workers
    ensures Beside(x, x, w)
  {
    assert x.store.workers[w := x.store.workers[w]] == x.store.workers;
  }

  lemma {:induction false} MovedBeside(x: Sys, w: WorkerId, moves: seq<Action>)
    requires w in x.store.workers
    ensures Beside(x, Moved(x, w, moves), w)
    decreases |moves|
  {
    hide Beside, ChildStep;
    StillBeside(x, w);
    if moves != [] {
      var y := Made(x, w, moves[0]);
      if y != x {
        MoveBeside(x, w, moves[0], y);
      }
      BesideKeeps(x, y, w);
      MovedBeside(y, w, moves[1..]);
      BesideThen(x, y, Moved(y, w, moves[1..]), w);
    }
  }

  /** What moves of a child leave as it was. */
  lemma BesideKeeps(x: Sys, y: Sys, w: WorkerId)
    requires w in x.store.workers && Beside(x, y, w)
    ensures y.store == Carried(x.store, w, Between(x.store.workers[w], y.store.workers[w]))
    ensures w in y.store.workers && y.store.workers.Keys == x.store.workers.Keys
    ensures y.store.workers[w].retiredAt == x.store.workers[w].retiredAt
    ensures y.store.order == x.store.order && y.store.jobs == x.store.jobs
    ensures y.pc == x.pc && y.call == x.call && y.children.Keys == x.children.Keys
  {
  }

  lemma {:induction false} MovedReaches(x: Sys, w: WorkerId, moves: seq<Action>, env: Env) returns (n: nat)
    ensures Reaches(x, Moved(x, w, moves), env, n)
    decreases |moves|
  {
    hide Reaches, ChildStep, ReadStep, OutsideStep, ThreadStep;
    Nowhere(x, env);
    n := 0;
    if moves != [] {
      var y := Made(x, w, moves[0]);
      n := MovedReaches(y, w, moves[1..], env);
      if y != x {
        Once(x, moves[0], env, y);
        Joined(x, y, Moved(x, w, moves), env, 1, n);
        n := 1 + n;
      }
    }
  }

  // ---------------------------------------------------------------- reading a child out

  lemma ReadCalls(x: Sys, w: WorkerId)
    requires Inv(x) && w in Mentioned(x.pc, x.call)
    ensures w in x.store.workers && w in x.children && Linked(x.store) && forall i | i in x.store.order :: i in x.store.jobs
  {
    hide Good;
    InvCallable(x);
  }

  /** The state in which the coordinator has read a child out. */
  function ReadOut(x: Sys, env: Env): Sys
    requires x.pc.Reading? && x.pc.w in x.store.workers && forall i | i in x.store.order :: i in x.store.jobs
  {
    x.(store := Drain(x.store, x.pc.w, Gone(x, x.pc.w), env), pc := Read(x.pc.w, x.pc.again, x.pc.todo))
  }

  lemma {:induction false} ReadSteps(x: Sys, env: Env) returns (n: nat)
    requires Inv(x) && x.pc.Reading? && x.call.NoCall?
    requires x.pc.w in x.store.workers && x.store.workers[x.pc.w].retiredAt.None?
    requires forall i | i in x.store.order :: i in x.store.jobs
    ensures Reaches(x, ReadOut(x, env), env, n)
    decreases |x.store.workers[x.pc.w].inbox|
  {
    hide Inv, Taken, Retire, Reaches;
    var s, w := x.store, x.pc.w;
    if s.workers[w].inbox == [] {
      Once(x, ReadNone, env, ReadOut(x, env));
      n := 1;
    } else {
      var (t, ended) := Taken(s, w, env);
      var y := x.(store := t, pc := if ended then Read(w, x.pc.again, x.pc.todo) else x.pc);
      Once(x, ReadOne, env, y);
      TakenOnly(s, w, env);
      if ended {
        n := 1;
      } else {
        StepInv(x, ReadOne, env, y);
        var m := ReadSteps(y, env);
        Joined(x, y, ReadOut(x, env), env, 1, m);
        n := m + 1;
      }
    }
  }

  // ---------------------------------------------------------------- one child in the tick

  predicate Next(x: Sys) {
    x.pc.Polling? && x.pc.todo != [] && Passes.Ready(x.store, x.pc.todo[0])
  }

  /** The child to be read next has made its moves. */
  ghost function EarlyIn(x: Sys, plan: Plan): (y: Sys)
    requires Next(x)
    ensures Next(y) && y.pc == x.pc && y.call == x.call
  {
    var w := x.pc.todo[0];
    MovedBeside(x, w, plan.early);
    BesideKeeps(x, Moved(x, w, plan.early), w);
    Moved(x, w, plan.early)
  }

  /** It has been read out. */
  ghost function ReadIn(x: Sys, plan: Plan, env: Env): (y: Sys)
    requires Next(x)
    ensures y.pc == Read(x.pc.todo[0], false, x.pc.todo[1..]) && y.call == x.call && Passes.Ready(y.store, x.pc.todo[0])
  {
    ReadOut(EarlyIn(x, plan).(pc := Reading(x.pc.todo[0], false, x.pc.todo[1..])), env)
  }

  /** And has moved on. */
  ghost function LateIn(x: Sys, plan: Plan, env: Env): (y: Sys)
    requires Next(x)
    ensures y.pc == Read(x.pc.todo[0], false, x.pc.todo[1..]) && y.call == x.call && Passes.Ready(y.store, x.pc.todo[0])
  {
    var w, b := x.pc.todo[0], ReadIn(x, plan, env);
    MovedBeside(b, w, plan.late);
    BesideKeeps(b, Moved(b, w, plan.late), w);
    Moved(b, w, plan.late)
  }

  predicate Exited(x: Sys, w: WorkerId) {
    w in x.children && !x.children[w].alive
  }

  ghost function Polled(x: Sys, plan: Plan, env: Env): Sys
    requires Next(x)
  {
    var w, c := x.pc.todo[0], LateIn(x, plan, env);
    c.(store := Verdict(c.store, w, Exited(c, w), env), pc := Polling(x.pc.todo[1..]))
  }

  /** What the parent comes to see of the child. */
  ghost function SightIn(x: Sys, plan: Plan, env: Env): Sight
    requires Next(x)
  {
    var w, a, b, c := x.pc.todo[0], EarlyIn(x, plan), ReadIn(x, plan, env), LateIn(x, plan, env);
    Sight(Between(x.store.workers[w], a.store.workers[w]), Gone(a, w),
          Between(b.store.workers[w], c.store.workers[w]), Exited(c, w))
  }

  lemma PolledIsPoll(x: Sys, plan: Plan, env: Env)
    requires Next(x)
    ensures var w := x.pc.todo[0];
            && Polled(x, plan, env).store == Poll(x.store, w, SightIn(x, plan, env), env)
            && Polled(x, plan, env).children.Keys == x.children.Keys && Polled(x, plan, env).call == x.call
  {
    hide Moved, Carried, Drain, Verdict, Between, Beside;
    var w, b := x.pc.todo[0], ReadIn(x, plan, env);
    MovedBeside(x, w, plan.early);
    BesideKeeps(x, Moved(x, w, plan.early), w);
    MovedBeside(b, w, plan.late);
    BesideKeeps(b, Moved(b, w, plan.late), w);
  }

  lemma {:induction false} PollSteps(x: Sys, plan: Plan, env: Env) returns (n: nat)
    requires Inv(x) && Next(x) && x.call.NoCall? && x.store.workers[x.pc.todo[0]].retiredAt.None?
    ensures Reaches(x, Polled(x, plan, env), env, n)
  {
    hide Inv, Drain, Retire, Reaches, Step, Verdict, Moved, EarlyIn, LateIn;
    var w, todo := x.pc.todo[0], x.pc.todo[1..];
    var c := LateIn(x, plan, env);
    var m := LateSteps(x, plan, env);
    ReachesInv(x, c, env, m);
    ReadCalls(c, w);
    if c.store.workers[w].retiredAt.None? && Exited(c, w) {
      var k := AgainSteps(c, env);
      DeadDone(c, w);
      AgainIsVerdict(x, plan, c, env);
      Joined(x, c, Polled(x, plan, env), env, m, k);
      n := m + k;
    } else {
      JudgeIsVerdict(c, env);
      Once(c, Judge, env, Polled(x, plan, env));
      Joined(x, c, Polled(x, plan, env), env, m, 1);
      n := m + 1;
    }
  }

  lemma AgainIsVerdict(x: Sys, plan: Plan, c: Sys, env: Env)
    requires Next(x) && c == LateIn(x, plan, env)
    requires var w := x.pc.todo[0]; c.store.workers[w].retiredAt.None? && Exited(c, w) && Gone(c, w)
    ensures var w := x.pc.todo[0];
            Polled(x, plan, env) ==
            c.(store := Retire(Drain(c.store, w, Gone(c, w), env), w, false, true, env), pc := Polling(x.pc.todo[1..]))
  {
    hide Drain, Retire, LateIn;
  }

  /** The moves and reads of one child, up to the judgement on it. */
  lemma LateSteps(x: Sys, plan: Plan, env: Env) returns (n: nat)
    requires Inv(x) && Next(x) && x.call.NoCall? && x.store.workers[x.pc.todo[0]].retiredAt.None?
    ensures Reaches(x, LateIn(x, plan, env), env, n)
  {
    hide Inv, Drain, Reaches, Step, Moved, Beside;
    var w, todo := x.pc.todo[0], x.pc.todo[1..];
    var a := EarlyIn(x, plan);
    MovedBeside(x, w, plan.early);
    BesideKeeps(x, a, w);
    var k := MovedReaches(x, w, plan.early, env);
    ReachesInv(x, a, env, k);
    var r := a.(pc := Reading(w, false, todo));
    NextStep(a, env);
    StepInv(a, NextChild, env, r);
    Once(a, NextChild, env, r);
    Joined(x, a, r, env, k, 1);
    var m := ReadSteps(r, env);
    var b := ReadIn(x, plan, env);
    Joined(x, r, b, env, k + 1, m);
    var l := MovedReaches(b, w, plan.late, env);
    Joined(x, b, LateIn(x, plan, env), env, k + 1 + m, l);
    n := k + 1 + m + l;
  }

  lemma NextStep(x: Sys, env: Env)
    requires x.pc.Polling? && x.call.NoCall? && x.pc.todo != []
    ensures Step(x, NextChild, env, x.(pc := Reading(x.pc.todo[0], false, x.pc.todo[1..])))
  {
  }

  /** Otherwise one judgement ends the poll. */
  lemma JudgeIsVerdict(c: Sys, env: Env)
    requires c.pc.Read? && !c.pc.again && c.call.NoCall? && Passes.Ready(c.store, c.pc.w) && c.pc.w in c.children
    requires !(c.store.workers[c.pc.w].retiredAt.None? && Exited(c, c.pc.w))
    ensures Step(c, Judge, env,
                 c.(store := Verdict(c.store, c.pc.w, Exited(c, c.pc.w), env), pc := Polling(c.pc.todo)))
  {
    hide Drain, Retire;
  }

  /** A child that has exited is read again, and retired. */
  lemma {:induction false} AgainSteps(b: Sys, env: Env) returns (n: nat)
    requires Inv(b) && b.pc.Read? && !b.pc.again && b.call.NoCall?
    requires b.pc.w in b.store.workers && b.pc.w in b.children && forall i | i in b.store.order :: i in b.store.jobs
    requires b.store.workers[b.pc.w].retiredAt.None? && !b.children[b.pc.w].alive
    ensures var t := Drain(b.store, b.pc.w, Gone(b, b.pc.w), env);
            Reaches(b, b.(store := Retire(t, b.pc.w, false, true, env), pc := Polling(b.pc.todo)), env, n)
  {
    hide Inv, Drain, Retire, Reaches;
    var w, todo := b.pc.w, b.pc.todo;
    var c := b.(pc := Reading(w, true, todo));
    Once(b, Judge, env, c);
    StepInv(b, Judge, env, c);
    var m := ReadSteps(c, env);
    var d := ReadOut(c, env);
    Joined(b, c, d, env, 1, m);
    var e := b.(store := Retire(d.store, w, false, true, env), pc := Polling(todo));
    Once(d, Judge, env, e);
    Joined(b, d, e, env, 1 + m, 1);
    n := m + 2;
  }

  // ---------------------------------------------------------------- the whole tick

  predicate Rest(x: Sys) {
    && x.pc.Polling? && (forall w | w in x.pc.todo :: w in x.store.workers)
    && forall i | i in x.store.order :: i in x.store.jobs
  }

  lemma RestPolled(x: Sys, plan: Plan, env: Env)
    requires Rest(x) && x.pc.todo != []
    ensures Next(x) && Rest(Polled(x, plan, env)) && Polled(x, plan, env).pc.todo == x.pc.todo[1..]
  {
    hide Poll, SightIn;
    PolledIsPoll(x, plan, env);
  }

  /** Every child on the coordinator's list has been polled, each having done what its plan says. */
  ghost function AllPolled(x: Sys, plans: map<WorkerId, Plan>, env: Env): Sys
    requires Rest(x)
    decreases |x.pc.todo|
  {
    if x.pc.todo == [] then x
    else
      RestPolled(x, PlanOf(plans, x.pc.todo[0]), env);
      AllPolled(Polled(x, PlanOf(plans, x.pc.todo[0]), env), plans, env)
  }

  ghost function SightsIn(x: Sys, plans: map<WorkerId, Plan>, env: Env): map<WorkerId, Sight>
    requires Rest(x)
    decreases |x.pc.todo|
  {
    if x.pc.todo == [] then map[]
    else
      var w := x.pc.todo[0];
      RestPolled(x, PlanOf(plans, w), env);
      SightsIn(Polled(x, PlanOf(plans, w), env), plans, env)[w := SightIn(x, PlanOf(plans, w), env)]
  }

  lemma {:induction false} OtherSights(s: Store, ws: seq<WorkerId>, sights: map<WorkerId, Sight>, w: WorkerId, sight: Sight,
                                       env: Env)
    requires (forall v | v in ws :: v in s.workers) && (forall i | i in s.order :: i in s.jobs) && w !in ws
    ensures PollAll(s, ws, sights[w := sight], env) == PollAll(s, ws, sights, env)
    decreases |ws|
  {
    hide Poll;
    if ws != [] {
      assert ws[0] in ws && forall v | v in ws[1..] :: v in ws;
      OtherSights(Poll(s, ws[0], SightOf(sights, ws[0]), env), ws[1..], sights, w, sight, env);
    }
  }

  lemma {:induction false} AllPolledIs(x: Sys, plans: map<WorkerId, Plan>, env: Env)
    requires Rest(x) && Distinct(x.pc.todo)
    ensures var y := AllPolled(x, plans, env);
            && y.store == PollAll(x.store, x.pc.todo, SightsIn(x, plans, env), env)
            && y.pc == Polling([]) && y.call == x.call
    decreases |x.pc.todo|
  {
    hide Poll, Polled, SightIn;
    if x.pc.todo != [] {
      var w := x.pc.todo[0];
      var plan := PlanOf(plans, w);
      var y := Polled(x, plan, env);
      RestPolled(x, plan, env);
      PolledIsPoll(x, plan, env);
      TailDistinct(x.pc.todo);
      AllPolledIs(y, plans, env);
      OtherSights(y.store, y.pc.todo, SightsIn(y, plans, env), w, SightIn(x, plan, env), env);
    }
  }

  lemma {:induction false} PollAllSteps(x: Sys, plans: map<WorkerId, Plan>, env: Env) returns (n: nat)
    requires Inv(x) && Rest(x) && x.call.NoCall? && Distinct(x.pc.todo)
    requires forall w | w in x.pc.todo :: x.store.workers[w].retiredAt.None?
    ensures Reaches(x, AllPolled(x, plans, env), env, n)
    decreases |x.pc.todo|
  {
    hide Inv, Poll, Polled, SightIn, Reaches;
    if x.pc.todo == [] {
      n := 0;
      Nowhere(x, env);
    } else {
      var w := x.pc.todo[0];
      var plan := PlanOf(plans, w);
      var y := Polled(x, plan, env);
      RestPolled(x, plan, env);
      var m := PollSteps(x, plan, env);
      ReachesInv(x, y, env, m);
      PolledIsPoll(x, plan, env);
      PollOnly(x.store, w, SightIn(x, plan, env), env);
      TailDistinct(x.pc.todo);
      var k := PollAllSteps(y, plans, env);
      Joined(x, y, AllPolled(x, plans, env), env, m, k);
      n := m + k;
    }
  }

  lemma Nowhere(x: Sys, env: Env)
    ensures Reaches(x, x, env, 0)
  {
  }

  lemma PoolServes(s: Store)
    requires Valid(s, {}, {})
    ensures Distinct(s.pool) && forall w | w in s.pool :: w in s.workers && s.workers[w].retiredAt.None?
  {
  }

  lemma BeginTickStep(x: Sys, env: Env)
    requires x.pc.Resting? && x.call.NoCall?
    ensures Step(x, BeginTick, env, x.(store := Expire(x.store, env), pc := Polling(x.store.pool)))
  {
    hide Expire;
  }

  lemma EndTickStep(x: Sys, env: Env)
    requires x.pc == Polling([]) && x.call.NoCall? && Linked(x.store) && forall i | i in x.store.order :: i in x.store.jobs
    ensures Step(x, EndTick, env, x.(store := Tick(x.store, env).0, pc := Sending(Tick(x.store, env).1)))
  {
    hide Tick;
  }

  /** The coordinator has taken the lock and listed the pool. */
  function Begun(x: Sys, env: Env): Sys {
    x.(store := Expire(x.store, env), pc := Polling(x.store.pool))
  }

  lemma BegunRests(x: Sys, env: Env)
    requires Inv(x) && Valid(x.store, {}, {})
    ensures Rest(Begun(x, env)) && Distinct(x.store.pool)
    ensures forall w | w in x.store.pool :: Begun(x, env).store.workers[w].retiredAt.None?
  {
    hide Inv, Valid, Expire;
    ExpireKeeps(x.store, env);
    PoolSame(x.store, env);
    PoolServes(Expire(x.store, env));
    Callable(Expire(x.store, env), {}, {});
  }

  /** A tick of the store is a run of small steps, whatever the children do while the lock is held, before the coordinator
      reads them and between its reads: a run in which they do it, to the store of the tick that sees it, with the same
      sends. */
  lemma TickIsARun(x: Sys, plans: map<WorkerId, Plan>, env: Env) returns (n: nat, y: Sys)
    requires Inv(x) && x.pc.Resting? && x.call.NoCall? && Valid(x.store, {}, {})
    ensures Rest(Begun(x, env)) && Reaches(x, y, env, n)
    ensures var (t, sends) := Ticked(x.store, SightsIn(Begun(x, env), plans, env), env);
            y == AllPolled(Begun(x, env), plans, env).(store := t, pc := Sending(sends))
  {
    hide Inv, Valid, Expire, PollAll, Tick, Reaches, Step, AllPolled, SightsIn, Rest;
    var e := Begun(x, env);
    BeginTickStep(x, env);
    Once(x, BeginTick, env, e);
    StepInv(x, BeginTick, env, e);
    BegunRests(x, env);
    PoolSame(x.store, env);
    var m := PollAllSteps(e, plans, env);
    var p := AllPolled(e, plans, env);
    AllPolledIs(e, plans, env);
    Joined(x, e, p, env, 1, m);
    TickCalls(x.store, SightsIn(e, plans, env), env);
    y := p.(store := Tick(p.store, env).0, pc := Sending(Tick(p.store, env).1));
    EndTickStep(p, env);
    Once(p, EndTick, env, y);
    Joined(x, p, y, env, 1 + m, 1);
    n := m + 2;
  }

  // ---------------------------------------------------------------- the whole drain

  /** The state in which a call of drain has read a child out. */
  function CallReadOut(x: Sys, env: Env): Sys
    requires x.call.CallReading? && x.call.w in x.store.workers && forall i | i in x.store.order :: i in x.store.jobs
  {
    x.(store := Drain(x.store, x.call.w, Gone(x, x.call.w), env), call := CallPolling(x.call.todo))
  }

  lemma CallNoneStep(x: Sys, env: Env)
    requires x.call.CallReading? && x.call.w in x.store.workers && x.store.workers[x.call.w].inbox == []
    requires x.store.workers[x.call.w].retiredAt.None? && forall i | i in x.store.order :: i in x.store.jobs
    ensures Step(x, CallReadNone, env, CallReadOut(x, env))
  {
    hide Retire, Taken;
  }

  lemma CallOneStep(x: Sys, env: Env)
    requires x.call.CallReading? && x.call.w in x.store.workers && x.store.workers[x.call.w].inbox != []
    requires forall i | i in x.store.order :: i in x.store.jobs
    ensures var (t, ended) := Taken(x.store, x.call.w, env);
            Step(x, CallReadOne, env, x.(store := t, call := if ended then CallPolling(x.call.todo) else x.call))
  {
    hide Taken;
  }

  lemma {:induction false} CallReadSteps(x: Sys, env: Env) returns (n: nat)
    requires Inv(x) && x.call.CallReading? && x.call.w in x.store.workers
    requires x.store.workers[x.call.w].retiredAt.None? && forall i | i in x.store.order :: i in x.store.jobs
    ensures Reaches(x, CallReadOut(x, env), env, n)
    decreases |x.store.workers[x.call.w].inbox|
  {
    hide Inv, Taken, Retire, Reaches, Step;
    var s, w := x.store, x.call.w;
    if s.workers[w].inbox == [] {
      CallNoneStep(x, env);
      Once(x, CallReadNone, env, CallReadOut(x, env));
      n := 1;
    } else {
      var (t, ended) := Taken(s, w, env);
      var y := x.(store := t, call := if ended then CallPolling(x.call.todo) else x.call);
      CallOneStep(x, env);
      Once(x, CallReadOne, env, y);
      TakenOnly(s, w, env);
      if ended {
        n := 1;
      } else {
        StepInv(x, CallReadOne, env, y);
        var m := CallReadSteps(y, env);
        Joined(x, y, CallReadOut(x, env), env, 1, m);
        n := m + 1;
      }
    }
  }

  predicate CallRest(x: Sys) {
    && x.call.CallPolling? && (forall w | w in x.call.todo :: w in x.store.workers)
    && forall i | i in x.store.order :: i in x.store.jobs
  }

  /** The next child on the list has made its moves and been read out. */
  ghost function DrainedOne(x: Sys, plan: Plan, env: Env): Sys
    requires CallRest(x) && x.call.todo != []
  {
    var w := x.call.todo[0];
    var a := Moved(x, w, plan.early);
    MovedBeside(x, w, plan.early);
    BesideKeeps(x, a, w);
    CallReadOut(a.(call := CallReading(w, x.call.todo[1..])), env)
  }

  ghost function EarlySight(x: Sys, plan: Plan): Sight
    requires CallRest(x) && x.call.todo != []
  {
    var w := x.call.todo[0];
    var a := Moved(x, w, plan.early);
    MovedBeside(x, w, plan.early);
    Sight(Between(x.store.workers[w], a.store.workers[w]), Gone(a, w), QUIET, false)
  }

  lemma DrainedOneIs(x: Sys, plan: Plan, env: Env)
    requires CallRest(x) && x.call.todo != []
    ensures var y := DrainedOne(x, plan, env);
            && y.store == DrainOne(x.store, x.call.todo[0], EarlySight(x, plan), env)
            && CallRest(y) && y.call.todo == x.call.todo[1..] && y.pc == x.pc
  {
    hide Moved, Carried, Drain, Between, Beside;
    var w := x.call.todo[0];
    MovedBeside(x, w, plan.early);
    BesideKeeps(x, Moved(x, w, plan.early), w);
  }

  ghost function AllDrained(x: Sys, plans: map<WorkerId, Plan>, env: Env): Sys
    requires CallRest(x)
    decreases |x.call.todo|
  {
    if x.call.todo == [] then x
    else
      DrainedOneIs(x, PlanOf(plans, x.call.todo[0]), env);
      AllDrained(DrainedOne(x, PlanOf(plans, x.call.todo[0]), env), plans, env)
  }

  ghost function EarlySights(x: Sys, plans: map<WorkerId, Plan>, env: Env): map<WorkerId, Sight>
    requires CallRest(x)
    decreases |x.call.todo|
  {
    if x.call.todo == [] then map[]
    else
      var w := x.call.todo[0];
      DrainedOneIs(x, PlanOf(plans, w), env);
      EarlySights(DrainedOne(x, PlanOf(plans, w), env), plans, env)[w := EarlySight(x, PlanOf(plans, w))]
  }

  lemma {:induction false} OtherEarly(s: Store, ws: seq<WorkerId>, sights: map<WorkerId, Sight>, w: WorkerId, sight: Sight,
                                      env: Env)
    requires (forall v | v in ws :: v in s.workers) && (forall i | i in s.order :: i in s.jobs) && w !in ws
    ensures DrainAll(s, ws, sights[w := sight], env) == DrainAll(s, ws, sights, env)
    decreases |ws|
  {
    hide DrainOne;
    if ws != [] {
      assert ws[0] in ws && forall v | v in ws[1..] :: v in ws;
      OtherEarly(DrainOne(s, ws[0], SightOf(sights, ws[0]), env), ws[1..], sights, w, sight, env);
    }
  }

  lemma {:induction false} AllDrainedIs(x: Sys, plans: map<WorkerId, Plan>, env: Env)
    requires CallRest(x) && Distinct(x.call.todo)
    ensures var y := AllDrained(x, plans, env);
            && y.store == DrainAll(x.store, x.call.todo, EarlySights(x, plans, env), env)
            && y.call == CallPolling([]) && y.pc == x.pc
    decreases |x.call.todo|
  {
    hide DrainOne, DrainedOne, EarlySight;
    if x.call.todo != [] {
      var w := x.call.todo[0];
      var plan := PlanOf(plans, w);
      var y := DrainedOne(x, plan, env);
      DrainedOneIs(x, plan, env);
      TailDistinct(x.call.todo);
      AllDrainedIs(y, plans, env);
      OtherEarly(y.store, y.call.todo, EarlySights(y, plans, env), w, EarlySight(x, plan), env);
    }
  }

  lemma DrainOneSteps(x: Sys, plan: Plan, env: Env) returns (n: nat)
    requires Inv(x) && CallRest(x) && x.call.todo != [] && x.store.workers[x.call.todo[0]].retiredAt.None?
    ensures Reaches(x, DrainedOne(x, plan, env), env, n)
  {
    hide Inv, Drain, Reaches, Step, Moved, Beside;
    var w := x.call.todo[0];
    var a := Moved(x, w, plan.early);
    MovedBeside(x, w, plan.early);
    BesideKeeps(x, a, w);
    var k := MovedReaches(x, w, plan.early, env);
    ReachesInv(x, a, env, k);
    var r := a.(call := CallReading(w, x.call.todo[1..]));
    CallNextStep(a, env);
    Once(a, CallNext, env, r);
    StepInv(a, CallNext, env, r);
    Joined(x, a, r, env, k, 1);
    var m := CallReadSteps(r, env);
    Joined(x, r, DrainedOne(x, plan, env), env, k + 1, m);
    n := k + 1 + m;
  }

  lemma CallNextStep(x: Sys, env: Env)
    requires x.call.CallPolling? && x.call.todo != []
    ensures Step(x, CallNext, env, x.(call := CallReading(x.call.todo[0], x.call.todo[1..])))
  {
  }

  lemma {:induction false} DrainAllSteps(x: Sys, plans: map<WorkerId, Plan>, env: Env) returns (n: nat)
    requires Inv(x) && CallRest(x) && Distinct(x.call.todo)
    requires forall w | w in x.call.todo :: x.store.workers[w].retiredAt.None?
    ensures Reaches(x, AllDrained(x, plans, env), env, n)
    decreases |x.call.todo|
  {
    hide Inv, DrainOne, DrainedOne, EarlySight, Reaches;
    if x.call.todo == [] {
      n := 0;
      Nowhere(x, env);
    } else {
      var w := x.call.todo[0];
      var plan := PlanOf(plans, w);
      var y := DrainedOne(x, plan, env);
      DrainedOneIs(x, plan, env);
      var m := DrainOneSteps(x, plan, env);
      ReachesInv(x, y, env, m);
      DrainOneOnly(x.store, w, EarlySight(x, plan), env);
      TailDistinct(x.call.todo);
      var k := DrainAllSteps(y, plans, env);
      Joined(x, y, AllDrained(x, plans, env), env, m, k);
      n := m + k;
    }
  }

  lemma BeginDrainStep(x: Sys, env: Env)
    requires !Locked(x)
    ensures Step(x, BeginDrain, env, x.(store := x.store.(draining := true), call := CallPolling(x.store.pool)))
  {
  }

  lemma EndDrainStep(x: Sys, env: Env)
    requires x.call == CallPolling([]) && Linked(x.store) && forall i | i in x.store.order :: i in x.store.jobs
    ensures Step(x, EndDrain, env,
                 x.(store := AbortAll(x.store, x.store.order, true, Failed, Some(ServiceRestarted), env), call := NoCall))
  {
    hide AbortAll;
  }

  /** A drain has taken the lock and listed the pool. */
  function Draining(x: Sys): Sys {
    x.(store := x.store.(draining := true), call := CallPolling(x.store.pool))
  }

  lemma DrainingRests(x: Sys)
    requires Valid(x.store, {}, {})
    ensures CallRest(Draining(x)) && Distinct(x.store.pool)
    ensures forall w | w in x.store.pool :: Draining(x).store.workers[w].retiredAt.None?
  {
    hide Valid;
    PoolServes(x.store);
    Callable(x.store, {}, {});
  }

  /** And so is a drain of the store, whatever each child does before it is read. */
  lemma DrainIsARun(x: Sys, plans: map<WorkerId, Plan>, env: Env) returns (n: nat, y: Sys)
    requires Inv(x) && !Locked(x) && Valid(x.store, {}, {})
    ensures CallRest(Draining(x)) && Reaches(x, y, env, n)
    ensures y == AllDrained(Draining(x), plans, env).(
                   store := DrainedStore(x.store, EarlySights(Draining(x), plans, env), env), call := NoCall)
  {
    hide Inv, Valid, DrainAll, AbortAll, Reaches, Narrower, SameDomain, Step, AllDrained, EarlySights, CallRest;
    var d := Draining(x);
    BeginDrainStep(x, env);
    Once(x, BeginDrain, env, d);
    StepInv(x, BeginDrain, env, d);
    DrainingRests(x);
    DrainCalls(x.store, EarlySights(d, plans, env), env);
    var m := DrainAllSteps(d, plans, env);
    var p := AllDrained(d, plans, env);
    AllDrainedIs(d, plans, env);
    Joined(x, d, p, env, 1, m);
    y := p.(store := DrainedStore(x.store, EarlySights(d, plans, env), env), call := NoCall);
    EndDrainStep(p, env);
    Once(p, EndDrain, env, y);
    Joined(x, p, y, env, 1 + m, 1);
    n := m + 2;
  }
}
