/** Every call of the store by another thread keeps the service's invariant, and so does every step. */
module ThreadSteps {
  import opened Wrappers
  import opened JobTypes
  import opened StoreModel
  import opened StoreInvariant
  import opened StoreSteps
  import opened Dispatching
  import opened Protocol
  import opened ProtocolInvariant
  import opened ChildSteps
  import opened ParentSteps
  import opened PostSteps
  import opened SendSteps
  import opened Service
  import opened ServiceSteps
  import opened CoordinatorSteps

  // ---------------------------------------------------------------- submissions

  /** Nothing of a run is about an id not yet drawn. */
  lemma UnusedUnclaimed(n: Net, id: JobId)
    requires Lines(n) && Once(n) && id !in n.s.past.issued
    ensures forall w :: !Claim(n, w, id)
    ensures forall i | 0 <= i < |n.starts| :: n.starts[i].work.id != id
  {
    hide LineOf;
  }

  lemma AdmittedLines(n: Net, t: Store, id: JobId)
    requires Lines(n) && Posts(n) && id !in n.s.past.issued && t.workers == n.s.workers
    requires id in t.past.issued && t.past.issued == n.s.past.issued[id := t.past.issued[id]]
    ensures Lines(n.(s := t)) && Posts(n.(s := t))
  {
    hide Line;
    forall w ensures LineOf(n.(s := t), w) == LineOf(n, w) {
    }
  }

  lemma AdmittedClaims(n: Net, t: Store, id: JobId)
    requires Claims(n) && (forall w :: !Claim(n, w, id)) && t.workers == n.s.workers && t.active == n.s.active
    requires id in t.jobs && t.jobs == n.s.jobs[id := t.jobs[id]]
    ensures Claims(n.(s := t))
  {
    hide Line;
    forall w ensures LineOf(n.(s := t), w) == LineOf(n, w) {
    }
    forall w, i ensures Claim(n.(s := t), w, i) == Claim(n, w, i) {
    }
  }

  lemma AdmittedMail(n: Net, t: Store, id: JobId)
    requires Once(n) && Computing(n) && Mail(n) && Unread(n) && Answered(n) && id !in n.s.past.issued
    requires t.workers == n.s.workers && t.active == n.s.active && id !in t.active
    requires id in t.jobs && t.jobs == n.s.jobs[id := t.jobs[id]] && t.jobs[id].status.Queued?
    requires id in t.past.issued && t.past.issued == n.s.past.issued[id := t.past.issued[id]]
    requires t.past.restored == n.s.past.restored
    ensures var m := n.(s := t); Once(m) && Computing(m) && Mail(m) && Unread(m) && Answered(m)
  {
  }

  lemma AdmittedCore(n: Net, req: Request, id: JobId, env: Env)
    requires Good(n) && Unused(n.s, id)
    ensures Core(n.(s := Admit(n.s, req, id, env)))
  {
    hide Valid, Lines, Posts, Claims, Once, Computing, Mail, Unread, Answered, Claim;
    var t := Admit(n.s, req, id, env);
    UnusedUnclaimed(n, id);
    AdmittedLines(n, t, id);
    AdmittedClaims(n, t, id);
    FreshActive(n.s, id);
    AdmittedMail(n, t, id);
  }

  lemma FreshActive(s: Store, id: JobId)
    requires Valid(s, {}, {}) && id !in s.jobs
    ensures id !in s.active
  {
    if id in s.active {
      ActiveJob(s, id);
    }
  }

  lemma AdmittedPcs(x: Sys, t: Store, id: JobId)
    requires Pcs(x) && !x.store.draining && t.draining == x.store.draining && t.cfg == x.store.cfg
    requires t.workers == x.store.workers && t.pool == x.store.pool
    requires t.jobs.Keys == x.store.jobs.Keys + {id}
    requires t.past.issued.Keys == x.store.past.issued.Keys + {id} && t.past.restored == x.store.past.restored
    ensures Pcs(x.(store := t))
  {
    hide Line;
    var m := NetOf(x).(s := t);
    forall w ensures LineOf(m, w) == LineOf(NetOf(x), w) {
    }
    forall w, i ensures Claim(m, w, i) == Claim(NetOf(x), w, i) {
    }
  }

  lemma AdmittedInv(x: Sys, req: Request, id: JobId, env: Env)
    requires Inv(x) && Unused(x.store, id) && !x.store.draining && Valid(Admit(x.store, req, id, env), {}, {})
    ensures Inv(x.(store := Admit(x.store, req, id, env)))
  {
    hide Valid, Core, Pcs;
    AdmittedCore(NetOf(x), req, id, env);
    AdmittedPcs(x, Admit(x.store, req, id, env), id);
  }

  lemma AcceptInv(x: Sys, req: Request, id: JobId, pace: Option<Seconds>, env: Env)
    requires Inv(x) && Unused(x.store, id) && req.owner in x.store.cfg.owners && x.store.cfg.concurrency > 0
    ensures Inv(x.(store := Accept(x.store, req, id, pace, env).0))
  {
    hide Valid, Core, Pcs, Calm, Expire, Admit, Limit, Unused;
    AcceptKeeps(x.store, req, id, pace, env);
    QuietExpire(x, env);
    ExpireFrame(x.store, id, env);
    var z := x.(store := Expire(x.store, env));
    var (t, answer) := Accept(x.store, req, id, pace, env);
    if answer.Accepted? {
      AdmittedInv(z, req, id, env);
    } else {
      assert t == x.store || t == z.store;
    }
  }

  lemma CountedInv(x: Sys, t: Store)
    requires Inv(x) && Valid(t, {}, {}) && t == x.store.(stats := t.stats)
    ensures Inv(x.(store := t))
  {
    hide Valid, Core, Pcs, Calm;
    CalmSame(x.store, t);
    QuietInv(x, t);
  }

  lemma SubmitInv(x: Sys, req: Request, id: JobId, pace: Option<Seconds>, env: Env, y: Sys)
    requires Inv(x) && ThreadStep(x, DoSubmit(req, id, pace), env, y)
    ensures Inv(y)
  {
    hide Valid, Core, Pcs, Calm, Accept, Unused;
    SubmitKeeps(x.store, req, id, pace, env);
    if req.owner in x.store.cfg.owners && 100 <= req.timeoutMs <= 300000 {
      AcceptInv(x, req, id, pace, env);
      CountedInv(x.(store := Accept(x.store, req, id, pace, env).0), y.store);
    } else {
      CountedInv(x, y.store);
    }
  }

  // ---------------------------------------------------------------- the other calls

  lemma CancelInv(x: Sys, id: JobId, owner: Owner, env: Env, y: Sys)
    requires Inv(x) && ThreadStep(x, DoCancel(id, owner), env, y)
    ensures Inv(y)
  {
    hide Valid, Core, Pcs, Calm, Cancel;
    CancelKeeps(x.store, id, owner, env);
    QuietInv(x, y.store);
  }

  lemma FlaggedLines(n: Net, t: Store)
    requires t == n.s.(draining := t.draining, stopping := t.stopping)
    ensures forall w :: LineOf(n.(s := t), w) == LineOf(n, w)
  {
    hide Line;
  }

  /** Draining and stopping are flags nothing else of the invariant speaks of. */
  lemma FlaggedCore(n: Net, t: Store)
    requires Core(n) && t == n.s.(draining := t.draining, stopping := t.stopping)
    ensures Core(n.(s := t))
  {
    hide LineOf, Began;
    FlaggedLines(n, t);
    forall w, i ensures Claim(n.(s := t), w, i) == Claim(n, w, i) {
    }
  }

  lemma FlaggedValid(s: Store, t: Store)
    requires Valid(s, {}, {}) && t == s.(draining := t.draining, stopping := t.stopping) && (s.stopping ==> t.stopping)
    ensures Valid(t, {}, {})
  {
  }

  lemma FlaggedPcs(x: Sys, y: Sys)
    requires Pcs(x) && y == x.(store := y.store, call := y.call) && !(Holding(x.pc) && !y.call.NoCall?)
    requires y.store == x.store.(draining := y.store.draining, stopping := y.store.stopping)
    requires (x.store.draining ==> y.store.draining) && (!y.call.NoCall? ==> y.store.draining)
    requires (y.call == x.call && y.store.draining == x.store.draining) || !y.call.NoCall?
    requires forall w | w in Mentioned(y.pc, y.call) :: w in x.store.workers
    ensures Pcs(y)
  {
    hide Line;
    forall w ensures LineOf(NetOf(y), w) == LineOf(NetOf(x), w) {
    }
    forall w, i ensures Claim(NetOf(y), w, i) == Claim(NetOf(x), w, i) {
    }
  }

  lemma FlaggedInv(x: Sys, y: Sys)
    requires Inv(x) && y == x.(store := y.store, call := y.call) && !(Holding(x.pc) && !y.call.NoCall?)
    requires y.store == x.store.(draining := y.store.draining, stopping := y.store.stopping)
    requires (x.store.draining ==> y.store.draining) && (!y.call.NoCall? ==> y.store.draining)
    requires x.store.stopping ==> y.store.stopping
    requires (y.call == x.call && y.store.draining == x.store.draining) || !y.call.NoCall?
    requires forall w | w in Mentioned(y.pc, y.call) :: w in x.store.workers
    ensures Inv(y)
  {
    hide Valid, Core, Pcs;
    FlaggedValid(x.store, y.store);
    FlaggedCore(NetOf(x), y.store);
    FlaggedPcs(x, y);
  }

  lemma BeginDrainInv(x: Sys, env: Env, y: Sys)
    requires Inv(x) && ThreadStep(x, BeginDrain, env, y)
    ensures Inv(y)
  {
    hide Valid, Core, Claim, Origins, NoneQueued;
    InvCallable(x);
    FlaggedInv(x, y);
  }

  lemma StoppingInv(x: Sys, env: Env, y: Sys)
    requires Inv(x) && ThreadStep(x, Stopping, env, y)
    ensures Inv(y)
  {
    hide Valid, Core, Claim, Origins, NoneQueued;
    FlaggedInv(x, y);
  }

  lemma CallNextInv(x: Sys, env: Env, y: Sys)
    requires Inv(x) && ThreadStep(x, CallNext, env, y)
    ensures Inv(y)
  {
    hide Valid, Core, Claim, Origins, NoneQueued;
    MovedInv(x, y);
  }

  lemma CallReadOneInv(x: Sys, env: Env, y: Sys)
    requires Inv(x) && ThreadStep(x, CallReadOne, env, y)
    ensures Inv(y)
  {
    hide Valid, Core, Taken, Claim, Origins, NoneQueued;
    TakenInv(x, x.call.w, env);
    MovedInv(x.(store := Taken(x.store, x.call.w, env).0), y);
  }

  lemma CallReadNoneInv(x: Sys, env: Env, y: Sys)
    requires Inv(x) && ThreadStep(x, CallReadNone, env, y)
    ensures Inv(y)
  {
    hide Valid, Core, Retire, Claim, Origins, NoneQueued;
    if Gone(x, x.call.w) {
      GoneInv(x, x.call.w, env);
      MovedInv(x.(store := Retire(x.store, x.call.w, false, true, env)), y);
    } else {
      MovedInv(x, y);
    }
  }

  /** The last part of drain leaves nothing queued. */
  lemma FailAllQueued(s: Store, env: Env)
    requires Linked(s) && (forall i | i in s.order :: i in s.jobs) && Valid(s, {}, {})
    ensures NoneQueued(AbortAll(s, s.order, true, Failed, Some(ServiceRestarted), env))
  {
    hide Valid, Abort, Calm;
    AbortAllEnds(s, s.order, true, Failed, Some(ServiceRestarted), env);
    OrderDistinct(s);
  }

  lemma EndDrainInv(x: Sys, env: Env, y: Sys)
    requires Inv(x) && ThreadStep(x, EndDrain, env, y)
    ensures Inv(y)
  {
    hide Valid, Core, Calm, AbortAll, Claim, Origins, NoneQueued;
    AbortAllKeeps(x.store, x.store.order, true, Failed, Some(ServiceRestarted), env);
    FailAllQueued(x.store, env);
    QuietInv(x, y.store);
    MovedInv(x.(store := y.store), y);
  }

  lemma CloseInv(x: Sys, env: Env, y: Sys)
    requires Inv(x) && ThreadStep(x, DoClose, env, y)
    ensures Inv(y)
  {
    hide Valid, Core, Pcs, Calm, Close;
    CloseKeeps(x.store, env);
    QuietInv(x, y.store);
  }

  // ---------------------------------------------------------------- any step

  lemma ThreadInv(x: Sys, a: Action, env: Env, y: Sys)
    requires Inv(x) && ThreadStep(x, a, env, y)
    ensures Inv(y)
  {
    hide Inv;
    if a.DoSubmit? {
      SubmitInv(x, a.req, a.id, a.pace, env, y);
    } else if a.DoGet? {
      QuietExpire(x, env);
    } else if a.DoCancel? {
      CancelInv(x, a.id, a.owner, env, y);
    } else if a.BeginDrain? {
      BeginDrainInv(x, env, y);
    } else if a.CallNext? {
      CallNextInv(x, env, y);
    } else if a.CallReadOne? {
      CallReadOneInv(x, env, y);
    } else if a.CallReadNone? {
      CallReadNoneInv(x, env, y);
    } else if a.EndDrain? {
      EndDrainInv(x, env, y);
    } else if a.Stopping? {
      StoppingInv(x, env, y);
    } else {
      CloseInv(x, env, y);
    }
  }

  lemma ReadInv(x: Sys, a: Action, env: Env, y: Sys)
    requires Inv(x) && ReadStep(x, a, env, y)
    ensures Inv(y)
  {
    hide Inv;
    if a.BeginTick? {
      BeginTickInv(x, env, y);
    } else if a.NextChild? {
      NextChildInv(x, env, y);
    } else if a.ReadOne? {
      ReadOneInv(x, env, y);
    } else if a.ReadNone? {
      ReadNoneInv(x, env, y);
    } else if a.Judge? {
      JudgeInv(x, env, y);
    } else {
      EndTickInv(x, env, y);
    }
  }

  lemma OutsideInv(x: Sys, a: Action, env: Env, y: Sys)
    requires Inv(x) && OutsideStep(x, a, env, y)
    ensures Inv(y)
  {
    hide Inv;
    if a.Put? {
      PutInv(x, a.delivered, env, y);
    } else if a.Confirm? {
      ConfirmInv(x, env, y);
    } else if a.Refill? {
      RefillInv(x, env, y);
    } else if a.Launched? {
      LaunchedInv(x, a.w, a.up, env, y);
    } else if a.Reap? {
      ReapInv(x, a.w, env, y);
    } else if a.Kill? {
      KillInv(x, a.w, env, y);
    } else {
      EndReapInv(x, env, y);
    }
  }

  /** No step of any thread or child, and no crash or failed send or write, breaks the invariant. */
  lemma StepInv(x: Sys, a: Action, env: Env, y: Sys)
    requires Inv(x) && Step(x, a, env, y)
    ensures Inv(y)
  {
    hide Inv, ChildStep, ReadStep, OutsideStep, ThreadStep;
    if ChildStep(x, a, y) {
      ChildInv(x, a, y);
    } else if ReadStep(x, a, env, y) {
      ReadInv(x, a, env, y);
    } else if OutsideStep(x, a, env, y) {
      OutsideInv(x, a, env, y);
    } else {
      ThreadInv(x, a, env, y);
    }
  }
}
