/** Every step of the coordinator, and of the threads that call the store, keeps the service's invariant. */
module CoordinatorSteps {
  import opened Wrappers
  import opened JobTypes
  import opened StoreModel
  import opened StoreInvariant
  import opened StoreSteps
  import opened Dispatching
  import opened Protocol
  import opened ProtocolInvariant
  import opened ChildSteps
  import opened ParentSteps
  import opened PostSteps
  import opened SendSteps
  import opened Service

  // ---------------------------------------------------------------- where a thread goes next

  /** Moving on keeps the invariant when what the new place promises holds. */
  lemma MovedInv(x: Sys, y: Sys)
    requires Inv(x) && y == x.(pc := y.pc, call := y.call) && PendingSends(y.pc) == PendingSends(x.pc)
    requires Placed(y) && Confirmable(NetOf(y), y.pc) && Rereading(y.store, y.children, y.pc) && Drained(y.store, y.call)
    ensures Inv(y)
  {
    hide Valid, Core, Placed, Confirmable, Rereading, Drained, Origins;
    assert NetOf(y) == NetOf(x);
  }

  // ---------------------------------------------------------------- the tick

  lemma QuietExpire(x: Sys, env: Env)
    requires Inv(x)
    ensures Inv(x.(store := Expire(x.store, env)))
  {
    hide Valid, Core, Pcs, Calm, Expire;
    ExpireKeeps(x.store, env);
    ExpireCalm(x.store, env);
    QuietInv(x, Expire(x.store, env));
  }

  lemma BeginTickInv(x: Sys, env: Env, y: Sys)
    requires Inv(x) && ReadStep(x, BeginTick, env, y)
    ensures Inv(y)
  {
    hide Valid, Core, Calm, Expire, Claim, Origins;
    QuietExpire(x, env);
    var z := x.(store := Expire(x.store, env));
    InvCallable(z);
    PoolSame(x.store, env);
    MovedInv(z, y);
  }

  lemma PoolSame(s: Store, env: Env)
    ensures Expire(s, env).pool == s.pool
  {
  }

  lemma NextChildInv(x: Sys, env: Env, y: Sys)
    requires Inv(x) && ReadStep(x, NextChild, env, y)
    ensures Inv(y)
  {
    hide Valid, Core, Calm, Claim, Origins;
    MovedInv(x, y);
  }

  /** The child that ended its job in a message has none afterwards. */
  lemma TakenIdle(s: Store, w: WorkerId, env: Env)
    requires w in s.workers && s.workers[w].inbox != [] && forall i | i in s.order :: i in s.jobs
    requires Valid(s, {}, {})
    ensures var (t, ended) := Taken(s, w, env); w in t.workers && (ended ==> t.workers[w].job.None?)
  {
    hide Valid, Calm, Ended, SameDomain, Narrower;
    var r, m := Received(s, w), s.workers[w].inbox[0];
    ReceivedKeeps(s, w);
    if (m.Returned? || m.Raised?) && Heard(r, w, m.id) {
      EndedIdle(r, w, m.id, if m.Returned? then Some(m.value) else None, env);
    }
  }

  lemma EndedIdle(s: Store, w: WorkerId, id: JobId, value: Option<Value>, env: Env)
    requires Valid(s, {}, {}) && w in s.workers && Heard(s, w, id) && forall i | i in s.order :: i in s.jobs
    ensures w in Ended(s, w, id, value, env).workers && Ended(s, w, id, value, env).workers[w].job.None?
  {
    hide Valid, Calm, Retire, Concluded;
    ConcludedKeeps(s, w, id, value, env);
    var u := Concluded(s, w, id, value, env);
    EndedKeeps(s, w, id, value, env);
    if u.workers[w].served >= u.cfg.maxJobs {
      RetireServing(u, w, true, false, env, {}, {w});
      CalmWorker(u, Retire(u, w, true, false, env), w, JobOf(u, w), {});
    }
  }

  lemma TakenCalm(s: Store, w: WorkerId, env: Env)
    requires w in s.workers && s.workers[w].inbox != [] && forall i | i in s.order :: i in s.jobs
    requires Valid(s, {}, {})
    ensures Calm(Received(s, w), Taken(s, w, env).0, {}, Wins(s.workers[w].inbox[0])) && Valid(Taken(s, w, env).0, {}, {})
  {
    hide Valid, Calm;
    ReceivedKeeps(s, w);
    DeliverKeeps(Received(s, w), w, s.workers[w].inbox[0], env);
  }

  lemma ReceivedPcs(x: Sys, w: WorkerId)
    requires w in x.store.workers && x.store.workers[w].inbox != []
    requires Pcs(x) && Lines(NetOf(x))
    ensures Pcs(x.(store := Received(x.store, w))) && Lines(NetOf(x.(store := Received(x.store, w))))
  {
    hide LineOf, Claim, Lines;
    var m := NetOf(x).(s := Received(x.store, w));
    SameClaims(NetOf(x), w);
    ReceivedOneLine(NetOf(x), w);
  }

  lemma ReceivedOneLine(n: Net, w: WorkerId)
    requires w in n.s.workers && n.s.workers[w].inbox != [] && Lines(n)
    ensures Lines(n.(s := Received(n.s, w)))
  {
    hide LineOf;
    ReceivedLines(n, w);
  }

  /** Reading one message, whoever reads it. */
  lemma TakenInv(x: Sys, w: WorkerId, env: Env)
    requires w in x.store.workers && x.store.workers[w].inbox != [] && forall i | i in x.store.order :: i in x.store.jobs
    requires Inv(x)
    ensures Inv(x.(store := Taken(x.store, w, env).0))
  {
    hide Valid, Core, Calm, Pcs, Taken, Lines;
    LinesOf(NetOf(x));
    ReadKeeps(NetOf(x), w, env);
    ReceivedPcs(x, w);
    TakenCalm(x.store, w, env);
    CalmPcs(x.(store := Received(x.store, w)), Taken(x.store, w, env).0, {}, Wins(x.store.workers[w].inbox[0]));
  }

  lemma ReadOneInv(x: Sys, env: Env, y: Sys)
    requires Inv(x) && ReadStep(x, ReadOne, env, y)
    ensures Inv(y)
  {
    hide Valid, Core, Calm, Taken, Claim, Origins;
    TakenInv(x, x.pc.w, env);
    TakenIdle(x.store, x.pc.w, env);
    MovedInv(x.(store := Taken(x.store, x.pc.w, env).0), y);
  }

  /** The end of a pipe, whoever comes to it. */
  lemma GoneInv(x: Sys, w: WorkerId, env: Env)
    requires w in x.store.workers && x.store.workers[w].inbox == [] && forall i | i in x.store.order :: i in x.store.jobs
    requires Gone(x, w) && Inv(x)
    ensures Inv(x.(store := Retire(x.store, w, false, true, env)))
  {
    hide Valid, Core, Calm, Pcs, Lines, Retire;
    LinesOf(NetOf(x));
    GoneKeeps(NetOf(x), w, env);
    RetireKeeps(x.store, w, false, true, env, {}, {});
    CalmPcs(x, Retire(x.store, w, false, true, env), JobOf(x.store, w), {});
  }

  lemma RetireIdle(s: Store, w: WorkerId, stop: bool, died: bool, env: Env)
    requires Valid(s, {}, {}) && w in s.workers
    requires forall i | i in s.order :: i in s.jobs
    ensures var t := Retire(s, w, stop, died, env); w in t.workers && t.workers[w].job.None?
  {
    hide Valid, Calm, Detach;
    RetireKeeps(s, w, stop, died, env, {}, {});
    assert {} - {w} == {};
    SoundOf(Retire(s, w, stop, died, env), w);
    if s.workers[w].retiredAt.None? {
      RetiredAfter(s, w, stop, died, env);
    } else {
      SoundOf(s, w);
    }
  }

  lemma RetiredAfter(s: Store, w: WorkerId, stop: bool, died: bool, env: Env)
    requires Valid(s, {}, {}) && w in s.workers && s.workers[w].retiredAt.None?
    requires forall i | i in s.order :: i in s.jobs
    ensures var t := Retire(s, w, stop, died, env); w in t.workers && t.workers[w].retiredAt.Some?
  {
    hide Valid, Calm, HoldBack, Settle, SameDomain, Narrower;
    var t := Detach(s, w, stop, env);
    DetachKeeps(s, w, stop, env, {}, {});
    var u := HoldBack(t, s.workers[w].ready, died, env);
    SoundOf(s, w);
    assert {} + JobOf(s, w) == JobOf(s, w) && {} - {w} == {};
    HoldBackKeeps(t, s.workers[w].ready, died, env, JobOf(s, w), {});
    StaysRetired(t, u, w, {});
    var v := Discharge(u, s.workers[w].job, env);
    if s.workers[w].job.Some? {
      SettleCalm(u, s.workers[w].job.value, env);
      StaysRetired(u, v, w, {});
    }
  }

  lemma SettleCalm(s: Store, id: JobId, env: Env)
    ensures Calm(s, Discharge(s, Some(id), env), {}, {})
  {
    hide Calm;
    CalmSame(s, s);
    if Unfinished(s, id) {
      if s.jobs[id].status.Queued? && !s.jobs[id].retried {
        RequeueCalm(s, id);
      } else {
        FinishCalm(s, id, Failed, None, Some(WorkerCrashed), env);
      }
    }
  }

  lemma StaysRetired(s: Store, t: Store, w: WorkerId, won: set<JobId>)
    requires Calm(s, t, {}, won) && w in s.workers && s.workers[w].retiredAt.Some?
    ensures w in t.workers && t.workers[w].retiredAt.Some?
  {
    assert Untouched(s.workers[w], t.workers[w], won);
  }

  lemma ReadNoneInv(x: Sys, env: Env, y: Sys)
    requires Inv(x) && ReadStep(x, ReadNone, env, y)
    ensures Inv(y)
  {
    hide Valid, Core, Calm, Retire, Claim, Origins;
    if Gone(x, x.pc.w) {
      GoneInv(x, x.pc.w, env);
      RetireIdle(x.store, x.pc.w, false, true, env);
      MovedInv(x.(store := Retire(x.store, x.pc.w, false, true, env)), y);
    } else {
      MovedInv(x, y);
    }
  }

  lemma IdleRetireInv(x: Sys, w: WorkerId, died: bool, env: Env)
    requires w in x.store.workers && forall i | i in x.store.order :: i in x.store.jobs
    requires Inv(x) && x.store.workers[w].job.None?
    ensures Inv(x.(store := Retire(x.store, w, false, died, env)))
  {
    hide Valid, Core, Calm, Pcs, Lines, Retire;
    RetireKeeps(x.store, w, false, died, env, {}, {});
    assert {} - {w} == {};
    QuietInv(x, Retire(x.store, w, false, died, env));
  }

  lemma UnreadyIdle(s: Store, w: WorkerId)
    requires Valid(s, {}, {}) && w in s.workers && !s.workers[w].ready
    ensures s.workers[w].job.None?
  {
  }

  lemma DeadDone(x: Sys, w: WorkerId)
    requires Inv(x) && w in x.children && !x.children[w].alive
    ensures x.children[w].phase.Done?
  {
    hide Valid, Pcs;
  }

  lemma JudgeInv(x: Sys, env: Env, y: Sys)
    requires Inv(x) && ReadStep(x, Judge, env, y)
    ensures Inv(y)
  {
    hide Valid, Core, Calm, Retire, Claim, Origins, SameDomain, Narrower;
    var w := x.pc.w;
    if x.pc.again {
      IdleRetireInv(x, w, true, env);
      MovedInv(x.(store := Retire(x.store, w, false, true, env)), y);
    } else if x.store.workers[w].retiredAt.None? && !x.children[w].alive {
      DeadDone(x, w);
      MovedInv(x, y);
    } else if !x.store.workers[w].ready && env.now - x.store.workers[w].startedAt >= READY {
      UnreadyIdle(x.store, w);
      IdleRetireInv(x, w, false, env);
      MovedInv(x.(store := Retire(x.store, w, false, false, env)), y);
    } else {
      MovedInv(x, y);
    }
  }

  lemma {:induction false} DispatchPast(s: Store, queues: seq<Queue>)
    requires Stocked(s, queues)
    ensures var t := Dispatch(s, queues).0;
            && t.past.issued == s.past.issued && t.past.restored == s.past.restored && t.workers.Keys == s.workers.Keys
    decreases Waiters(queues)
  {
    hide Chosen, Stocked, Pop, Least;
    if queues != [] {
      DispatchOnce(s, queues);
      var free := FirstFree(s, s.pool);
      if free.Some? {
        HeldLeast(s, queues);
        PopWaiters(queues, Least(s, queues));
        DispatchPast(Chosen(s, queues, free.value), Pop(queues, Least(s, queues)));
        ChosenPast(s, queues, free.value);
      }
    }
  }

  lemma ChosenPast(s: Store, queues: seq<Queue>, w: WorkerId)
    requires Stocked(s, queues) && queues != [] && w in s.workers
    ensures var t := Chosen(s, queues, w);
            && t.past.issued == s.past.issued && t.past.restored == s.past.restored && t.workers.Keys == s.workers.Keys
  {
  }

  /** A tick's locked end issues nothing, and while draining leaves nothing queued. */
  lemma TickPlaces(s: Store, env: Env)
    requires Valid(s, {}, {}) && Origins(s)
    ensures Linked(s) && (forall i | i in s.order :: i in s.jobs)
    ensures var t := Tick(s, env).0;
            && Origins(t) && t.draining == s.draining && t.workers.Keys == s.workers.Keys
            && (s.draining ==> NoneQueued(t))
  {
    hide Valid, Calm, Dispatch, Scan, Narrower;
    Callable(s, {}, {});
    ScanKeeps(s, s.order, env);
    var (u, waiting) := Scan(s, s.order, env);
    QueuesReady(u, waiting);
    DispatchJobs(u, Queues(u, waiting));
    DispatchPast(u, Queues(u, waiting));
    CalmOrigins(s, u, {}, {});
    TickDeadlines(s, env);
    var t := Tick(s, env).0;
    forall id | id in t.jobs && s.draining ensures !t.jobs[id].status.Queued? {
      assert Unfinished(t, id) ==> !(t.draining && t.jobs[id].status.Queued?);
    }
  }

  lemma CalmOrigins(s: Store, t: Store, freed: set<JobId>, won: set<JobId>)
    requires Calm(s, t, freed, won) && Origins(s)
    ensures Origins(t) && t.draining == s.draining && t.workers.Keys == s.workers.Keys
  {
  }

  lemma EndTickInv(x: Sys, env: Env, y: Sys)
    requires Inv(x) && ReadStep(x, EndTick, env, y)
    ensures Inv(y)
  {
    hide Valid, Core, Calm, Tick, Claim, Origins, NoneQueued;
    TickGood(NetOf(x), env);
    TickPlaces(x.store, env);
    assert NetOf(y) == NetOf(x).(s := Tick(x.store, env).0, pend := Tick(x.store, env).1);
  }

  // ---------------------------------------------------------------- outside the lock

  lemma PutPcs(x: Sys, y: Sys)
    requires Pcs(x) && Posts(NetOf(x)) && x.pc.Sending? && x.pc.sends != [] && x.pc.sends[0].worker in x.store.workers
    requires y == x.(store := y.store, pc := y.pc) && y.pc.Confirming?
    requires y.pc.w == x.pc.sends[0].worker && y.pc.sends == x.pc.sends[1..]
    requires forall i | 0 <= i < |y.pc.sends| :: y.pc.sends[i].worker != y.pc.w
    requires y.store == x.store.(workers := y.store.workers) && y.store.workers.Keys == x.store.workers.Keys
    requires forall w | w in x.store.workers ::
               y.store.workers[w] == x.store.workers[w].(outbox := y.store.workers[w].outbox)
    requires y.pc.failed ==> forall id, v | y.store.workers[y.pc.w].job == Some(id) :: !Claim(NetOf(y), v, id)
    ensures Pcs(y)
  {
    hide Claim;
  }

  lemma PostsOf(n: Net)
    requires Good(n)
    ensures Posts(n)
  {
    hide Valid;
  }

  lemma PutInv(x: Sys, delivered: bool, env: Env, y: Sys)
    requires Inv(x) && OutsideStep(x, Put(delivered), env, y)
    ensures Inv(y)
  {
    hide Valid, Core, Pcs, Claim, Posts;
    var n := NetOf(x);
    PostsOf(n);
    OthersNext(n);
    if delivered {
      DeliveredKeeps(n);
      assert NetOf(y) == Delivered(n);
    } else {
      DroppedKeeps(n);
      DroppedUnclaimed(n);
      assert NetOf(y) == Dropped(n);
    }
    PutPcs(x, y);
  }

  lemma ConfirmPlaces(x: Sys, env: Env, t: Store)
    requires Placed(x) && Drained(x.store, x.call) && Origins(x.store) && x.pc.Confirming? && x.pc.w in x.store.workers
    requires Calm(Cleared(x.store, x.pc.w), t, if x.pc.failed then JobOf(x.store, x.pc.w) else {}, {})
    ensures var y := x.(store := t, pc := Sending(x.pc.sends)); Placed(y) && Drained(t, y.call) && Origins(t)
  {
    hide Calm, Origins, NoneQueued;
    var z := x.(store := Cleared(x.store, x.pc.w), pc := Sending(x.pc.sends));
    ClearedOrigins(x.store, x.pc.w);
    assert Placed(z);
    CalmPlaced(z, t, if x.pc.failed then JobOf(x.store, x.pc.w) else {}, {});
  }

  lemma ClearedOrigins(s: Store, w: WorkerId)
    requires w in s.workers
    ensures Origins(s) ==> Origins(Cleared(s, w))
    ensures NoneQueued(s) ==> NoneQueued(Cleared(s, w))
  {
  }

  lemma FailedUnclaimed(n: Net, pc: Pc)
    requires Confirmable(n, pc) && pc.Confirming? && pc.w in n.s.workers && pc.failed
    ensures Unclaimed(n, JobOf(n.s, pc.w))
  {
    hide Claim;
  }

  lemma ConfirmInv(x: Sys, env: Env, y: Sys)
    requires Inv(x) && OutsideStep(x, Confirm, env, y)
    ensures Inv(y)
  {
    hide Valid, Core, Calm, Sent, Cleared, Claim, Origins, NoneQueued, Unclaimed;
    var n, w := NetOf(x), x.pc.w;
    if x.pc.failed {
      FailedUnclaimed(n, x.pc);
    }
    SentGood(n, w, x.pc.failed, env);
    assert NetOf(y) == n.(s := Sent(x.store, w, x.pc.failed, env));
    SentKeeps(x.store, w, x.pc.failed, env);
    ConfirmPlaces(x, env, y.store);
  }

  lemma RefillInv(x: Sys, env: Env, y: Sys)
    requires Inv(x) && OutsideStep(x, Refill, env, y)
    ensures Inv(y)
  {
    hide Valid, Core, Claim, Origins, NoneQueued;
    MovedInv(x, y);
  }

  function Joined(n: Net, w: WorkerId, now: Seconds): Net {
    n.(s := Join(n.s, w, now), ch := n.ch[w := Child(Starting, true)])
  }

  /** A child that joins has nothing on its way and has begun nothing. */
  lemma JoinedLines(n: Net, w: WorkerId, now: Seconds)
    requires n.pend == [] && w !in n.s.workers && w !in n.ch
    ensures forall v :: LineOf(Joined(n, w, now), v) == LineOf(n, v)
    ensures forall v, id :: Claim(Joined(n, w, now), v, id) == Claim(n, v, id)
    ensures LineOf(n, w) == []
  {
  }

  lemma JoinedPosts(n: Net, w: WorkerId, now: Seconds)
    requires Lines(n) && Posts(n) && Claims(n) && n.pend == [] && w !in n.s.workers && w !in n.ch
    ensures var m := Joined(n, w, now); Lines(m) && Posts(m) && Claims(m)
  {
    hide LineOf, Claim;
    JoinedLines(n, w, now);
  }

  lemma JoinedMail(n: Net, w: WorkerId, now: Seconds)
    requires Once(n) && Computing(n) && Mail(n) && Unread(n) && Answered(n) && w !in n.s.workers && w !in n.ch
    ensures var m := Joined(n, w, now); Once(m) && Computing(m) && Mail(m) && Unread(m) && Answered(m)
  {
  }

  lemma JoinedCore(n: Net, w: WorkerId, now: Seconds)
    requires Core(n) && n.pend == [] && w !in n.s.workers && w !in n.ch
    ensures Core(Joined(n, w, now))
  {
    hide Lines, Posts, Claims, Once, Computing, Mail, Unread, Answered;
    JoinedPosts(n, w, now);
    JoinedMail(n, w, now);
  }

  lemma JoinedPcs(x: Sys, w: WorkerId, now: Seconds)
    requires Pcs(x) && w !in x.store.workers && w !in x.children && x.pc.Launching?
    ensures Pcs(x.(store := Join(x.store, w, now), children := x.children[w := Child(Starting, true)], pc := Refilling))
  {
    hide Claim;
  }

  lemma RoomOf(x: Sys)
    requires Pcs(x) && x.pc.Launching?
    ensures |x.store.pool| < x.store.cfg.concurrency
  {
  }

  lemma LeftInv(x: Sys, y: Sys)
    requires Inv(x) && x.pc.Launching? && y == x.(pc := y.pc) && (y.pc.Halted? || y.pc.Reaping?)
    ensures Inv(y)
  {
    hide Valid, Core, Claim, Origins, NoneQueued;
    MovedInv(x, y);
  }

  lemma LaunchedInv(x: Sys, w: WorkerId, up: bool, env: Env, y: Sys)
    requires Inv(x) && OutsideStep(x, Launched(w, up), env, y)
    ensures Inv(y)
  {
    hide Valid, Core, Calm, Pcs, StartFailed;
    if !up {
      StartFailedKeeps(x.store, env, {});
      QuietInv(x, StartFailed(x.store, env));
      LeftInv(x.(store := StartFailed(x.store, env)), y);
    } else if x.store.stopping {
      LeftInv(x, y);
    } else {
      RoomOf(x);
      JoinKeeps(x.store, w, env.now);
      JoinedCore(NetOf(x), w, env.now);
      assert NetOf(y) == Joined(NetOf(x), w, env.now);
      JoinedPcs(x, w, env.now);
    }
  }

  lemma ReapInv(x: Sys, w: WorkerId, env: Env, y: Sys)
    requires Inv(x) && OutsideStep(x, Reap(w), env, y)
    ensures Inv(y)
  {
    hide Valid, Core, Calm, Pcs;
    ForgetKeeps(x.store, w);
    CalmSame(x.store, Forget(x.store, w));
    QuietInv(x, Forget(x.store, w));
  }

  lemma KillInv(x: Sys, w: WorkerId, env: Env, y: Sys)
    requires Inv(x) && OutsideStep(x, Kill(w), env, y)
    ensures Inv(y)
  {
    hide Valid, Core, Calm, Pcs;
    var k := x.store.workers[w].(killed := true);
    SoundOf(x.store, w);
    MarkKeeps(x.store, w, k);
    MarkCalm(x.store, w, k);
    QuietInv(x, WithWorker(x.store, w, k));
  }

  lemma EndReapInv(x: Sys, env: Env, y: Sys)
    requires Inv(x) && OutsideStep(x, EndReap, env, y)
    ensures Inv(y)
  {
    hide Valid, Core, Claim, Origins, NoneQueued;
    MovedInv(x, y);
  }
}
