/** Giving jobs to children, and the sends outside the lock, keep the invariant of the service. */
module PostSteps {
  import opened Wrappers
  import opened JobTypes
  import opened StoreModel
  import opened StoreInvariant
  import opened StoreSteps
  import opened Dispatching
  import opened Protocol
  import opened ProtocolInvariant
  import opened ChildSteps
  import opened ParentSteps

  // ---------------------------------------------------------------- giving a child a job

  lemma {:induction false} PendMore(pend: seq<Send>, one: Send, w: WorkerId)
    ensures PendFor(pend + [one], w) == PendFor(pend, w) + (if one.worker == w then [one.work] else [])
  {
    if pend == [] {
      assert pend + [one] == [one];
    } else {
      assert (pend + [one])[1..] == pend[1..] + [one];
      PendMore(pend[1..], one, w);
    }
  }

  /** The service after a job went to a free child, its send still to be made. */
  function Handed(n: Net, id: JobId, w: WorkerId): Net
    requires id in n.s.jobs && w in n.s.workers
  {
    n.(s := AttachTo(n.s, id, w), pend := n.pend + [Send(w, WorkOf(n.s, id))])
  }

  lemma FreeLine(n: Net, w: WorkerId)
    requires Lines(n) && w in n.s.workers && n.s.workers[w].job.None? && n.s.workers[w].retiredAt.None?
    ensures w in n.ch && LineOf(n, w) == [] && PendFor(n.pend, w) == []
  {
  }

  lemma GivenLines(n: Net, id: JobId, w: WorkerId)
    requires id in n.s.jobs && w in n.s.workers && w in n.ch
    ensures LineOf(Handed(n, id, w), w) == LineOf(n, w) + [WorkOf(n.s, id)]
    ensures forall v | v != w :: LineOf(Handed(n, id, w), v) == LineOf(n, v)
  {
    forall v ensures PendFor(Handed(n, id, w).pend, v) == PendFor(n.pend, v) + (if v == w then [WorkOf(n.s, id)] else []) {
      PendMore(n.pend, Send(w, WorkOf(n.s, id)), v);
    }
  }

  lemma GivenOneLine(n: Net, id: JobId, w: WorkerId)
    requires Lines(n) && id in n.s.jobs && w in n.s.workers
    requires n.s.workers[w].job.None? && n.s.workers[w].retiredAt.None?
    requires id in n.s.past.issued && n.s.past.issued[id] == WorkOf(n.s, id)
    ensures Lines(Handed(n, id, w))
  {
    hide LineOf;
    FreeLine(n, w);
    GivenLines(n, id, w);
  }

  lemma GivenPosts(n: Net, id: JobId, w: WorkerId)
    requires Posts(n) && id in n.s.jobs && w in n.s.workers
    ensures Posts(Handed(n, id, w))
  {
  }

  /** Nobody has begun, or may begin, a job that waits for a child. */
  lemma IdleUnclaimed(n: Net, id: JobId)
    requires Claims(n) && Idle(n.s, id)
    ensures forall v :: !Claim(n, v, id)
  {
  }

  lemma GivenClaim(n: Net, id: JobId, w: WorkerId, v: WorkerId, i: JobId)
    requires Lines(n) && w in n.ch && id in n.s.jobs && w in n.s.workers && LineOf(n, w) == []
    requires Claim(Handed(n, id, w), v, i)
    ensures (v == w && i == id) || Claim(n, v, i)
  {
    hide LineOf, Lines, Began;
    GivenLines(n, id, w);
  }

  lemma GivenClaims(n: Net, id: JobId, w: WorkerId)
    requires Lines(n) && Claims(n) && Idle(n.s, id) && w in n.s.workers
    requires n.s.workers[w].job.None? && n.s.workers[w].retiredAt.None?
    ensures Claims(Handed(n, id, w))
  {
    hide LineOf, Lines;
    FreeLine(n, w);
    GivenLines(n, id, w);
    IdleUnclaimed(n, id);
    var m := Handed(n, id, w);
    forall v, i | Claim(m, v, i) ensures (v == w && i == id) || Claim(n, v, i) {
      GivenClaim(n, id, w, v, i);
    }
    forall v, i | Began(m.starts, v, i) && LineOf(m, v) != [] ensures LineOf(m, v)[0].id != i {
      assert Claim(n, v, i);
    }
    forall v, i | Claim(m, v, i) && Unfinished(m.s, i) ensures i in m.s.active && m.s.active[i] == v {
      if Claim(n, v, i) {
        assert Unfinished(n.s, i);
        assert i != id;
      }
    }
  }

  lemma GivenMail(n: Net, id: JobId, w: WorkerId)
    requires Once(n) && Computing(n) && Mail(n) && Answered(n) && id in n.s.jobs && w in n.s.workers
    ensures var m := Handed(n, id, w); Once(m) && Computing(m) && Mail(m) && Answered(m)
  {
  }

  lemma GivenUnread(n: Net, id: JobId, w: WorkerId)
    requires Unread(n) && Claims(n) && Idle(n.s, id) && w in n.s.workers
    ensures Unread(Handed(n, id, w))
  {
    hide Claims;
    IdleUnclaimed(n, id);
    assert !Claim(n, w, id);
  }

  lemma IssuedOf(s: Store, id: JobId)
    requires Valid(s, {}, {}) && Unfinished(s, id)
    ensures id in s.past.issued && s.past.issued[id] == WorkOf(s, id)
  {
    assert Going(s.jobs, id);
  }

  lemma FreeServes(s: Store, w: WorkerId)
    requires Valid(s, {}, {}) && w in s.pool && Free(s, w)
    ensures s.workers[w].job.None? && s.workers[w].retiredAt.None?
  {
  }

  lemma GivenCore(n: Net, id: JobId, w: WorkerId)
    requires Good(n) && Idle(n.s, id) && w in n.s.pool && Free(n.s, w)
    ensures Core(Handed(n, id, w))
  {
    hide Valid, Lines, Posts, Claims, Once, Computing, Mail, Unread, Answered;
    IssuedOf(n.s, id);
    FreeServes(n.s, w);
    GivenOneLine(n, id, w);
    GivenPosts(n, id, w);
    GivenClaims(n, id, w);
    GivenMail(n, id, w);
    GivenUnread(n, id, w);
  }

  lemma PickedCore(n: Net, t: Store)
    requires Core(n) && t == n.s.(served := t.served, dispatched := t.dispatched, past := n.s.past.(picks := t.past.picks))
    ensures Core(n.(s := t))
  {
    forall w ensures LineOf(n.(s := t), w) == LineOf(n, w) {
    }
    forall w, id ensures Claim(n.(s := t), w, id) == Claim(n, w, id) {
    }
  }

  /** The state after the next of the jobs waiting went to a free child. */
  lemma ChosenGood(n: Net, queues: seq<Queue>, w: WorkerId, m: Net)
    requires queues != [] && Stocked(n.s, queues) && w in n.s.pool && Free(n.s, w)
    requires m == n.(s := Chosen(n.s, queues, w), pend := n.pend + [Send(w, WorkOf(n.s, queues[Least(n.s, queues)].ids[0]))])
    requires Good(n) && Lined(n.s, queues)
    ensures Good(m)
  {
    hide Valid, Core, Lined, Idle;
    var id := queues[Least(n.s, queues)].ids[0];
    HeadIdle(n.s, queues);
    IdleHeld(n.s, id);
    GivenCore(n, id, w);
    ChosenKeeps(n.s, queues, w);
    PickedCore(Handed(n, id, w), Chosen(n.s, queues, w));
  }

  /** Dispatch puts every job it hands out on its way to one child only. */
  lemma {:induction false} DispatchCore(n: Net, queues: seq<Queue>)
    requires Good(n) && Lined(n.s, queues)
    ensures Stocked(n.s, queues)
    ensures var (t, sends) := Dispatch(n.s, queues); Good(n.(s := t, pend := n.pend + sends))
    decreases Waiters(queues)
  {
    hide Good, Lined, Dispatch, Chosen, Pop, Least, Stocked;
    StockedOf(n.s, queues);
    assert n.pend + [] == n.pend;
    if queues == [] {
      assert Dispatch(n.s, queues) == (n.s, []) by { DispatchNone(n.s); }
    } else {
      DispatchOnce(n.s, queues);
      var free := FirstFree(n.s, n.s.pool);
      if free.Some? {
        PopLined(n.s, queues, free.value);
        HeldLeast(n.s, queues);
        PopWaiters(queues, Least(n.s, queues));
        var c, rest := Chosen(n.s, queues, free.value), Pop(queues, Least(n.s, queues));
        var one := Send(free.value, WorkOf(n.s, queues[Least(n.s, queues)].ids[0]));
        ChosenGood(n, queues, free.value, n.(s := c, pend := n.pend + [one]));
        DispatchCore(n.(s := c, pend := n.pend + [one]), rest);
        assert n.pend + ([one] + Dispatch(c, rest).1) == n.pend + [one] + Dispatch(c, rest).1;
      }
    }
  }

  lemma IdleHeld(s: Store, id: JobId)
    requires Idle(s, id)
    ensures id in s.jobs
  {
  }

  lemma TickGood(n: Net, env: Env)
    requires Linked(n.s) && forall i | i in n.s.order :: i in n.s.jobs
    requires Good(n) && n.pend == []
    ensures Good(n.(s := Tick(n.s, env).0, pend := Tick(n.s, env).1))
  {
    hide Valid, Core, Calm, Lined, Scan, Dispatch;
    TickLined(n.s, env);
    ScanKeeps(n.s, n.s.order, env);
    var (t, waiting) := Scan(n.s, n.s.order, env);
    QuietGood(n, t);
    var m := n.(s := t);
    DispatchCore(m, Queues(t, waiting));
    assert m.pend + Dispatch(t, Queues(t, waiting)).1 == Dispatch(t, Queues(t, waiting)).1;
    assert Tick(n.s, env) == Dispatch(t, Queues(t, waiting)) by {
      QueuesReady(t, waiting);
    }
  }
}
