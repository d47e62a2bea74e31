/** The sends made outside the lock keep the invariant of the service. */
module SendSteps {
  import opened Wrappers
  import opened JobTypes
  import opened StoreModel
  import opened StoreInvariant
  import opened StoreSteps
  import opened Protocol
  import opened ProtocolInvariant
  import opened ChildSteps
  import opened ParentSteps

  /** Only the parent's side of the pipes differs: what was sent, what is still to be sent, and who owns a pipe. */
  ghost predicate Rewired(n: Net, m: Net) {
    && m.ch == n.ch && m.starts == n.starts && m.computed == n.computed
    && m.s == n.s.(workers := m.s.workers) && m.s.workers.Keys == n.s.workers.Keys
    && (forall w | w in n.s.workers ::
          && m.s.workers[w].inbox == n.s.workers[w].inbox && m.s.workers[w].job == n.s.workers[w].job
          && m.s.workers[w].retiredAt == n.s.workers[w].retiredAt)
  }

  /** No child has more on its way to it than before. */
  ghost predicate Shorter(n: Net, m: Net) {
    forall w :: LineOf(m, w) == LineOf(n, w) || LineOf(m, w) == []
  }

  lemma RewiredLines(n: Net, m: Net)
    requires Rewired(n, m) && Shorter(n, m) && Lines(n)
    ensures Lines(m)
  {
    hide LineOf;
  }

  lemma RewiredClaims(n: Net, m: Net)
    requires Rewired(n, m) && Shorter(n, m) && Claims(n)
    ensures Claims(m)
  {
    hide LineOf;
    forall w, id | Claim(m, w, id) ensures Claim(n, w, id) {
    }
  }

  lemma RewiredMail(n: Net, m: Net)
    requires Rewired(n, m) && Once(n) && Computing(n) && Mail(n) && Unread(n) && Answered(n)
    ensures Once(m) && Computing(m) && Mail(m) && Unread(m) && Answered(m)
  {
  }

  lemma RewiredCore(n: Net, m: Net)
    requires Core(n) && Rewired(n, m) && Shorter(n, m) && Posts(m)
    ensures Core(m)
  {
    hide Lines, Claims, Once, Computing, Mail, Unread, Answered, LineOf, Posts;
    RewiredLines(n, m);
    RewiredClaims(n, m);
    RewiredMail(n, m);
  }

  // ---------------------------------------------------------------- the send itself

  function Delivered(n: Net): Net
    requires n.pend != [] && n.pend[0].worker in n.s.workers
  {
    var send := n.pend[0];
    var k := n.s.workers[send.worker];
    n.(s := n.s.(workers := n.s.workers[send.worker := k.(outbox := k.outbox + [Run(send.work)])]), pend := n.pend[1..])
  }

  lemma NextPend(pend: seq<Send>, w: WorkerId)
    requires pend != []
    ensures PendFor(pend, w) == (if pend[0].worker == w then [pend[0].work] else []) + PendFor(pend[1..], w)
  {
  }

  lemma DeliveredLines(n: Net)
    requires n.pend != [] && n.pend[0].worker in n.s.workers
    ensures forall w :: LineOf(Delivered(n), w) == LineOf(n, w)
  {
    hide LineOf, Delivered;
    forall w ensures LineOf(Delivered(n), w) == LineOf(n, w) {
      DeliveredLine(n, w);
    }
  }

  lemma DeliveredLine(n: Net, w: WorkerId)
    requires n.pend != [] && n.pend[0].worker in n.s.workers
    ensures LineOf(Delivered(n), w) == LineOf(n, w)
  {
    hide PendFor, Runs, GotBy;
    NextPend(n.pend, w);
    OneRun(n.s.workers[n.pend[0].worker].outbox, n.pend[0].work);
    assert [] + PendFor(n.pend[1..], w) == PendFor(n.pend[1..], w);
  }

  lemma OneRun(outbox: seq<Command>, work: Work)
    ensures Runs(outbox + [Run(work)]) == Runs(outbox) + [work]
  {
    RunsAppend(outbox, [Run(work)]);
    assert [Run(work)][1..] == [];
  }

  lemma DeliveredKeeps(n: Net)
    requires Good(n) && n.pend != [] && n.pend[0].worker in n.s.workers
    ensures Good(Delivered(n))
  {
    hide Valid, Lines, Claims, Once, Computing, Mail, Unread, Answered, LineOf;
    var w := n.pend[0].worker;
    DeliveredLines(n);
    SoundOf(n.s, w);
    MarkKeeps(n.s, w, Delivered(n).s.workers[w]);
    RewiredCore(n, Delivered(n));
  }

  function Dropped(n: Net): Net
    requires n.pend != []
  {
    n.(pend := n.pend[1..])
  }

  lemma OnlyWork(a: seq<Work>, b: seq<Work>, one: Work, c: seq<Work>)
    requires |a + b + ([one] + c)| <= 1
    ensures a + b + c == [] && a + b + ([one] + c) == [one]
  {
  }

  lemma DroppedLine(n: Net, w: WorkerId)
    requires Lines(n) && n.pend != []
    ensures LineOf(Dropped(n), w) == if w == n.pend[0].worker then [] else LineOf(n, w)
    ensures w == n.pend[0].worker && w in n.s.workers ==> LineOf(n, w) == [n.pend[0].work]
  {
    hide PendFor, Runs, GotBy;
    NextPend(n.pend, w);
    if w in n.ch && w == n.pend[0].worker {
      OnlyWork(GotBy(n.ch[w]), Runs(n.s.workers[w].outbox), n.pend[0].work, PendFor(n.pend[1..], w));
    }
    assert [] + PendFor(n.pend[1..], w) == PendFor(n.pend[1..], w);
  }

  lemma DroppedLines(n: Net)
    requires Lines(n) && n.pend != []
    ensures forall w :: LineOf(Dropped(n), w) == if w == n.pend[0].worker then [] else LineOf(n, w)
    ensures n.pend[0].worker in n.s.workers ==> LineOf(n, n.pend[0].worker) == [n.pend[0].work]
  {
    hide Lines, LineOf;
    forall w ensures LineOf(Dropped(n), w) == if w == n.pend[0].worker then [] else LineOf(n, w) {
      DroppedLine(n, w);
    }
    DroppedLine(n, n.pend[0].worker);
  }

  lemma {:induction false} PendNone(pend: seq<Send>, w: WorkerId)
    requires PendFor(pend, w) == []
    ensures forall i | 0 <= i < |pend| :: pend[i].worker != w
  {
    if pend != [] {
      PendNone(pend[1..], w);
    }
  }

  /** No two of the sends not yet made are for one child: its line would hold both. */
  lemma OthersNext(n: Net)
    requires Good(n) && n.pend != []
    ensures forall i | 0 <= i < |n.pend[1..]| :: n.pend[1..][i].worker != n.pend[0].worker
  {
    hide Valid, Claims, Once, Computing, Mail, Unread, Answered, PendFor, Runs, GotBy;
    var w := n.pend[0].worker;
    DroppedLine(n, w);
    assert w in n.ch && w in n.s.workers;
    assert PendFor(n.pend[1..], w) == [] by {
      assert LineOf(Dropped(n), w) == GotBy(n.ch[w]) + Runs(n.s.workers[w].outbox) + PendFor(n.pend[1..], w);
    }
    PendNone(n.pend[1..], w);
  }

  lemma DroppedKeeps(n: Net)
    requires Good(n) && n.pend != []
    ensures Good(Dropped(n))
  {
    hide Valid, Lines, Claims, Once, Computing, Mail, Unread, Answered, LineOf;
    DroppedLines(n);
    RewiredCore(n, Dropped(n));
  }

  /** A job whose send failed has been begun by no child, and none may begin it. */
  lemma DroppedUnclaimed(n: Net)
    requires Good(n) && n.pend != [] && n.pend[0].worker in n.s.workers
    ensures forall id, v | n.s.workers[n.pend[0].worker].job == Some(id) :: !Claim(Dropped(n), v, id)
  {
    hide Valid, Lines, Once, Computing, Mail, Unread, Answered, LineOf;
    var w := n.pend[0].worker;
    DroppedLines(n);
    forall id, v | n.s.workers[w].job == Some(id) ensures !Claim(Dropped(n), v, id) {
      JobActive(n.s, w);
      LineJob(n, w);
      DroppedClaim(n, v, id);
    }
  }

  lemma DroppedClaim(n: Net, v: WorkerId, id: JobId)
    requires Lines(n) && n.pend != []
    ensures Claim(Dropped(n), v, id) ==> Claim(n, v, id)
  {
    hide Lines, LineOf;
    DroppedLines(n);
  }

  lemma LineJob(n: Net, w: WorkerId)
    requires Lines(n) && w in n.s.workers && n.s.workers[w].retiredAt.None? && LineOf(n, w) != []
    ensures n.s.workers[w].job == Some(LineOf(n, w)[0].id)
  {
  }

  // ---------------------------------------------------------------- after the send

  function Confirmed(n: Net, w: WorkerId): Net
    requires w in n.s.workers
  {
    n.(s := Cleared(n.s, w))
  }

  lemma ConfirmedKeeps(n: Net, w: WorkerId)
    requires Good(n) && w in n.s.workers && n.s.workers[w].sending
    requires forall i | 0 <= i < |n.pend| :: n.pend[i].worker != w
    ensures Good(Confirmed(n, w))
  {
    hide Valid, Lines, Claims, Once, Computing, Mail, Unread, Answered;
    ClearedKeeps(n.s, w);
    RewiredCore(n, Confirmed(n, w));
  }

  lemma SentGood(n: Net, w: WorkerId, failed: bool, env: Env)
    requires w in n.s.workers && forall i | i in n.s.order :: i in n.s.jobs
    requires Good(n) && n.s.workers[w].sending && forall i | 0 <= i < |n.pend| :: n.pend[i].worker != w
    requires failed ==> Unclaimed(n, JobOf(n.s, w))
    ensures Good(n.(s := Sent(n.s, w, failed, env)))
  {
    hide Valid, Core, Calm, Sent;
    var m := Confirmed(n, w);
    ConfirmedKeeps(n, w);
    SentKeeps(n.s, w, failed, env);
    NoneEmptied(m);
    NoneUnclaimed(m);
    ConfirmedUnclaimed(n, w, JobOf(n.s, w));
    CalmCore(m, Sent(n.s, w, failed, env), if failed then JobOf(n.s, w) else {}, {});
  }

  lemma ConfirmedUnclaimed(n: Net, w: WorkerId, ids: set<JobId>)
    requires w in n.s.workers
    ensures Unclaimed(n, ids) ==> Unclaimed(Confirmed(n, w), ids)
  {
    forall v ensures LineOf(Confirmed(n, w), v) == LineOf(n, v) {
    }
    forall v, id ensures Claim(Confirmed(n, w), v, id) == Claim(n, v, id) {
    }
  }
}
