/** Every state the service can reach satisfies its invariant. */
module Service {
  import opened Wrappers
  import opened JobTypes
  import opened StoreModel
  import opened StoreInvariant
  import opened StoreSteps
  import opened Dispatching
  import opened Protocol
  import opened ProtocolInvariant
  import opened ChildSteps
  import opened ParentSteps
  import opened PostSteps
  import opened SendSteps

  // ---------------------------------------------------------------- where the threads are

  predicate Holding(pc: Pc) {
    pc.Polling? || pc.Reading? || pc.Read?
  }

  function Mentioned(pc: Pc, call: Call): set<WorkerId> {
    (if pc.Polling? then set w | w in pc.todo
     else if pc.Reading? || pc.Read? then {pc.w} + set w | w in pc.todo
     else if pc.Confirming? then {pc.w}
     else {})
    + (if call.CallPolling? then set w | w in call.todo
       else if call.CallReading? then {call.w} + set w | w in call.todo
       else {})
  }

  /** One thread holds the lock, and the children the threads speak of are known. */
  ghost predicate Placed(x: Sys) {
    && !(Holding(x.pc) && !x.call.NoCall?)
    && (forall w | w in Mentioned(x.pc, x.call) :: w in x.store.workers)
    && (!x.call.NoCall? ==> x.store.draining)
    && (x.pc.Launching? ==> |x.store.pool| < x.store.cfg.concurrency)
  }

  /** A send being confirmed still owns its pipe; when it failed, its job is out of every child's reach. */
  ghost predicate Confirmable(n: Net, pc: Pc) {
    pc.Confirming? && pc.w in n.s.workers ==>
      && n.s.workers[pc.w].sending
      && (forall i | 0 <= i < |pc.sends| :: pc.sends[i].worker != pc.w)
      && (pc.failed ==> forall id, v | n.s.workers[pc.w].job == Some(id) :: !Claim(n, v, id))
  }

  /** A child read again has exited, and once read out it has no job. */
  ghost predicate Rereading(s: Store, ch: map<WorkerId, Child>, pc: Pc) {
    && (pc.Reading? && pc.again ==> pc.w in ch && ch[pc.w].phase.Done?)
    && (pc.Read? && pc.again && pc.w in s.workers ==> s.workers[pc.w].job.None?)
  }

  /** After drain no job is queued. */
  ghost predicate Drained(s: Store, call: Call) {
    s.draining && call.NoCall? ==> NoneQueued(s)
  }

  ghost predicate NoneQueued(s: Store) {
    forall id | id in s.jobs :: !s.jobs[id].status.Queued?
  }

  /** A job in memory was submitted here, or read back from the table. */
  ghost predicate Origins(s: Store) {
    forall id | id in s.jobs :: id in s.past.issued || id in s.past.restored
  }

  ghost predicate Pcs(x: Sys) {
    && Placed(x) && Confirmable(NetOf(x), x.pc) && Rereading(x.store, x.children, x.pc)
    && Drained(x.store, x.call) && Origins(x.store)
  }

  /** What every reachable state satisfies. */
  ghost predicate Inv(x: Sys) {
    Good(NetOf(x)) && Pcs(x)
  }

  lemma InvCallable(x: Sys)
    requires Inv(x)
    ensures Linked(x.store) && (forall i | i in x.store.order :: i in x.store.jobs)
    ensures forall w | w in x.store.pool :: w in x.store.workers
    ensures x.children.Keys == x.store.workers.Keys && x.store.cfg.Legal()
  {
    hide Pcs;
    Callable(x.store, {}, {});
  }

  // ---------------------------------------------------------------- steps of the store that give no job to a child

  lemma CalmWorker(s: Store, t: Store, w: WorkerId, freed: set<JobId>, won: set<JobId>)
    requires Valid(t, {}, {}) && Calm(s, t, freed, won) && w in s.workers
    ensures w in t.workers && t.workers[w].sending == s.workers[w].sending
    ensures t.workers[w].job.None? || t.workers[w].job == s.workers[w].job
  {
    assert Untouched(s.workers[w], t.workers[w], won);
    if t.workers[w].job.Some? {
      JobActive(t, w);
    }
  }

  lemma CalmPlaced(x: Sys, t: Store, freed: set<JobId>, won: set<JobId>)
    requires Placed(x) && Drained(x.store, x.call) && Origins(x.store) && Calm(x.store, t, freed, won)
    ensures Placed(x.(store := t)) && Drained(t, x.call) && Origins(t)
  {
  }

  lemma CalmRereading(s: Store, t: Store, ch: map<WorkerId, Child>, pc: Pc, freed: set<JobId>, won: set<JobId>)
    requires Rereading(s, ch, pc) && Valid(t, {}, {}) && Calm(s, t, freed, won) && t.workers.Keys == s.workers.Keys
    ensures Rereading(t, ch, pc)
  {
    hide Valid, Calm;
    if pc.Read? && pc.w in s.workers {
      CalmWorker(s, t, pc.w, freed, won);
    }
  }

  lemma CalmConfirmable(n: Net, t: Store, pc: Pc, freed: set<JobId>, won: set<JobId>)
    requires Valid(t, {}, {}) && Lines(n) && Confirmable(n, pc) && Calm(n.s, t, freed, won)
    requires t.workers.Keys == n.s.workers.Keys
    ensures Confirmable(n.(s := t), pc)
  {
    hide Valid, Calm, Lines, Claim;
    KeysOf(n);
    CalmLines(n, t, freed, won);
    if pc.Confirming? && pc.w in t.workers {
      CalmWorker(n.s, t, pc.w, freed, won);
    }
  }

  lemma KeysOf(n: Net)
    requires Lines(n)
    ensures n.ch.Keys == n.s.workers.Keys
  {
  }

  lemma CalmKeys(s: Store, t: Store, freed: set<JobId>, won: set<JobId>)
    requires Calm(s, t, freed, won)
    ensures t.workers.Keys == s.workers.Keys
  {
  }

  lemma CalmPcs(x: Sys, t: Store, freed: set<JobId>, won: set<JobId>)
    requires Lines(NetOf(x)) && Pcs(x) && Valid(t, {}, {}) && Calm(x.store, t, freed, won)
    ensures Pcs(x.(store := t))
  {
    hide Valid, Calm, Lines, Placed, Confirmable, Rereading, Drained, Origins;
    CalmKeys(x.store, t, freed, won);
    CalmPlaced(x, t, freed, won);
    CalmRereading(x.store, t, x.children, x.pc, freed, won);
    CalmConfirmable(NetOf(x), t, x.pc, freed, won);
  }

  lemma LinesOf(n: Net)
    requires Good(n)
    ensures Lines(n)
  {
    hide Valid;
  }

  /** The common case: the store moves without giving or taking a job. */
  lemma QuietInv(x: Sys, t: Store)
    requires Inv(x) && Valid(t, {}, {}) && Calm(x.store, t, {}, {})
    ensures Inv(x.(store := t))
  {
    hide Valid, Calm, Core, Pcs;
    QuietGood(NetOf(x), t);
    LinesOf(NetOf(x));
    CalmPcs(x, t, {}, {});
  }
}
