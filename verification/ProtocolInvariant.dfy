/** What every state of the service satisfies: each job is in at most one place between its dispatch and its start. */
module ProtocolInvariant {
  import opened Wrappers
  import opened JobTypes
  import opened StoreModel
  import opened StoreInvariant
  import opened StoreSteps
  import opened Protocol

  /** What the claims below are about: the store, the children, the sends not yet made, and what has happened. */
  datatype Net = Net(
    s: Store, ch: map<WorkerId, Child>, pend: seq<Send>, starts: seq<Start>, computed: map<JobId, Outcome>)

  function PendingSends(pc: Pc): seq<Send> {
    if pc.Sending? || pc.Confirming? then pc.sends else []
  }

  function NetOf(x: Sys): Net {
    Net(x.store, x.children, PendingSends(x.pc), x.starts, x.computed)
  }

  // ---------------------------------------------------------------- the work on its way to a child

  function Runs(outbox: seq<Command>): seq<Work> {
    if outbox == [] then []
    else (if outbox[0].Run? then [outbox[0].work] else []) + Runs(outbox[1..])
  }

  function PendFor(pend: seq<Send>, w: WorkerId): seq<Work> {
    if pend == [] then []
    else (if pend[0].worker == w then [pend[0].work] else []) + PendFor(pend[1..], w)
  }

  function GotBy(c: Child): seq<Work> {
    if c.phase.Got? then [c.phase.work] else []
  }

  /** The work dispatched to a child that it has not begun: read by it, in its pipe, or not sent yet. */
  function Line(c: Child, k: Worker, pend: seq<Send>, w: WorkerId): seq<Work> {
    GotBy(c) + Runs(k.outbox) + PendFor(pend, w)
  }

  function LineOf(n: Net, w: WorkerId): seq<Work> {
    if w in n.ch && w in n.s.workers then Line(n.ch[w], n.s.workers[w], n.pend, w) else []
  }

  ghost predicate Began(starts: seq<Start>, w: WorkerId, id: JobId) {
    exists i | 0 <= i < |starts| :: starts[i].worker == w && starts[i].work.id == id
  }

  /** The child has begun the job, or still may. */
  ghost predicate Claim(n: Net, w: WorkerId, id: JobId) {
    || Began(n.starts, w, id)
    || (w in n.ch && !n.ch[w].phase.Done? && LineOf(n, w) != [] && LineOf(n, w)[0].id == id)
  }

  // ---------------------------------------------------------------- the parts of the invariant

  /** At most one piece of work, one that was submitted, is on its way to a child, and if the child is in service it is
      its job. */
  ghost predicate OneLine(n: Net, w: WorkerId)
    requires w in n.ch && w in n.s.workers
  {
    && (LineOf(n, w) == [] || InHand(LineOf(n, w), n.s.workers[w], n.s.past))
    && (!n.ch[w].alive ==> n.ch[w].phase.Done?)
  }

  predicate InHand(line: seq<Work>, k: Worker, past: History) {
    && |line| == 1 && (k.retiredAt.Some? || k.job == Some(line[0].id))
    && line[0].id in past.issued && past.issued[line[0].id] == line[0]
  }

  ghost predicate Lines(n: Net) {
    n.ch.Keys == n.s.workers.Keys && forall w | w in n.ch :: OneLine(n, w)
  }

  /** The sends not yet made are for children that still own their pipes. */
  ghost predicate Posts(n: Net) {
    forall i | 0 <= i < |n.pend| :: n.pend[i].worker in n.s.workers && n.s.workers[n.pend[i].worker].sending
  }

  /** A job has at most one child that has begun it or may, and while unfinished that is the child it was given to. */
  ghost predicate Claims(n: Net) {
    && (forall v, w, id | Claim(n, v, id) && Claim(n, w, id) :: v == w)
    && (forall w, id | Claim(n, w, id) && Unfinished(n.s, id) :: id in n.s.active && n.s.active[id] == w)
    && (forall w, id | Began(n.starts, w, id) && LineOf(n, w) != [] :: LineOf(n, w)[0].id != id)
  }

  /** No job is begun twice, and what is begun is what was submitted. */
  ghost predicate Once(n: Net) {
    && (forall i, j | 0 <= i < j < |n.starts| :: n.starts[i].work.id != n.starts[j].work.id)
    && (forall i | 0 <= i < |n.starts| ::
          && n.starts[i].worker in n.ch
          && n.starts[i].work.id in n.s.past.issued && n.s.past.issued[n.starts[i].work.id] == n.starts[i].work)
  }

  /** A child executes what it has begun and not yet answered, and computes only for such jobs. */
  ghost predicate Computing(n: Net) {
    && (forall w | w in n.ch && n.ch[w].phase.Executing? ::
          Began(n.starts, w, n.ch[w].phase.work.id) && n.ch[w].phase.work.id !in n.computed)
    && (forall id | id in n.computed :: Began(n.starts, n.computed[id].worker, id))
  }

  predicate About(m: Message, id: JobId) {
    !m.Ready? && !m.Loaded? && m.id == id
  }

  /** A child writes only about jobs it has begun, and a value only if it computed it. */
  ghost predicate Mail(n: Net) {
    && (forall w, m, id | w in n.s.workers && m in n.s.workers[w].inbox && About(m, id) :: Began(n.starts, w, id))
    && (forall w, m | w in n.s.workers && m in n.s.workers[w].inbox && m.Returned? ::
          m.id in n.computed && n.computed[m.id] == Outcome(w, m.value))
  }

  /** A job still queued that its child has begun has its start waiting to be read. */
  ghost predicate Unread(n: Net) {
    forall id | id in n.s.active && id in n.s.jobs && n.s.jobs[id].status.Queued? && n.s.active[id] in n.s.workers
                && Began(n.starts, n.s.active[id], id) ::
      Started(id) in n.s.workers[n.s.active[id]].inbox
  }

  /** A job that succeeded here has the value computed for it. */
  ghost predicate Answered(n: Net) {
    forall id | id in n.s.jobs && n.s.jobs[id].status.Succeeded? && id !in n.s.past.restored ::
      id in n.computed && n.s.jobs[id].result == Some(n.computed[id].value)
  }

  ghost predicate Core(n: Net) {
    && Lines(n) && Posts(n) && Claims(n) && Once(n) && Computing(n) && Mail(n) && Unread(n) && Answered(n)
  }

  // ---------------------------------------------------------------- calm steps of the store

  lemma {:induction false} RunsAppend(a: seq<Command>, b: seq<Command>)
    ensures Runs(a + b) == Runs(a) + Runs(b)
  {
    if a == [] {
      assert a + b == b;
    } else {
      RunsAppend(a[1..], b);
      assert (a + b)[0] == a[0] && (a + b)[1..] == a[1..] + b;
      var head := if a[0].Run? then [a[0].work] else [];
      assert Runs(a + b) == head + Runs(a[1..] + b);
      assert head + (Runs(a[1..]) + Runs(b)) == head + Runs(a[1..]) + Runs(b);
    }
  }

  lemma {:induction false} RunsStops(b: seq<Command>)
    requires forall i | 0 <= i < |b| :: b[i] == Stop
    ensures Runs(b) == []
  {
    if b != [] {
      RunsStops(b[1..]);
    }
  }

  lemma UntouchedLine(c: Child, k: Worker, l: Worker, pend: seq<Send>, w: WorkerId, won: set<JobId>)
    requires Untouched(k, l, won)
    ensures Line(c, l, pend, w) == Line(c, k, pend, w)
  {
    var more := l.outbox[|k.outbox|..];
    assert l.outbox == k.outbox + more;
    RunsAppend(k.outbox, more);
    RunsStops(more);
  }

  lemma CalmLines(n: Net, t: Store, freed: set<JobId>, won: set<JobId>)
    requires Calm(n.s, t, freed, won) && n.ch.Keys == n.s.workers.Keys
    ensures forall w :: LineOf(n.(s := t), w) == LineOf(n, w)
    ensures forall w, id :: Claim(n.(s := t), w, id) <==> Claim(n, w, id)
  {
    forall w ensures LineOf(n.(s := t), w) == LineOf(n, w) {
      if w in n.ch {
        UntouchedLine(n.ch[w], n.s.workers[w], t.workers[w], n.pend, w, won);
      }
    }
  }

  /** A child that drops its job without leaving service has nothing on its way. */
  ghost predicate Emptied(n: Net, won: set<JobId>) {
    forall w | w in n.ch && w in n.s.workers && n.s.workers[w].job.Some? && n.s.workers[w].job.value in won :: LineOf(n, w) == []
  }

  /** Nobody has begun or may begin the queued jobs that lose their child. */
  ghost predicate Unclaimed(n: Net, freed: set<JobId>) {
    forall w, id | id in freed && id in n.s.jobs && n.s.jobs[id].status.Queued? :: !Claim(n, w, id)
  }

  lemma CalmKeepsLines(n: Net, t: Store, freed: set<JobId>, won: set<JobId>)
    requires Lines(n) && Posts(n) && Calm(n.s, t, freed, won) && Emptied(n, won)
    ensures Lines(n.(s := t)) && Posts(n.(s := t))
  {
    hide LineOf, Untouched;
    CalmLines(n, t, freed, won);
    forall w | w in n.ch ensures OneLine(n.(s := t), w) && w in t.workers && (n.s.workers[w].sending ==> t.workers[w].sending) {
      CalmOneLine(n, t, won, w);
    }
  }

  lemma CalmOneLine(n: Net, t: Store, won: set<JobId>, w: WorkerId)
    requires w in n.ch && w in n.s.workers && w in t.workers && OneLine(n, w) && Emptied(n, won)
    requires Untouched(n.s.workers[w], t.workers[w], won) && t.past.issued == n.s.past.issued
    requires LineOf(n.(s := t), w) == LineOf(n, w)
    ensures OneLine(n.(s := t), w) && (n.s.workers[w].sending ==> t.workers[w].sending)
  {
    hide LineOf;
  }

  lemma CalmKeepsClaims(n: Net, t: Store, freed: set<JobId>, won: set<JobId>)
    requires Valid(t, {}, {}) && Lines(n) && Claims(n) && Calm(n.s, t, freed, won) && Unclaimed(n, freed)
    ensures Claims(n.(s := t))
  {
    CalmLines(n, t, freed, won);
    LostQueued(t);
    forall w, id | Claim(n, w, id) && Unfinished(t, id) ensures id in t.active && t.active[id] == w {
      assert Unfinished(n.s, id);
    }
  }

  /** An unfinished job without a child is queued. */
  lemma LostQueued(t: Store)
    requires Valid(t, {}, {})
    ensures forall id | Unfinished(t, id) && id !in t.active :: t.jobs[id].status.Queued?
  {
    forall id | Unfinished(t, id) && id !in t.active ensures t.jobs[id].status.Queued? {
      assert Going(t.jobs, id);
    }
  }

  lemma CalmKeepsMail(n: Net, t: Store, freed: set<JobId>, won: set<JobId>)
    requires Calm(n.s, t, freed, won)
    ensures Mail(n) ==> Mail(n.(s := t))
    ensures Unread(n) ==> Unread(n.(s := t))
    ensures Once(n) ==> Once(n.(s := t))
    ensures Computing(n) ==> Computing(n.(s := t))
  {
    forall w | w in n.s.workers ensures t.workers[w].inbox == n.s.workers[w].inbox {
      assert Untouched(n.s.workers[w], t.workers[w], won);
    }
  }

  lemma CalmKeepsAnswers(n: Net, t: Store, freed: set<JobId>, won: set<JobId>)
    requires Calm(n.s, t, freed, won) && Answered(n)
    requires forall id | id in won && id in t.jobs && t.jobs[id].status.Succeeded? && id !in t.past.restored ::
               id in n.computed && t.jobs[id].result == Some(n.computed[id].value)
    ensures Answered(n.(s := t))
  {
  }

  lemma CalmCore(n: Net, t: Store, freed: set<JobId>, won: set<JobId>)
    requires Core(n) && Valid(t, {}, {}) && Calm(n.s, t, freed, won) && Emptied(n, won) && Unclaimed(n, freed)
    requires forall id | id in won && id in t.jobs && t.jobs[id].status.Succeeded? && id !in t.past.restored ::
               id in n.computed && t.jobs[id].result == Some(n.computed[id].value)
    ensures Core(n.(s := t))
  {
    hide Valid, Calm, Lines, Posts, Claims, Once, Computing, Mail, Unread, Answered, Emptied, Unclaimed;
    CalmKeepsLines(n, t, freed, won);
    CalmKeepsClaims(n, t, freed, won);
    CalmKeepsMail(n, t, freed, won);
    CalmKeepsAnswers(n, t, freed, won);
  }

  /** The common case: no job loses its child unfinished, and none is ended by its child. */
  lemma QuietCore(n: Net, t: Store)
    requires Core(n) && Valid(t, {}, {}) && Calm(n.s, t, {}, {})
    ensures Core(n.(s := t))
  {
    CalmCore(n, t, {}, {});
  }
}
