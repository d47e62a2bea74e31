/** A child's own steps keep the invariant of the service. */
module ChildSteps {
  import opened Wrappers
  import opened JobTypes
  import opened StoreModel
  import opened StoreInvariant
  import opened StoreSteps
  import opened Protocol
  import opened ProtocolInvariant

  /** Only one child's phase and its two pipes differ. */
  ghost predicate Local(n: Net, m: Net, w: WorkerId) {
    && w in n.ch && w in n.s.workers && w in m.ch && w in m.s.workers
    && m.ch == n.ch[w := m.ch[w]]
    && m.s == n.s.(workers := n.s.workers[w := m.s.workers[w]])
    && m.s.workers[w] == n.s.workers[w].(inbox := m.s.workers[w].inbox, outbox := m.s.workers[w].outbox)
    && m.pend == n.pend
    && (n.ch[w].phase.Done? ==> m.ch[w].phase.Done?)
  }

  lemma LocalLines(n: Net, m: Net, w: WorkerId)
    requires Local(n, m, w)
    ensures forall v | v != w :: LineOf(m, v) == LineOf(n, v)
  {
  }

  /** A step that changes no line, or ends the child. */
  ghost predicate SameLine(n: Net, m: Net, w: WorkerId) {
    && Local(n, m, w)
    && (LineOf(m, w) == LineOf(n, w) || (LineOf(m, w) == [] && m.ch[w].phase.Done?))
    && (!m.ch[w].alive ==> m.ch[w].phase.Done?)
  }

  lemma LocalPosts(n: Net, m: Net, w: WorkerId)
    requires SameLine(n, m, w) && Lines(n) && Posts(n)
    ensures Lines(m) && Posts(m)
  {
    hide LineOf, Lines, Posts, Local;
    LocalLines(n, m, w);
    LocalOthers(n, m, w);
    LocalOneLine(n, m, w);
    LocalSends(n, m);
  }

  /** What a step of one child leaves as it was. */
  lemma LocalOthers(n: Net, m: Net, w: WorkerId)
    requires Local(n, m, w)
    ensures m.ch.Keys == n.ch.Keys && m.s.workers.Keys == n.s.workers.Keys && w in n.ch && w in n.s.workers
    ensures forall v | v in n.ch && v != w :: m.ch[v] == n.ch[v]
    ensures forall v | v in n.s.workers :: Like(n.s.workers[v], m.s.workers[v])
    ensures m.pend == n.pend && m.s.past == n.s.past
  {
  }

  predicate Like(k: Worker, l: Worker) {
    l == k.(inbox := l.inbox, outbox := l.outbox)
  }

  lemma LocalOneLine(n: Net, m: Net, w: WorkerId)
    requires Lines(n) && m.ch.Keys == n.ch.Keys && m.s.workers.Keys == n.s.workers.Keys && w in n.ch && m.s.past == n.s.past
    requires forall v | v in n.ch && v != w :: m.ch[v] == n.ch[v] && LineOf(m, v) == LineOf(n, v)
    requires forall v | v in n.s.workers :: Like(n.s.workers[v], m.s.workers[v])
    requires LineOf(m, w) == LineOf(n, w) || (LineOf(m, w) == [] && m.ch[w].phase.Done?)
    requires !m.ch[w].alive ==> m.ch[w].phase.Done?
    ensures Lines(m)
  {
    hide LineOf;
  }

  lemma LocalSends(n: Net, m: Net)
    requires Posts(n) && m.pend == n.pend && m.s.workers.Keys == n.s.workers.Keys
    requires forall v | v in n.s.workers :: Like(n.s.workers[v], m.s.workers[v])
    ensures Posts(m)
  {
  }

  /** No child gets a claim on a job. */
  ghost predicate NoNewClaims(n: Net, m: Net) {
    forall v, id | Claim(m, v, id) :: Claim(n, v, id)
  }

  lemma LocalClaims(n: Net, m: Net, w: WorkerId)
    requires SameLine(n, m, w) && Claims(n) && m.starts == n.starts
    ensures Claims(m) && NoNewClaims(n, m)
  {
    LocalLines(n, m, w);
    forall v, id | Claim(m, v, id) ensures Claim(n, v, id) {
    }
  }

  lemma LocalKeeps(n: Net, m: Net, w: WorkerId)
    requires SameLine(n, m, w) && Lines(n) && Posts(n) && Claims(n) && m.starts == n.starts
    ensures Lines(m) && Posts(m) && Claims(m) && NoNewClaims(n, m)
  {
    LocalPosts(n, m, w);
    LocalClaims(n, m, w);
  }

  /** A child that neither takes nor begins work keeps its line. */
  lemma StillLine(n: Net, m: Net, w: WorkerId)
    requires Local(n, m, w) && Lines(n) && m.s.workers[w].outbox == n.s.workers[w].outbox
    requires !n.ch[w].phase.Got? && !m.ch[w].phase.Got? && !n.ch[w].phase.Done? && m.ch[w].alive == n.ch[w].alive
    ensures SameLine(n, m, w)
  {
  }

  lemma LocalValid(n: Net, m: Net, w: WorkerId)
    requires Local(n, m, w) && Valid(n.s, {}, {})
    requires Stop in m.s.workers[w].outbox <==> Stop in n.s.workers[w].outbox
    ensures Valid(m.s, {}, {})
  {
    hide Valid;
    SoundOf(n.s, w);
    MarkKeeps(n.s, w, m.s.workers[w]);
  }

  /** Messages about jobs the child has begun, and values it computed, may be written. */
  lemma WroteMail(n: Net, m: Net, w: WorkerId, ms: seq<Message>)
    requires Local(n, m, w) && Mail(n) && Unread(n) && Answered(n) && Once(n)
    requires m.s.workers[w].inbox == n.s.workers[w].inbox + ms && m.starts == n.starts
    requires forall i | 0 <= i < |ms| :: ms[i].Ready? || ms[i].Loaded? || Began(n.starts, w, ms[i].id)
    requires forall i | 0 <= i < |ms| && ms[i].Returned? ::
               ms[i].id in m.computed && m.computed[ms[i].id] == Outcome(w, ms[i].value)
    requires forall id | id in n.computed :: id in m.computed && m.computed[id] == n.computed[id]
    ensures Mail(m) && Unread(m) && Answered(m) && Once(m)
  {
  }

  lemma SilentComputing(n: Net, m: Net, w: WorkerId)
    requires Local(n, m, w) && Computing(n) && m.starts == n.starts && m.computed == n.computed
    requires m.ch[w].phase.Executing? ==> n.ch[w].phase == m.ch[w].phase
    ensures Computing(m)
  {
  }

  ghost predicate Good(n: Net) {
    Valid(n.s, {}, {}) && Core(n)
  }

  lemma AnnounceKeeps(n: Net, m: Net, w: WorkerId, message: Message)
    requires Good(n) && Local(n, m, w) && m.starts == n.starts && m.computed == n.computed
    requires n.ch[w].phase.Starting? || n.ch[w].phase.Announced?
    requires m.ch[w] == n.ch[w].(phase := m.ch[w].phase) && (m.ch[w].phase.Announced? || m.ch[w].phase.Waiting?)
    requires message.Ready? || message.Loaded?
    requires m.s.workers[w] == n.s.workers[w].(inbox := n.s.workers[w].inbox + [message])
    ensures Good(m) && NoNewClaims(n, m)
  {
    hide Valid, Lines, Claims, Once, Computing, Mail, Unread, Answered, Posts, NoNewClaims;
    LocalValid(n, m, w);
    StillLine(n, m, w);
    LocalKeeps(n, m, w);
    WroteMail(n, m, w, [message]);
    SilentComputing(n, m, w);
  }

  lemma WorkingBegan(n: Net, w: WorkerId)
    requires Computing(n) && w in n.ch && n.ch[w].phase.Executing?
    ensures Began(n.starts, w, n.ch[w].phase.work.id) && n.ch[w].phase.work.id !in n.computed
  {
  }

  lemma ReportKeeps(n: Net, m: Net, w: WorkerId, message: Message)
    requires Good(n) && Local(n, m, w) && m.starts == n.starts && m.computed == n.computed
    requires n.ch[w].phase.Executing? && (m.ch[w] == n.ch[w] || m.ch[w] == n.ch[w].(phase := Waiting))
    requires message.Progressed? || message.Raised?
    requires message.id == n.ch[w].phase.work.id
    requires m.s.workers[w] == n.s.workers[w].(inbox := n.s.workers[w].inbox + [message])
    ensures Good(m) && NoNewClaims(n, m)
  {
    hide Valid, Lines, Claims, Once, Computing, Mail, Unread, Answered, Posts, NoNewClaims;
    WorkingBegan(n, w);
    LocalValid(n, m, w);
    StillLine(n, m, w);
    LocalKeeps(n, m, w);
    WroteMail(n, m, w, [message]);
    SilentComputing(n, m, w);
  }

  lemma ReplyComputing(n: Net, m: Net, w: WorkerId, v: Value)
    requires Local(n, m, w) && Computing(n) && Claims(n) && m.starts == n.starts
    requires n.ch[w].phase.Executing? && m.ch[w].phase.Waiting?
    requires m.computed == n.computed[n.ch[w].phase.work.id := Outcome(w, v)]
    ensures Computing(m)
  {
    var id := n.ch[w].phase.work.id;
    forall u | u in m.ch && m.ch[u].phase.Executing? ensures m.ch[u].phase.work.id != id {
      if m.ch[u].phase.work.id == id {
        assert Claim(n, u, id) && Claim(n, w, id);
      }
    }
  }

  lemma ReplyKeeps(n: Net, m: Net, w: WorkerId, v: Value)
    requires Good(n) && Local(n, m, w) && m.starts == n.starts
    requires n.ch[w].phase.Executing? && m.ch[w] == n.ch[w].(phase := Waiting)
    requires m.computed == n.computed[n.ch[w].phase.work.id := Outcome(w, v)]
    requires m.s.workers[w] ==
             n.s.workers[w].(inbox := n.s.workers[w].inbox + [Returned(n.ch[w].phase.work.id, v)])
    ensures Good(m) && NoNewClaims(n, m)
  {
    hide Valid, Lines, Claims, Once, Computing, Mail, Unread, Answered, Posts, NoNewClaims;
    WorkingBegan(n, w);
    LocalValid(n, m, w);
    StillLine(n, m, w);
    LocalKeeps(n, m, w);
    WroteMail(n, m, w, [Returned(n.ch[w].phase.work.id, v)]);
    ReplyComputing(n, m, w, v);
  }

  lemma TakenLine(n: Net, m: Net, w: WorkerId)
    requires Local(n, m, w) && n.ch[w].phase.Waiting?
    requires n.s.workers[w].outbox != [] && n.s.workers[w].outbox[0].Run?
    requires m.ch[w].phase == Got(n.s.workers[w].outbox[0].work)
    requires m.s.workers[w].outbox == n.s.workers[w].outbox[1..] && Lines(n) && m.ch[w].alive == n.ch[w].alive
    ensures SameLine(n, m, w)
  {
  }

  lemma ReceiveKeeps(n: Net, m: Net, w: WorkerId)
    requires Good(n) && Local(n, m, w) && m.starts == n.starts && m.computed == n.computed
    requires n.ch[w].phase.Waiting? && n.s.workers[w].outbox != [] && n.s.workers[w].outbox[0].Run?
    requires m.ch[w] == n.ch[w].(phase := Got(n.s.workers[w].outbox[0].work))
    requires m.s.workers[w] == n.s.workers[w].(outbox := n.s.workers[w].outbox[1..])
    ensures Good(m) && NoNewClaims(n, m)
  {
    hide Valid, Lines, Claims, Once, Computing, Mail, Unread, Answered, Posts, NoNewClaims;
    TakenLine(n, m, w);
    LocalValid(n, m, w);
    LocalKeeps(n, m, w);
    assert m.s.workers[w].inbox == n.s.workers[w].inbox + [];
    WroteMail(n, m, w, []);
    SilentComputing(n, m, w);
  }

  lemma LeaveKeeps(n: Net, m: Net, w: WorkerId)
    requires Good(n) && Local(n, m, w) && m.starts == n.starts && m.computed == n.computed && m.s == n.s
    requires m.ch[w].phase.Done?
    ensures Good(m) && NoNewClaims(n, m)
  {
    hide Valid, Lines, Claims, Once, Computing, Mail, Unread, Answered, Posts, NoNewClaims;
    LeftLine(n, m, w);
    LocalKeeps(n, m, w);
    assert m.s.workers[w].inbox == n.s.workers[w].inbox + [];
    WroteMail(n, m, w, []);
    SilentComputing(n, m, w);
  }

  lemma LeftLine(n: Net, m: Net, w: WorkerId)
    requires Local(n, m, w) && Lines(n) && m.s == n.s && m.ch[w].phase.Done?
    ensures SameLine(n, m, w)
  {
  }

  // ---------------------------------------------------------------- beginning a job

  lemma {:induction false} BeganMore(starts: seq<Start>, one: Start)
    ensures forall w, id :: Began(starts + [one], w, id) <==> Began(starts, w, id) || (w == one.worker && id == one.work.id)
  {
    forall w, id
      ensures Began(starts + [one], w, id) <==> Began(starts, w, id) || (w == one.worker && id == one.work.id)
    {
      if Began(starts, w, id) {
        var i :| 0 <= i < |starts| && starts[i].worker == w && starts[i].work.id == id;
        assert (starts + [one])[i] == starts[i];
      }
      if w == one.worker && id == one.work.id {
        assert (starts + [one])[|starts|] == one;
      }
      if Began(starts + [one], w, id) && !(w == one.worker && id == one.work.id) {
        var i :| 0 <= i < |starts| + 1 && (starts + [one])[i].worker == w && (starts + [one])[i].work.id == id;
        assert i < |starts| && starts[i] == (starts + [one])[i];
      }
    }
  }

  ghost predicate Beginning(n: Net, m: Net, w: WorkerId) {
    && Local(n, m, w) && n.ch[w].phase.Got? && m.computed == n.computed
    && m.ch[w] == n.ch[w].(phase := Executing(n.ch[w].phase.work))
    && m.starts == n.starts + [Start(w, n.ch[w].phase.work)]
    && m.s.workers[w] == n.s.workers[w].(inbox := n.s.workers[w].inbox + [Started(n.ch[w].phase.work.id)])
  }

  lemma BeginningLine(n: Net, m: Net, w: WorkerId)
    requires Beginning(n, m, w) && Lines(n)
    ensures LineOf(n, w) == [n.ch[w].phase.work] && LineOf(m, w) == []
  {
  }

  /** Nobody has begun the job before. */
  lemma BeginningFresh(n: Net, w: WorkerId, id: JobId)
    requires Claims(n) && Computing(n) && w in n.ch && n.ch[w].phase.Got? && LineOf(n, w) != [] && LineOf(n, w)[0].id == id
    ensures forall v :: !Began(n.starts, v, id)
    ensures id !in n.computed
  {
    assert Claim(n, w, id);
    forall v ensures !Began(n.starts, v, id) {
      if Began(n.starts, v, id) {
        assert Claim(n, v, id);
      }
    }
  }

  lemma BeginningOneLine(n: Net, m: Net, w: WorkerId)
    requires Beginning(n, m, w) && Lines(n)
    ensures Lines(m)
  {
    hide LineOf;
    BeginningLine(n, m, w);
    LocalLines(n, m, w);
  }

  lemma BeginningPosts(n: Net, m: Net, w: WorkerId)
    requires Beginning(n, m, w) && Posts(n)
    ensures Posts(m)
  {
  }

  lemma BeginningLines(n: Net, m: Net, w: WorkerId)
    requires Beginning(n, m, w) && Lines(n) && Posts(n)
    ensures Lines(m) && Posts(m)
  {
    hide Lines, Posts;
    BeginningOneLine(n, m, w);
    BeginningPosts(n, m, w);
  }

  lemma BeginningClaims(n: Net, m: Net, w: WorkerId)
    requires Beginning(n, m, w) && Lines(n) && Claims(n)
    ensures Claims(m) && NoNewClaims(n, m)
  {
    hide Lines, LineOf;
    BeginningLine(n, m, w);
    LocalLines(n, m, w);
    BeganMore(n.starts, Start(w, n.ch[w].phase.work));
    forall v, id ensures Claim(m, v, id) <==> Claim(n, v, id) {
    }
  }

  lemma BeginningOnce(n: Net, m: Net, w: WorkerId)
    requires Beginning(n, m, w) && Lines(n) && Claims(n) && Once(n) && Computing(n)
    ensures Once(m)
  {
    hide LineOf, Claims, Computing;
    BeginningLine(n, m, w);
    var work := n.ch[w].phase.work;
    BeginningFresh(n, w, work.id);
    forall i | 0 <= i < |n.starts| ensures n.starts[i].work.id != work.id {
      assert Began(n.starts, n.starts[i].worker, n.starts[i].work.id);
    }
  }

  lemma BeginningComputing(n: Net, m: Net, w: WorkerId)
    requires Beginning(n, m, w) && Lines(n) && Claims(n) && Computing(n)
    ensures Computing(m)
  {
    hide LineOf, Claims, Lines;
    BeginningLine(n, m, w);
    BeganMore(n.starts, Start(w, n.ch[w].phase.work));
    BeginningFresh(n, w, n.ch[w].phase.work.id);
  }

  lemma BeginningMail(n: Net, m: Net, w: WorkerId)
    requires Beginning(n, m, w) && Mail(n) && Unread(n) && Answered(n)
    ensures Mail(m) && Unread(m) && Answered(m)
  {
    BeganMore(n.starts, Start(w, n.ch[w].phase.work));
  }

  lemma BeginKeeps(n: Net, m: Net, w: WorkerId)
    requires Good(n) && Beginning(n, m, w)
    ensures Good(m) && NoNewClaims(n, m)
  {
    hide Valid, Lines, Claims, Once, Computing, Mail, Unread, Answered, Posts, NoNewClaims;
    LocalValid(n, m, w);
    BeginningLines(n, m, w);
    BeginningClaims(n, m, w);
    BeginningOnce(n, m, w);
    BeginningComputing(n, m, w);
    BeginningMail(n, m, w);
  }
}
