/** The parent's steps, the coordinator's and the other threads', keep the invariant of the service. */
module ParentSteps {
  import opened Wrappers
  import opened JobTypes
  import opened StoreModel
  import opened StoreInvariant
  import opened StoreSteps
  import opened Dispatching
  import opened Protocol
  import opened ProtocolInvariant
  import opened ChildSteps

  // ---------------------------------------------------------------- single facts of the invariant

  lemma ClaimOwner(n: Net, w: WorkerId, id: JobId)
    requires Claims(n) && Claim(n, w, id) && Unfinished(n.s, id)
    ensures id in n.s.active && n.s.active[id] == w
  {
  }

  lemma MailBegan(n: Net, w: WorkerId, m: Message)
    requires Mail(n) && w in n.s.workers && m in n.s.workers[w].inbox && !m.Ready? && !m.Loaded?
    ensures Began(n.starts, w, m.id)
    ensures m.Returned? ==> m.id in n.computed && n.computed[m.id] == Outcome(w, m.value)
  {
    assert About(m, m.id);
  }

  lemma BeganOffLine(n: Net, w: WorkerId, id: JobId)
    requires Lines(n) && Claims(n) && Began(n.starts, w, id) && w in n.ch && w in n.s.workers
    requires n.s.workers[w].job == Some(id) && n.s.workers[w].retiredAt.None?
    ensures LineOf(n, w) == []
  {
  }

  lemma UnreadStart(n: Net, w: WorkerId, id: JobId)
    requires Unread(n) && id in n.s.active && id in n.s.jobs && n.s.jobs[id].status.Queued? && n.s.active[id] == w
    requires w in n.s.workers && Began(n.starts, w, id)
    ensures Started(id) in n.s.workers[w].inbox
  {
  }

  lemma JobActive(s: Store, w: WorkerId)
    requires Valid(s, {}, {}) && w in s.workers && s.workers[w].job.Some?
    ensures var id := s.workers[w].job.value;
            id in s.active && s.active[id] == w && Unfinished(s, id) && s.workers[w].retiredAt.None?
  {
    Basics(s, {}, {});
  }

  lemma ActiveJob(s: Store, id: JobId)
    requires Valid(s, {}, {}) && id in s.active
    ensures Unfinished(s, id) && s.active[id] in s.workers && s.workers[s.active[id]].job == Some(id)
  {
    Basics(s, {}, {});
  }

  lemma CalmRecord(s: Store, t: Store, id: JobId, freed: set<JobId>, won: set<JobId>)
    requires Calm(s, t, freed, won) && id in s.jobs && id in t.jobs && s.jobs[id].status.Terminal()
    ensures t.jobs[id] == s.jobs[id]
  {
  }

  // ---------------------------------------------------------------- reading a message

  lemma ReceivedLines(n: Net, w: WorkerId)
    requires w in n.s.workers && n.s.workers[w].inbox != []
    ensures forall v :: LineOf(n.(s := Received(n.s, w)), v) == LineOf(n, v)
  {
  }

  lemma ReceivedParts(n: Net, w: WorkerId)
    requires Lines(n) && Posts(n) && Once(n) && Computing(n) && Answered(n)
    requires w in n.s.workers && n.s.workers[w].inbox != []
    ensures var m := n.(s := Received(n.s, w)); Lines(m) && Posts(m) && Once(m) && Computing(m) && Answered(m)
  {
    hide LineOf;
    ReceivedLines(n, w);
  }

  lemma ReceivedClaims(n: Net, w: WorkerId)
    requires Claims(n) && w in n.s.workers && n.s.workers[w].inbox != []
    ensures Claims(n.(s := Received(n.s, w)))
  {
    hide Claim;
    SameClaims(n, w);
  }

  lemma SameClaims(n: Net, w: WorkerId)
    requires w in n.s.workers && n.s.workers[w].inbox != []
    ensures forall v, id :: Claim(n.(s := Received(n.s, w)), v, id) <==> Claim(n, v, id)
    ensures forall v :: LineOf(n.(s := Received(n.s, w)), v) == LineOf(n, v)
  {
    hide LineOf;
    ReceivedLines(n, w);
  }

  lemma LessMail(n: Net, w: WorkerId)
    requires Mail(n) && w in n.s.workers && n.s.workers[w].inbox != []
    ensures Mail(n.(s := Received(n.s, w)))
  {
    var m := n.(s := Received(n.s, w));
    forall v, x | v in m.s.workers && x in m.s.workers[v].inbox ensures x in n.s.workers[v].inbox {
    }
  }

  /** A child that reports a job's end has nothing else on its way. */
  lemma EndingEmptied(n: Net, w: WorkerId, m: Message)
    requires Good(n) && w in n.s.workers && m in n.s.workers[w].inbox
    ensures Emptied(n, Wins(m))
  {
    hide Valid, Lines, Posts, Claims, Once, Computing, Mail, Unread, Answered, LineOf;
    forall v | v in n.ch && v in n.s.workers && n.s.workers[v].job.Some? && n.s.workers[v].job.value in Wins(m)
      ensures LineOf(n, v) == []
    {
      MailBegan(n, w, m);
      JobActive(n.s, v);
      ClaimOwner(n, w, m.id);
      BeganOffLine(n, v, m.id);
    }
  }

  /** What a job's record says once its child has ended it. */
  lemma ConcludedRecord(s: Store, w: WorkerId, id: JobId, value: Option<Value>, env: Env)
    requires w in s.workers && id in s.jobs
    ensures var t := Concluded(s, w, id, value, env);
            id in t.jobs && t.jobs[id].status == (if value.Some? then Succeeded else Failed) && t.jobs[id].result == value
  {
  }

  lemma EndedRecord(s: Store, w: WorkerId, id: JobId, value: Option<Value>, env: Env)
    requires Valid(s, {}, {}) && w in s.workers && Heard(s, w, id)
    requires id in s.jobs && forall i | i in s.order :: i in s.jobs
    ensures var t := Ended(s, w, id, value, env);
            id in t.jobs && t.jobs[id].status == (if value.Some? then Succeeded else Failed) && t.jobs[id].result == value
  {
    hide Valid, Calm, Retire, Unassign, Write, Narrower, Finish, Concluded;
    ConcludedKeeps(s, w, id, value, env);
    var u := Concluded(s, w, id, value, env);
    ConcludedRecord(s, w, id, value, env);
    if u.workers[w].served >= u.cfg.maxJobs {
      RetireServing(u, w, true, false, env, {}, {w});
      CalmRecord(u, Retire(u, w, true, false, env), id, JobOf(u, w), {});
    }
  }

  lemma ReadAnswers(n: Net, w: WorkerId, m: Message, env: Env)
    requires Mail(n) && Answered(n) && w in n.s.workers && n.s.workers[w].inbox != [] && m == n.s.workers[w].inbox[0]
    requires Valid(Received(n.s, w), {}, {}) && forall id | id in n.s.order :: id in n.s.jobs
    ensures var t := Deliver(Received(n.s, w), w, m, env).0;
            forall id | id in Wins(m) && id in t.jobs && t.jobs[id].status.Succeeded? && id !in n.s.past.restored ::
              id in n.computed && t.jobs[id].result == Some(n.computed[id].value)
  {
    hide Valid, Mail, Ended;
    var r := Received(n.s, w);
    if m.Returned? || m.Raised? {
      MailBegan(n, w, m);
      if Heard(r, w, m.id) {
        EndedRecord(r, w, m.id, if m.Returned? then Some(m.value) else None, env);
      }
    }
  }

  lemma BegunRuns(s: Store, w: WorkerId, id: JobId, env: Env)
    requires w in s.workers && Heard(s, w, id) && forall i | i in s.order :: i in s.jobs
    ensures var t := Deliver(s, w, Started(id), env).0; id in t.jobs && t.jobs[id].status.Running?
  {
  }

  lemma CalmActive(s: Store, t: Store, id: JobId, won: set<JobId>)
    requires Calm(s, t, {}, won) && id in t.active && id in t.jobs && t.jobs[id].status.Queued?
    ensures id in s.active && s.active[id] == t.active[id] && id in s.jobs && s.jobs[id].status.Queued?
    ensures t.active[id] in s.workers && t.active[id] in t.workers ==>
              t.workers[t.active[id]].inbox == s.workers[t.active[id]].inbox
  {
    if t.active[id] in s.workers {
      assert Untouched(s.workers[t.active[id]], t.workers[t.active[id]], won);
    }
  }

  /** After a message is read, a start still unread is still in the pipe. */
  lemma ReadUnread(n: Net, w: WorkerId, m: Message, t: Store, env: Env)
    requires w in n.s.workers && n.s.workers[w].inbox != [] && m == n.s.workers[w].inbox[0]
    requires forall id | id in n.s.order :: id in n.s.jobs
    requires t == Deliver(Received(n.s, w), w, m, env).0 && Calm(Received(n.s, w), t, {}, Wins(m))
    requires Valid(n.s, {}, {}) && Unread(n)
    ensures Unread(n.(s := t))
  {
    var r := Received(n.s, w);
    forall id | id in t.active && id in t.jobs && t.jobs[id].status.Queued? && t.active[id] in t.workers
                && Began(n.starts, t.active[id], id)
      ensures Started(id) in t.workers[t.active[id]].inbox
    {
      ReadOneUnread(n, w, m, t, env, id);
    }
  }

  lemma ReadOneUnread(n: Net, w: WorkerId, m: Message, t: Store, env: Env, id: JobId)
    requires w in n.s.workers && n.s.workers[w].inbox != [] && m == n.s.workers[w].inbox[0]
    requires forall i | i in n.s.order :: i in n.s.jobs
    requires t == Deliver(Received(n.s, w), w, m, env).0 && Calm(Received(n.s, w), t, {}, Wins(m))
    requires Valid(n.s, {}, {}) && Unread(n)
    requires id in t.active && id in t.jobs && t.jobs[id].status.Queued? && t.active[id] in t.workers
    requires Began(n.starts, t.active[id], id)
    ensures Started(id) in t.workers[t.active[id]].inbox
  {
    hide Valid, Calm, Unread, Deliver, Began, Heard;
    var r := Received(n.s, w);
    CalmActive(r, t, id, Wins(m));
    ActiveJob(n.s, id);
    UnreadStart(n, t.active[id], id);
    if t.active[id] == w && m == Started(id) {
      assert Heard(r, w, id) by { HeardReceived(n.s, w, id); }
      BegunRuns(r, w, id, env);
    }
  }

  lemma HeardReceived(s: Store, w: WorkerId, id: JobId)
    requires w in s.workers && s.workers[w].inbox != [] && s.workers[w].job == Some(id) && Unfinished(s, id)
    ensures Heard(Received(s, w), w, id)
  {
  }

  lemma ReadKeeps(n: Net, w: WorkerId, env: Env)
    requires w in n.s.workers && n.s.workers[w].inbox != [] && forall id | id in n.s.order :: id in n.s.jobs
    requires Good(n)
    ensures Good(n.(s := Taken(n.s, w, env).0))
  {
    hide Valid, Calm, Lines, Posts, Claims, Once, Computing, Mail, Unread, Answered, Deliver, Emptied, Unclaimed, LineOf;
    var m := n.s.workers[w].inbox[0];
    var r := Received(n.s, w);
    var t := Deliver(r, w, m, env).0;
    var p := n.(s := r);
    ReceivedKeeps(n.s, w);
    ReceivedParts(n, w);
    ReceivedClaims(n, w);
    ReceivedLines(n, w);
    LessMail(n, w);
    DeliverKeeps(r, w, m, env);
    EndingEmptied(n, w, m);
    SameEmptied(n, w, Wins(m));
    NoneUnclaimed(p);
    CalmKeepsLines(p, t, {}, Wins(m));
    CalmKeepsClaims(p, t, {}, Wins(m));
    CalmKeepsMail(p, t, {}, Wins(m));
    ReadAnswers(n, w, m, env);
    DeliverPast(r, t, Wins(m));
    CalmKeepsAnswers(p, t, {}, Wins(m));
    ReadUnread(n, w, m, t, env);
  }

  lemma DeliverPast(s: Store, t: Store, won: set<JobId>)
    requires Calm(s, t, {}, won)
    ensures t.past.restored == s.past.restored
  {
  }

  lemma SameEmptied(n: Net, w: WorkerId, won: set<JobId>)
    requires Emptied(n, won) && w in n.s.workers && n.s.workers[w].inbox != []
    requires forall v :: LineOf(n.(s := Received(n.s, w)), v) == LineOf(n, v)
    ensures Emptied(n.(s := Received(n.s, w)), won)
  {
  }

  // ---------------------------------------------------------------- the end of a pipe

  /** Once a child's pipe has ended and is read out, nobody has begun its job if that is still queued. */
  lemma SilentUnclaimed(n: Net, w: WorkerId)
    requires Good(n) && w in n.s.workers && n.s.workers[w].inbox == [] && w in n.ch && n.ch[w].phase.Done?
    ensures Unclaimed(n, JobOf(n.s, w))
  {
    hide Valid, Lines, Posts, Claims, Once, Computing, Mail, Unread, Answered, LineOf;
    forall v, id | id in JobOf(n.s, w) && id in n.s.jobs && n.s.jobs[id].status.Queued? ensures !Claim(n, v, id) {
      SilentOne(n, w, v, id);
    }
  }

  lemma SilentOne(n: Net, w: WorkerId, v: WorkerId, id: JobId)
    requires Good(n) && w in n.s.workers && n.s.workers[w].inbox == [] && w in n.ch && n.ch[w].phase.Done?
    requires n.s.workers[w].job == Some(id) && id in n.s.jobs && n.s.jobs[id].status.Queued?
    ensures !Claim(n, v, id)
  {
    hide Valid, Lines, Posts, Claims, Once, Computing, Mail, Unread, Answered, LineOf, Began;
    JobActive(n.s, w);
    if Claim(n, v, id) {
      ClaimOwner(n, v, id);
      UnreadStart(n, w, id);
      assert false;
    }
  }

  lemma NoneUnclaimed(n: Net)
    ensures Unclaimed(n, {})
  {
  }

  lemma NoneEmptied(n: Net)
    ensures Emptied(n, {})
  {
  }

  lemma GoneKeeps(n: Net, w: WorkerId, env: Env)
    requires Good(n) && w in n.s.workers && n.s.workers[w].inbox == [] && w in n.ch && n.ch[w].phase.Done?
    requires forall id | id in n.s.order :: id in n.s.jobs
    ensures Good(n.(s := Retire(n.s, w, false, true, env)))
  {
    hide Valid, Calm, Core, Retire, Emptied, Unclaimed;
    RetireKeeps(n.s, w, false, true, env, {}, {});
    assert {} - {w} == {};
    SilentUnclaimed(n, w);
    NoneEmptied(n);
    CalmCore(n, Retire(n.s, w, false, true, env), JobOf(n.s, w), {});
  }

  lemma QuietGood(n: Net, t: Store)
    requires Good(n) && Valid(t, {}, {}) && Calm(n.s, t, {}, {})
    ensures Good(n.(s := t))
  {
    hide Valid, Calm, Core;
    QuietCore(n, t);
  }
}
