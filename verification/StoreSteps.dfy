/** Every operation of the store keeps its invariant, and what each leaves alone. */
module StoreSteps {
  import opened Wrappers
  import opened Metrics
  import opened JobTypes
  import opened StoreModel
  import opened StoreInvariant

  // ---------------------------------------------------------------- what a step leaves alone

  /** A child's record changes only as the parent changes it: nothing unread is lost, at most stop requests join what
      was sent, and a child in service keeps its job unless that job is one of those in won. */
  ghost predicate Untouched(k: Worker, l: Worker, won: set<JobId>) {
    && l.inbox == k.inbox
    && k.outbox <= l.outbox
    && (forall i | |k.outbox| <= i < |l.outbox| :: l.outbox[i] == Stop)
    && (k.retiredAt.Some? ==> l.retiredAt.Some?)
    && l.sending == k.sending
    && (k.ready ==> l.ready)
    && (l.retiredAt.None? ==> l.job == k.job || (l.job.None? && k.job.value in won))
  }

  /** A step that gives no job to a child and takes none in: the jobs in freed may lose their child unfinished, and
      those in won are ended by their child. */
  ghost predicate Calm(s: Store, t: Store, freed: set<JobId>, won: set<JobId>) {
    && t.workers.Keys == s.workers.Keys
    && (forall w | w in s.workers :: Untouched(s.workers[w], t.workers[w], won))
    && (forall id | Unfinished(t, id) :: Unfinished(s, id))
    && (forall id | id in t.jobs && t.jobs[id].status.Queued? :: id in s.jobs && s.jobs[id].status.Queued?)
    && (forall id | id in t.active :: id in s.active && t.active[id] == s.active[id])
    && (forall id | Unfinished(t, id) && id in s.active && id !in t.active :: id in freed)
    && (forall id | id in s.jobs && id in t.jobs && s.jobs[id].status.Terminal() :: t.jobs[id] == s.jobs[id])
    && (forall id | id in t.jobs && t.jobs[id].status.Succeeded? && id !in won ::
          id in s.jobs && s.jobs[id].status.Succeeded?)
    && t.jobs.Keys <= s.jobs.Keys
    && (forall id | id in t.jobs && id in s.jobs :: t.jobs[id].deadline == s.jobs[id].deadline)
    && |t.pool| <= |s.pool|
    && t.cfg == s.cfg && t.draining == s.draining && t.stopping == s.stopping
    && t.past.issued == s.past.issued && t.past.attaches == s.past.attaches && t.past.picks == s.past.picks
    && t.past.restored == s.past.restored
  }

  lemma CalmThen(s: Store, t: Store, u: Store, freed: set<JobId>, won: set<JobId>)
    requires Calm(s, t, freed, won) || Calm(s, t, {}, {})
    requires Calm(t, u, freed, won) || Calm(t, u, {}, {})
    ensures Calm(s, u, freed, won)
  {
    forall w | w in s.workers ensures Untouched(s.workers[w], u.workers[w], won) {
      assert Untouched(s.workers[w], t.workers[w], won) || Untouched(s.workers[w], t.workers[w], {});
      assert Untouched(t.workers[w], u.workers[w], won) || Untouched(t.workers[w], u.workers[w], {});
    }
  }

  lemma CalmSame(s: Store, t: Store)
    requires t.workers == s.workers && t.jobs == s.jobs && t.active == s.active && t.cfg == s.cfg
    requires t.draining == s.draining && t.stopping == s.stopping && t.past == s.past && t.pool == s.pool
    ensures Calm(s, t, {}, {})
  {
  }

  lemma FinishCalm(s: Store, id: JobId, status: Status, result: Option<Value>, code: Option<Code>, env: Env)
    requires Unfinished(s, id) && status.Terminal()
    ensures Calm(s, Finish(s, id, status, result, code, env), {}, if status.Succeeded? then {id} else {})
  {
  }

  // ---------------------------------------------------------------- retiring

  /** The plain facts of the invariant that calls need. */
  lemma Basics(s: Store, loose: set<JobId>, spent: set<WorkerId>)
    requires Valid(s, loose, spent)
    ensures Linked(s)
    ensures forall id :: id in s.order <==> id in s.jobs
    ensures forall w | w in s.pool :: w in s.workers
    ensures forall w | w in s.workers :: w in s.pool <==> s.workers[w].retiredAt.None?
    ensures forall id | id in s.active :: Unfinished(s, id) && s.workers[s.active[id]].job == Some(id)
    ensures forall w | w in s.workers && s.workers[w].job.Some? ::
              && s.workers[w].job.value in s.active && s.active[s.workers[w].job.value] == w
              && s.workers[w].ready && s.workers[w].retiredAt.None?
    ensures forall id | id in loose :: id !in s.active
  {
    forall id | id in s.active ensures Unfinished(s, id) {
      assert Going(s.jobs, id);
    }
  }

  /** What calls of the store's functions require. */
  lemma Callable(s: Store, loose: set<JobId>, spent: set<WorkerId>)
    requires Valid(s, loose, spent)
    ensures Linked(s) && (forall id | id in s.order :: id in s.jobs) && (forall w | w in s.pool :: w in s.workers)
    ensures s.cfg.Legal()
  {
  }

  lemma {:induction false} FailQueuedKeeps(s: Store, ids: seq<JobId>, env: Env, spent: set<WorkerId>)
    requires Valid(s, {}, spent) && forall id | id in ids :: id in s.jobs
    ensures Valid(FailQueued(s, ids, env), {}, spent) && Calm(s, FailQueued(s, ids, env), {}, {})
    decreases |ids|
  {
    hide Valid, Calm;
    if ids == [] {
      CalmSame(s, s);
    } else {
      var id := ids[0];
      if s.jobs[id].status.Queued? && id !in s.active {
        var t := Finish(s, id, Failed, None, Some(WorkerStartFailed), env);
        FinishKeeps(s, id, Failed, None, Some(WorkerStartFailed), env, {}, spent);
        FinishCalm(s, id, Failed, None, Some(WorkerStartFailed), env);
        assert {} - {id} == {};
        FailQueuedKeeps(t, ids[1..], env, spent);
        CalmThen(s, t, FailQueued(s, ids, env), {}, {});
      } else {
        FailQueuedKeeps(s, ids[1..], env, spent);
      }
    }
  }

  lemma BackoffKeeps(s: Store, until: Seconds, loose: set<JobId>, spent: set<WorkerId>)
    requires Valid(s, loose, spent)
    ensures Valid(s.(backoffUntil := until), loose, spent) && Calm(s, s.(backoffUntil := until), {}, {})
  {
    CalmSame(s, s.(backoffUntil := until));
  }

  lemma StartFailedKeeps(s: Store, env: Env, spent: set<WorkerId>)
    requires Valid(s, {}, spent)
    ensures Valid(StartFailed(s, env), {}, spent) && Calm(s, StartFailed(s, env), {}, {})
  {
    hide Valid, Calm;
    var t := s.(backoffUntil := env.now + BACKOFF);
    Basics(s, {}, spent);
    BackoffKeeps(s, env.now + BACKOFF, {}, spent);
    if t.pool == [] && !t.draining {
      FailQueuedKeeps(t, t.order, env, spent);
      CalmThen(s, t, StartFailed(s, env), {}, {});
    }
  }

  lemma HoldBackKeeps(s: Store, ready: bool, died: bool, env: Env, loose: set<JobId>, spent: set<WorkerId>)
    requires Valid(s, loose, spent) && (ready || loose == {})
    ensures Valid(HoldBack(s, ready, died, env), loose, spent) && Calm(s, HoldBack(s, ready, died, env), {}, {})
  {
    hide Valid, Calm;
    Basics(s, loose, spent);
    if !ready && died {
      StartFailedKeeps(s, env, spent);
    } else if !ready {
      BackoffKeeps(s, env.now + BACKOFF, loose, spent);
    } else {
      CalmSame(s, s);
    }
  }

  lemma RequeueCalm(s: Store, id: JobId)
    requires Unfinished(s, id)
    ensures Calm(s, s.(jobs := s.jobs[id := s.jobs[id].(retried := true)]), {}, {})
  {
  }

  lemma SettleKeeps(s: Store, id: JobId, env: Env, loose: set<JobId>, spent: set<WorkerId>)
    requires Valid(s, loose, spent) && id in loose && Unfinished(s, id)
    ensures Valid(Settle(s, id, env), loose - {id}, spent) && Calm(s, Settle(s, id, env), {}, {})
  {
    hide Valid, Calm;
    Basics(s, loose, spent);
    if s.jobs[id].status.Queued? && !s.jobs[id].retried {
      RequeueKeeps(s, id, loose, spent);
      RequeueCalm(s, id);
    } else {
      FinishKeeps(s, id, Failed, None, Some(WorkerCrashed), env, loose, spent);
      FinishCalm(s, id, Failed, None, Some(WorkerCrashed), env);
    }
  }

  lemma DetachCalm(s: Store, w: WorkerId, stop: bool, env: Env)
    requires w in s.workers && s.workers[w].retiredAt.None?
    ensures Calm(s, Detach(s, w, stop, env), JobOf(s, w), {})
  {
    RemoveFewer(s.pool, w);
  }

  lemma {:induction false} RemoveFewer<T>(xs: seq<T>, x: T)
    ensures |Remove(xs, x)| <= |xs|
  {
    if xs != [] {
      RemoveFewer(xs[1..], x);
    }
  }

  lemma {:induction false} RemoveAbsent<T>(xs: seq<T>, x: T)
    requires x !in xs
    ensures Remove(xs, x) == xs
  {
    if xs != [] {
      RemoveAbsent(xs[1..], x);
    }
  }

  lemma RetireKeeps(s: Store, w: WorkerId, stop: bool, died: bool, env: Env, loose: set<JobId>, spent: set<WorkerId>)
    requires Valid(s, loose, spent) && w in s.workers && (s.workers[w].ready || loose == {})
    ensures Valid(Retire(s, w, stop, died, env), loose, if s.workers[w].retiredAt.None? then spent - {w} else spent)
    ensures Calm(s, Retire(s, w, stop, died, env), JobOf(s, w), {})
  {
    hide Valid, Calm;
    Basics(s, loose, spent);
    if s.workers[w].retiredAt.Some? {
      RemoveAbsent(s.pool, w);
      assert Unpool(s, w) == s;
      CalmSame(s, s);
    } else {
      RetireServing(s, w, stop, died, env, loose, spent);
    }
  }

  lemma RetireServing(s: Store, w: WorkerId, stop: bool, died: bool, env: Env, loose: set<JobId>, spent: set<WorkerId>)
    requires Valid(s, loose, spent) && w in s.workers && (s.workers[w].ready || loose == {})
    requires s.workers[w].retiredAt.None?
    ensures Valid(Retire(s, w, stop, died, env), loose, spent - {w})
    ensures Calm(s, Retire(s, w, stop, died, env), JobOf(s, w), {})
  {
    hide Valid, Calm, Narrower, Settle;
    Basics(s, loose, spent);
    var t := Detach(s, w, stop, env);
    var job := s.workers[w].job;
    DetachKeeps(s, w, stop, env, loose, spent);
    DetachCalm(s, w, stop, env);
    if job.Some? {
      var id := job.value;
      assert loose + {id} - {id} == loose;
      SettleKeeps(t, id, env, loose + {id}, spent - {w});
      CalmThen(s, t, Settle(t, id, env), {id}, {});
    } else {
      assert loose + {} == loose;
      HoldBackKeeps(t, s.workers[w].ready, died, env, loose, spent - {w});
      CalmThen(s, t, HoldBack(t, s.workers[w].ready, died, env), {}, {});
    }
  }

  /** A job that ends in a step need not be among those that lose their child unfinished in it. */
  lemma CalmEnds(s: Store, t: Store, id: JobId, won: set<JobId>)
    requires Calm(s, t, {id}, won) && !Unfinished(t, id)
    ensures Calm(s, t, {}, won)
  {
  }

  lemma TakeCalm(s: Store, w: WorkerId, id: JobId, env: Env)
    requires w in s.workers && s.workers[w].retiredAt.None? && s.workers[w].job == Some(id)
    ensures Calm(s, Detach(Unassign(s, w, id), w, false, env), {id}, {})
  {
    RemoveFewer(s.pool, w);
  }

  /** Aborting takes the child along: its record after both, before the job ends. */
  lemma AbortDetach(s: Store, id: JobId, env: Env)
    requires Valid(s, {}, {}) && id in s.active
    ensures s.active[id] in s.workers && s.workers[s.active[id]].ready && s.workers[s.active[id]].retiredAt.None?
    ensures var v := Detach(Unassign(s, s.active[id], id), s.active[id], false, env);
            && Valid(v, {id}, {}) && Calm(s, v, {id}, {}) && Unfinished(v, id) && id !in v.active
            && v == Retire(Unassign(s, s.active[id], id), s.active[id], false, false, env)
            && v.jobs == s.jobs && v.active == s.active - {id}
  {
    hide Valid, Calm, SameDomain, Narrower;
    Basics(s, {}, {});
    var w := s.active[id];
    var u := Unassign(s, w, id);
    UnassignKeeps(s, w, id, {}, {});
    assert {} + {id} == {id} && {} + {w} == {w} && {w} - {w} == {};
    RetireServing(u, w, false, false, env, {id}, {w});
    TakeCalm(s, w, id, env);
  }

  lemma AbortKeeps(s: Store, id: JobId, status: Status, code: Option<Code>, env: Env)
    requires Valid(s, {}, {}) && Unfinished(s, id) && status.Terminal() && !status.Succeeded?
    ensures Valid(Abort(s, id, status, code, env), {}, {})
    ensures Calm(s, Abort(s, id, status, code, env), {}, {})
  {
    hide Valid, Calm;
    Basics(s, {}, {});
    var t := Abort(s, id, status, code, env);
    if id in s.active {
      AbortDetach(s, id, env);
      var v := Detach(Unassign(s, s.active[id], id), s.active[id], false, env);
      FinishKeeps(v, id, status, None, code, env, {id}, {});
      FinishCalm(v, id, status, None, code, env);
      assert {id} - {id} == {};
      CalmThen(s, v, t, {id}, {});
      CalmEnds(s, t, id, {});
    } else {
      FinishKeeps(s, id, status, None, code, env, {}, {});
      assert {} - {id} == {};
      FinishCalm(s, id, status, None, code, env);
    }
  }

  // ---------------------------------------------------------------- sending and reading

  lemma SoundOf(s: Store, w: WorkerId)
    requires Valid(s, {}, {}) && w in s.workers
    ensures Sound(s.cfg, s.workers[w])
  {
  }

  lemma MarkCalm(s: Store, w: WorkerId, k: Worker)
    requires w in s.workers && Untouched(s.workers[w], k, {})
    ensures Calm(s, WithWorker(s, w, k), {}, {})
  {
  }

  lemma ClearedKeeps(s: Store, w: WorkerId)
    requires Valid(s, {}, {}) && w in s.workers && s.workers[w].sending
    ensures Valid(Cleared(s, w), {}, {})
  {
    hide Valid;
    SoundOf(s, w);
    MarkKeeps(s, w, Cleared(s, w).workers[w]);
  }

  lemma SentKeeps(s: Store, w: WorkerId, failed: bool, env: Env)
    requires Valid(s, {}, {}) && w in s.workers && s.workers[w].sending
    ensures Valid(Sent(s, w, failed, env), {}, {})
    ensures Calm(Cleared(s, w), Sent(s, w, failed, env), if failed then JobOf(s, w) else {}, {})
  {
    hide Valid, Calm;
    Basics(s, {}, {});
    ClearedKeeps(s, w);
    var t := Cleared(s, w);
    if failed && t.workers[w].retiredAt.None? {
      RetireServing(t, w, false, false, env, {}, {});
      assert {} - {w} == {};
    } else {
      CalmSame(t, t);
      CalmThen(t, t, t, if failed then JobOf(s, w) else {}, {});
    }
  }

  lemma BegunCalm(s: Store, id: JobId, env: Env)
    requires Unfinished(s, id)
    ensures Calm(s, Begun(s, id, env), {}, {})
  {
  }

  lemma AdvancedCalm(s: Store, id: JobId, p: Progress)
    requires Unfinished(s, id)
    ensures Calm(s, Advanced(s, id, p), {}, {})
  {
  }

  lemma ConcludedServes(s: Store, w: WorkerId, id: JobId, value: Option<Value>, env: Env)
    requires w in s.workers && id in s.jobs && forall i | i in s.order :: i in s.jobs
    ensures var t, u := Unassign(s, w, id), Concluded(s, w, id, value, env);
            && w in u.workers && u.workers[w] == s.workers[w].(job := None)
            && (forall i | i in u.order :: i in u.jobs)
            && Unfinished(t, id) == Unfinished(s, id) && t.active == s.active - {id}
  {
  }

  lemma ConcludedKeeps(s: Store, w: WorkerId, id: JobId, value: Option<Value>, env: Env)
    requires Valid(s, {}, {}) && w in s.workers && Heard(s, w, id)
    ensures Valid(Concluded(s, w, id, value, env), {}, {w})
    ensures Calm(s, Concluded(s, w, id, value, env), {}, {id})
    ensures var u := Concluded(s, w, id, value, env);
            && w in u.workers && u.workers[w].job.None? && u.workers[w].retiredAt.None? && u.workers[w].ready
            && (forall i | i in u.order :: i in u.jobs)
  {
    hide Valid, Calm, SameDomain, Narrower, Unassign, Finish;
    Basics(s, {}, {});
    var t := Unassign(s, w, id);
    var u := Concluded(s, w, id, value, env);
    ConcludedServes(s, w, id, value, env);
    UnassignKeeps(s, w, id, {}, {});
    assert {} + {id} == {id} && {} + {w} == {w} && {id} - {id} == {};
    FinishKeeps(t, id, if value.Some? then Succeeded else Failed, value,
                if value.Some? then None else Some(TaskFailed), env, {id}, {w});
    ConcludedCalm(s, w, id, value, env);
  }

  lemma EndCalm(s: Store, w: WorkerId, id: JobId, status: Status, value: Option<Value>, code: Option<Code>, env: Env)
    requires w in s.workers && Heard(s, w, id) && status.Terminal()
    ensures Calm(s, Finish(Unassign(s, w, id), id, status, value, code, env), {}, {id})
  {
  }

  lemma ConcludedCalm(s: Store, w: WorkerId, id: JobId, value: Option<Value>, env: Env)
    requires w in s.workers && Heard(s, w, id)
    ensures Calm(s, Concluded(s, w, id, value, env), {}, {id})
  {
    hide Calm, Finish, Unassign;
    if value.Some? {
      EndCalm(s, w, id, Succeeded, value, None, env);
    } else {
      EndCalm(s, w, id, Failed, None, Some(TaskFailed), env);
    }
  }

  lemma SpentServes(s: Store, w: WorkerId)
    requires Valid(s, {}, {w}) && w in s.workers && s.workers[w].served < s.cfg.maxJobs
    ensures Valid(s, {}, {})
  {
  }

  /** A child that has had its share is retired; another goes on. */
  lemma ShareKeeps(s: Store, u: Store, w: WorkerId, env: Env, won: set<JobId>)
    requires Valid(u, {}, {w}) && Calm(s, u, {}, won) && w in u.workers
    requires u.workers[w].job.None? && u.workers[w].retiredAt.None? && u.workers[w].ready
    requires forall i | i in u.order :: i in u.jobs
    ensures var t := if u.workers[w].served >= u.cfg.maxJobs then Retire(u, w, true, false, env) else u;
            Valid(t, {}, {}) && Calm(s, t, {}, won)
  {
    hide Valid, Calm, Retire;
    if u.workers[w].served >= u.cfg.maxJobs {
      RetireServing(u, w, true, false, env, {}, {w});
      assert {w} - {w} == {};
      CalmThen(s, u, Retire(u, w, true, false, env), {}, won);
    } else {
      assert Valid(u, {}, {}) by {
        SpentServes(u, w);
      }
    }
  }

  lemma EndedKeeps(s: Store, w: WorkerId, id: JobId, value: Option<Value>, env: Env)
    requires Valid(s, {}, {}) && w in s.workers && Heard(s, w, id)
    ensures Valid(Ended(s, w, id, value, env), {}, {})
    ensures Calm(s, Ended(s, w, id, value, env), {}, {id})
  {
    hide Valid, Calm, Concluded, Retire, SameDomain, Narrower;
    ConcludedKeeps(s, w, id, value, env);
    ShareKeeps(s, Concluded(s, w, id, value, env), w, env, {id});
  }

  function Wins(m: Message): set<JobId> {
    if m.Returned? || m.Raised? then {m.id} else {}
  }

  lemma NoteKeeps(s: Store, w: WorkerId, k: Worker)
    requires Valid(s, {}, {}) && w in s.workers
    requires k == s.workers[w].(ready := k.ready, loaded := k.loaded) && (s.workers[w].ready ==> k.ready)
    ensures Valid(WithWorker(s, w, k), {}, {}) && Calm(s, WithWorker(s, w, k), {}, {})
  {
    hide Valid, Calm;
    SoundOf(s, w);
    MarkKeeps(s, w, k);
    MarkCalm(s, w, k);
  }

  lemma ProgressKeeps(s: Store, id: JobId, env: Env)
    requires Valid(s, {}, {}) && id in s.active
    ensures Valid(Begun(s, id, env), {}, {}) && Calm(s, Begun(s, id, env), {}, {})
    ensures forall p :: Valid(Advanced(s, id, p), {}, {}) && Calm(s, Advanced(s, id, p), {}, {})
  {
    hide Valid, Calm;
    Basics(s, {}, {});
    BegunKeeps(s, id, env);
    BegunCalm(s, id, env);
    forall p ensures Valid(Advanced(s, id, p), {}, {}) && Calm(s, Advanced(s, id, p), {}, {}) {
      AdvancedKeeps(s, id, p);
      AdvancedCalm(s, id, p);
    }
  }

  lemma HeardActive(s: Store, w: WorkerId, id: JobId)
    requires Valid(s, {}, {}) && w in s.workers && Heard(s, w, id)
    ensures id in s.active && s.active[id] == w
  {
  }

  lemma UnheardKeeps(s: Store, m: Message)
    ensures Calm(s, s, {}, Wins(m))
  {
  }

  lemma DeliverKeeps(s: Store, w: WorkerId, m: Message, env: Env)
    requires Valid(s, {}, {}) && w in s.workers
    ensures Valid(Deliver(s, w, m, env).0, {}, {})
    ensures Calm(s, Deliver(s, w, m, env).0, {}, Wins(m))
  {
    hide Valid, Calm, Ended, Begun, Advanced, WithWorker, SameDomain, Narrower, Heard;
    if m.Ready? {
      NoteKeeps(s, w, s.workers[w].(ready := true));
    } else if m.Loaded? {
      NoteKeeps(s, w, s.workers[w].(loaded := true));
    } else {
      UnheardKeeps(s, m);
      if Heard(s, w, m.id) {
        HeardActive(s, w, m.id);
        if m.Returned? || m.Raised? {
          EndedKeeps(s, w, m.id, if m.Returned? then Some(m.value) else None, env);
        } else {
          ProgressKeeps(s, m.id, env);
        }
      }
    }
  }

  lemma ReceivedKeeps(s: Store, w: WorkerId)
    requires Valid(s, {}, {}) && w in s.workers && s.workers[w].inbox != []
    ensures Valid(Received(s, w), {}, {})
  {
    hide Valid;
    SoundOf(s, w);
    MarkKeeps(s, w, s.workers[w].(inbox := s.workers[w].inbox[1..]));
  }

  lemma {:induction false} DrainKeeps(s: Store, w: WorkerId, gone: bool, env: Env)
    requires Valid(s, {}, {}) && w in s.workers
    ensures Valid(Drain(s, w, gone, env), {}, {})
    decreases |s.workers[w].inbox|
  {
    hide Valid, Calm;
    Basics(s, {}, {});
    assert {} - {w} == {};
    if s.workers[w].retiredAt.Some? {
      RemoveAbsent(s.pool, w);
      assert Unpool(s, w) == s;
    } else if s.workers[w].inbox == [] {
      if gone {
        RetireKeeps(s, w, false, true, env, {}, {});
      }
    } else {
      var r := Received(s, w);
      ReceivedKeeps(s, w);
      DeliverKeeps(r, w, s.workers[w].inbox[0], env);
      if !Deliver(r, w, s.workers[w].inbox[0], env).1 {
        DrainKeeps(Deliver(r, w, s.workers[w].inbox[0], env).0, w, gone, env);
      }
    }
  }

  // ---------------------------------------------------------------- admission

  lemma ExpireCalm(s: Store, env: Env)
    ensures Calm(s, Expire(s, env), {}, {})
  {
  }

  lemma LimitRoomy(s: Store, o: Owner, pace: Option<Seconds>, now: Seconds)
    requires s.cfg.Legal() && Limit(s, o, pace, now).None?
    ensures Roomy(s, o)
  {
  }

  /** What the passing of time leaves as it was, for the checks of a submission. */
  lemma ExpireFrame(s: Store, id: JobId, env: Env)
    requires Valid(s, {}, {}) && Unused(s, id)
    ensures var t := Expire(s, env);
            && Unused(t, id) && t.cfg == s.cfg && t.cfg.Legal() && t.stopping == s.stopping && t.draining == s.draining
            && (!t.disk.open ==> t.stopping)
  {
  }

  lemma AcceptKeeps(s: Store, req: Request, id: JobId, pace: Option<Seconds>, env: Env)
    requires Valid(s, {}, {}) && Unused(s, id) && req.owner in s.cfg.owners
    ensures Valid(Accept(s, req, id, pace, env).0, {}, {})
  {
    hide Valid, Expire, Admit, Unused, Limit, Roomy;
    ExpireKeeps(s, env);
    ExpireFrame(s, id, env);
    var t := Expire(s, env);
    if Limit(t, req.owner, pace, env.now).None? {
      LimitRoomy(t, req.owner, pace, env.now);
      if !s.draining && !s.stopping && (req.key.Some? ==> (req.owner, req.key.value) !in t.keys) {
        AdmitKeeps(t, req, id, env);
      }
    }
  }

  lemma SubmitKeeps(s: Store, req: Request, id: JobId, pace: Option<Seconds>, env: Env)
    requires Valid(s, {}, {}) && Unused(s, id)
    ensures Valid(Submit(s, req, id, pace, env).0, {}, {})
  {
    hide Valid, Accept;
    Callable(s, {}, {});
    if req.owner in s.cfg.owners {
      AcceptKeeps(s, req, id, pace, env);
      RejectedKeeps(Accept(s, req, id, pace, env).0, req.owner);
    }
  }

  lemma RejectedKeeps(s: Store, o: Owner)
    requires Valid(s, {}, {})
    ensures Valid(s.(stats := s.stats.(rejected := Bump(s.stats.rejected, o))), {}, {})
  {
  }

  lemma CancelKeeps(s: Store, id: JobId, owner: Owner, env: Env)
    requires Valid(s, {}, {})
    ensures Valid(Cancel(s, id, owner, env), {}, {}) && Calm(s, Cancel(s, id, owner, env), {}, {})
  {
    hide Valid, Calm;
    Basics(s, {}, {});
    var t := Expire(s, env);
    ExpireKeeps(s, env);
    ExpireCalm(s, env);
    if Owned(t, id, owner) && Unfinished(t, id) {
      AbortKeeps(t, id, Cancelled, None, env);
      CalmThen(s, t, Cancel(s, id, owner, env), {}, {});
    }
  }

  // ---------------------------------------------------------------- passes over the table and the pool

  lemma VisitKeeps(s: Store, id: JobId, env: Env)
    requires Valid(s, {}, {})
    ensures Valid(Visit(s, id, env).0, {}, {}) && Calm(s, Visit(s, id, env).0, {}, {})
  {
    hide Valid, Calm;
    Basics(s, {}, {});
    CalmSame(s, s);
    if Unfinished(s, id) {
      if env.now >= s.jobs[id].deadline {
        AbortKeeps(s, id, TimedOut, Some(DeadlineExceeded), env);
      } else if s.jobs[id].status.Queued? && s.draining {
        AbortKeeps(s, id, Failed, Some(ServiceRestarted), env);
      }
    }
  }

  lemma {:induction false} ScanKeeps(s: Store, ids: seq<JobId>, env: Env)
    requires Valid(s, {}, {})
    ensures Valid(Scan(s, ids, env).0, {}, {}) && Calm(s, Scan(s, ids, env).0, {}, {})
    decreases |ids|
  {
    hide Valid, Calm;
    Basics(s, {}, {});
    if ids == [] {
      CalmSame(s, s);
    } else {
      var t := Visit(s, ids[0], env).0;
      VisitKeeps(s, ids[0], env);
      ScanKeeps(t, ids[1..], env);
      CalmThen(s, t, Scan(s, ids, env).0, {}, {});
    }
  }

  lemma {:induction false} AbortAllKeeps(s: Store, ids: seq<JobId>, queuedOnly: bool, status: Status,
                                         code: Option<Code>, env: Env)
    requires Valid(s, {}, {}) && status.Terminal() && !status.Succeeded?
    ensures var t := AbortAll(s, ids, queuedOnly, status, code, env); Valid(t, {}, {}) && Calm(s, t, {}, {})
    decreases |ids|
  {
    hide Valid, Calm;
    Basics(s, {}, {});
    CalmSame(s, s);
    if ids != [] {
      var hit := Unfinished(s, ids[0]) && (queuedOnly ==> s.jobs[ids[0]].status.Queued?);
      var t := if hit then Abort(s, ids[0], status, code, env) else s;
      if hit {
        AbortKeeps(s, ids[0], status, code, env);
      }
      AbortAllKeeps(t, ids[1..], queuedOnly, status, code, env);
      CalmThen(s, t, AbortAll(s, ids, queuedOnly, status, code, env), {}, {});
    }
  }

  // ---------------------------------------------------------------- closing

  lemma FinishAlone(s: Store, id: JobId, status: Status, code: Option<Code>, env: Env)
    requires id in s.jobs
    ensures var t := Finish(s, id, status, None, code, env);
            id in t.jobs && t.jobs == s.jobs[id := t.jobs[id]] && t.jobs[id].status == status && t.active == s.active
  {
  }

  /** Aborting one job changes no other job, and no other job's child. */
  lemma AbortAlone(s: Store, id: JobId, status: Status, code: Option<Code>, env: Env)
    requires Valid(s, {}, {}) && Unfinished(s, id) && status.Terminal()
    ensures var t := Abort(s, id, status, code, env);
            && id in t.jobs && t.jobs == s.jobs[id := t.jobs[id]] && t.jobs[id].status == status
            && t.active == s.active - {id}
  {
    hide Valid, Calm, Retire, Detach, Unassign, Write, Narrower, Finish;
    Callable(s, {}, {});
    if id in s.active {
      AbortDetach(s, id, env);
      FinishAlone(Retire(Unassign(s, s.active[id], id), s.active[id], false, false, env), id, status, code, env);
    } else {
      FinishAlone(s, id, status, code, env);
    }
  }

  /** A pass that ends jobs ends every one it is meant to. */
  lemma {:induction false} AbortAllEnds(s: Store, ids: seq<JobId>, queuedOnly: bool, status: Status,
                                        code: Option<Code>, env: Env)
    requires Valid(s, {}, {}) && status.Terminal() && !status.Succeeded?
    ensures var t := AbortAll(s, ids, queuedOnly, status, code, env);
            forall id | id in ids && Unfinished(t, id) :: queuedOnly && !t.jobs[id].status.Queued?
    decreases |ids|
  {
    hide Valid, Abort, Calm, SameDomain, Narrower;
    Callable(s, {}, {});
    if ids != [] {
      var hit := Unfinished(s, ids[0]) && (queuedOnly ==> s.jobs[ids[0]].status.Queued?);
      var t := if hit then Abort(s, ids[0], status, code, env) else s;
      if hit {
        AbortKeeps(s, ids[0], status, code, env);
        AbortAlone(s, ids[0], status, code, env);
      }
      AbortAllEnds(t, ids[1..], queuedOnly, status, code, env);
      AbortAllKeeps(t, ids[1..], queuedOnly, status, code, env);
      Callable(t, {}, {});
      StaysEnded(t, AbortAll(t, ids[1..], queuedOnly, status, code, env), ids[0]);
    }
  }

  lemma StaysEnded(s: Store, t: Store, id: JobId)
    requires Calm(s, t, {}, {})
    ensures Unfinished(t, id) ==> Unfinished(s, id)
    ensures id in t.jobs && t.jobs[id].status.Queued? ==> id in s.jobs && s.jobs[id].status.Queued?
  {
  }

  /** With no job unfinished, no child has one. */
  lemma NobodyBusy(s: Store)
    requires Valid(s, {}, {}) && forall id | id in s.jobs :: !Unfinished(s, id)
    ensures forall w | w in s.workers :: s.workers[w].job.None?
  {
    Basics(s, {}, {});
  }

  lemma {:induction false} RetireAllKeeps(s: Store, ws: seq<WorkerId>, env: Env)
    requires Valid(s, {}, {}) && (forall w | w in ws :: w in s.workers) && forall id | id in s.jobs :: !Unfinished(s, id)
    ensures Valid(RetireAll(s, ws, env), {}, {}) && Calm(s, RetireAll(s, ws, env), {}, {})
    decreases |ws|
  {
    hide Valid, Calm, Retire;
    Callable(s, {}, {});
    CalmSame(s, s);
    if ws != [] {
      NobodyBusy(s);
      RetireKeeps(s, ws[0], true, false, env, {}, {});
      var t := Retire(s, ws[0], true, false, env);
      assert {} - {ws[0]} == {};
      CalmEnded(s, t);
      RetireAllKeeps(t, ws[1..], env);
      CalmThen(s, t, RetireAll(s, ws, env), {}, {});
    }
  }

  lemma CalmEnded(s: Store, t: Store)
    requires Calm(s, t, {}, {}) && forall id | id in s.jobs :: !Unfinished(s, id)
    ensures forall id | id in t.jobs :: !Unfinished(t, id)
  {
  }

  lemma ShutKeeps(s: Store)
    requires Valid(s, {}, {}) && s.stopping
    ensures var t := s.(disk := s.disk.(open := false)); Valid(t, {}, {}) && Calm(s, t, {}, {})
  {
    CalmSame(s, s.(disk := s.disk.(open := false)));
  }

  /** Closing ends every job and retires every child, leaving the table as it was. */
  lemma CloseKeeps(s: Store, env: Env)
    requires Valid(s, {}, {}) && s.stopping
    ensures Valid(Close(s, env), {}, {}) && Calm(s, Close(s, env), {}, {})
    ensures forall id | id in s.jobs :: !Unfinished(Close(s, env), id)
  {
    hide Valid, Calm, AbortAll, RetireAll;
    Callable(s, {}, {});
    var t := s.(disk := s.disk.(open := false));
    ShutKeeps(s);
    var u := AbortAll(t, t.order, false, Cancelled, None, env);
    AbortAllKeeps(t, t.order, false, Cancelled, None, env);
    AbortAllEnds(t, t.order, false, Cancelled, None, env);
    OrderDistinct(t);
    CalmThen(s, t, u, {}, {});
    RetireAllKeeps(u, u.pool, env);
    CalmThen(s, u, Close(s, env), {}, {});
    CalmEnded(u, Close(s, env));
  }

  lemma OrderDistinct(s: Store)
    requires Valid(s, {}, {})
    ensures Distinct(s.order) && forall id :: id in s.order <==> id in s.jobs
  {
  }
}
