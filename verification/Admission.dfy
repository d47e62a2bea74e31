/** When a submission is taken in, and what a refused caller is told to wait for. */
module Admission {
  import opened Wrappers
  import opened JobTypes
  import opened StoreModel
  import opened StoreInvariant
  import opened StoreSteps

  /** A repeat of a retained submission adds nothing and is answered with the job that holds its key. */
  lemma RepeatAddsNothing(s: Store, req: Request, id: JobId, pace: Option<Seconds>, env: Env)
    requires s.cfg.Legal() && !s.draining && !s.stopping && req.key.Some?
    requires req.owner in s.cfg.owners && 100 <= req.timeoutMs <= 300000
    requires (req.owner, req.key.value) in Expire(s, env).keys
    ensures Submit(s, req, id, pace, env) ==
            (Expire(s, env), Repeated(Expire(s, env).keys[(req.owner, req.key.value)]))
  {
  }

  /** A submission gets a job of its own exactly when the owner is one of the service's, the timeout is in range, the
      store takes jobs, no retained job has its key, there is room under all three limits, and its row can be written. */
  lemma AcceptedExactly(s: Store, req: Request, id: JobId, pace: Option<Seconds>, env: Env)
    requires Valid(s, {}, {}) && s.cfg.concurrency > 0
    ensures Submit(s, req, id, pace, env).1.Accepted? <==>
              && req.owner in s.cfg.owners && 100 <= req.timeoutMs <= 300000
              && !s.draining && !s.stopping
              && (forall i | i in Expire(s, env).jobs && s.jobs[i].owner == req.owner && req.key.Some? ::
                    s.jobs[i].key != req.key)
              && Roomy(Expire(s, env), req.owner) && id !in env.lost
  {
    hide Expire, Valid;
    var t := Expire(s, env);
    ExpireKeeps(s, env);
    Retained(s, env);
    KeyFree(t, req);
    OpenUnlessStopping(s, env);
  }

  lemma Retained(s: Store, env: Env)
    ensures var t := Expire(s, env); forall i | i in t.jobs :: i in s.jobs && t.jobs[i] == s.jobs[i]
    ensures Expire(s, env).cfg == s.cfg
  {
  }

  lemma OpenUnlessStopping(s: Store, env: Env)
    requires Valid(s, {}, {})
    ensures s.stopping || Expire(s, env).disk.open
  {
  }

  lemma KeyFree(t: Store, req: Request)
    requires Valid(t, {}, {})
    ensures req.key.Some? ==>
              ((req.owner, req.key.value) !in t.keys <==>
               forall i | i in t.jobs && t.jobs[i].owner == req.owner :: t.jobs[i].key != req.key)
  {
  }

  // ---------------------------------------------------------------- Retry-After

  predicate Ours(s: Store, id: JobId, owner: Option<Owner>) {
    id in s.jobs && s.jobs[id].finished.Some? && (owner.None? || owner == Some(s.jobs[id].owner))
  }

  lemma {:induction false} FirstFinishIs(s: Store, ids: seq<JobId>, owner: Option<Owner>)
    ensures var first := FirstFinish(s, ids, owner);
            && (first.None? <==> forall id | id in ids :: !Ours(s, id, owner))
            && (first.Some? ==> exists id :: id in ids && Ours(s, id, owner) && s.jobs[id].finished == first)
            && (first.Some? ==> forall id | id in ids && Ours(s, id, owner) :: first.value <= s.jobs[id].finished.value)
  {
    if ids != [] {
      FirstFinishIs(s, ids[1..], owner);
      assert ids == [ids[0]] + ids[1..];
      assert ids[0] in ids;
    }
  }

  /** A caller refused for its own retained jobs, or for everyone's, that waits as long as it was told, finds at least
      one of them gone. */
  lemma RetryAfterFrees(s: Store, owner: Option<Owner>, now: Seconds, env: Env) returns (id: JobId)
    requires Valid(s, {}, {}) && (exists i :: Ours(s, i, owner))
    requires env.now >= now + RetryAfter(s, owner, now) as real
    ensures Ours(s, id, owner) && id !in Expire(s, env).jobs
  {
    hide Crew, Pairing, Given, Submitted, Table, Filed, Balanced, Clocked, Turns, Within;
    FirstFinishIs(s, s.order, owner);
    var first := FirstFinish(s, s.order, owner);
    var some :| Ours(s, some, owner);
    assert some in s.order;
    id :| id in s.order && Ours(s, id, owner) && s.jobs[id].finished == first;
  }

  /** Without a finished job the hint is one second; with one it is at least that, and whole. */
  lemma RetryAfterIs(s: Store, owner: Option<Owner>, now: Seconds)
    ensures RetryAfter(s, owner, now) >= 1
    ensures forall id | id in s.order && Ours(s, id, owner) ::
              (RetryAfter(s, owner, now) - 1) as real < Max2(1.0, s.jobs[id].finished.value + s.cfg.retention - now)
  {
    FirstFinishIs(s, s.order, owner);
  }

  function Max2(a: real, b: real): real {
    if a >= b then a else b
  }

  // ---------------------------------------------------------------- refusals

  /** A submission that gets as far as the limits: from an owner, in time, to a store that takes jobs, with a new key. */
  ghost predicate Considered(s: Store, req: Request, env: Env) {
    && req.owner in s.cfg.owners && 100 <= req.timeoutMs <= 300000 && !s.draining && !s.stopping
    && forall i | i in Expire(s, env).jobs && s.jobs[i].owner == req.owner && req.key.Some? :: s.jobs[i].key != req.key
  }

  predicate RefusedFor(a: Answer, why: Refusal) {
    a.Refused? && a.why == why
  }

  /** A submission is refused for the first of the checks that it fails: those that need no look at the jobs. */
  lemma RefusedUnheard(s: Store, req: Request, id: JobId, pace: Option<Seconds>, env: Env)
    requires s.cfg.concurrency > 0
    ensures var a := Submit(s, req, id, pace, env).1; var known, timely := req.owner in s.cfg.owners, 100 <= req.timeoutMs <= 300000;
            && (RefusedFor(a, NotAnOwner) <==> !known)
            && (RefusedFor(a, BadTimeout) <==> known && !timely)
            && (RefusedFor(a, IsDraining) <==> known && timely && s.draining)
            && (RefusedFor(a, IsStopping) <==> known && timely && !s.draining && s.stopping)
  {
    hide Expire, RetryAfter, HeldBy, OpenJobs, Admit;
  }

  /** And those that do: its owner's room, that of the unfinished jobs, that of the ended ones, and the table. */
  lemma RefusedForRoom(s: Store, req: Request, id: JobId, pace: Option<Seconds>, env: Env)
    requires Valid(s, {}, {}) && s.cfg.concurrency > 0
    ensures var a, t := Submit(s, req, id, pace, env).1, Expire(s, env);
            var owned := s.cfg.ownerCapacity.Some? && |HeldBy(t.jobs, req.owner)| >= s.cfg.ownerCapacity.value;
            var active, ended := |OpenJobs(t.jobs)|, |t.jobs| - |OpenJobs(t.jobs)|;
            && (RefusedFor(a, OwnerFull) <==> Considered(s, req, env) && owned)
            && (RefusedFor(a, ActiveFull) <==> Considered(s, req, env) && !owned && active >= s.cfg.capacity)
            && (RefusedFor(a, ResultsFull) <==>
                  Considered(s, req, env) && !owned && active < s.cfg.capacity && ended >= s.cfg.resultCapacity)
            && (RefusedFor(a, NotWritten) <==> Considered(s, req, env) && Roomy(t, req.owner) && id in env.lost)
  {
    hide Expire, Valid, RetryAfter, HeldBy, OpenJobs, Admit;
    var t := Expire(s, env);
    ExpireKeeps(s, env);
    Retained(s, env);
    KeyFree(t, req);
    OpenUnlessStopping(s, env);
  }

  /** A submission with the key of a retained job of its owner is answered with that job, whatever the limits. */
  lemma RepeatedExactly(s: Store, req: Request, id: JobId, pace: Option<Seconds>, env: Env, held: JobId)
    requires Valid(s, {}, {}) && s.cfg.concurrency > 0
    ensures Submit(s, req, id, pace, env).1 == Repeated(held) <==>
              && req.owner in s.cfg.owners && 100 <= req.timeoutMs <= 300000 && !s.draining && !s.stopping && req.key.Some?
              && held in Expire(s, env).jobs && s.jobs[held].owner == req.owner && s.jobs[held].key == req.key
  {
    hide Expire, Valid, Limit;
    var t := Expire(s, env);
    ExpireKeeps(s, env);
    Retained(s, env);
    KeyHeld(t, req, held);
  }

  lemma KeyHeld(t: Store, req: Request, held: JobId)
    requires Valid(t, {}, {})
    ensures req.key.Some? ==>
              ((req.owner, req.key.value) in t.keys && t.keys[(req.owner, req.key.value)] == held <==>
               held in t.jobs && t.jobs[held].owner == req.owner && t.jobs[held].key == req.key)
  {
  }

  /** What a refused caller is told to wait: until the first of its own, or of all, retained jobs expires; for a place among
      the unfinished jobs as long as those take the children at the given pace, between a second and five minutes. */
  lemma HintIs(s: Store, req: Request, id: JobId, pace: Option<Seconds>, env: Env)
    requires s.cfg.concurrency > 0
    ensures var (t, a) := (Expire(s, env), Submit(s, req, id, pace, env).1);
            && (RefusedFor(a, OwnerFull) ==> a.retryAfter == RetryAfter(t, Some(req.owner), env.now))
            && (RefusedFor(a, ResultsFull) ==> a.retryAfter == RetryAfter(t, None, env.now))
            && (RefusedFor(a, IsStopping) || RefusedFor(a, NotWritten) ==> a.retryAfter == 1)
            && (RefusedFor(a, ActiveFull) ==>
                  && 1 <= a.retryAfter <= 300 && (pace.None? ==> a.retryAfter == 1)
                  && (pace.Some? ==>
                        var wait := |OpenJobs(t.jobs)| as real / s.cfg.concurrency as real * pace.value;
                        && (a.retryAfter == 300 || a.retryAfter as real >= wait)
                        && (a.retryAfter == 1 || (a.retryAfter - 1) as real < wait)))
  {
    hide Expire, RetryAfter;
    assert Expire(s, env).cfg == s.cfg by { Retained(s, env); }
    if pace.Some? {
      CeilIs(|OpenJobs(Expire(s, env).jobs)| as real / s.cfg.concurrency as real * pace.value);
    }
  }

  lemma CeilIs(x: real)
    ensures (Ceil(x) - 1) as real < x <= Ceil(x) as real
  {
  }
}
