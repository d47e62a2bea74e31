/** The passes over the children that drain and the coordinator's tick make under the lock, child by child. */
module Passes {
  import opened Wrappers
  import opened JobTypes
  import opened StoreModel
  import opened StoreInvariant
  import opened StoreSteps
  import opened Dispatching

  /** What passes through a child's pipe at its end: what it wrote, and how many jobs it took. */
  datatype Traffic = Traffic(sent: seq<Message>, taken: nat)

  const QUIET := Traffic([], 0)

  /** What the parent finds of one child: what came before it was read, whether its pipe had then ended, what came after
      that, and whether it had then exited. */
  datatype Sight = Sight(early: Traffic, ended: bool, late: Traffic, exited: bool)

  const BLIND := Sight(QUIET, false, QUIET, false)

  function SightOf(sights: map<WorkerId, Sight>, w: WorkerId): Sight {
    if w in sights then sights[w] else BLIND
  }

  /** A child takes jobs only. */
  predicate Takes(outbox: seq<Command>, n: nat) {
    n <= |outbox| && forall i | 0 <= i < n :: outbox[i].Run?
  }

  function After(k: Worker, traffic: Traffic): Worker {
    k.(inbox := k.inbox + traffic.sent, outbox := if Takes(k.outbox, traffic.taken) then k.outbox[traffic.taken..] else k.outbox)
  }

  /** A child writes to its pipe and reads from it. */
  function Carried(s: Store, w: WorkerId, traffic: Traffic): (t: Store)
    requires w in s.workers
    ensures t.workers.Keys == s.workers.Keys && t.order == s.order && t.jobs == s.jobs && t.draining == s.draining
  {
    s.(workers := s.workers[w := After(s.workers[w], traffic)])
  }

  /** What every pass can be called on, and leaves. */
  predicate Ready(s: Store, w: WorkerId) {
    w in s.workers && forall id | id in s.order :: id in s.jobs
  }

  /** One child in the tick: read it out; if it has exited, read what came meanwhile and retire it; if it never said it
      was ready in time, retire it. */
  function Poll(s: Store, w: WorkerId, sight: Sight, env: Env): (t: Store)
    requires Ready(s, w)
    ensures t.workers.Keys == s.workers.Keys && t.order == s.order && t.jobs.Keys == s.jobs.Keys && t.draining == s.draining
  {
    Verdict(Carried(DrainOne(s, w, sight, env), w, sight.late), w, sight.exited, env)
  }

  /** What the tick makes of a child it has read out. */
  function Verdict(s: Store, w: WorkerId, exited: bool, env: Env): (t: Store)
    requires Ready(s, w)
    ensures t.workers.Keys == s.workers.Keys && t.order == s.order && t.jobs.Keys == s.jobs.Keys && t.draining == s.draining
  {
    if s.workers[w].retiredAt.None? && exited then Retire(Drain(s, w, true, env), w, false, true, env)
    else if !s.workers[w].ready && env.now - s.workers[w].startedAt >= READY then Retire(s, w, false, false, env)
    else s
  }

  function PollAll(s: Store, ws: seq<WorkerId>, sights: map<WorkerId, Sight>, env: Env): (t: Store)
    requires forall w | w in ws :: w in s.workers
    requires forall id | id in s.order :: id in s.jobs
    ensures t.workers.Keys == s.workers.Keys && t.order == s.order && t.jobs.Keys == s.jobs.Keys && t.draining == s.draining
    decreases |ws|
  {
    if ws == [] then s else PollAll(Poll(s, ws[0], SightOf(sights, ws[0]), env), ws[1..], sights, env)
  }

  /** One child in a drain of the store: what it sent is read. */
  function DrainOne(s: Store, w: WorkerId, sight: Sight, env: Env): (t: Store)
    requires Ready(s, w)
    ensures t.workers.Keys == s.workers.Keys && t.order == s.order && t.jobs.Keys == s.jobs.Keys && t.draining == s.draining
  {
    Drain(Carried(s, w, sight.early), w, sight.ended, env)
  }

  function DrainAll(s: Store, ws: seq<WorkerId>, sights: map<WorkerId, Sight>, env: Env): (t: Store)
    requires forall w | w in ws :: w in s.workers
    requires forall id | id in s.order :: id in s.jobs
    ensures t.workers.Keys == s.workers.Keys && t.order == s.order && t.jobs.Keys == s.jobs.Keys && t.draining == s.draining
    decreases |ws|
  {
    if ws == [] then s else DrainAll(DrainOne(s, ws[0], SightOf(sights, ws[0]), env), ws[1..], sights, env)
  }

  lemma StopStays(outbox: seq<Command>, n: nat)
    requires Takes(outbox, n)
    ensures Stop in outbox <==> Stop in outbox[n..]
  {
    assert outbox == outbox[..n] + outbox[n..];
  }

  lemma CarriedKeeps(s: Store, w: WorkerId, traffic: Traffic)
    requires Valid(s, {}, {}) && w in s.workers
    ensures Valid(Carried(s, w, traffic), {}, {})
  {
    hide Valid;
    SoundOf(s, w);
    if Takes(s.workers[w].outbox, traffic.taken) {
      StopStays(s.workers[w].outbox, traffic.taken);
    }
    MarkKeeps(s, w, After(s.workers[w], traffic));
  }

  lemma VerdictKeeps(s: Store, w: WorkerId, exited: bool, env: Env)
    requires Ready(s, w) && Valid(s, {}, {})
    ensures Valid(Verdict(s, w, exited, env), {}, {})
  {
    hide Valid, Calm, Drain, Retire, Narrower;
    assert {} - {w} == {};
    if s.workers[w].retiredAt.None? && exited {
      DrainKeeps(s, w, true, env);
      RetireKeeps(Drain(s, w, true, env), w, false, true, env, {}, {});
    } else if !s.workers[w].ready && env.now - s.workers[w].startedAt >= READY {
      RetireKeeps(s, w, false, false, env, {}, {});
    }
  }

  lemma DrainOneKeeps(s: Store, w: WorkerId, sight: Sight, env: Env)
    requires Ready(s, w) && Valid(s, {}, {})
    ensures Valid(DrainOne(s, w, sight, env), {}, {})
  {
    hide Valid, Calm, Drain, Carried;
    CarriedKeeps(s, w, sight.early);
    DrainKeeps(Carried(s, w, sight.early), w, sight.ended, env);
  }

  lemma PollKeeps(s: Store, w: WorkerId, sight: Sight, env: Env)
    requires Ready(s, w) && Valid(s, {}, {})
    ensures Valid(Poll(s, w, sight, env), {}, {})
  {
    hide Valid, Drain, Carried, Verdict;
    var t := DrainOne(s, w, sight, env);
    DrainOneKeeps(s, w, sight, env);
    CarriedKeeps(t, w, sight.late);
    VerdictKeeps(Carried(t, w, sight.late), w, sight.exited, env);
  }

  lemma {:induction false} PollAllKeeps(s: Store, ws: seq<WorkerId>, sights: map<WorkerId, Sight>, env: Env)
    requires (forall w | w in ws :: w in s.workers) && (forall id | id in s.order :: id in s.jobs) && Valid(s, {}, {})
    ensures Valid(PollAll(s, ws, sights, env), {}, {})
    decreases |ws|
  {
    hide Valid, Poll;
    if ws != [] {
      PollKeeps(s, ws[0], SightOf(sights, ws[0]), env);
      PollAllKeeps(Poll(s, ws[0], SightOf(sights, ws[0]), env), ws[1..], sights, env);
    }
  }

  lemma {:induction false} DrainAllKeeps(s: Store, ws: seq<WorkerId>, sights: map<WorkerId, Sight>, env: Env)
    requires (forall w | w in ws :: w in s.workers) && (forall id | id in s.order :: id in s.jobs) && Valid(s, {}, {})
    ensures Valid(DrainAll(s, ws, sights, env), {}, {})
    decreases |ws|
  {
    hide Valid, DrainOne;
    if ws != [] {
      DrainOneKeeps(s, ws[0], SightOf(sights, ws[0]), env);
      DrainAllKeeps(DrainOne(s, ws[0], SightOf(sights, ws[0]), env), ws[1..], sights, env);
    }
  }

  // ---------------------------------------------------------------- a whole drain, and a whole tick

  lemma DrainCalls(s: Store, sights: map<WorkerId, Sight>, env: Env)
    requires Valid(s, {}, {})
    ensures var d := s.(draining := true);
            && (forall w | w in d.pool :: w in d.workers) && (forall id | id in d.order :: id in d.jobs)
            && var t := DrainAll(d, d.pool, sights, env);
               Linked(t) && (forall id | id in t.order :: id in t.jobs) && Valid(t, {}, {})
  {
    hide Valid, DrainAll;
    var d := s.(draining := true);
    DrainFlag(s);
    Callable(d, {}, {});
    DrainAllKeeps(d, d.pool, sights, env);
    Callable(DrainAll(d, d.pool, sights, env), {}, {});
  }

  lemma DrainFlag(s: Store)
    requires Valid(s, {}, {})
    ensures Valid(s.(draining := true), {}, {})
  {
  }

  /** A whole call of drain. */
  ghost function DrainedStore(s: Store, sights: map<WorkerId, Sight>, env: Env): Store
    requires Valid(s, {}, {})
  {
    DrainCalls(s, sights, env);
    var d := s.(draining := true);
    var t := DrainAll(d, d.pool, sights, env);
    AbortAll(t, t.order, true, Failed, Some(ServiceRestarted), env)
  }

  /** Drain leaves nothing queued. */
  lemma DrainedKeeps(s: Store, sights: map<WorkerId, Sight>, env: Env)
    requires Valid(s, {}, {})
    ensures var u := DrainedStore(s, sights, env);
            Valid(u, {}, {}) && u.draining && forall id | id in u.jobs :: !u.jobs[id].status.Queued?
  {
    hide Valid, DrainAll, AbortAll, Calm, Narrower;
    DrainCalls(s, sights, env);
    var d := s.(draining := true);
    var t := DrainAll(d, d.pool, sights, env);
    AbortAllKeeps(t, t.order, true, Failed, Some(ServiceRestarted), env);
    AbortAllEnds(t, t.order, true, Failed, Some(ServiceRestarted), env);
    OrderDistinct(t);
  }

  lemma TickCalls(s: Store, sights: map<WorkerId, Sight>, env: Env)
    requires Valid(s, {}, {})
    ensures var t := Expire(s, env);
            && (forall w | w in t.pool :: w in t.workers) && (forall id | id in t.order :: id in t.jobs)
            && var u := PollAll(t, t.pool, sights, env);
               Linked(u) && (forall id | id in u.order :: id in u.jobs) && Valid(u, {}, {})
  {
    hide Valid, Expire, PollAll;
    var t := Expire(s, env);
    ExpireKeeps(s, env);
    Callable(t, {}, {});
    PollAllKeeps(t, t.pool, sights, env);
    Callable(PollAll(t, t.pool, sights, env), {}, {});
  }

  /** The whole locked section of a tick. */
  ghost function Ticked(s: Store, sights: map<WorkerId, Sight>, env: Env): (Store, seq<Send>)
    requires Valid(s, {}, {})
  {
    TickCalls(s, sights, env);
    var t := Expire(s, env);
    Tick(PollAll(t, t.pool, sights, env), env)
  }

  lemma TickedKeeps(s: Store, sights: map<WorkerId, Sight>, env: Env)
    requires Valid(s, {}, {})
    ensures Valid(Ticked(s, sights, env).0, {}, {})
    ensures var t := Ticked(s, sights, env).0; forall id | Unfinished(t, id) :: env.now < t.jobs[id].deadline
  {
    hide Valid, Expire, PollAll, Tick;
    TickCalls(s, sights, env);
    var t := Expire(s, env);
    TickKeeps(PollAll(t, t.pool, sights, env), env);
    TickDeadlines(PollAll(t, t.pool, sights, env), env);
  }

  // ---------------------------------------------------------------- letting go of children

  /** The reaper's first pass: children that linger past their grace are killed. */
  function Killed(s: Store, ws: seq<WorkerId>, alive: set<WorkerId>, now: Seconds): (t: Store)
    requires forall w | w in ws :: w in s.workers && s.workers[w].retiredAt.Some?
    ensures t.workers.Keys == s.workers.Keys && forall w | w in s.workers :: t.workers[w].retiredAt == s.workers[w].retiredAt
    decreases |ws|
  {
    if ws == [] then s
    else
      var k := s.workers[ws[0]];
      var late := ws[0] in alive && !k.killed && now - k.retiredAt.value >= GRACE;
      Killed(if late then s.(workers := s.workers[ws[0] := k.(killed := true)]) else s, ws[1..], alive, now)
  }

  /** Its second: those that have exited are let go of. */
  function ForgetAll(s: Store, ws: seq<WorkerId>, alive: set<WorkerId>): Store
    decreases |ws|
  {
    if ws == [] then s else ForgetAll(if ws[0] in alive then s else Forget(s, ws[0]), ws[1..], alive)
  }

  lemma {:induction false} KilledKeeps(s: Store, ws: seq<WorkerId>, alive: set<WorkerId>, now: Seconds)
    requires (forall w | w in ws :: w in s.workers && s.workers[w].retiredAt.Some?) && Valid(s, {}, {})
    ensures Valid(Killed(s, ws, alive, now), {}, {})
    decreases |ws|
  {
    hide Valid;
    if ws != [] {
      var k := s.workers[ws[0]];
      var late := ws[0] in alive && !k.killed && now - k.retiredAt.value >= GRACE;
      SoundOf(s, ws[0]);
      MarkKeeps(s, ws[0], k.(killed := true));
      KilledKeeps(if late then s.(workers := s.workers[ws[0] := k.(killed := true)]) else s, ws[1..], alive, now);
    }
  }

  lemma {:induction false} ForgetAllKeeps(s: Store, ws: seq<WorkerId>, alive: set<WorkerId>)
    requires Valid(s, {}, {})
    ensures Valid(ForgetAll(s, ws, alive), {}, {})
    decreases |ws|
  {
    hide Valid, Forget;
    if ws != [] {
      if ws[0] !in alive {
        ForgetKeeps(s, ws[0]);
      }
      ForgetAllKeeps(if ws[0] in alive then s else Forget(s, ws[0]), ws[1..], alive);
    }
  }
}
