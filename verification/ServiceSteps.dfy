/** Every step of the service keeps its invariant. */
module ServiceSteps {
  import opened Wrappers
  import opened JobTypes
  import opened StoreModel
  import opened StoreInvariant
  import opened StoreSteps
  import opened Dispatching
  import opened Protocol
  import opened ProtocolInvariant
  import opened ChildSteps
  import opened ParentSteps
  import opened PostSteps
  import opened SendSteps
  import opened Service

  // ---------------------------------------------------------------- the children

  lemma LocalPcs(x: Sys, y: Sys, w: WorkerId)
    requires Pcs(x) && Local(NetOf(x), NetOf(y), w) && NoNewClaims(NetOf(x), NetOf(y))
    requires y.pc == x.pc && y.call == x.call
    ensures Pcs(y)
  {
    hide Claim;
  }

  lemma AnnounceInv(x: Sys, y: Sys, w: WorkerId, loaded: bool)
    requires Inv(x) && ChildStep(x, Announce(w, loaded), y)
    ensures Inv(y)
  {
    hide Valid, Core, Pcs, NoNewClaims;
    AnnounceKeeps(NetOf(x), NetOf(y), w, Ready);
    LocalPcs(x, y, w);
  }

  lemma LoadInv(x: Sys, y: Sys, w: WorkerId)
    requires Inv(x) && ChildStep(x, Load(w), y)
    ensures Inv(y)
  {
    hide Valid, Core, Pcs, NoNewClaims;
    AnnounceKeeps(NetOf(x), NetOf(y), w, Loaded);
    LocalPcs(x, y, w);
  }

  lemma ReceiveInv(x: Sys, y: Sys, w: WorkerId)
    requires Inv(x) && ChildStep(x, Receive(w), y)
    ensures Inv(y)
  {
    hide Valid, Core, Pcs, NoNewClaims;
    ReceiveKeeps(NetOf(x), NetOf(y), w);
    LocalPcs(x, y, w);
  }

  lemma BeginInv(x: Sys, y: Sys, w: WorkerId)
    requires Inv(x) && ChildStep(x, Begin(w), y)
    ensures Inv(y)
  {
    hide Valid, Core, Pcs, NoNewClaims;
    BeginKeeps(NetOf(x), NetOf(y), w);
    LocalPcs(x, y, w);
  }

  lemma ReportInv(x: Sys, y: Sys, w: WorkerId, p: Progress)
    requires Inv(x) && ChildStep(x, Report(w, p), y)
    ensures Inv(y)
  {
    hide Valid, Core, Pcs, NoNewClaims;
    assert y.children == x.children[w := y.children[w]];
    ReportKeeps(NetOf(x), NetOf(y), w, Progressed(x.children[w].phase.work.id, p));
    LocalPcs(x, y, w);
  }

  lemma ReplyInv(x: Sys, y: Sys, w: WorkerId, v: Value)
    requires Inv(x) && ChildStep(x, Reply(w, v), y)
    ensures Inv(y)
  {
    hide Valid, Core, Pcs, NoNewClaims;
    ReplyKeeps(NetOf(x), NetOf(y), w, v);
    LocalPcs(x, y, w);
  }

  lemma FaultInv(x: Sys, y: Sys, w: WorkerId)
    requires Inv(x) && ChildStep(x, Fault(w), y)
    ensures Inv(y)
  {
    hide Valid, Core, Pcs, NoNewClaims;
    ReportKeeps(NetOf(x), NetOf(y), w, Raised(x.children[w].phase.work.id));
    LocalPcs(x, y, w);
  }

  lemma ExitInv(x: Sys, y: Sys, w: WorkerId, a: Action)
    requires Inv(x) && (a == Leave(w) || a == Die(w)) && ChildStep(x, a, y)
    ensures Inv(y)
  {
    hide Valid, Core, Pcs, NoNewClaims;
    KeysOf(NetOf(x)) by { LinesOf(NetOf(x)); }
    assert y.store == x.store.(workers := x.store.workers[w := x.store.workers[w]]) by {
      assert x.store.workers[w := x.store.workers[w]] == x.store.workers;
    }
    LeaveKeeps(NetOf(x), NetOf(y), w);
    LocalPcs(x, y, w);
  }

  lemma ChildInv(x: Sys, a: Action, y: Sys)
    requires Inv(x) && ChildStep(x, a, y)
    ensures Inv(y)
  {
    hide Inv;
    if a.Announce? {
      AnnounceInv(x, y, a.w, a.loaded);
    } else if a.Load? {
      LoadInv(x, y, a.w);
    } else if a.Receive? {
      ReceiveInv(x, y, a.w);
    } else if a.Begin? {
      BeginInv(x, y, a.w);
    } else if a.Report? {
      ReportInv(x, y, a.w, a.progress);
    } else if a.Reply? {
      ReplyInv(x, y, a.w, a.value);
    } else if a.Fault? {
      FaultInv(x, y, a.w);
    } else {
      ExitInv(x, y, a.w, a);
    }
  }
}
