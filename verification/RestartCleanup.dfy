/** What a failing helper leaves behind, whatever others do at the same time. */
module RestartCleanup {
  import opened RestartLease
  import R = RestartReceipt
  import opened RestartProtocol
  import opened RestartInvariant
  import opened RestartSafety

  /** A receipt of this request that readers accept. */
  predicate HasReceipt(s: System, id: RequestId) {
    R.IsFor(s.receipt, id) && R.ValidReceipt(s.receipt.receipt)
  }

  /** The request's helper has started, so its coordinator publishes no more. */
  predicate Spawned(s: System, id: RequestId) {
    id in s.reqs && !s.reqs[id].helper.NotSpawned?
  }

  /** What the helper has got rid of so far. */
  predicate CleanedUp(s: System, id: RequestId) {
    && Spawned(s, id)
    && match s.reqs[id].helper
       case FindingReceipt => true
       case RemovingReceipt => true
       case ReleasingLease => !HasReceipt(s, id)
       case Finished => !HasReceipt(s, id) && !Carries(s.file, id)
       case _ => false
  }

  /** The helper's own calls work. */
  predicate HelperWorks(a: Action, id: RequestId) {
    a.HelperMoves? && a.id == id ==> a.c.ok && !a.c.readFails && a.c.f == NO_FAULTS
  }

  lemma SpawnedStays(s: System, a: Action, id: RequestId)
    requires Inv(s) && Enabled(s, a) && Spawned(s, id)
    ensures Spawned(Next(s, a), id) && Next(s, a).reqs[id].oldPid == s.reqs[id].oldPid
    ensures !(a.HelperMoves? && a.id == id) ==> Next(s, a).reqs[id].helper == s.reqs[id].helper
  {
    assert RequestOk(s, id, s.reqs[id]);
  }

  // Neither trace comes back.
  lemma ReceiptStaysGone(s: System, a: Action, id: RequestId)
    requires Inv(s) && Enabled(s, a) && Spawned(s, id) && !HasReceipt(s, id)
    ensures !HasReceipt(Next(s, a), id)
  {
    assert RequestOk(s, id, s.reqs[id]);
  }

  lemma LeaseStaysGone(s: System, a: Action, id: RequestId)
    requires Inv(s) && Enabled(s, a) && Spawned(s, id) && !Carries(s.file, id)
    ensures !Carries(Next(s, a).file, id)
  {
    if Carries(Next(s, a).file, id) {
      LeaseComesOnlyFresh(s, a, id);
      assert false;
    }
  }

  lemma OwnMoveCleansUp(s: System, id: RequestId, c: Choice)
    requires Inv(s) && Enabled(s, HelperMoves(id, c)) && HelperWorks(HelperMoves(id, c), id) && CleanedUp(s, id)
    ensures CleanedUp(HelperNext(s, id, c), id)
  {
    assert RequestOk(s, id, s.reqs[id]);
  }

  lemma CleanedUpStays(s: System, a: Action, id: RequestId)
    requires Inv(s) && Enabled(s, a) && HelperWorks(a, id) && CleanedUp(s, id)
    ensures CleanedUp(Next(s, a), id)
  {
    SpawnedStays(s, a, id);
    if a.HelperMoves? && a.id == id {
      OwnMoveCleansUp(s, id, a.c);
    } else {
      if !HasReceipt(s, id) {
        ReceiptStaysGone(s, a, id);
      }
      if !Carries(s.file, id) {
        LeaseStaysGone(s, a, id);
      }
    }
  }

  // From the helper's look at the old gateway, which it found alive, on.
  lemma {:induction false} CleanedUpFrom(r: Run, k: nat, j: nat, id: RequestId)
    requires IsRun(r) && k < j < |r.states| && IsLook(r, k, id)
    requires r.states[k].View().Alive(r.states[k].reqs[id].oldPid)
    requires forall m :: k < m < j ==> HelperWorks(r.actions[m], id)
    ensures CleanedUp(r.states[j], id)
    decreases j - k
  {
    assert StepAt(r, j - 1);
    if k + 1 < j {
      CleanedUpFrom(r, k, j - 1, id);
      RunKeepsInv(r, j - 1);
      CleanedUpStays(r.states[j - 1], r.actions[j - 1], id);
    }
  }

  /** At step k the failing helper looks whether the old gateway is alive. */
  predicate IsLook(r: Run, k: nat, id: RequestId) {
    && k < |r.actions| < |r.states|
    && r.actions[k].HelperMoves? && r.actions[k].id == id
    && id in r.states[k].reqs && r.states[k].reqs[id].helper.Failing?
  }

  // The helper that failed by state i and is finished at j has looked between.
  lemma {:induction false} LooksOnce(r: Run, i: nat, j: nat, id: RequestId) returns (k: nat)
    requires IsRun(r) && i < j < |r.states| && id in r.states[i].reqs && r.states[i].reqs[id].helper.Failing?
    requires id in r.states[j].reqs && !r.states[j].reqs[id].helper.Failing?
    ensures i <= k < j && IsLook(r, k, id)
    ensures forall m :: i <= m < k ==> !(r.actions[m].HelperMoves? && r.actions[m].id == id)
    decreases j - i
  {
    RunKeepsInv(r, i);
    assert StepAt(r, i);
    SpawnedStays(r.states[i], r.actions[i], id);
    if r.actions[i].HelperMoves? && r.actions[i].id == id {
      k := i;
    } else {
      k := LooksOnce(r, i + 1, j, id);
    }
  }

  lemma {:induction false} FinishedStays(r: Run, i: nat, j: nat, id: RequestId)
    requires IsRun(r) && i <= j < |r.states| && id in r.states[i].reqs && r.states[i].reqs[id].helper.Finished?
    ensures id in r.states[j].reqs && r.states[j].reqs[id].helper.Finished?
    decreases j - i
  {
    if i < j {
      FinishedStays(r, i, j - 1, id);
      RunKeepsInv(r, j - 1);
      assert StepAt(r, j - 1);
      SpawnedStays(r.states[j - 1], r.actions[j - 1], id);
    }
  }

  /** All or none, over every run and beside any other process: a helper that
      fails and gets to its end, its own calls working, looks at the old gateway
      once.  If that is alive, then at the end neither the lease nor a valid
      receipt of the request is there; if not, no move of the helper touches
      either file. */
  lemma AllOrNone(r: Run, i: nat, j: nat, id: RequestId) returns (k: nat)
    requires IsRun(r) && i < j < |r.states|
    requires id in r.states[i].reqs && r.states[i].reqs[id].helper.Failing?
    requires id in r.states[j].reqs && r.states[j].reqs[id].helper.Finished?
    requires forall m :: i <= m < j ==> HelperWorks(r.actions[m], id)
    ensures i <= k < j && IsLook(r, k, id)
    ensures r.states[k].View().Alive(r.states[k].reqs[id].oldPid) ==>
              !Carries(r.states[j].file, id) && !HasReceipt(r.states[j], id)
    ensures !r.states[k].View().Alive(r.states[k].reqs[id].oldPid) ==>
              forall m :: i <= m < j && r.actions[m].HelperMoves? && r.actions[m].id == id ==>
                r.states[m + 1].file == r.states[m].file && r.states[m + 1].receipt == r.states[m].receipt
  {
    k := LooksOnce(r, i, j, id);
    assert StepAt(r, k);
    if r.states[k].View().Alive(r.states[k].reqs[id].oldPid) {
      CleanedUpFrom(r, k, j, id);
    } else {
      forall m | k < m < j ensures !(r.actions[m].HelperMoves? && r.actions[m].id == id) {
        FinishedStays(r, k + 1, m, id);
        assert StepAt(r, m);
      }
    }
  }
}
