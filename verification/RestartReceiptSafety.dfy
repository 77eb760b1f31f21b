/** Why a pending receipt can disappear, over all runs. */
module RestartReceiptSafety {
  import opened RestartLease
  import R = RestartReceipt
  import opened RestartProtocol
  import opened RestartInvariant

  /** The mover is the coordinator or the helper of `id`, aborting it. */
  predicate AbortsOwn(s: System, a: Action, id: RequestId) {
    && Enabled(s, a)
    && match a
       case CoordMoves(mover, _) => mover == id && s.reqs[id].coord.RemovingOwn?
       case HelperMoves(mover, _) => mover == id && s.reqs[id].helper.RemovingReceipt?
       case _ => false
  }

  /** The only reasons for which a receipt should go: its started message was
      accepted, its own request is being aborted, or it does not decode. */
  predicate LossIsJustified(s: System, a: Action, receipt: R.Receipt) {
    || receipt.requestId in s.accepted
    || AbortsOwn(s, a, receipt.requestId)
    || !R.ValidReceipt(receipt)
  }

  /** A message counts as accepted only after a sender accepted it. */
  lemma AcceptedMeansSent(s: System, a: Action, id: RequestId)
    requires Enabled(s, a) && id !in s.accepted && id in Next(s, a).accepted
    ensures (a.CoordMoves? && s.reqs[a.id].coord == Resending(id) && a.c.ok)
         || (a.GatewayMoves? && s.gateways[a.pid] == Sending(id) && a.c.ok)
  {
  }

  /** No step of any reachable state replaces one receipt by another. */
  lemma NeverOverwritten(s: System, a: Action)
    requires Inv(s) && Enabled(s, a)
    ensures Next(s, a).receipt == s.receipt || Next(s, a).receipt == R.Missing || s.receipt == R.Missing
  {
  }

  // Between reading the receipt and acting on it

  /** A live process that has read the receipt and has yet to remove it or set
      it aside. */
  predicate CoordDecided(s: System, id: RequestId)
    requires id in s.reqs
  {
    var q := s.reqs[id];
    q.owner in s.live && (q.coord.RemovingPending? || q.coord.RemovingOwn? || q.coord.SettingAside?)
  }

  predicate HelperDecided(s: System, id: RequestId)
    requires id in s.reqs
  {
    s.reqs[id].helperPid in s.live && s.reqs[id].helper.RemovingReceipt?
  }

  predicate GatewayDecided(s: System, pid: Pid)
    requires pid in s.gateways
  {
    var g := s.gateways[pid];
    pid in s.live && (g.Removing? || g.AsideAtStart? || g.AsideAtStop?)
  }

  /** A step that changes the receipt comes while no other process has decided
      what to do with it: what a lock around read and remove would bring about. */
  ghost predicate Uncontended(s: System, a: Action) {
    && Enabled(s, a)
    && (Next(s, a).receipt != s.receipt ==>
          && (forall id <- s.reqs :: CoordDecided(s, id) ==> a.CoordMoves? && a.id == id)
          && (forall id <- s.reqs :: HelperDecided(s, id) ==> a.HelperMoves? && a.id == id)
          && (forall pid <- s.gateways :: GatewayDecided(s, pid) ==> a.GatewayMoves? && a.pid == pid))
  }

  /** Whoever decided finds what the decision was about. */
  predicate CoordHolds(s: System, id: RequestId)
    requires id in s.reqs
  {
    CoordDecided(s, id) ==>
      match s.reqs[id].coord
      case RemovingPending(pending) => R.IsFor(s.receipt, pending)
      case SettingAside(saw) => s.receipt == saw
      case _ => R.IsFor(s.receipt, id)
  }

  predicate HelperHolds(s: System, id: RequestId)
    requires id in s.reqs
  {
    HelperDecided(s, id) ==> R.IsFor(s.receipt, id)
  }

  predicate GatewayHolds(s: System, pid: Pid)
    requires pid in s.gateways
  {
    GatewayDecided(s, pid) ==>
      match s.gateways[pid]
      case Removing(pending) => R.IsFor(s.receipt, pending)
      case other => s.receipt == other.saw
  }

  ghost predicate DecisionsHold(s: System) {
    && (forall id <- s.reqs :: CoordHolds(s, id) && HelperHolds(s, id))
    && (forall pid <- s.gateways :: GatewayHolds(s, pid))
  }

  // A process that does not move stays where it is, and does not come to life.
  lemma CoordRests(s: System, a: Action, id: RequestId)
    requires Enabled(s, a) && !(a.CoordMoves? && a.id == id) && id in Next(s, a).reqs
    requires id in s.reqs ==> RequestOk(s, id, s.reqs[id])
    ensures CoordDecided(Next(s, a), id) ==>
              id in s.reqs && CoordDecided(s, id) && Next(s, a).reqs[id].coord == s.reqs[id].coord
  {
  }

  lemma HelperRests(s: System, a: Action, id: RequestId)
    requires Enabled(s, a) && !(a.HelperMoves? && a.id == id) && id in Next(s, a).reqs
    requires id in s.reqs ==> RequestOk(s, id, s.reqs[id])
    ensures HelperDecided(Next(s, a), id) ==> id in s.reqs && HelperDecided(s, id)
  {
  }

  lemma CoordDecisionStays(s: System, a: Action, id: RequestId)
    requires Inv(s) && DecisionsHold(s) && Uncontended(s, a) && id in Next(s, a).reqs
    ensures CoordHolds(Next(s, a), id)
  {
    if a.CoordMoves? && a.id == id {
      assert CoordHolds(s, id) && CoordNext(s, id, a.c) == Next(s, a);
    } else if CoordDecided(Next(s, a), id) {
      CoordRests(s, a, id);
      assert CoordHolds(s, id);
    }
  }

  lemma HelperDecisionStays(s: System, a: Action, id: RequestId)
    requires Inv(s) && DecisionsHold(s) && Uncontended(s, a) && id in Next(s, a).reqs
    ensures HelperHolds(Next(s, a), id)
  {
    if a.HelperMoves? && a.id == id {
      assert HelperHolds(s, id) && HelperNext(s, id, a.c) == Next(s, a);
    } else if HelperDecided(Next(s, a), id) {
      HelperRests(s, a, id);
      assert HelperHolds(s, id);
    }
  }

  lemma GatewayRests(s: System, a: Action, pid: Pid)
    requires Inv(s) && Enabled(s, a) && !(a.GatewayMoves? && a.pid == pid) && pid in Next(s, a).gateways
    ensures GatewayDecided(Next(s, a), pid) ==>
              pid in s.gateways && GatewayDecided(s, pid) && Next(s, a).gateways[pid] == s.gateways[pid]
  {
  }

  lemma GatewayDecisionStays(s: System, a: Action, pid: Pid)
    requires Inv(s) && DecisionsHold(s) && Uncontended(s, a) && pid in Next(s, a).gateways
    ensures GatewayHolds(Next(s, a), pid)
  {
    if a.GatewayMoves? && a.pid == pid {
      assert GatewayHolds(s, pid) && GatewayNext(s, pid, a.c) == Next(s, a);
    } else if GatewayDecided(Next(s, a), pid) {
      GatewayRests(s, a, pid);
      assert GatewayHolds(s, pid);
    }
  }

  lemma DecisionsStay(s: System, a: Action)
    requires Inv(s) && DecisionsHold(s) && Uncontended(s, a)
    ensures DecisionsHold(Next(s, a))
  {
    var t := Next(s, a);
    forall id <- t.reqs ensures CoordHolds(t, id) && HelperHolds(t, id) {
      CoordDecisionStays(s, a, id);
      HelperDecisionStays(s, a, id);
    }
    forall pid <- t.gateways ensures GatewayHolds(t, pid) {
      GatewayDecisionStays(s, a, pid);
    }
  }

  /** Every reader that gave up on a receipt found it undecodable. */
  ghost predicate AsideOnlyCorrupt(s: System) {
    && (forall id <- s.reqs :: s.reqs[id].coord.SettingAside? ==> R.ReadReceipt(s.reqs[id].coord.saw, false).Err?)
    && (forall pid <- s.gateways ::
          s.gateways[pid].AsideAtStart? || s.gateways[pid].AsideAtStop? ==>
            R.ReadReceipt(s.gateways[pid].saw, false).Err?)
  }

  predicate ReadsCleanly(a: Action) {
    (a.CoordMoves? || a.HelperMoves? || a.GatewayMoves?) ==> !a.c.readFails
  }

  lemma CleanCoordReads(s: System, id: RequestId, c: Choice)
    requires AsideOnlyCorrupt(s) && Enabled(s, CoordMoves(id, c)) && !c.readFails
    ensures AsideOnlyCorrupt(CoordNext(s, id, c))
  {
  }

  lemma CleanGatewayReads(s: System, pid: Pid, c: Choice)
    requires AsideOnlyCorrupt(s) && Enabled(s, GatewayMoves(pid, c)) && !c.readFails
    ensures AsideOnlyCorrupt(GatewayNext(s, pid, c))
  {
  }

  lemma CleanReadsStay(s: System, a: Action)
    requires AsideOnlyCorrupt(s) && Enabled(s, a) && ReadsCleanly(a)
    ensures AsideOnlyCorrupt(Next(s, a))
  {
    if a.CoordMoves? {
      CleanCoordReads(s, a.id, a.c);
    } else if a.GatewayMoves? {
      CleanGatewayReads(s, a.pid, a.c);
    }
  }

  lemma {:induction false} CleanReadsUpTo(r: Run, i: nat)
    requires IsRun(r) && i < |r.states|
    requires forall k :: 0 <= k < i ==> ReadsCleanly(r.actions[k])
    ensures AsideOnlyCorrupt(r.states[i])
  {
    if i > 0 {
      CleanReadsUpTo(r, i - 1);
      assert StepAt(r, i - 1);
      CleanReadsStay(r.states[i - 1], r.actions[i - 1]);
    }
  }

  // Runs

  /** The step comes neither with an I/O error on a receipt nor in between
      another process's decision and its deed. */
  ghost predicate Sound(s: System, a: Action) {
    ReadsCleanly(a) && Uncontended(s, a)
  }

  lemma {:induction false} DecisionsHoldUpTo(r: Run, i: nat)
    requires IsRun(r) && i < |r.states|
    requires forall k :: 0 <= k < i ==> Uncontended(r.states[k], r.actions[k])
    ensures DecisionsHold(r.states[i])
  {
    if i > 0 {
      DecisionsHoldUpTo(r, i - 1);
      RunKeepsInv(r, i - 1);
      assert StepAt(r, i - 1);
      DecisionsStay(r.states[i - 1], r.actions[i - 1]);
    }
  }

  lemma DecidedLossIsJustified(s: System, a: Action, receipt: R.Receipt)
    requires Inv(s) && DecisionsHold(s) && AsideOnlyCorrupt(s) && Enabled(s, a)
    requires s.receipt == R.Stored(receipt) && Next(s, a).receipt != s.receipt
    ensures LossIsJustified(s, a, receipt)
  {
    match a {
      case CoordMoves(id, _) => assert RequestOk(s, id, s.reqs[id]) && HoldsOk(s, id);
      case GatewayMoves(pid, _) => assert GatewayOk(s, s.gateways[pid]);
      case _ =>
    }
  }

  // The step at which a receipt that was there disappears leaves nothing.
  lemma {:induction false} LossStep(r: Run, i: nat, j: nat, receipt: R.Receipt) returns (k: nat)
    requires IsRun(r) && i < j < |r.states|
    requires r.states[i].receipt == R.Stored(receipt) && r.states[j].receipt != R.Stored(receipt)
    ensures i <= k < j && r.states[k].receipt == R.Stored(receipt) && r.states[k + 1].receipt == R.Missing
    decreases j - i
  {
    if r.states[j - 1].receipt == R.Stored(receipt) {
      k := j - 1;
      RunKeepsInv(r, k);
      assert StepAt(r, k);
      NeverOverwritten(r.states[k], r.actions[k]);
    } else {
      k := LossStep(r, i, j - 1, receipt);
    }
  }

  /** Over every run, with any crashes and any faults other than failing reads
      of the receipt: if read and remove are not torn apart by another process,
      every receipt that is gone was delivered, aborted or corrupt. */
  lemma NoReceiptIsLost(r: Run, i: nat, j: nat, receipt: R.Receipt) returns (k: nat)
    requires IsRun(r) && i < j < |r.states|
    requires forall n :: 0 <= n < j ==> Sound(r.states[n], r.actions[n])
    requires r.states[i].receipt == R.Stored(receipt) && r.states[j].receipt != R.Stored(receipt)
    ensures i <= k < j && r.states[k].receipt == R.Stored(receipt) && r.states[k + 1].receipt == R.Missing
    ensures LossIsJustified(r.states[k], r.actions[k], receipt)
  {
    k := LossStep(r, i, j, receipt);
    RunKeepsInv(r, k);
    assert StepAt(r, k);
    DecisionsHoldUpTo(r, k);
    CleanReadsUpTo(r, k);
    DecidedLossIsJustified(r.states[k], r.actions[k], receipt);
  }

  // The other way round: what an unjustified loss comes from

  predicate SameMover(a: Action, b: Action) {
    match a
    case CoordMoves(id, _) => b.CoordMoves? && b.id == id
    case HelperMoves(id, _) => b.HelperMoves? && b.id == id
    case GatewayMoves(pid, _) => b.GatewayMoves? && b.pid == pid
    case _ => false
  }

  datatype Stance = AtCoord(coord: Coord) | AtHelper(helper: Helper) | AtGateway(gateway: Gateway) | Nowhere {
    predicate Decided() {
      match this
      case AtCoord(coord) => coord.RemovingPending? || coord.RemovingOwn? || coord.SettingAside?
      case AtHelper(helper) => helper.RemovingReceipt?
      case AtGateway(gateway) => gateway.Removing? || gateway.AsideAtStart? || gateway.AsideAtStop?
      case Nowhere => false
    }
  }

  /** Where the process that makes this move stands. */
  function StanceOf(s: System, a: Action): Stance {
    match a
    case CoordMoves(id, _) => if id in s.reqs then AtCoord(s.reqs[id].coord) else Nowhere
    case HelperMoves(id, _) => if id in s.reqs then AtHelper(s.reqs[id].helper) else Nowhere
    case GatewayMoves(pid, _) => if pid in s.gateways then AtGateway(s.gateways[pid]) else Nowhere
    case _ => Nowhere
  }

  lemma OnlyOwnMovesDecide(s: System, b: Action, a: Action)
    requires Enabled(s, b) && !SameMover(b, a)
    requires StanceOf(Next(s, b), a).Decided()
    ensures StanceOf(s, a) == StanceOf(Next(s, b), a)
  {
  }

  // The mover's last move before step k is the one by which it decided.
  lemma {:induction false} DecidingStep(r: Run, k: nat, a: Action) returns (n: nat)
    requires IsRun(r) && k < |r.states| && StanceOf(r.states[k], a).Decided()
    ensures n < k && SameMover(r.actions[n], a)
    ensures StanceOf(r.states[n + 1], a) == StanceOf(r.states[k], a)
    ensures forall m :: n < m < k ==> !SameMover(r.actions[m], a)
  {
    assert StepAt(r, k - 1);
    if SameMover(r.actions[k - 1], a) {
      n := k - 1;
    } else {
      OnlyOwnMovesDecide(r.states[k - 1], r.actions[k - 1], a);
      n := DecidingStep(r, k - 1, a);
    }
  }

  // Who decides on this very receipt, and reads it, has a good reason.
  lemma CleanDecisionIsJustified(s: System, b: Action, t: System, a: Action, receipt: R.Receipt)
    requires Enabled(s, b) && SameMover(b, a) && ReadsCleanly(b) && s.receipt == R.Stored(receipt)
    requires StanceOf(Next(s, b), a) == StanceOf(t, a) && StanceOf(t, a).Decided()
    requires Inv(t) && Enabled(t, a)
    ensures LossIsJustified(t, a, receipt)
  {
    match a {
      case CoordMoves(id, _) => assert RequestOk(t, id, t.reqs[id]);
      case GatewayMoves(pid, _) => assert GatewayOk(t, t.gateways[pid]);
      case _ =>
    }
  }

  lemma LossIsDecided(s: System, a: Action)
    requires Inv(s) && Enabled(s, a) && s.receipt.Stored? && Next(s, a).receipt != s.receipt
    ensures StanceOf(s, a).Decided()
  {
    if a.CoordMoves? {
      assert HoldsOk(s, a.id);
    }
  }

  /** Over every run: when a receipt goes without a good reason, the process
      that removes it had failed to read it, or had read another one, when it
      last moved. */
  lemma UnjustifiedLossIsTorn(r: Run, k: nat, receipt: R.Receipt) returns (n: nat)
    requires IsRun(r) && k < |r.actions|
    requires r.states[k].receipt == R.Stored(receipt) && r.states[k + 1].receipt != R.Stored(receipt)
    requires !LossIsJustified(r.states[k], r.actions[k], receipt)
    ensures n < k && SameMover(r.actions[n], r.actions[k])
    ensures forall m :: n < m < k ==> !SameMover(r.actions[m], r.actions[k])
    ensures !ReadsCleanly(r.actions[n]) || r.states[n].receipt != R.Stored(receipt)
  {
    RunKeepsInv(r, k);
    assert StepAt(r, k);
    LossIsDecided(r.states[k], r.actions[k]);
    n := DecidingStep(r, k, r.actions[k]);
    assert StepAt(r, n);
    if ReadsCleanly(r.actions[n]) && r.states[n].receipt == R.Stored(receipt) {
      CleanDecisionIsJustified(r.states[n], r.actions[n], r.states[k], r.actions[k], receipt);
    }
  }

  /** A valid receipt goes, in such a run, only delivered or aborted. */
  lemma ValidReceiptsAreDeliveredOrAborted(r: Run, i: nat, j: nat, receipt: R.Receipt) returns (k: nat)
    requires IsRun(r) && i < j < |r.states|
    requires forall n :: 0 <= n < j ==> Sound(r.states[n], r.actions[n])
    requires R.ValidReceipt(receipt)
    requires r.states[i].receipt == R.Stored(receipt) && r.states[j].receipt != R.Stored(receipt)
    ensures i <= k < j
    ensures var id := receipt.requestId;
            id in r.states[k].accepted || AbortsOwn(r.states[k], r.actions[k], id)
  {
    k := NoReceiptIsLost(r, i, j, receipt);
  }
}
