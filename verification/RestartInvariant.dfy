/** The inductive invariant of the restart protocol: what the lease, the
    receipt and every process's position say about each other, under every
    interleaving, crash and I/O fault. */
module RestartInvariant {
  import opened RestartLease
  import R = RestartReceipt
  import opened RestartProtocol

  /** Between Acquire and the end of Prepare or of the ticket's idle time: no
      helper exists and nobody else can take the lease away. */
  predicate Preparing(c: Coord) {
    !(c.Recording? || c.Killing? || c.FindingOwn? || c.RemovingOwn? || c.ReleasingAborted? || c.Closed?)
  }

  /** Commit has not recorded a helper yet. */
  predicate Unrecorded(c: Coord) {
    Preparing(c) || c.Recording?
  }

  /** The helper has left its own lease update behind. */
  predicate Announced(h: Helper) {
    !(h.NotSpawned? || h.Polling? || h.Announcing?)
  }

  predicate RequestOk(s: System, id: RequestId, q: Request) {
    && id != ""
    && q.owner > 0 && q.owner in s.born
    && (q.helper.NotSpawned? || (q.helperPid > 0 && q.helperPid in s.born))
    && (Preparing(q.coord) ==> q.helper.NotSpawned?)
    && (q.helper.Announcing? || q.helper.Destructive? ==> !Unrecorded(q.coord))
    && (q.coord.FindingPending? || q.coord.RemovingPending? ==> q.coord.pending in s.accepted)
  }

  /** What a stored lease says about the request it belongs to. */
  predicate LeaseOk(lease: Lease, q: Request) {
    && lease.ownerPid == q.owner
    && (Unrecorded(q.coord) ==> lease.phase.Prepared?)
    && (!lease.phase.Prepared? ==> lease.helperPid == q.helperPid)
    && (lease.phase.WaitingForReady? ==> Announced(q.helper))
  }

  predicate GatewayOk(s: System, g: Gateway) {
    && (g.Releasing? ==>
          && g.id in s.reqs
          && !Unrecorded(s.reqs[g.id].coord)
          && Announced(s.reqs[g.id].helper)
          && (Carries(s.file, g.id) ==> s.file.lease.phase.WaitingForReady?))
    && (g.Finding? || g.Removing? ==> g.pending in s.accepted)
  }

  predicate FileOk(s: System) {
    && (Readable(s.file) || s.file.Garbled?)
    && (s.file.Record? ==>
          s.file.lease.requestId in s.reqs && LeaseOk(s.file.lease, s.reqs[s.file.lease.requestId]))
  }

  /** A live coordinator in Prepare, or with an unused ticket, owns the lease;
      one about to publish sees no receipt. */
  predicate HoldsOk(s: System, id: RequestId)
    requires id in s.reqs
  {
    var q := s.reqs[id];
    q.owner in s.live ==>
      && (Preparing(q.coord) ==> Carries(s.file, id))
      && (q.coord.Publishing? ==> s.receipt == R.Missing)
  }

  ghost predicate Inv(s: System) {
    && s.now > 0 && s.live <= s.born && s.gateways.Keys <= s.born
    && FileOk(s)
    && (forall id <- s.reqs :: RequestOk(s, id, s.reqs[id]) && HoldsOk(s, id))
    && (forall pid <- s.gateways :: GatewayOk(s, s.gateways[pid]))
  }

  predicate Displaceable(s: System) {
    s.file.Absent? || (Decode(s.file).Ok? && Stale(Decode(s.file).value, s.View()))
  }

  /** What an Acquire can do: nothing, lose a stale lease, leave a garbled file,
      or add the new request with its lease. */
  predicate OnlyAcquired(s: System, t: System, owner: Pid, oldPid: Pid, raw: Entropy) {
    || t == s
    || (Displaceable(s)
        && (|| t == s.(file := Absent)
            || t == s.(file := Garbled)
            || t == WithRequest(s, owner, oldPid, raw, Checking)
            || t == WithRequest(s, owner, oldPid, raw, Ticketed)
            || t == WithRequest(s, owner, oldPid, raw, Closed)))
  }

  function WithRequest(s: System, owner: Pid, oldPid: Pid, raw: Entropy, coord: Coord): System {
    s.(file := Record(FreshLease(owner, s.now, raw)),
       reqs := s.reqs[NewRequestId(raw) := Request(owner, oldPid, coord, NotSpawned, 0)])
  }

  lemma AcquireOnlyAcquires(s: System, owner: Pid, feishu: bool, oldPid: Pid, raw: Entropy, f: Faults)
    requires FileOk(s) && Enabled(s, AcquireBy(owner, feishu, oldPid, raw, f))
    ensures OnlyAcquired(s, AcquireNext(s, owner, feishu, oldPid, raw, f), owner, oldPid, raw)
  {
  }

  lemma OnlyAcquiredKeepsInv(s: System, t: System, owner: Pid, oldPid: Pid, raw: Entropy)
    requires Inv(s) && OnlyAcquired(s, t, owner, oldPid, raw)
    requires owner > 0 && owner in s.live && NewRequestId(raw) !in s.reqs
    ensures Inv(t)
  {
    forall id <- t.reqs ensures RequestOk(t, id, t.reqs[id]) && HoldsOk(t, id) {
      assert id in s.reqs ==> RequestOk(s, id, s.reqs[id]) && HoldsOk(s, id);
    }
    forall pid <- t.gateways ensures GatewayOk(t, t.gateways[pid]) {
      assert GatewayOk(s, s.gateways[pid]);
    }
  }

  lemma AcquireKeepsInv(s: System, owner: Pid, feishu: bool, oldPid: Pid, raw: Entropy, f: Faults)
    requires Inv(s) && Enabled(s, AcquireBy(owner, feishu, oldPid, raw, f))
    ensures Inv(AcquireNext(s, owner, feishu, oldPid, raw, f))
  {
    AcquireOnlyAcquires(s, owner, feishu, oldPid, raw, f);
    OnlyAcquiredKeepsInv(s, AcquireNext(s, owner, feishu, oldPid, raw, f), owner, oldPid, raw);
  }

  /** One request's coordinator or helper moved; nobody else did. */
  ghost predicate OnlyMoved(s: System, t: System, id: RequestId)
    requires id in s.reqs
  {
    && t.now == s.now && t.gateways == s.gateways
    && t.reqs.Keys == s.reqs.Keys
    && (forall other <- s.reqs :: other != id ==> t.reqs[other] == s.reqs[other])
    && s.born <= t.born && s.accepted <= t.accepted && t.live <= t.born
    && (forall pid <- t.live :: pid in s.live || pid !in s.born)
    && (t.file == s.file || (Carries(s.file, id) && (t.file == Absent || Carries(t.file, id))))
    && (s.file.Record? && s.file.lease.phase.WaitingForReady? && t.file.Record? ==>
          t.file.lease.phase.WaitingForReady?)
    && (t.receipt == s.receipt || t.receipt == R.Missing
        || (s.reqs[id].coord.Publishing? && s.reqs[id].owner in s.live))
    && (Unrecorded(t.reqs[id].coord) ==> Unrecorded(s.reqs[id].coord))
    && (Announced(s.reqs[id].helper) ==> Announced(t.reqs[id].helper))
  }

  lemma OnlyMovedKeepsInv(s: System, t: System, id: RequestId)
    requires Inv(s) && id in s.reqs && OnlyMoved(s, t, id)
    requires FileOk(t) && RequestOk(t, id, t.reqs[id]) && HoldsOk(t, id)
    ensures Inv(t)
  {
    forall other <- t.reqs ensures RequestOk(t, other, t.reqs[other]) && HoldsOk(t, other) {
      if other != id {
        assert RequestOk(s, other, s.reqs[other]) && HoldsOk(s, other) && HoldsOk(s, id);
      }
    }
    forall pid <- t.gateways ensures GatewayOk(t, t.gateways[pid]) {
      assert GatewayOk(s, s.gateways[pid]);
    }
  }

  lemma RetryMoveIsOk(s: System, id: RequestId, c: Choice)
    requires Inv(s) && Enabled(s, CoordMoves(id, c))
    requires var coord := s.reqs[id].coord; coord.Checking? || coord.SettingAside? || coord.Resending?
    ensures var t := CoordNext(s, id, c);
            OnlyMoved(s, t, id) && FileOk(t) && RequestOk(t, id, t.reqs[id]) && HoldsOk(t, id)
  {
    assert RequestOk(s, id, s.reqs[id]) && HoldsOk(s, id);
  }

  lemma CompleteMoveIsOk(s: System, id: RequestId, c: Choice)
    requires Inv(s) && Enabled(s, CoordMoves(id, c))
    requires var coord := s.reqs[id].coord; coord.FindingPending? || coord.RemovingPending?
    ensures var t := CoordNext(s, id, c);
            OnlyMoved(s, t, id) && FileOk(t) && RequestOk(t, id, t.reqs[id]) && HoldsOk(t, id)
  {
    assert RequestOk(s, id, s.reqs[id]) && HoldsOk(s, id);
  }

  lemma PublishMoveIsOk(s: System, id: RequestId, c: Choice)
    requires Inv(s) && Enabled(s, CoordMoves(id, c))
    requires var coord := s.reqs[id].coord; coord.Stating? || coord.Publishing?
    ensures var t := CoordNext(s, id, c);
            OnlyMoved(s, t, id) && FileOk(t) && RequestOk(t, id, t.reqs[id]) && HoldsOk(t, id)
  {
    assert RequestOk(s, id, s.reqs[id]) && HoldsOk(s, id);
  }

  lemma HelperProcessMoveIsOk(s: System, id: RequestId, c: Choice)
    requires Inv(s) && Enabled(s, CoordMoves(id, c))
    requires var coord := s.reqs[id].coord; coord.Ticketed? || coord.Killing?
    ensures var t := CoordNext(s, id, c);
            OnlyMoved(s, t, id) && FileOk(t) && RequestOk(t, id, t.reqs[id]) && HoldsOk(t, id)
  {
    assert RequestOk(s, id, s.reqs[id]) && HoldsOk(s, id);
  }

  lemma RecordMoveIsOk(s: System, id: RequestId, c: Choice)
    requires Inv(s) && Enabled(s, CoordMoves(id, c))
    requires s.reqs[id].coord.Recording?
    ensures var t := CoordNext(s, id, c);
            OnlyMoved(s, t, id) && FileOk(t) && RequestOk(t, id, t.reqs[id]) && HoldsOk(t, id)
  {
    assert RequestOk(s, id, s.reqs[id]) && HoldsOk(s, id);
  }

  lemma AbortMoveIsOk(s: System, id: RequestId, c: Choice)
    requires Inv(s) && Enabled(s, CoordMoves(id, c))
    requires var coord := s.reqs[id].coord; coord.FindingOwn? || coord.RemovingOwn?
    ensures var t := CoordNext(s, id, c);
            OnlyMoved(s, t, id) && FileOk(t) && RequestOk(t, id, t.reqs[id]) && HoldsOk(t, id)
  {
    assert RequestOk(s, id, s.reqs[id]) && HoldsOk(s, id);
  }

  lemma ReleaseMoveIsOk(s: System, id: RequestId, c: Choice)
    requires Inv(s) && Enabled(s, CoordMoves(id, c))
    requires var coord := s.reqs[id].coord; coord.ReleasingFailed? || coord.ReleasingAborted?
    ensures var t := CoordNext(s, id, c);
            OnlyMoved(s, t, id) && FileOk(t) && RequestOk(t, id, t.reqs[id]) && HoldsOk(t, id)
  {
    assert RequestOk(s, id, s.reqs[id]) && HoldsOk(s, id);
  }

  lemma CoordKeepsInv(s: System, id: RequestId, c: Choice)
    requires Inv(s) && Enabled(s, CoordMoves(id, c))
    ensures Inv(CoordNext(s, id, c))
  {
    var coord := s.reqs[id].coord;
    if coord.ReleasingFailed? || coord.ReleasingAborted? {
      ReleaseMoveIsOk(s, id, c);
    } else if coord.FindingOwn? || coord.RemovingOwn? {
      AbortMoveIsOk(s, id, c);
    } else if coord.Recording? {
      RecordMoveIsOk(s, id, c);
    } else if coord.Ticketed? || coord.Killing? {
      HelperProcessMoveIsOk(s, id, c);
    } else if coord.Stating? || coord.Publishing? {
      PublishMoveIsOk(s, id, c);
    } else if coord.FindingPending? || coord.RemovingPending? {
      CompleteMoveIsOk(s, id, c);
    } else {
      RetryMoveIsOk(s, id, c);
    }
    OnlyMovedKeepsInv(s, CoordNext(s, id, c), id);
  }

  lemma StartingHelperIsOk(s: System, id: RequestId, c: Choice)
    requires Inv(s) && Enabled(s, HelperMoves(id, c))
    requires s.reqs[id].helper.Polling? || s.reqs[id].helper.Announcing?
    ensures var t := HelperNext(s, id, c);
            OnlyMoved(s, t, id) && FileOk(t) && RequestOk(t, id, t.reqs[id]) && HoldsOk(t, id)
  {
  }

  lemma WorkingHelperIsOk(s: System, id: RequestId, c: Choice)
    requires Inv(s) && Enabled(s, HelperMoves(id, c))
    requires s.reqs[id].helper.Destructive? || s.reqs[id].helper.ReleasingLease?
    ensures var t := HelperNext(s, id, c);
            OnlyMoved(s, t, id) && FileOk(t) && RequestOk(t, id, t.reqs[id]) && HoldsOk(t, id)
  {
  }

  lemma FailingHelperIsOk(s: System, id: RequestId, c: Choice)
    requires Inv(s) && Enabled(s, HelperMoves(id, c))
    requires Announced(s.reqs[id].helper) && !s.reqs[id].helper.Destructive? && !s.reqs[id].helper.ReleasingLease?
    ensures var t := HelperNext(s, id, c);
            OnlyMoved(s, t, id) && FileOk(t) && RequestOk(t, id, t.reqs[id]) && HoldsOk(t, id)
  {
  }

  lemma HelperKeepsInv(s: System, id: RequestId, c: Choice)
    requires Inv(s) && Enabled(s, HelperMoves(id, c))
    ensures Inv(HelperNext(s, id, c))
  {
    var helper := s.reqs[id].helper;
    if helper.Destructive? || helper.ReleasingLease? {
      WorkingHelperIsOk(s, id, c);
    } else if Announced(helper) {
      FailingHelperIsOk(s, id, c);
    } else {
      StartingHelperIsOk(s, id, c);
    }
    OnlyMovedKeepsInv(s, HelperNext(s, id, c), id);
  }

  /** One gateway moved; nobody else did. */
  ghost predicate OnlyGatewayMoved(s: System, t: System, pid: Pid) {
    && t == s.(file := t.file, receipt := t.receipt, gateways := t.gateways, accepted := t.accepted)
    && s.accepted <= t.accepted
    && t.gateways.Keys == s.gateways.Keys
    && (forall other <- s.gateways :: other != pid ==> t.gateways[other] == s.gateways[other])
    && (t.file == s.file || (s.file.Record? && s.file.lease.phase.WaitingForReady? && t.file == Absent))
    && (t.receipt == s.receipt || t.receipt == R.Missing)
  }

  lemma SendingMoveIsOk(s: System, pid: Pid, c: Choice)
    requires Inv(s) && Enabled(s, GatewayMoves(pid, c))
    requires !s.gateways[pid].Readying? && !s.gateways[pid].Releasing?
    ensures var t := GatewayNext(s, pid, c);
            OnlyGatewayMoved(s, t, pid) && GatewayOk(t, t.gateways[pid])
  {
    assert GatewayOk(s, s.gateways[pid]);
  }

  lemma CompletingMoveIsOk(s: System, pid: Pid, c: Choice)
    requires Inv(s) && Enabled(s, GatewayMoves(pid, c))
    requires s.gateways[pid].Readying? || s.gateways[pid].Releasing?
    ensures var t := GatewayNext(s, pid, c);
            OnlyGatewayMoved(s, t, pid) && GatewayOk(t, t.gateways[pid])
  {
    assert GatewayOk(s, s.gateways[pid]);
    assert s.file.Record? ==>
        RequestOk(s, s.file.lease.requestId, s.reqs[s.file.lease.requestId]) && HoldsOk(s, s.file.lease.requestId);
  }

  lemma OnlyGatewayMovedKeepsInv(s: System, t: System, pid: Pid)
    requires Inv(s) && pid in s.gateways && OnlyGatewayMoved(s, t, pid) && GatewayOk(t, t.gateways[pid])
    ensures Inv(t)
  {
    forall id <- t.reqs ensures RequestOk(t, id, t.reqs[id]) && HoldsOk(t, id) {
      assert RequestOk(s, id, s.reqs[id]) && HoldsOk(s, id);
    }
    forall other <- t.gateways ensures GatewayOk(t, t.gateways[other]) {
      assert GatewayOk(s, s.gateways[other]);
    }
  }

  lemma GatewayKeepsInv(s: System, pid: Pid, c: Choice)
    requires Inv(s) && Enabled(s, GatewayMoves(pid, c))
    ensures Inv(GatewayNext(s, pid, c))
  {
    if s.gateways[pid].Readying? || s.gateways[pid].Releasing? {
      CompletingMoveIsOk(s, pid, c);
    } else {
      SendingMoveIsOk(s, pid, c);
    }
    OnlyGatewayMovedKeepsInv(s, GatewayNext(s, pid, c), pid);
  }

  lemma StepKeepsInv(s: System, a: Action)
    requires Inv(s) && Enabled(s, a)
    ensures Inv(Next(s, a))
  {
    match a
    case AcquireBy(owner, feishu, oldPid, raw, f) => AcquireKeepsInv(s, owner, feishu, oldPid, raw, f);
    case CoordMoves(id, c) => CoordKeepsInv(s, id, c);
    case HelperMoves(id, c) => HelperKeepsInv(s, id, c);
    case GatewayMoves(pid, c) => GatewayKeepsInv(s, pid, c);
    case _ =>
  }

  /** In particular no decodable lease in the file is ever an invalid one. */
  lemma {:induction false} RunKeepsInv(r: Run, i: nat)
    requires IsRun(r) && i < |r.states|
    ensures Inv(r.states[i])
    ensures Readable(r.states[i].file) || r.states[i].file.Garbled?
  {
    if i > 0 {
      RunKeepsInv(r, i - 1);
      assert StepAt(r, i - 1);
      StepKeepsInv(r.states[i - 1], r.actions[i - 1]);
    }
  }
}
