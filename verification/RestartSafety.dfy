/** Who may hold, change and remove the lease, over all runs. */
module RestartSafety {
  import opened Wrappers
  import opened RestartLease
  import opened RestartProtocol
  import opened RestartInvariant

  /** The helper of `id` runs, and is past its announcement and not finished. */
  predicate InDestruction(s: System, id: RequestId) {
    id in s.reqs && s.reqs[id].helper.Destructive? && s.reqs[id].helperPid in s.live
  }

  predicate HoldsAnnounced(s: System, id: RequestId)
    requires id in s.reqs
  {
    && Carries(s.file, id)
    && s.file.lease.phase.WaitingForReady?
    && s.file.lease.helperPid == s.reqs[id].helperPid
  }

  ghost predicate Exclusive(s: System) {
    forall id <- s.reqs :: InDestruction(s, id) ==> HoldsAnnounced(s, id)
  }

  /** A gateway's CompleteReady, or an Abort after a helper that could not be
      killed, is about to release the lease under a helper at work. */
  predicate Intrudes(s: System, a: Action) {
    Enabled(s, a) &&
    match a
    case CoordMoves(id, c) =>
      s.reqs[id].coord.ReleasingAborted? && InDestruction(s, id) && ReleaseStep(s.file, id, c.f).0 != s.file
    case GatewayMoves(pid, c) =>
      var g := s.gateways[pid];
      g.Releasing? && InDestruction(s, g.id) && ReleaseStep(s.file, g.id, c.f).0 != s.file
    case _ => false
  }

  // Exclusion

  lemma CoordKeepsExclusive(s: System, id: RequestId, c: Choice)
    requires Inv(s) && Exclusive(s) && Enabled(s, CoordMoves(id, c)) && !Intrudes(s, CoordMoves(id, c))
    ensures Exclusive(CoordNext(s, id, c))
  {
    var t := CoordNext(s, id, c);
    assert RequestOk(s, id, s.reqs[id]);
    forall other <- t.reqs | InDestruction(t, other) ensures HoldsAnnounced(t, other) {
      assert RequestOk(s, other, s.reqs[other]);
      assert InDestruction(s, other) ==> HoldsAnnounced(s, other);
    }
  }

  lemma HelperKeepsExclusive(s: System, id: RequestId, c: Choice)
    requires Inv(s) && Exclusive(s) && Enabled(s, HelperMoves(id, c))
    ensures Exclusive(HelperNext(s, id, c))
  {
    var t := HelperNext(s, id, c);
    assert RequestOk(s, id, s.reqs[id]);
    forall other <- t.reqs | InDestruction(t, other) ensures HoldsAnnounced(t, other) {
      if other != id {
        assert InDestruction(s, other) && HoldsAnnounced(s, other);
      }
    }
  }

  lemma StepKeepsExclusive(s: System, a: Action)
    requires Inv(s) && Exclusive(s) && Enabled(s, a) && !Intrudes(s, a)
    ensures Exclusive(Next(s, a))
  {
    if a.CoordMoves? {
      CoordKeepsExclusive(s, a.id, a.c);
    } else if a.HelperMoves? {
      HelperKeepsExclusive(s, a.id, a.c);
    } else {
      var t := Next(s, a);
      forall id <- t.reqs | InDestruction(t, id) ensures HoldsAnnounced(t, id) {
        assert id in s.reqs ==> RequestOk(s, id, s.reqs[id]);
      }
    }
  }

  lemma IntrusionBreaksExclusive(s: System, a: Action)
    requires Inv(s) && Enabled(s, a) && Intrudes(s, a)
    ensures !Exclusive(Next(s, a))
  {
    var id := if a.CoordMoves? then a.id else s.gateways[a.pid].id;
    assert id in Next(s, a).reqs && InDestruction(Next(s, a), id);
  }

  lemma {:induction false} ExclusiveUpTo(r: Run, i: nat)
    requires IsRun(r) && i < |r.states|
    requires forall k :: 0 <= k < i ==> !Intrudes(r.states[k], r.actions[k])
    ensures Exclusive(r.states[i])
  {
    if i > 0 {
      ExclusiveUpTo(r, i - 1);
      RunKeepsInv(r, i - 1);
      assert StepAt(r, i - 1);
      StepKeepsExclusive(r.states[i - 1], r.actions[i - 1]);
    }
  }

  /** In every run, with any crashes and faults, every helper at work holds the
      lease at all times exactly when nobody releases it under one. */
  lemma ExclusiveIffNoIntrusion(r: Run)
    requires IsRun(r)
    ensures (forall i :: 0 <= i < |r.states| ==> Exclusive(r.states[i]))
       <==> (forall k :: 0 <= k < |r.actions| ==> !Intrudes(r.states[k], r.actions[k]))
  {
    if forall k :: 0 <= k < |r.actions| ==> !Intrudes(r.states[k], r.actions[k]) {
      forall i | 0 <= i < |r.states| ensures Exclusive(r.states[i]) {
        ExclusiveUpTo(r, i);
      }
    } else {
      var k :| 0 <= k < |r.actions| && Intrudes(r.states[k], r.actions[k]);
      RunKeepsInv(r, k);
      assert StepAt(r, k);
      IntrusionBreaksExclusive(r.states[k], r.actions[k]);
      assert !Exclusive(r.states[k + 1]);
    }
  }

  /** What exclusion buys: one helper at work, and no new request beside it. */
  lemma ExclusiveMeans(s: System, id: RequestId, other: RequestId, owner: Pid, raw: Entropy, f: Faults)
    requires Inv(s) && Exclusive(s) && InDestruction(s, id)
    ensures InDestruction(s, other) ==> other == id
    ensures var a := AcquireStep(s.file, owner, s.View(), raw, f);
            a.lease.None? && a.err.Some? && a.file == s.file
  {
  }

  /** A helper gets there only through its own successful lease update. */
  lemma DestructionIsAnnounced(s: System, a: Action, id: RequestId)
    requires Inv(s) && Enabled(s, a)
    requires !(id in s.reqs && s.reqs[id].helper.Destructive?)
    requires id in Next(s, a).reqs && Next(s, a).reqs[id].helper.Destructive?
    ensures a.HelperMoves? && a.id == id && s.reqs[id].helper.Announcing?
    ensures UpdateStep(s.file, id, AnnounceHelper(s.reqs[id].helperPid), a.c.f).1.None?
    ensures HoldsAnnounced(Next(s, a), id)
  {
  }

  // When nobody intrudes

  /** Killing a just-spawned helper works, and no gateway gets as far as reading
      the lease in CompleteReady while a helper is at work. */
  ghost predicate Orderly(s: System, a: Action) {
    Enabled(s, a) &&
    match a
    case CoordMoves(id, c) => s.reqs[id].coord.Killing? ==> c.ok
    case GatewayMoves(pid, _) => s.gateways[pid].Readying? ==> forall id <- s.reqs :: !InDestruction(s, id)
    case _ => true
  }

  predicate AbortsAlone(s: System, id: RequestId)
    requires id in s.reqs
  {
    var coord := s.reqs[id].coord;
    coord.FindingOwn? || coord.RemovingOwn? || coord.ReleasingAborted? ==>
      s.reqs[id].helper.NotSpawned? || s.reqs[id].helperPid !in s.live
  }

  ghost predicate Undisturbed(s: System) {
    && (forall id <- s.reqs :: AbortsAlone(s, id))
    && (forall pid <- s.gateways :: s.gateways[pid].Releasing? ==> !InDestruction(s, s.gateways[pid].id))
  }

  lemma OrderlyCoordAbortsAlone(s: System, mover: RequestId, c: Choice, id: RequestId)
    requires Inv(s) && Undisturbed(s) && Orderly(s, CoordMoves(mover, c)) && id in s.reqs
    ensures AbortsAlone(CoordNext(s, mover, c), id)
  {
  }

  lemma OrderlyHelperAbortsAlone(s: System, mover: RequestId, c: Choice, id: RequestId)
    requires Inv(s) && Undisturbed(s) && Orderly(s, HelperMoves(mover, c)) && id in s.reqs
    ensures AbortsAlone(HelperNext(s, mover, c), id)
  {
  }

  lemma OrderlyAbortsAlone(s: System, a: Action, id: RequestId)
    requires Inv(s) && Undisturbed(s) && Orderly(s, a)
    requires id in Next(s, a).reqs
    ensures AbortsAlone(Next(s, a), id)
  {
    if a.CoordMoves? {
      OrderlyCoordAbortsAlone(s, a.id, a.c, id);
    } else if a.HelperMoves? {
      OrderlyHelperAbortsAlone(s, a.id, a.c, id);
    } else {
      assert id in s.reqs ==> RequestOk(s, id, s.reqs[id]) && AbortsAlone(s, id);
    }
  }

  lemma OrderlyGatewaysWait(s: System, a: Action, pid: Pid)
    requires Inv(s) && Undisturbed(s) && Orderly(s, a)
    requires pid in Next(s, a).gateways && Next(s, a).gateways[pid].Releasing?
    ensures !InDestruction(Next(s, a), Next(s, a).gateways[pid].id)
  {
  }

  lemma OrderlyStaysUndisturbed(s: System, a: Action)
    requires Inv(s) && Undisturbed(s) && Orderly(s, a)
    ensures Undisturbed(Next(s, a))
  {
    var t := Next(s, a);
    forall id <- t.reqs ensures AbortsAlone(t, id) {
      OrderlyAbortsAlone(s, a, id);
    }
    forall pid <- t.gateways | t.gateways[pid].Releasing? ensures !InDestruction(t, t.gateways[pid].id) {
      OrderlyGatewaysWait(s, a, pid);
    }
  }

  lemma {:induction false} OrderlyUpTo(r: Run, i: nat)
    requires IsRun(r) && i < |r.states|
    requires forall k :: 0 <= k < |r.actions| ==> Orderly(r.states[k], r.actions[k])
    ensures Undisturbed(r.states[i])
    ensures i < |r.actions| ==> !Intrudes(r.states[i], r.actions[i])
  {
    if i > 0 {
      OrderlyUpTo(r, i - 1);
      RunKeepsInv(r, i - 1);
      assert StepAt(r, i - 1);
      OrderlyStaysUndisturbed(r.states[i - 1], r.actions[i - 1]);
    }
    if i < |r.actions| && r.actions[i].CoordMoves? {
      assert AbortsAlone(r.states[i], r.actions[i].id);
    }
  }

  /** The exclusive destructive phase: over every orderly run. */
  lemma OrderlyRunsAreExclusive(r: Run, i: nat)
    requires IsRun(r) && i < |r.states|
    requires forall k :: 0 <= k < |r.actions| ==> Orderly(r.states[k], r.actions[k])
    ensures Exclusive(r.states[i])
  {
    forall k | 0 <= k < i ensures !Intrudes(r.states[k], r.actions[k]) {
      OrderlyUpTo(r, k);
    }
    ExclusiveUpTo(r, i);
  }

  // How a lease changes and leaves

  function Rank(phase: Phase): int {
    match phase
    case Prepared => 0
    case HelperStarted => 1
    case WaitingForReady => 2
    case OtherPhase(_) => 3
  }

  /** The operation that takes the lease of `id` away: its own coordinator or
      helper, a gateway that read it as waiting, or reclaim of a stale lease. */
  predicate TakesAway(s: System, a: Action, id: RequestId) {
    && Enabled(s, a)
    && Carries(s.file, id)
    && match a
       case AcquireBy(_, _, _, _, _) => Stale(s.file.lease, s.View())
       case CoordMoves(mover, _) =>
         mover == id && (s.reqs[id].coord.ReleasingFailed? || s.reqs[id].coord.ReleasingAborted?)
       case HelperMoves(mover, _) => mover == id && s.reqs[id].helper.ReleasingLease?
       case GatewayMoves(pid, _) => s.gateways[pid] == Releasing(id) && s.file.lease.phase.WaitingForReady?
       case _ => false
  }

  /** The request ID that the mover's lease operation carries. */
  predicate HasToken(s: System, a: Action, id: RequestId) {
    && Enabled(s, a)
    && match a
       case CoordMoves(mover, _) => mover == id
       case HelperMoves(mover, _) => mover == id
       case GatewayMoves(pid, _) => s.gateways[pid] == Releasing(id)
       case _ => false
  }

  /** A lease of one request, later. */
  predicate Forward(before: Lease, after: Lease) {
    && before.requestId == after.requestId
    && Rank(before.phase) <= Rank(after.phase) <= 2
    && before.createdAt == after.createdAt && before.ownerPid == after.ownerPid
  }

  /** What a step can do to the lease file. */
  predicate LeaseStep(s: System, a: Action, file: LeaseFile) {
    || file == s.file
    || (a.AcquireBy? && Displaceable(s)
        && (file == Absent || file == Garbled || file == Record(FreshLease(a.owner, s.now, a.raw))))
    || (s.file.Record? && HasToken(s, a, s.file.lease.requestId)
        && ((file == Absent && TakesAway(s, a, s.file.lease.requestId))
            || (file.Record? && Forward(s.file.lease, file.lease))))
  }

  lemma AcquireLeaseStep(s: System, a: Action)
    requires Inv(s) && Enabled(s, a) && a.AcquireBy?
    ensures LeaseStep(s, a, Next(s, a).file)
  {
    AcquireOnlyAcquires(s, a.owner, a.feishu, a.oldPid, a.raw, a.f);
  }

  lemma CoordLeaseStep(s: System, a: Action)
    requires Inv(s) && Enabled(s, a) && a.CoordMoves?
    ensures LeaseStep(s, a, Next(s, a).file)
  {
    assert RequestOk(s, a.id, s.reqs[a.id]);
  }

  lemma HelperLeaseStep(s: System, a: Action)
    requires Inv(s) && Enabled(s, a) && a.HelperMoves?
    ensures LeaseStep(s, a, Next(s, a).file)
  {
    assert RequestOk(s, a.id, s.reqs[a.id]);
  }

  lemma GatewayLeaseStep(s: System, a: Action)
    requires Inv(s) && Enabled(s, a) && a.GatewayMoves?
    ensures LeaseStep(s, a, Next(s, a).file)
  {
    assert GatewayOk(s, s.gateways[a.pid]);
  }

  lemma EveryLeaseStep(s: System, a: Action)
    requires Inv(s) && Enabled(s, a)
    ensures LeaseStep(s, a, Next(s, a).file)
  {
    if a.AcquireBy? {
      AcquireLeaseStep(s, a);
    } else if a.CoordMoves? {
      CoordLeaseStep(s, a);
    } else if a.HelperMoves? {
      HelperLeaseStep(s, a);
    } else if a.GatewayMoves? {
      GatewayLeaseStep(s, a);
    }
  }

  /** Whatever was read before: a step other than acquiring changes or removes
      only the lease of the request whose ID it carries.  A lease acquired in
      between has another ID and is safe; a legacy marker is only reclaimed. */
  lemma OnlyOwnLeaseChanges(s: System, a: Action)
    requires Inv(s) && Enabled(s, a) && Next(s, a).file != s.file
    ensures a.AcquireBy? || (s.file.Record? && HasToken(s, a, s.file.lease.requestId))
    ensures a.AcquireBy? || Next(s, a).file == Absent || Carries(Next(s, a).file, s.file.lease.requestId)
    ensures a.AcquireBy? ==> s.file == Absent || (Decode(s.file).Ok? && Stale(Decode(s.file).value, s.View()))
  {
    EveryLeaseStep(s, a);
  }

  lemma LeaseLeavesOnlySo(s: System, a: Action, id: RequestId)
    requires Inv(s) && Enabled(s, a)
    requires Carries(s.file, id) && !Carries(Next(s, a).file, id)
    ensures TakesAway(s, a, id)
  {
    EveryLeaseStep(s, a);
  }

  lemma PhaseStepsForward(s: System, a: Action, id: RequestId)
    requires Inv(s) && Enabled(s, a)
    requires Carries(s.file, id) && Carries(Next(s, a).file, id)
    ensures Forward(s.file.lease, Next(s, a).file.lease)
  {
    EveryLeaseStep(s, a);
  }

  lemma LeaseComesOnlyFresh(s: System, a: Action, id: RequestId)
    requires Inv(s) && Enabled(s, a)
    requires Carries(Next(s, a).file, id)
    ensures Carries(s.file, id) || id !in s.reqs
  {
    EveryLeaseStep(s, a);
  }

  lemma StepKeepsRequests(s: System, a: Action)
    requires Enabled(s, a)
    ensures s.reqs.Keys <= Next(s, a).reqs.Keys
  {
  }

  lemma {:induction false} RequestsStay(r: Run, i: nat, j: nat)
    requires IsRun(r) && i <= j < |r.states|
    ensures r.states[i].reqs.Keys <= r.states[j].reqs.Keys
    decreases j - i
  {
    if i < j {
      RequestsStay(r, i, j - 1);
      assert StepAt(r, j - 1);
      StepKeepsRequests(r.states[j - 1], r.actions[j - 1]);
    }
  }

  // The last step before a moment at which the file carries a known request.
  lemma CarriedSince(r: Run, j: nat, id: RequestId)
    requires IsRun(r) && 0 < j < |r.states|
    requires Carries(r.states[j].file, id) && id in r.states[j - 1].reqs
    ensures Carries(r.states[j - 1].file, id)
    ensures Rank(r.states[j - 1].file.lease.phase) <= Rank(r.states[j].file.lease.phase) <= 2
  {
    RunKeepsInv(r, j - 1);
    assert StepAt(r, j - 1);
    LeaseComesOnlyFresh(r.states[j - 1], r.actions[j - 1], id);
    PhaseStepsForward(r.states[j - 1], r.actions[j - 1], id);
  }

  /** For any request and any two moments of any run at which the file carries
      it, it carries it in between, and the phase never goes back. */
  lemma {:induction false} PhaseOrder(r: Run, i: nat, j: nat, id: RequestId)
    requires IsRun(r) && i <= j < |r.states|
    requires Carries(r.states[i].file, id) && Carries(r.states[j].file, id)
    ensures Rank(r.states[i].file.lease.phase) <= Rank(r.states[j].file.lease.phase) <= 2
    ensures forall k :: i <= k <= j ==> Carries(r.states[k].file, id)
    decreases j - i
  {
    RunKeepsInv(r, i);
    if i < j {
      RequestsStay(r, i, j - 1);
      CarriedSince(r, j, id);
      PhaseOrder(r, i, j - 1, id);
    }
  }

  /** Along every run, a lease that is gone was released by its own request, was
      completed by a gateway, or was stale when somebody reclaimed it. */
  lemma {:induction false} Displacement(r: Run, i: nat, j: nat, id: RequestId) returns (k: nat)
    requires IsRun(r) && i < j < |r.states|
    requires Carries(r.states[i].file, id) && !Carries(r.states[j].file, id)
    ensures i <= k < j && TakesAway(r.states[k], r.actions[k], id)
    decreases j - i
  {
    RunKeepsInv(r, j - 1);
    if Carries(r.states[j - 1].file, id) {
      assert StepAt(r, j - 1);
      LeaseLeavesOnlySo(r.states[j - 1], r.actions[j - 1], id);
      k := j - 1;
    } else {
      k := Displacement(r, i, j - 1, id);
    }
  }

  /** An Acquire that could neither write its new file nor remove it. */
  predicate GarblesLease(s: System, a: Action) {
    Enabled(s, a) && a.AcquireBy? && Garbles(s.file, s.View(), a.f)
  }

  lemma ReadableStep(s: System, a: Action)
    requires Inv(s) && Enabled(s, a)
    ensures Readable(Next(s, a).file) <==> Readable(s.file) && !GarblesLease(s, a)
  {
    if s.file.Garbled? {
      assert Next(s, a).file == s.file;
    } else if a.AcquireBy? {
      OperationsKeepReadable(s.file, "", RecordHelper(1), a.owner, s.View(), a.raw, a.f);
    }
  }

  /** In every run the lease file is absent or readable exactly as long as no
      Acquire fails in this way.  Afterwards it never is again: every Acquire
      fails, whoever has died by then. */
  lemma {:induction false} ReadableExactly(r: Run, i: nat)
    requires IsRun(r) && i < |r.states|
    ensures Readable(r.states[i].file) <==> forall k :: 0 <= k < i ==> !GarblesLease(r.states[k], r.actions[k])
    ensures !Readable(r.states[i].file) ==> forall owner: Pid, raw: Entropy, f: Faults ::
              AcquireStep(r.states[i].file, owner, r.states[i].View(), raw, f).err.Some?
  {
    RunKeepsInv(r, i);
    if i > 0 {
      ReadableExactly(r, i - 1);
      RunKeepsInv(r, i - 1);
      assert StepAt(r, i - 1);
      ReadableStep(r.states[i - 1], r.actions[i - 1]);
    }
  }

  /** The lease of a request that nobody works on any more. */
  predicate Stranded(s: System, id: RequestId) {
    && Carries(s.file, id) && s.file.lease.phase.Prepared?
    && id in s.reqs && s.reqs[id].coord.Closed? && s.reqs[id].helper.NotSpawned?
  }

  lemma StrandedStep(s: System, a: Action, id: RequestId)
    requires Inv(s) && Enabled(s, a) && Stranded(s, id) && s.reqs[id].owner in s.live
    ensures Stranded(Next(s, a), id)
    ensures Next(s, a).file == s.file && Next(s, a).reqs[id] == s.reqs[id]
  {
    assert RequestOk(s, id, s.reqs[id]);
    if Next(s, a).file != s.file {
      OnlyOwnLeaseChanges(s, a);
      assert false;
    }
  }

  /** Such a lease stays for as long as its owner lives, whatever anybody does,
      and refuses every Acquire; the first Acquire that can reclaim it comes
      after the owner's death. */
  lemma {:induction false} StrandedStays(r: Run, i: nat, j: nat, id: RequestId, raw: Entropy)
    requires IsRun(r) && i <= j < |r.states| && Stranded(r.states[i], id)
    requires forall k :: i <= k < j ==> r.states[i].reqs[id].owner in r.states[k].live
    ensures Stranded(r.states[j], id) && r.states[j].reqs[id] == r.states[i].reqs[id]
    ensures var s := r.states[j];
            && (s.reqs[id].owner in s.live ==> forall owner: Pid, f: Faults ::
                  AcquireStep(s.file, owner, s.View(), raw, f).lease.None?)
            && (s.reqs[id].owner !in s.live ==> forall owner: Pid :: owner > 0 ==>
                  AcquireStep(s.file, owner, s.View(), raw, NO_FAULTS).err.None?)
    decreases j - i
  {
    if i < j {
      StrandedStays(r, i, j - 1, id, raw);
      RunKeepsInv(r, j - 1);
      assert StepAt(r, j - 1);
      StrandedStep(r.states[j - 1], r.actions[j - 1], id);
    }
    RunKeepsInv(r, j);
    var s := r.states[j];
    assert RequestOk(s, id, s.reqs[id]);
  }

  /** In every reachable state a fault-free Acquire by a live process works
      exactly when there is no lease or a stale one, so a request whose owner
      and helper are dead blocks nobody after five minutes. */
  lemma DeadRequestsDoNotBlock(r: Run, i: nat, owner: Pid, raw: Entropy)
    requires IsRun(r) && i < |r.states| && owner > 0
    ensures var s := r.states[i];
            var a := AcquireStep(s.file, owner, s.View(), raw, NO_FAULTS);
            && (a.err.None? <==> s.file.Absent?
                                 || (Decode(s.file).Ok? && Stale(Decode(s.file).value, s.View())))
            && (s.file.Record?
                && s.file.lease.ownerPid !in s.live && s.file.lease.helperPid !in s.live
                && (s.file.lease.phase.Prepared? || s.now >= s.file.lease.createdAt + RECLAIM_AFTER)
                ==> a.lease == Some(FreshLease(owner, s.now, raw)))
  {
    RunKeepsInv(r, i);
    AcquireIffFree(r.states[i].file, owner, r.states[i].View(), raw);
  }
}
