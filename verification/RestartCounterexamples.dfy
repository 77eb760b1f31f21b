/** Runs of the protocol: the intended ones, and those that show which promises
    need their conditions. */
module RestartCounterexamples {
  import opened RestartLease
  import R = RestartReceipt
  import opened RestartProtocol
  import opened RestartSafety
  import opened RestartReceiptSafety

  function Start(receipt: R.ReceiptFile): System {
    System(1, {1, 9}, {1, 9}, Absent, receipt, map[], map[], {})
  }

  /** Everything the move needs works. */
  predicate Goes(c: Choice) {
    c.ok && !c.alt && !c.readFails && c.f == NO_FAULTS
  }

  ghost function Last(r: Run): System
    requires IsRun(r)
  {
    r.states[|r.actions|]
  }

  /** No read of the receipt fails. */
  ghost predicate Clean(r: Run) {
    forall a <- r.actions :: ReadsCleanly(a)
  }

  /** No step changes the receipt between another process's read and remove. */
  ghost predicate Quiet(r: Run)
    requires IsRun(r)
  {
    forall i :: 0 <= i < |r.actions| ==> Uncontended(r.states[i], r.actions[i])
  }

  // One step of a run being built.
  lemma Then(r: Run, a: Action, t: System) returns (q: Run)
    requires IsRun(r) && Enabled(Last(r), a) && t == Next(Last(r), a)
    ensures q == Run(r.states + [t], r.actions + [a])
    ensures IsRun(q) && Last(q) == t
    ensures Clean(r) && ReadsCleanly(a) ==> Clean(q)
    ensures Quiet(r) && Uncontended(Last(r), a) ==> Quiet(q)
  {
    q := Run(r.states + [t], r.actions + [a]);
    forall i | 0 <= i < |q.actions| ensures StepAt(q, i) {
      assert i < |r.actions| ==> StepAt(r, i);
    }
  }

  lemma ThenCoord(r: Run, id: RequestId, c: Choice) returns (q: Run)
    requires IsRun(r) && Enabled(Last(r), CoordMoves(id, c))
    ensures IsRun(q) && Last(q) == CoordNext(Last(r), id, c) && (Clean(r) && !c.readFails ==> Clean(q))
  {
    q := Then(r, CoordMoves(id, c), CoordNext(Last(r), id, c));
  }

  lemma ThenHelper(r: Run, id: RequestId, c: Choice) returns (q: Run)
    requires IsRun(r) && Enabled(Last(r), HelperMoves(id, c))
    ensures IsRun(q) && Last(q) == HelperNext(Last(r), id, c) && (Clean(r) && !c.readFails ==> Clean(q))
  {
    q := Then(r, HelperMoves(id, c), HelperNext(Last(r), id, c));
  }

  lemma ThenGateway(r: Run, pid: Pid, c: Choice) returns (q: Run)
    requires IsRun(r) && Enabled(Last(r), GatewayMoves(pid, c))
    ensures IsRun(q) && Last(q) == GatewayNext(Last(r), pid, c) && (Clean(r) && !c.readFails ==> Clean(q))
  {
    q := Then(r, GatewayMoves(pid, c), GatewayNext(Last(r), pid, c));
  }

  // A live process acquires a free lease.
  lemma ThenAcquire(r: Run, owner: Pid, feishu: bool, oldPid: Pid, raw: Entropy) returns (q: Run)
    requires IsRun(r) && owner > 0 && oldPid > 0
    requires var s := Last(r);
             s.file == Absent && owner in s.live && s.now == 1 && NewRequestId(raw) !in s.reqs
    ensures IsRun(q) && (Clean(r) ==> Clean(q))
    ensures var id := NewRequestId(raw);
            Last(q) == Last(r).(
              file := Record(FreshLease(owner, 1, raw)),
              reqs := Last(r).reqs[id := Request(owner, oldPid, if feishu then Checking else Ticketed, NotSpawned, 0)])
  {
    var a := AcquireBy(owner, feishu, oldPid, raw, NO_FAULTS);
    q := Then(r, a, Next(Last(r), a));
  }

  // The ticket's helper starts and is recorded.
  lemma Commit(r: Run, id: RequestId, oldPid: Pid, go: Choice) returns (q: Run)
    requires IsRun(r) && Goes(go) && ValidRequestId(id)
    requires var s := Last(r);
             && s.file == Record(Lease(SCHEMA_VERSION, id, Prepared, 1, 0, 1))
             && id in s.reqs && s.reqs[id] == Request(1, oldPid, Ticketed, NotSpawned, 0)
             && 1 in s.live && go.pid > 0 && go.pid !in s.born
    ensures IsRun(q)
    ensures Last(q) == Last(r).(
              live := Last(r).live + {go.pid}, born := Last(r).born + {go.pid},
              file := Record(Lease(SCHEMA_VERSION, id, HelperStarted, 1, go.pid, 1)),
              reqs := Last(r).reqs[id := Request(1, oldPid, Closed, Polling, go.pid)])
  {
    q := ThenCoord(r, id, go);
    q := ThenCoord(q, id, go);
    assert Last(q).reqs == Last(r).reqs[id := Request(1, oldPid, Closed, Polling, go.pid)];
  }

  // The recorded helper takes over and announces itself.
  lemma TakeOver(r: Run, id: RequestId, oldPid: Pid, go: Choice) returns (q: Run)
    requires IsRun(r) && Goes(go) && ValidRequestId(id)
    requires var s := Last(r);
             && s.file == Record(Lease(SCHEMA_VERSION, id, HelperStarted, 1, go.pid, 1))
             && id in s.reqs && s.reqs[id] == Request(1, oldPid, Closed, Polling, go.pid)
             && go.pid in s.live && go.pid > 0
    ensures IsRun(q)
    ensures Last(q) == Last(r).(
              file := Record(Lease(SCHEMA_VERSION, id, WaitingForReady, 1, go.pid, 1)),
              reqs := Last(r).reqs[id := Request(1, oldPid, Closed, Destructive, go.pid)])
  {
    q := ThenHelper(r, id, go);
    q := ThenHelper(q, id, go);
    assert Last(q).reqs == Last(r).reqs[id := Request(1, oldPid, Closed, Destructive, go.pid)];
  }

  // A request by process 1 whose helper gets to its destructive phase.
  lemma Restart(r: Run, oldPid: Pid, raw: Entropy, go: Choice) returns (q: Run)
    requires IsRun(r) && Goes(go) && oldPid > 0
    requires var s := Last(r);
             && s.file == Absent && 1 in s.live && go.pid > 0 && go.pid !in s.born
             && s.now == 1 && NewRequestId(raw) !in s.reqs
    ensures IsRun(q)
    ensures var id := NewRequestId(raw);
            && Last(q) == Last(r).(
                 live := Last(r).live + {go.pid}, born := Last(r).born + {go.pid},
                 file := Record(Lease(SCHEMA_VERSION, id, WaitingForReady, 1, go.pid, 1)),
                 reqs := Last(r).reqs[id := Request(1, oldPid, Closed, Destructive, go.pid)])
  {
    var id := NewRequestId(raw);
    q := ThenAcquire(r, 1, false, oldPid, raw);
    q := Commit(q, id, oldPid, go);
    q := TakeOver(q, id, oldPid, go);
    assert Last(q).reqs == Last(r).reqs[id := Request(1, oldPid, Closed, Destructive, go.pid)];
  }

  // A gateway that has come up finds no receipt, but a lease that waits for it.
  lemma GatewayReleases(r: Run, pid: Pid, id: RequestId, go: Choice) returns (q: Run)
    requires IsRun(r) && Goes(go) && ValidRequestId(id)
    requires var s := Last(r);
             && s.file.Record? && s.file.lease.requestId == id && ValidLease(s.file.lease)
             && s.file.lease.phase.WaitingForReady?
             && s.receipt == R.Missing && pid in s.live && pid in s.gateways && s.gateways[pid].Booting?
    ensures IsRun(q) && Last(q) == Last(r).(file := Absent, gateways := Last(r).gateways[pid := Serving])
  {
    q := ThenGateway(r, pid, go);
    q := ThenGateway(q, pid, go);
    q := ThenGateway(q, pid, go);
    assert Last(q).gateways == Last(r).gateways[pid := Serving];
  }

  // The helper stops the old gateway; a new one comes up and releases the lease.
  lemma GatewayCompletes(r: Run, id: RequestId, go: Choice) returns (q: Run)
    requires IsRun(r) && Goes(go) && ValidRequestId(id)
    requires var s := Last(r);
             && s.file.Record? && s.file.lease.requestId == id && ValidLease(s.file.lease)
             && s.file.lease.phase.WaitingForReady?
             && id in s.reqs && s.reqs[id] == Request(1, 9, Closed, Destructive, 2) && 2 in s.live
             && s.receipt == R.Missing && 3 !in s.born && 3 !in s.gateways
    ensures IsRun(q)
    ensures Last(q) == Last(r).(
              live := Last(r).live - {9} + {3}, born := Last(r).born + {3}, file := Absent,
              gateways := Last(r).gateways[3 := Serving])
  {
    q := ThenHelper(r, id, go.(alt := true));
    q := Then(q, Boot(3), Next(Last(q), Boot(3)));
    q := GatewayReleases(q, 3, id, go);
    assert Last(q).gateways == Last(r).gateways[3 := Serving];
  }

  /** The intended restart without a daemon: the helper stops the old gateway,
      comes up as the new one, and releases its own lease. */
  lemma HelperBecomesGateway(raw: Entropy, go: Choice) returns (r: Run)
    requires Goes(go)
    ensures IsRun(r)
    ensures var s := Last(r);
            && s.file == Absent && 9 !in s.live && 2 in s.live
            && s.gateways == map[2 := Serving]
            && NewRequestId(raw) in s.reqs && s.reqs[NewRequestId(raw)] == Request(1, 9, Closed, Finished, 2)
  {
    var id := NewRequestId(raw);
    r := Run([Start(R.Missing)], []);
    r := Restart(r, 9, raw, go.(pid := 2));
    r := ThenHelper(r, id, go.(alt := true));
    r := ThenHelper(r, id, go);
    r := Then(r, Boot(2), Next(Last(r), Boot(2)));
    r := GatewayReleases(r, 2, id, go);
  }

  // A request got as far as its announcement, and then all of it died.
  lemma DeadRequest(raw: Entropy, go: Choice) returns (r: Run)
    requires Goes(go)
    ensures IsRun(r)
    ensures var s := Last(r);
            && s.now == 1 && s.live == {9} && s.reqs.Keys == {NewRequestId(raw)}
            && s.file == Record(Lease(SCHEMA_VERSION, NewRequestId(raw), WaitingForReady, 1, 2, 1))
  {
    r := Run([Start(R.Missing)], []);
    r := Restart(r, 9, raw, go.(pid := 2));
    r := Then(r, Die(1), Next(Last(r), Die(1)));
    r := Then(r, Die(2), Next(Last(r), Die(2)));
  }

  /** When owner and helper are dead, the clock alone decides, and it may be set
      to anything: the next request gets the lease from five minutes on. */
  lemma ClockDecides(raw: Entropy, raw': Entropy, go: Choice, now: int) returns (r: Run, a: Action)
    requires raw != raw' && Goes(go) && now > 0
    ensures IsRun(r) && Last(r).now == now && Enabled(Last(r), a)
    ensures Carries(Next(Last(r), a).file, NewRequestId(raw')) <==> now >= 1 + 300_000_000_000
  {
    if NewRequestId(raw) == NewRequestId(raw') {
      NewRequestIdInjective(raw, raw');
    }
    r := DeadRequest(raw, go);
    r := Then(r, Tick(now), Next(Last(r), Tick(now)));
    a := AcquireBy(9, false, 9, raw', NO_FAULTS);
  }

  /** A run may begin with the marker of an earlier version, whose helper is dead. */
  lemma MarkerIsReclaimed(raw: Entropy, now: int) returns (r: Run, a: Action)
    requires now > 0
    ensures IsRun(r) && Last(r).file == Marker(7, 1) && Enabled(Last(r), a)
    ensures Carries(Next(Last(r), a).file, NewRequestId(raw)) <==> now >= 1 + 300_000_000_000
  {
    r := Run([Start(R.Missing).(now := now, file := Marker(7, 1))], []);
    a := AcquireBy(9, false, 9, raw, NO_FAULTS);
  }

  /** A helper has stopped the old gateway 9 and is still at work when gateway 3
      comes up by itself and releases its lease.  A second request, for gateway
      3, then has a helper at work beside the first. */
  lemma TwoHelpersAtWork(raw: Entropy, raw': Entropy, go: Choice) returns (r: Run)
    requires raw != raw' && Goes(go)
    ensures IsRun(r)
    ensures NewRequestId(raw) != NewRequestId(raw')
    ensures InDestruction(Last(r), NewRequestId(raw)) && InDestruction(Last(r), NewRequestId(raw'))
    ensures 9 !in Last(r).live
  {
    if NewRequestId(raw) == NewRequestId(raw') {
      NewRequestIdInjective(raw, raw');
    }
    r := Run([Start(R.Missing)], []);
    r := Restart(r, 9, raw, go.(pid := 2));
    r := GatewayCompletes(r, NewRequestId(raw), go);
    r := Restart(r, 3, raw', go.(pid := 4));
  }

  // Gateway 3 is asked for a restart that needs a receipt and publishes it.
  lemma Publish(r: Run, raw: Entropy, go: Choice) returns (q: Run)
    requires IsRun(r) && Goes(go) && R.ValidReceipt(go.receipt) && go.receipt.requestId == NewRequestId(raw)
    requires var s := Last(r);
             && s.file == Absent && s.receipt == R.Missing && 3 in s.live && s.now == 1
             && NewRequestId(raw) !in s.reqs
    ensures IsRun(q) && (Clean(r) ==> Clean(q))
    ensures Last(q).receipt == R.Stored(go.receipt)
    ensures Last(q).gateways == Last(r).gateways && Last(q).live == Last(r).live
    ensures Last(q).accepted == Last(r).accepted
  {
    var id := NewRequestId(raw);
    q := ThenAcquire(r, 3, true, 3, raw);
    q := ThenCoord(q, id, go);
    q := ThenCoord(q, id, go);
    q := ThenCoord(q, id, go);
  }

  // A request to gateway 3 meets a corrupt receipt, sets it aside and gives up.
  lemma GiveUpOnCorrupt(r: Run, raw: Entropy, go: Choice) returns (q: Run)
    requires IsRun(r) && Goes(go)
    requires var s := Last(r);
             && s.file == Absent && s.receipt == R.Undecodable && 3 in s.live && s.now == 1
             && NewRequestId(raw) !in s.reqs
    ensures IsRun(q) && (Clean(r) ==> Clean(q))
    ensures var id := NewRequestId(raw);
            Last(q) == Last(r).(
              file := Absent, receipt := R.Missing,
              reqs := Last(r).reqs[id := Request(3, 3, Closed, NotSpawned, 0)])
  {
    var id := NewRequestId(raw);
    q := ThenAcquire(r, 3, true, 3, raw);
    q := ThenCoord(q, id, go);
    q := ThenCoord(q, id, go);
    q := ThenCoord(q, id, go);
    assert Last(q).reqs == Last(r).reqs[id := Request(3, 3, Closed, NotSpawned, 0)];
  }

  // A gateway has read a corrupt receipt and has yet to set it aside.
  lemma GatewaySawCorrupt(go: Choice) returns (r: Run)
    requires Goes(go)
    ensures IsRun(r) && Clean(r)
    ensures Last(r) == Start(R.Undecodable).(
              live := {1, 3}, born := {1, 3, 9}, gateways := map[3 := AsideAtStart(R.Undecodable)])
  {
    r := GatewayReplaces(R.Undecodable);
    r := ThenGateway(r, 3, go);
    assert Last(r).gateways == map[3 := AsideAtStart(R.Undecodable)];
  }

  /** Gateway 3 meets a corrupt receipt at start-up, and so does a request that
      a user makes there in the meantime.  That request sets it aside, and the
      next one publishes its own; the broadcast then sets this one aside,
      although it is valid, undelivered and not aborted.  No read fails. */
  lemma ValidReceiptClobbered(raw: Entropy, raw': Entropy, go: Choice) returns (r: Run, a: Action)
    requires raw != raw' && Goes(go)
    requires R.ValidReceipt(go.receipt) && go.receipt.requestId == NewRequestId(raw')
    ensures IsRun(r) && Clean(r) && Enabled(Last(r), a) && ReadsCleanly(a)
    ensures Last(r).receipt == R.Stored(go.receipt) && Next(Last(r), a).receipt == R.Missing
    ensures !LossIsJustified(Last(r), a, go.receipt)
  {
    if NewRequestId(raw) == NewRequestId(raw') {
      NewRequestIdInjective(raw, raw');
    }
    r := GatewaySawCorrupt(go);
    r := GiveUpOnCorrupt(r, raw, go);
    r := Publish(r, raw', go);
    a := GatewayMoves(3, go);
  }

  // The old gateway is gone, and the new one has come up.
  lemma GatewayReplaces(receipt: R.ReceiptFile) returns (r: Run)
    ensures IsRun(r) && Clean(r) && Quiet(r)
    ensures Last(r) == Start(receipt).(live := {1, 3}, born := {1, 3, 9}, gateways := map[3 := Booting])
  {
    r := Run([Start(receipt)], []);
    r := Then(r, Die(9), Next(Last(r), Die(9)));
    r := Then(r, Boot(3), Next(Last(r), Boot(3)));
  }

  /** A single failing read is enough: nobody else does anything, and a valid
      receipt, undelivered and not aborted, is set aside. */
  lemma ReadErrorLosesReceipt(receipt: R.Receipt, go: Choice) returns (r: Run, a: Action)
    requires R.ValidReceipt(receipt) && Goes(go)
    ensures IsRun(r) && Enabled(Last(r), a) && Uncontended(Last(r), a)
    ensures Quiet(r)
    ensures Last(r).receipt == R.Stored(receipt) && Next(Last(r), a).receipt == R.Missing
    ensures !LossIsJustified(Last(r), a, receipt)
  {
    r := GatewayReplaces(R.Stored(receipt));
    var read := GatewayMoves(3, go.(readFails := true));
    r := Then(r, read, Next(Last(r), read));
    a := GatewayMoves(3, go);
  }

  /** An Acquire that reports an error and yet keeps its lease: the unlock
      failed, or Sync and the cleanup after it did.  By StrandedStays the lease
      blocks everybody while the process that failed lives. */
  lemma FailedAcquireStrandsLease(raw: Entropy, f: Faults) returns (r: Run)
    requires Strands(Absent, Host(1, {1, 9}), f)
    ensures IsRun(r) && Stranded(Last(r), NewRequestId(raw))
    ensures var s := Last(r);
            s.reqs[NewRequestId(raw)].owner in s.live && forall raw': Entropy, f': Faults ::
              AcquireStep(s.file, 9, s.View(), raw', f').lease.None?
  {
    r := Run([Start(R.Missing)], []);
    var a := AcquireBy(1, false, 9, raw, f);
    r := Then(r, a, Next(Last(r), a));
  }

  /** An Acquire that can neither write its file nor remove it.  By
      ReadableExactly restarts are blocked for good, although nobody holds a
      lease and the process that failed is dead. */
  lemma FailedCleanupBlocksRestarts(raw: Entropy) returns (r: Run)
    ensures IsRun(r) && Last(r).file == Garbled && Last(r).reqs == map[] && 1 !in Last(r).live
  {
    r := Run([Start(R.Missing)], []);
    var a := AcquireBy(1, false, 9, raw, NO_FAULTS.(write := true, cleanup := true));
    r := Then(r, a, Next(Last(r), a));
    r := Then(r, Die(1), Next(Last(r), Die(1)));
  }
}
