/** Undisturbed, the moves of the protocol's processes do what the operations of
    one process are proved to do.  In particular a receipt that is there gets
    delivered. */
module RestartRefinement {
  import opened Wrappers
  import opened RestartLease
  import R = RestartReceipt
  import opened RestartProtocol
  import opened RestartInvariant
  import opened RestartCoordinator
  import B = LifecycleBroadcast

  /** These moves, one after the other, lead from `s` to `t`. */
  predicate Leads(s: System, moves: seq<Action>, t: System)
    decreases |moves|
  {
    if moves == [] then s == t
    else Enabled(s, moves[0]) && Leads(Next(s, moves[0]), moves[1..], t)
  }

  lemma Before(s: System, a: Action, moves: seq<Action>, t: System)
    requires Enabled(s, a) && Leads(Next(s, a), moves, t)
    ensures Leads(s, [a] + moves, t)
  {
    assert ([a] + moves)[1..] == moves;
  }

  lemma {:induction false} Joined(s: System, first: seq<Action>, t: System, second: seq<Action>, u: System)
    requires Leads(s, first, t) && Leads(t, second, u)
    ensures Leads(s, first + second, u)
    decreases |first|
  {
    if first == [] {
      assert first + second == second;
    } else {
      Joined(Next(s, first[0]), first[1..], t, second, u);
      assert (first + second)[1..] == first[1..] + second;
    }
  }

  /** What a move that works looks like. */
  function Works(c: Choice): Choice {
    c.(ok := true, alt := false, readFails := false, f := NO_FAULTS)
  }

  // Coordinators

  /** The request's coordinator got there, and the files and the accepted
      messages are these; nothing else happened. */
  function CoordDone(s: System, id: RequestId, coord: Coord, a: Artifacts, accepted: set<RequestId>): System
    requires id in s.reqs
  {
    s.(file := a.lease, receipt := a.receipt, accepted := accepted, reqs := CoordAt(s, id, coord))
  }

  predicate At(s: System, id: RequestId, coord: Coord) {
    id in s.reqs && s.reqs[id].owner in s.live && s.reqs[id].coord == coord
  }

  lemma CoordStep(s: System, id: RequestId, c: Choice, coord: Coord, a: Artifacts, accepted: set<RequestId>,
                  moves: seq<Action>, t: System)
    requires id in s.reqs && Enabled(s, CoordMoves(id, c))
    requires CoordNext(s, id, c) == CoordDone(s, id, coord, a, accepted)
    requires Leads(CoordDone(s, id, coord, a, accepted), moves, t)
    ensures Leads(s, [CoordMoves(id, c)] + moves, t)
  {
    Before(s, CoordMoves(id, c), moves, t);
  }

  // A later position of the same coordinator, seen from the earlier state.
  lemma DoneTwice(s: System, id: RequestId, coord: Coord, a: Artifacts, accepted: set<RequestId>,
                  coord': Coord, a': Artifacts, accepted': set<RequestId>)
    requires id in s.reqs
    ensures CoordDone(CoordDone(s, id, coord, a, accepted), id, coord', a', accepted') ==
            CoordDone(s, id, coord', a', accepted')
  {
    assert s.reqs[id := s.reqs[id].(coord := coord)][id := s.reqs[id].(coord := coord')] ==
           s.reqs[id := s.reqs[id].(coord := coord')];
  }

  lemma FailedPrepareReleases(s: System, id: RequestId, f: Faults, c: Choice) returns (moves: seq<Action>)
    requires At(s, id, ReleasingFailed)
    ensures Leads(s, moves, CoordDone(s, id, Closed, Artifacts(ReleaseStep(s.file, id, f).0, s.receipt), s.accepted))
  {
    var t := CoordDone(s, id, Closed, Artifacts(ReleaseStep(s.file, id, f).0, s.receipt), s.accepted);
    CoordStep(s, id, c.(f := f), Closed, Artifacts(t.file, t.receipt), s.accepted, [], t);
    moves := [CoordMoves(id, c.(f := f))];
    assert moves == [CoordMoves(id, c.(f := f))] + [];
  }

  lemma GivingUp(s: System, id: RequestId, c: Choice, a: Artifacts, accepted: set<RequestId>, f: Faults)
    returns (moves: seq<Action>)
    requires id in s.reqs && Enabled(s, CoordMoves(id, c)) && s.reqs[id].owner in s.live
    requires CoordNext(s, id, c) == CoordDone(s, id, ReleasingFailed, a, accepted)
    ensures Leads(s, moves, CoordDone(s, id, Closed, a.(lease := ReleaseStep(a.lease, id, f).0), accepted))
  {
    var mid := CoordDone(s, id, ReleasingFailed, a, accepted);
    var rest := FailedPrepareReleases(mid, id, f, c);
    var last := a.(lease := ReleaseStep(a.lease, id, f).0);
    DoneTwice(s, id, ReleasingFailed, a, accepted, Closed, last, accepted);
    CoordStep(s, id, c, ReleasingFailed, a, accepted, rest, CoordDone(s, id, Closed, last, accepted));
    moves := [CoordMoves(id, c)] + rest;
  }

  /** The end of Prepare: publishing the new receipt, or giving the lease up. */
  function Published(s: System, id: RequestId, candidate: R.Receipt, e: Setting): System
    requires id in s.reqs
  {
    var (receipt, err) := R.AfterWrite(s.receipt, candidate, e.write);
    if err.None? then CoordDone(s, id, Ticketed, Artifacts(s.file, receipt), s.accepted)
    else CoordDone(s, id, Closed, Artifacts(ReleaseStep(s.file, id, e.release).0, receipt), s.accepted)
  }

  lemma PublishingIsWrite(s: System, id: RequestId, candidate: R.Receipt, e: Setting, c: Choice)
    returns (moves: seq<Action>)
    requires At(s, id, Stating) && candidate.schemaVersion == 1 && candidate.requestId == id
    ensures Leads(s, moves, Published(s, id, candidate, e))
  {
    var a := Artifacts(s.file, s.receipt);
    var stat := c.(ok := !e.write.stat);
    if e.write.stat || s.receipt != R.Missing {
      moves := GivingUp(s, id, stat, a, s.accepted, e.release);
    } else {
      var mid := CoordDone(s, id, Publishing, a, s.accepted);
      var publish := c.(ok := !e.write.publish && R.ValidReceipt(candidate), receipt := candidate);
      var rest;
      if publish.ok {
        var after := Artifacts(s.file, R.Stored(candidate));
        DoneTwice(s, id, Publishing, a, s.accepted, Ticketed, after, s.accepted);
        CoordStep(mid, id, publish, Ticketed, after, s.accepted, [], Published(s, id, candidate, e));
        rest := [CoordMoves(id, publish)] + [];
      } else {
        DoneTwice(s, id, Publishing, a, s.accepted, ReleasingFailed, a, s.accepted);
        rest := GivingUp(mid, id, publish, a, s.accepted, e.release);
        DoneTwice(s, id, Publishing, a, s.accepted, Closed,
                  Artifacts(ReleaseStep(s.file, id, e.release).0, s.receipt), s.accepted);
      }
      CoordStep(s, id, stat, Publishing, a, s.accepted, rest, Published(s, id, candidate, e));
      moves := [CoordMoves(id, stat)] + rest;
    }
  }

  // Complete, as Prepare calls it, and then on or back.
  function Completed(s: System, id: RequestId, pending: RequestId, e: Setting): System
    requires id in s.reqs
  {
    var (receipt, err) := R.AfterComplete(s.receipt, pending, e.complete);
    if err.None? then CoordDone(s, id, Stating, Artifacts(s.file, receipt), s.accepted)
    else CoordDone(s, id, Closed, Artifacts(ReleaseStep(s.file, id, e.release).0, receipt), s.accepted)
  }

  lemma CompletingIsComplete(s: System, id: RequestId, pending: RequestId, e: Setting, c: Choice)
    returns (moves: seq<Action>)
    requires At(s, id, FindingPending(pending))
    ensures Leads(s, moves, Completed(s, id, pending, e))
  {
    var a := Artifacts(s.file, s.receipt);
    var find := c.(readFails := e.complete.read);
    match R.FindOurs(s.receipt, pending, e.complete.read) {
      case NotCompletable(_) =>
        moves := GivingUp(s, id, find, a, s.accepted, e.release);
      case NothingThere =>
        CoordStep(s, id, find, Stating, a, s.accepted, [], Completed(s, id, pending, e));
        moves := [CoordMoves(id, find)] + [];
      case Ours =>
        var mid := CoordDone(s, id, RemovingPending(pending), a, s.accepted);
        var remove := c.(ok := !e.complete.remove);
        var rest;
        if remove.ok {
          var gone := a.(receipt := R.Missing);
          DoneTwice(s, id, RemovingPending(pending), a, s.accepted, Stating, gone, s.accepted);
          CoordStep(mid, id, remove, Stating, gone, s.accepted, [], Completed(s, id, pending, e));
          rest := [CoordMoves(id, remove)] + [];
        } else {
          DoneTwice(s, id, RemovingPending(pending), a, s.accepted, ReleasingFailed, a, s.accepted);
          rest := GivingUp(mid, id, remove, a, s.accepted, e.release);
          DoneTwice(s, id, RemovingPending(pending), a, s.accepted, Closed,
                    Artifacts(ReleaseStep(s.file, id, e.release).0, s.receipt), s.accepted);
        }
        CoordStep(s, id, find, RemovingPending(pending), a, s.accepted, rest, Completed(s, id, pending, e));
        moves := [CoordMoves(id, find)] + rest;
    }
  }

  /** The requests whose message is accepted after looking for a pending receipt. */
  function Accepting(pending: R.ReceiptFile, readFails: bool, sends: bool, accepted: set<RequestId>): set<RequestId> {
    match R.ReadReceipt(pending, readFails)
    case Ok(Some(receipt)) => if sends then accepted + {receipt.requestId} else accepted
    case _ => accepted
  }

  function Retried(s: System, id: RequestId, e: Setting): System
    requires id in s.reqs
  {
    var (receipt, err) := AfterRetry(s.receipt, e);
    var accepted := Accepting(s.receipt, e.readFails, e.accepted, s.accepted);
    if err.None? then CoordDone(s, id, Stating, Artifacts(s.file, receipt), accepted)
    else CoordDone(s, id, Closed, Artifacts(ReleaseStep(s.file, id, e.release).0, receipt), accepted)
  }

  lemma SettingAsideIsQuarantine(s: System, id: RequestId, e: Setting, c: Choice) returns (moves: seq<Action>)
    requires At(s, id, Checking) && R.ReadReceipt(s.receipt, e.readFails).Err?
    ensures Leads(s, moves, Retried(s, id, e))
  {
    var a := Artifacts(s.file, s.receipt);
    var read, aside := c.(readFails := e.readFails), c.(ok := !e.aside.stat && !e.aside.rename);
    var mid := CoordDone(s, id, SettingAside(s.receipt), a, s.accepted);
    var b := a.(receipt := R.AfterQuarantine(s.receipt, e.aside));
    DoneTwice(s, id, SettingAside(s.receipt), a, s.accepted, ReleasingFailed, b, s.accepted);
    var rest := GivingUp(mid, id, aside, b, s.accepted, e.release);
    DoneTwice(s, id, SettingAside(s.receipt), a, s.accepted, Closed,
              b.(lease := ReleaseStep(b.lease, id, e.release).0), s.accepted);
    CoordStep(s, id, read, SettingAside(s.receipt), a, s.accepted, rest, Retried(s, id, e));
    moves := [CoordMoves(id, read)] + rest;
  }

  lemma ResendingIsRetry(s: System, id: RequestId, e: Setting, c: Choice, pending: R.Receipt)
    returns (moves: seq<Action>)
    requires At(s, id, Checking) && R.ReadReceipt(s.receipt, e.readFails) == Ok(Some(pending))
    ensures Leads(s, moves, Retried(s, id, e))
  {
    var a := Artifacts(s.file, s.receipt);
    var read, send := c.(readFails := e.readFails), c.(ok := e.accepted);
    var mid := CoordDone(s, id, Resending(pending.requestId), a, s.accepted);
    var rest;
    if e.accepted {
      var accepted := s.accepted + {pending.requestId};
      var sent := CoordDone(s, id, FindingPending(pending.requestId), a, accepted);
      DoneTwice(s, id, Resending(pending.requestId), a, s.accepted, FindingPending(pending.requestId), a, accepted);
      var complete := CompletingIsComplete(sent, id, pending.requestId, e, c);
      var (receipt, err) := R.AfterComplete(s.receipt, pending.requestId, e.complete);
      DoneTwice(s, id, FindingPending(pending.requestId), a, accepted, Stating, Artifacts(s.file, receipt), accepted);
      DoneTwice(s, id, FindingPending(pending.requestId), a, accepted, Closed,
                Artifacts(ReleaseStep(s.file, id, e.release).0, receipt), accepted);
      CoordStep(mid, id, send, FindingPending(pending.requestId), a, accepted, complete, Retried(s, id, e));
      rest := [CoordMoves(id, send)] + complete;
    } else {
      DoneTwice(s, id, Resending(pending.requestId), a, s.accepted, ReleasingFailed, a, s.accepted);
      rest := GivingUp(mid, id, send, a, s.accepted, e.release);
      DoneTwice(s, id, Resending(pending.requestId), a, s.accepted, Closed,
                Artifacts(ReleaseStep(s.file, id, e.release).0, s.receipt), s.accepted);
    }
    CoordStep(s, id, read, Resending(pending.requestId), a, s.accepted, rest, Retried(s, id, e));
    moves := [CoordMoves(id, read)] + rest;
  }

  lemma CheckingIsRetry(s: System, id: RequestId, e: Setting, c: Choice) returns (moves: seq<Action>)
    requires At(s, id, Checking)
    ensures Leads(s, moves, Retried(s, id, e))
  {
    match R.ReadReceipt(s.receipt, e.readFails) {
      case Err(_) => moves := SettingAsideIsQuarantine(s, id, e, c);
      case Ok(Some(pending)) => moves := ResendingIsRetry(s, id, e, c, pending);
      case Ok(None) =>
        var read := c.(readFails := e.readFails);
        CoordStep(s, id, read, Stating, Artifacts(s.file, s.receipt), s.accepted, [], Retried(s, id, e));
        moves := [CoordMoves(id, read)] + [];
    }
  }

  // From the acquired lease to the ticket, for a request that needs a receipt.
  lemma CheckingIsPrepare(s: System, id: RequestId, candidate: R.Receipt, e: Setting, c: Choice)
    returns (moves: seq<Action>)
    requires At(s, id, Checking) && candidate.schemaVersion == 1 && candidate.requestId == id
    ensures Leads(s, moves, if AfterRetry(s.receipt, e).1.None? then Published(Retried(s, id, e), id, candidate, e)
                            else Retried(s, id, e))
  {
    moves := CheckingIsRetry(s, id, e, c);
    if AfterRetry(s.receipt, e).1.None? {
      var t := Retried(s, id, e);
      var rest := PublishingIsWrite(t, id, candidate, e, c);
      Joined(s, moves, t, rest, Published(t, id, candidate, e));
      moves := moves + rest;
    }
  }

  // The files and the request after acquiring for a new request.
  lemma AcquiringForPrepare(s: System, feishu: bool, e: Setting, oldPid: Pid)
    requires Inv(s) && e.host == s.View()
    requires e.ownerPid > 0 && e.ownerPid in s.live && oldPid > 0 && NewRequestId(e.raw) !in s.reqs
    ensures var u := Next(s, AcquireBy(e.ownerPid, feishu, oldPid, e.raw, e.acquire));
            var acquired := AcquireStep(s.file, e.ownerPid, e.host, e.raw, e.acquire);
            var id := NewRequestId(e.raw);
            && u == s.(file := acquired.file, reqs := u.reqs)
            && (forall other <- s.reqs :: other in u.reqs && u.reqs[other] == s.reqs[other])
            && (acquired.err.None? ==>
                  && u.file == Record(FreshLease(e.ownerPid, s.now, e.raw)) && acquired.lease.Some?
                  && At(u, id, if feishu then Checking else Ticketed))
            && (acquired.err.Some? ==> id !in u.reqs || u.reqs[id].coord == Closed)
  {
    AcquireExactly(s.file, e.ownerPid, e.host, e.raw, e.acquire);
  }

  /** Prepare: acquiring and then moving, undisturbed, leaves both files as the
      method does and gets a ticket exactly when it does. */
  lemma PrepareIsItsMoves(s: System, feishu: bool, request: R.Receipt, e: Setting, c: Choice)
    returns (moves: seq<Action>, t: System)
    requires Inv(s) && GatewayFound(e) && e.host == s.View()
    requires e.ownerPid > 0 && e.ownerPid in s.live && NewRequestId(e.raw) !in s.reqs
    ensures Leads(s, moves, t)
    ensures var (a, r) := AfterPrepare(feishu, request, Artifacts(s.file, s.receipt), e);
            var id := NewRequestId(e.raw);
            && Artifacts(t.file, t.receipt) == a
            && (r.Ok? <==> id in t.reqs && t.reqs[id].coord == Ticketed)
            && (r.Err? && id in t.reqs ==> t.reqs[id].coord == Closed)
            && t.gateways == s.gateways && t.live == s.live
            && (forall other <- s.reqs :: other in t.reqs && t.reqs[other] == s.reqs[other])
  {
    var id, oldPid := NewRequestId(e.raw), e.gateway.value;
    var acquire := AcquireBy(e.ownerPid, feishu, oldPid, e.raw, e.acquire);
    var u := Next(s, acquire);
    AcquiringForPrepare(s, feishu, e, oldPid);
    moves, t := [], u;
    if feishu && AcquireStep(s.file, e.ownerPid, e.host, e.raw, e.acquire).err.None? {
      var candidate := NewReceipt(request, e, oldPid);
      moves := CheckingIsPrepare(u, id, candidate, e, c);
      t := Retried(u, id, e);
      if AfterRetry(u.receipt, e).1.None? {
        t := Published(t, id, candidate, e);
      }
    }
    Before(s, acquire, moves, t);
    moves := [acquire] + moves;
  }

  // The end of Abort: the lease goes last.
  lemma AbortReleases(s: System, id: RequestId, a: Artifacts, f: Faults, c: Choice) returns (moves: seq<Action>)
    requires id in s.reqs && s.reqs[id].owner in s.live
    ensures Leads(CoordDone(s, id, ReleasingAborted, a, s.accepted), moves,
              CoordDone(s, id, Closed, a.(lease := ReleaseStep(a.lease, id, f).0), s.accepted))
  {
    var last := a.(lease := ReleaseStep(a.lease, id, f).0);
    var mid := CoordDone(s, id, ReleasingAborted, a, s.accepted);
    DoneTwice(s, id, ReleasingAborted, a, s.accepted, Closed, last, s.accepted);
    CoordStep(mid, id, c.(f := f), Closed, last, s.accepted, [], CoordDone(s, id, Closed, last, s.accepted));
    moves := [CoordMoves(id, c.(f := f))] + [];
  }

  // Before that, the receipt that was found.
  lemma AbortRemoves(s: System, id: RequestId, a: Artifacts, fails: bool, f: Faults, c: Choice)
    returns (moves: seq<Action>)
    requires id in s.reqs && s.reqs[id].owner in s.live
    ensures Leads(CoordDone(s, id, RemovingOwn, a, s.accepted), moves,
              CoordDone(s, id, Closed,
                Artifacts(ReleaseStep(a.lease, id, f).0, R.Removed(a.receipt, !fails)), s.accepted))
  {
    var b := a.(receipt := R.Removed(a.receipt, !fails));
    var found := CoordDone(s, id, RemovingOwn, a, s.accepted);
    var rest := AbortReleases(s, id, b, f, c);
    DoneTwice(s, id, RemovingOwn, a, s.accepted, ReleasingAborted, b, s.accepted);
    CoordStep(found, id, c.(ok := !fails), ReleasingAborted, b, s.accepted, rest,
              CoordDone(s, id, Closed, b.(lease := ReleaseStep(b.lease, id, f).0), s.accepted));
    moves := [CoordMoves(id, c.(ok := !fails))] + rest;
  }

  /** Abort, from the moment it is called. */
  lemma AbortIsItsMoves(s: System, id: RequestId, f: Faults, rf: R.Faults, c: Choice) returns (moves: seq<Action>)
    requires At(s, id, FindingOwn) && id != ""
    ensures Leads(s, moves, CoordDone(s, id, Closed, AfterAbort(id, Artifacts(s.file, s.receipt), f, rf).0, s.accepted))
  {
    var a := Artifacts(s.file, s.receipt);
    var find := c.(readFails := rf.read);
    var t := CoordDone(s, id, Closed, AfterAbort(id, a, f, rf).0, s.accepted);
    if R.FindOurs(s.receipt, id, rf.read).Ours? {
      moves := AbortRemoves(s, id, a, rf.remove, f, c);
      CoordStep(s, id, find, RemovingOwn, a, s.accepted, moves, t);
    } else {
      moves := AbortReleases(s, id, a, f, c);
      CoordStep(s, id, find, ReleasingAborted, a, s.accepted, moves, t);
    }
    moves := [CoordMoves(id, find)] + moves;
  }

  /** The helper is spawned, and not recorded yet. */
  function Spawning(s: System, id: RequestId, helperPid: Pid): System
    requires id in s.reqs
  {
    s.(live := s.live + {helperPid}, born := s.born + {helperPid},
       reqs := s.reqs[id := s.reqs[id].(coord := Recording, helper := Polling, helperPid := helperPid)])
  }

  // Recording fails: the helper is killed and the request aborted.
  lemma UnrecordedIsAborted(s: System, id: RequestId, helperPid: Pid, f: Faults, abort: Faults, rf: R.Faults, c: Choice)
    returns (moves: seq<Action>, t: System)
    requires At(s, id, Recording) && id != "" && s.reqs[id].helperPid == helperPid && s.reqs[id].owner != helperPid
    requires UpdateStep(s.file, id, RecordHelper(helperPid), f).1.Some?
    ensures Leads(s, moves, t)
    ensures var file := UpdateStep(s.file, id, RecordHelper(helperPid), f).0;
            t == CoordDone(s, id, Closed, AfterAbort(id, Artifacts(file, s.receipt), abort, rf).0, s.accepted)
                 .(live := s.live - {helperPid})
  {
    var a := Artifacts(UpdateStep(s.file, id, RecordHelper(helperPid), f).0, s.receipt);
    var record, kill := c.(f := f), c.(ok := true);
    var v := CoordDone(s, id, Killing, a, s.accepted);
    var w := CoordDone(s, id, FindingOwn, a, s.accepted).(live := s.live - {helperPid});
    moves := AbortIsItsMoves(w, id, abort, rf, c);
    t := CoordDone(w, id, Closed, AfterAbort(id, a, abort, rf).0, w.accepted);
    assert s.reqs[id := s.reqs[id].(coord := Killing)][id := s.reqs[id].(coord := FindingOwn)] == w.reqs;
    assert w.reqs[id := s.reqs[id].(coord := Closed)] == s.reqs[id := s.reqs[id].(coord := Closed)];
    Before(v, CoordMoves(id, kill), moves, t);
    moves := [CoordMoves(id, kill)] + moves;
    CoordStep(s, id, record, Killing, a, s.accepted, moves, t);
    moves := [CoordMoves(id, record)] + moves;
  }

  /** Commit with a helper that starts: its moves leave both files as the method
      does; the helper lives on exactly if it was recorded. */
  lemma CommitIsItsMoves(s: System, id: RequestId, helperPid: Pid, f: Faults, abort: Faults, rf: R.Faults, c: Choice)
    returns (moves: seq<Action>, t: System)
    requires At(s, id, Ticketed) && id != "" && helperPid > 0 && helperPid !in s.born && s.live <= s.born
    ensures Leads(s, moves, t)
    ensures var (a, err) := AfterCommit(id, Artifacts(s.file, s.receipt), Some(helperPid), f, abort, rf);
            && Artifacts(t.file, t.receipt) == a
            && t.live == (if err.None? then s.live + {helperPid} else s.live)
            && t.reqs == s.reqs[id := s.reqs[id].(coord := Closed, helper := Polling, helperPid := helperPid)]
            && t.accepted == s.accepted && t.gateways == s.gateways
  {
    var spawn, record := c.(ok := true, pid := helperPid), c.(f := f);
    var u := Spawning(s, id, helperPid);
    if UpdateStep(s.file, id, RecordHelper(helperPid), f).1.None? {
      t := Next(u, CoordMoves(id, record));
      Before(u, CoordMoves(id, record), [], t);
      moves := [CoordMoves(id, record)] + [];
    } else {
      moves, t := UnrecordedIsAborted(u, id, helperPid, f, abort, rf, c);
    }
    Before(s, CoordMoves(id, spawn), moves, t);
    moves := [CoordMoves(id, spawn)] + moves;
  }

  /** Commit without one, or the caller's own Abort. */
  lemma FailedSpawnIsItsMoves(s: System, id: RequestId, f: Faults, abort: Faults, rf: R.Faults, c: Choice)
    returns (moves: seq<Action>)
    requires At(s, id, Ticketed) && id != ""
    ensures Leads(s, moves, CoordDone(s, id, Closed,
              AfterCommit(id, Artifacts(s.file, s.receipt), None, f, abort, rf).0, s.accepted))
  {
    var a := Artifacts(s.file, s.receipt);
    var mid := CoordDone(s, id, FindingOwn, a, s.accepted);
    var rest := AbortIsItsMoves(mid, id, abort, rf, c);
    var last := AfterAbort(id, a, abort, rf).0;
    DoneTwice(s, id, FindingOwn, a, s.accepted, Closed, last, s.accepted);
    CoordStep(s, id, c.(ok := false), FindingOwn, a, s.accepted, rest, CoordDone(s, id, Closed, last, s.accepted));
    moves := [CoordMoves(id, c.(ok := false))] + rest;
  }

  // Gateways

  function GatewayDone(s: System, pid: Pid, gateway: Gateway, a: Artifacts, accepted: set<RequestId>): System {
    s.(file := a.lease, receipt := a.receipt, accepted := accepted, gateways := GatewayAt(s, pid, gateway))
  }

  predicate Runs(s: System, pid: Pid, gateway: Gateway) {
    pid in s.gateways && pid in s.live && s.gateways[pid] == gateway
  }

  lemma GatewayStep(s: System, pid: Pid, c: Choice, gateway: Gateway, a: Artifacts, accepted: set<RequestId>,
                    moves: seq<Action>, t: System)
    requires pid in s.gateways && Enabled(s, GatewayMoves(pid, c))
    requires GatewayNext(s, pid, c) == GatewayDone(s, pid, gateway, a, accepted)
    requires Leads(GatewayDone(s, pid, gateway, a, accepted), moves, t)
    ensures Leads(s, [GatewayMoves(pid, c)] + moves, t)
  {
    Before(s, GatewayMoves(pid, c), moves, t);
  }

  lemma MovedTwice(s: System, pid: Pid, gateway: Gateway, a: Artifacts, accepted: set<RequestId>,
                   gateway': Gateway, a': Artifacts, accepted': set<RequestId>)
    ensures GatewayDone(GatewayDone(s, pid, gateway, a, accepted), pid, gateway', a', accepted') ==
            GatewayDone(s, pid, gateway', a', accepted')
  {
    assert s.gateways[pid := gateway][pid := gateway'] == s.gateways[pid := gateway'];
  }

  /** A gateway that starts: its moves do to the receipt what BroadcastStarted
      does, and its message is accepted exactly if that one's is. */
  function Started(s: System, pid: Pid, f: R.Faults, sends: bool): System {
    GatewayDone(s, pid, Readying, Artifacts(s.file, B.AfterStart(s.receipt, f, sends)),
                Accepting(s.receipt, f.read, sends, s.accepted))
  }

  lemma UnreadableAtStart(s: System, pid: Pid, f: R.Faults, sends: bool, c: Choice) returns (moves: seq<Action>)
    requires Runs(s, pid, Booting) && R.ReadReceipt(s.receipt, f.read).Err?
    ensures Leads(s, moves, Started(s, pid, f, sends))
  {
    var a := Artifacts(s.file, s.receipt);
    var b := a.(receipt := R.AfterQuarantine(s.receipt, f));
    var read, aside := c.(readFails := f.read), c.(ok := !f.stat && !f.rename);
    var mid := GatewayDone(s, pid, AsideAtStart(s.receipt), a, s.accepted);
    MovedTwice(s, pid, AsideAtStart(s.receipt), a, s.accepted, Readying, b, s.accepted);
    GatewayStep(mid, pid, aside, Readying, b, s.accepted, [], Started(s, pid, f, sends));
    moves := [GatewayMoves(pid, aside)] + [];
    GatewayStep(s, pid, read, AsideAtStart(s.receipt), a, s.accepted, moves, Started(s, pid, f, sends));
    moves := [GatewayMoves(pid, read)] + moves;
  }

  // Accepted: the receipt is found again and removed.
  lemma CompletingAtStart(s: System, pid: Pid, f: R.Faults, c: Choice, pending: R.Receipt)
    returns (moves: seq<Action>)
    requires Runs(s, pid, Finding(pending.requestId)) && R.ReadReceipt(s.receipt, f.read) == Ok(Some(pending))
    ensures Leads(s, moves, GatewayDone(s, pid, Readying,
              Artifacts(s.file, B.AfterStart(s.receipt, f, true)), s.accepted))
  {
    var a := Artifacts(s.file, s.receipt);
    var b := a.(receipt := B.AfterStart(s.receipt, f, true));
    var t := GatewayDone(s, pid, Readying, b, s.accepted);
    var find, remove := c.(readFails := f.read), c.(ok := !f.remove);
    var mid := GatewayDone(s, pid, Removing(pending.requestId), a, s.accepted);
    MovedTwice(s, pid, Removing(pending.requestId), a, s.accepted, Readying, b, s.accepted);
    GatewayStep(mid, pid, remove, Readying, b, s.accepted, [], t);
    moves := [GatewayMoves(pid, remove)] + [];
    GatewayStep(s, pid, find, Removing(pending.requestId), a, s.accepted, moves, t);
    moves := [GatewayMoves(pid, find)] + moves;
  }

  lemma PendingAtStart(s: System, pid: Pid, f: R.Faults, sends: bool, c: Choice, pending: R.Receipt)
    returns (moves: seq<Action>)
    requires Runs(s, pid, Booting) && R.ReadReceipt(s.receipt, f.read) == Ok(Some(pending))
    ensures Leads(s, moves, Started(s, pid, f, sends))
  {
    var a, id := Artifacts(s.file, s.receipt), pending.requestId;
    var read, send := c.(readFails := f.read), c.(ok := sends);
    var mid := GatewayDone(s, pid, Sending(id), a, s.accepted);
    if sends {
      var accepted := s.accepted + {id};
      var sent := GatewayDone(s, pid, Finding(id), a, accepted);
      MovedTwice(s, pid, Sending(id), a, s.accepted, Finding(id), a, accepted);
      moves := CompletingAtStart(sent, pid, f, c, pending);
      MovedTwice(s, pid, Finding(id), a, accepted, Readying,
                 a.(receipt := B.AfterStart(s.receipt, f, true)), accepted);
      GatewayStep(mid, pid, send, Finding(id), a, accepted, moves, Started(s, pid, f, sends));
    } else {
      MovedTwice(s, pid, Sending(id), a, s.accepted, Readying, a, s.accepted);
      moves := [];
      GatewayStep(mid, pid, send, Readying, a, s.accepted, [], Started(s, pid, f, sends));
    }
    moves := [GatewayMoves(pid, send)] + moves;
    GatewayStep(s, pid, read, Sending(id), a, s.accepted, moves, Started(s, pid, f, sends));
    moves := [GatewayMoves(pid, read)] + moves;
  }

  lemma StartIsItsMoves(s: System, pid: Pid, f: R.Faults, sends: bool, c: Choice) returns (moves: seq<Action>)
    requires Runs(s, pid, Booting)
    ensures Leads(s, moves, Started(s, pid, f, sends))
  {
    match R.ReadReceipt(s.receipt, f.read) {
      case Err(_) => moves := UnreadableAtStart(s, pid, f, sends, c);
      case Ok(Some(pending)) => moves := PendingAtStart(s, pid, f, sends, c, pending);
      case Ok(None) =>
        var read := c.(readFails := f.read);
        GatewayStep(s, pid, read, Readying, Artifacts(s.file, s.receipt), s.accepted, [], Started(s, pid, f, sends));
        moves := [GatewayMoves(pid, read)] + [];
    }
  }

  /** CompleteReady, as the gateway calls it. */
  lemma ReadyIsItsMoves(s: System, pid: Pid, readFails: bool, f: Faults, c: Choice) returns (moves: seq<Action>)
    requires Runs(s, pid, Readying)
    ensures Leads(s, moves, GatewayDone(s, pid, Serving,
              Artifacts(AfterReady(s.file, readFails, f).0, s.receipt), s.accepted))
  {
    var a := Artifacts(s.file, s.receipt);
    var b := a.(lease := AfterReady(s.file, readFails, f).0);
    var t := GatewayDone(s, pid, Serving, b, s.accepted);
    var read, release := c.(f := NO_FAULTS.(read := readFails)), c.(f := f);
    match ReadFile(s.file, readFails) {
      case Ok(Lease(_, id, WaitingForReady, _, _, _)) =>
        var mid := GatewayDone(s, pid, Releasing(id), a, s.accepted);
        MovedTwice(s, pid, Releasing(id), a, s.accepted, Serving, b, s.accepted);
        GatewayStep(mid, pid, release, Serving, b, s.accepted, [], t);
        moves := [GatewayMoves(pid, release)] + [];
        GatewayStep(s, pid, read, Releasing(id), a, s.accepted, moves, t);
        moves := [GatewayMoves(pid, read)] + moves;
      case _ =>
        GatewayStep(s, pid, read, Serving, a, s.accepted, [], t);
        moves := [GatewayMoves(pid, read)] + [];
    }
  }

  /** BroadcastStopping's part in it. */
  lemma StopIsItsMoves(s: System, pid: Pid, f: R.Faults, c: Choice) returns (moves: seq<Action>)
    requires Runs(s, pid, Serving)
    ensures Leads(s, moves, GatewayDone(s, pid, Stopped, Artifacts(s.file, B.AfterStop(s.receipt, f)), s.accepted))
  {
    var a := Artifacts(s.file, s.receipt);
    var b := a.(receipt := B.AfterStop(s.receipt, f));
    var t := GatewayDone(s, pid, Stopped, b, s.accepted);
    var read, aside := c.(readFails := f.read), c.(ok := !f.stat && !f.rename);
    if R.ReadReceipt(s.receipt, f.read).Err? {
      var mid := GatewayDone(s, pid, AsideAtStop(s.receipt), a, s.accepted);
      MovedTwice(s, pid, AsideAtStop(s.receipt), a, s.accepted, Stopped, b, s.accepted);
      GatewayStep(mid, pid, aside, Stopped, b, s.accepted, [], t);
      moves := [GatewayMoves(pid, aside)] + [];
      GatewayStep(s, pid, read, AsideAtStop(s.receipt), a, s.accepted, moves, t);
      moves := [GatewayMoves(pid, read)] + moves;
    } else {
      GatewayStep(s, pid, read, Stopped, a, s.accepted, [], t);
      moves := [GatewayMoves(pid, read)] + [];
    }
  }

  // Helpers

  function HelperDone(s: System, id: RequestId, helper: Helper, a: Artifacts): System
    requires id in s.reqs
  {
    s.(file := a.lease, receipt := a.receipt, reqs := HelperAt(s, id, helper))
  }

  predicate Helps(s: System, id: RequestId, helper: Helper) {
    id in s.reqs && s.reqs[id].helperPid in s.live && s.reqs[id].helper == helper
  }

  lemma HelperStep(s: System, id: RequestId, c: Choice, helper: Helper, a: Artifacts, moves: seq<Action>, t: System)
    requires id in s.reqs && Enabled(s, HelperMoves(id, c))
    requires HelperNext(s, id, c) == HelperDone(s, id, helper, a)
    requires Leads(HelperDone(s, id, helper, a), moves, t)
    ensures Leads(s, [HelperMoves(id, c)] + moves, t)
  {
    Before(s, HelperMoves(id, c), moves, t);
  }

  lemma HelpedTwice(s: System, id: RequestId, helper: Helper, a: Artifacts, helper': Helper, a': Artifacts)
    requires id in s.reqs
    ensures HelperDone(HelperDone(s, id, helper, a), id, helper', a') == HelperDone(s, id, helper', a')
  {
    assert s.reqs[id := s.reqs[id].(helper := helper)][id := s.reqs[id].(helper := helper')] ==
           s.reqs[id := s.reqs[id].(helper := helper')];
  }

  // The end of a failing helper: the lease goes last.
  lemma HelperReleases(s: System, id: RequestId, a: Artifacts, f: Faults, c: Choice) returns (moves: seq<Action>)
    requires id in s.reqs && s.reqs[id].helperPid in s.live
    ensures Leads(HelperDone(s, id, ReleasingLease, a), moves,
              HelperDone(s, id, Finished, a.(lease := ReleaseStep(a.lease, id, f).0)))
  {
    var last := a.(lease := ReleaseStep(a.lease, id, f).0);
    HelpedTwice(s, id, ReleasingLease, a, Finished, last);
    HelperStep(HelperDone(s, id, ReleasingLease, a), id, c.(f := f), Finished, last, [],
               HelperDone(s, id, Finished, last));
    moves := [HelperMoves(id, c.(f := f))] + [];
  }

  lemma HelperRemoves(s: System, id: RequestId, a: Artifacts, fails: bool, f: Faults, c: Choice)
    returns (moves: seq<Action>)
    requires id in s.reqs && s.reqs[id].helperPid in s.live
    ensures Leads(HelperDone(s, id, RemovingReceipt, a), moves,
              HelperDone(s, id, Finished, Artifacts(ReleaseStep(a.lease, id, f).0, R.Removed(a.receipt, !fails))))
  {
    var b := a.(receipt := R.Removed(a.receipt, !fails));
    moves := HelperReleases(s, id, b, f, c);
    HelpedTwice(s, id, RemovingReceipt, a, ReleasingLease, b);
    HelperStep(HelperDone(s, id, RemovingReceipt, a), id, c.(ok := !fails), ReleasingLease, b, moves,
               HelperDone(s, id, Finished, b.(lease := ReleaseStep(b.lease, id, f).0)));
    moves := [HelperMoves(id, c.(ok := !fails))] + moves;
  }

  lemma HelperAborts(s: System, id: RequestId, f: Faults, rf: R.Faults, c: Choice) returns (moves: seq<Action>)
    requires id in s.reqs && s.reqs[id].helperPid in s.live && id != ""
    ensures var a := Artifacts(s.file, s.receipt);
            Leads(HelperDone(s, id, FindingReceipt, a), moves, HelperDone(s, id, Finished, AfterAbort(id, a, f, rf).0))
  {
    var a := Artifacts(s.file, s.receipt);
    var find, looked := c.(readFails := rf.read), HelperDone(s, id, FindingReceipt, a);
    var t := HelperDone(s, id, Finished, AfterAbort(id, a, f, rf).0);
    if R.FindOurs(s.receipt, id, rf.read).Ours? {
      moves := HelperRemoves(s, id, a, rf.remove, f, c);
      HelpedTwice(s, id, FindingReceipt, a, RemovingReceipt, a);
      HelperStep(looked, id, find, RemovingReceipt, a, moves, t);
    } else {
      moves := HelperReleases(s, id, a, f, c);
      HelpedTwice(s, id, FindingReceipt, a, ReleasingLease, a);
      HelperStep(looked, id, find, ReleasingLease, a, moves, t);
    }
    moves := [HelperMoves(id, find)] + moves;
  }

  /** A helper that fails does what HelperFailure does. */
  lemma FailureIsItsMoves(s: System, id: RequestId, f: Faults, rf: R.Faults, c: Choice) returns (moves: seq<Action>)
    requires Helps(s, id, Failing) && id != ""
    ensures Leads(s, moves, HelperDone(s, id, Finished,
              AfterHelperFailure(id, s.reqs[id].oldPid, Artifacts(s.file, s.receipt), s.View(), f, rf)))
  {
    var a := Artifacts(s.file, s.receipt);
    if s.View().Alive(s.reqs[id].oldPid) {
      moves := HelperAborts(s, id, f, rf, c);
      HelperStep(s, id, c, FindingReceipt, a, moves, HelperDone(s, id, Finished, AfterAbort(id, a, f, rf).0));
    } else {
      moves := [];
      HelperStep(s, id, c, Finished, a, [], HelperDone(s, id, Finished, a));
    }
    moves := [HelperMoves(id, c)] + moves;
  }

  /** A poll of the handoff ends the wait exactly as WaitForHandoff says. */
  lemma PollsAgree(s: System, id: RequestId, c: Choice)
    requires Helps(s, id, Polling) && !c.f.read
    ensures var t := HelperNext(s, id, c);
            && Artifacts(t.file, t.receipt) == Artifacts(s.file, s.receipt)
            && t.reqs[id].helper == match PollResult(s.file, id)
                                    case Some(Ok(_)) => Announcing
                                    case Some(Err(_)) => Failing
                                    case None => if c.alt then Failing else Polling
  {
  }

  /** A helper whose request is recorded announces itself, stops the old gateway
      and starts the new one, in that order. */
  lemma RestartTakesPlace(s: System, id: RequestId, c: Choice) returns (moves: seq<Action>, t: System)
    requires Helps(s, id, Polling) && s.reqs[id].helperPid > 0 && s.reqs[id].oldPid != s.reqs[id].helperPid
    requires Carries(s.file, id) && ValidLease(s.file.lease) && s.file.lease.phase == HelperStarted
    ensures Leads(s, moves, t)
    ensures t.file == Record(s.file.lease.(phase := WaitingForReady, helperPid := s.reqs[id].helperPid))
    ensures t.live == s.live - {s.reqs[id].oldPid} && t.receipt == s.receipt
    ensures t.reqs == s.reqs[id := s.reqs[id].(helper := Finished)]
  {
    var go := Works(c);
    var polled := Next(s, HelperMoves(id, go));
    var announced := Next(polled, HelperMoves(id, go));
    var stopped := Next(announced, HelperMoves(id, go.(alt := true)));
    t := Next(stopped, HelperMoves(id, go));
    Before(stopped, HelperMoves(id, go), [], t);
    moves := [HelperMoves(id, go)] + [];
    Before(announced, HelperMoves(id, go.(alt := true)), moves, t);
    moves := [HelperMoves(id, go.(alt := true))] + moves;
    Before(polled, HelperMoves(id, go), moves, t);
    moves := [HelperMoves(id, go)] + moves;
    Before(s, HelperMoves(id, go), moves, t);
    moves := [HelperMoves(id, go)] + moves;
  }

  /** One that cannot announce itself, or fails to restart, takes the failure path. */
  lemma FailedTakeOver(s: System, id: RequestId, c: Choice)
    requires Helps(s, id, Announcing) || Helps(s, id, Destructive)
    ensures var t := HelperNext(s, id, c);
            t.reqs[id].helper == Failing <==>
              if s.reqs[id].helper == Announcing then
                !(&& !c.f.lock && !c.f.read && !c.f.write && !c.f.unlock
                  && Carries(s.file, id) && ValidLease(s.file.lease) && s.reqs[id].helperPid >= 0)
              else !c.alt && !c.ok
  {
    UpdateExactly(s.file, id, AnnounceHelper(s.reqs[id].helperPid), c.f);
  }

  // What becomes of a receipt that is there

  /** From any state, the moves of a starting gateway deliver the pending
      receipt; if the send fails, the receipt stays for the next one. */
  lemma StartingGatewayDelivers(s: System, pid: Pid, receipt: R.Receipt, sends: bool, c: Choice)
    returns (moves: seq<Action>, t: System)
    requires Runs(s, pid, Booting) && s.receipt == R.Stored(receipt) && R.ValidReceipt(receipt)
    ensures Leads(s, moves, t) && forall a <- moves :: a.GatewayMoves? && a.pid == pid
    ensures pid in t.gateways && t.gateways[pid] == Readying && t.file == s.file && t.reqs == s.reqs
    ensures sends ==> t.receipt == R.Missing && t.accepted == s.accepted + {receipt.requestId}
    ensures !sends ==> t.receipt == R.Stored(receipt) && t.accepted == s.accepted
  {
    var go := Works(c);
    var a, b := GatewayMoves(pid, go), GatewayMoves(pid, go.(ok := sends));
    var read := Next(s, a);
    var sent := Next(read, b);
    moves, t := [], sent;
    if sends {
      var found := Next(sent, a);
      t := Next(found, a);
      Before(found, a, [], t);
      Before(sent, a, [a], t);
      moves := [a] + [a];
      assert [a] + [] == [a];
    }
    Before(read, b, moves, t);
    moves := [b] + moves;
    Before(s, a, moves, t);
    moves := [a] + moves;
  }

  /** So does a coordinator that looks for one before a new restart. */
  lemma PreparingCoordinatorDelivers(s: System, id: RequestId, receipt: R.Receipt, e: Setting, c: Choice)
    returns (moves: seq<Action>, t: System)
    requires At(s, id, Checking) && s.receipt == R.Stored(receipt) && R.ValidReceipt(receipt)
    requires !e.readFails && e.complete == R.NO_FAULTS && e.release == NO_FAULTS
    requires Carries(s.file, id) && ValidLease(s.file.lease)
    ensures Leads(s, moves, t)
    ensures e.accepted ==>
              && id in t.reqs && t.reqs[id].coord == Stating && t.file == s.file
              && t.receipt == R.Missing && t.accepted == s.accepted + {receipt.requestId}
    ensures !e.accepted ==>
              && id in t.reqs && t.reqs[id].coord == Closed && t.file == Absent
              && t.receipt == R.Stored(receipt) && t.accepted == s.accepted
  {
    moves := CheckingIsRetry(s, id, e, c);
    t := Retried(s, id, e);
  }

  /** And a coordinator that aborts removes its own receipt, and no other. */
  lemma AbortingCoordinatorCleansUp(s: System, id: RequestId, receipt: R.Receipt, c: Choice)
    returns (moves: seq<Action>, t: System)
    requires At(s, id, FindingOwn) && id != "" && s.receipt == R.Stored(receipt) && R.ValidReceipt(receipt)
    requires Readable(s.file)
    ensures Leads(s, moves, t) && id in t.reqs && t.reqs[id].coord == Closed && t.accepted == s.accepted
    ensures t.receipt == if receipt.requestId == id then R.Missing else s.receipt
    ensures t.file == if Carries(s.file, id) then Absent else s.file
  {
    moves := AbortIsItsMoves(s, id, NO_FAULTS, R.NO_FAULTS, c);
    t := CoordDone(s, id, Closed, AfterAbort(id, Artifacts(s.file, s.receipt), NO_FAULTS, R.NO_FAULTS).0, s.accepted);
  }
}
