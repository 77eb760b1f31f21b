/** One process driving the two stores: Prepare, Commit, Abort, CompleteReady,
    the gateway command, and the helper's handoff and failure paths.  What other
    processes do in between is the subject of RestartProtocol. */
module RestartCoordinator {
  import opened Wrappers
  import opened RestartLease
  import R = RestartReceipt

  datatype Ticket = Ticket(lease: Lease, receipt: Option<R.Receipt>, oldPid: Pid) {
    function Id(): RequestId {
      lease.requestId
    }
  }

  datatype RestartError =
    | NoGateway
    | LeaseFailed(lease: LeaseError)
    | ReceiptUnreadable
    | ReceiptPending(requestId: RequestId)
    | ReceiptFailed(receipt: R.ReceiptError)
    | SpawnFailed
    | HandoffTimedOut

  /** Everything outside the two stores that Prepare depends on. */
  datatype Setting = Setting(
    host: Host,
    ownerPid: Pid,
    gateway: Option<Pid>, // the running gateway, when it can be discovered
    raw: Entropy,
    acquire: Faults,
    release: Faults,
    readFails: bool,
    accepted: bool,       // the pending receipt's started message is accepted
    aside: R.Faults,
    complete: R.Faults,
    write: R.Faults)

  /** How one failed call inside Abort is reported. */
  function AbortError(receiptErr: Option<R.ReceiptError>, leaseErr: Option<LeaseError>): Option<RestartError> {
    if receiptErr.Some? && receiptErr.value != R.Mismatch then Some(ReceiptFailed(receiptErr.value))
    else if leaseErr.Some? && leaseErr.value != TicketMismatch then Some(LeaseFailed(leaseErr.value))
    else None
  }

  predicate GatewayFound(e: Setting) {
    e.gateway.Some? && e.gateway.value > 0
  }

  /** What is pending, if anything, is readable, accepted and removed. */
  predicate RetryWorks(pending: R.ReceiptFile, e: Setting) {
    && !e.readFails
    && (pending == R.Missing
        || (R.ReadReceipt(pending, false).Ok? && e.accepted && !e.complete.read && !e.complete.remove))
  }

  predicate PrepareWorks(feishu: bool, requestedAt: int, lease: LeaseFile, pending: R.ReceiptFile, e: Setting) {
    && GatewayFound(e)
    && CanAcquire(lease, e.host, e.acquire) && !e.acquire.unlock
    && (feishu ==>
          && RetryWorks(pending, e)
          && !e.write.stat && !e.write.publish
          && (requestedAt != 0 || e.host.now != 0))
  }

  predicate ReleaseWorks(f: Faults) {
    !f.lock && !f.read && !f.remove
  }

  // What the operations do to the two files

  datatype Artifacts = Artifacts(lease: LeaseFile, receipt: R.ReceiptFile)

  function AfterRetry(pending: R.ReceiptFile, e: Setting): (R.ReceiptFile, Option<RestartError>) {
    match R.ReadReceipt(pending, e.readFails)
    case Err(_) => (R.AfterQuarantine(pending, e.aside), Some(ReceiptUnreadable))
    case Ok(None) => (pending, None)
    case Ok(Some(receipt)) =>
      if !e.accepted then (pending, Some(ReceiptPending(receipt.requestId)))
      else
        var (file, err) := R.AfterComplete(pending, receipt.requestId, e.complete);
        (file, if err.Some? then Some(ReceiptFailed(err.value)) else None)
  }

  /** The receipt of a request that is made now. */
  function NewReceipt(request: R.Receipt, e: Setting, oldPid: Pid): R.Receipt {
    request.(
      schemaVersion := 1, requestId := NewRequestId(e.raw), platform := "feishu",
      requestedAt := if request.requestedAt == 0 then e.host.now else request.requestedAt, oldPid := oldPid)
  }

  function AfterPrepare(feishu: bool, request: R.Receipt, a: Artifacts, e: Setting)
    : (Artifacts, Result<Ticket, RestartError>)
  {
    if !GatewayFound(e) then (a, Err(NoGateway))
    else
      var acquired := AcquireStep(a.lease, e.ownerPid, e.host, e.raw, e.acquire);
      var b := a.(lease := acquired.file);
      if acquired.err.Some? || acquired.lease.None? then
        (b, Err(LeaseFailed(if acquired.err.Some? then acquired.err.value else IoFailed)))
      else if !feishu then (b, Ok(Ticket(acquired.lease.value, None, e.gateway.value)))
      else
        var id := NewRequestId(e.raw);
        var (pending, unsent) := AfterRetry(a.receipt, e);
        var candidate := NewReceipt(request, e, e.gateway.value);
        var (receipt, unwritten) := R.AfterWrite(pending, candidate, e.write);
        if unsent.Some? then
          (Artifacts(ReleaseStep(b.lease, id, e.release).0, pending), Err(unsent.value))
        else if unwritten.Some? then
          (Artifacts(ReleaseStep(b.lease, id, e.release).0, receipt), Err(ReceiptFailed(unwritten.value)))
        else
          (Artifacts(b.lease, receipt), Ok(Ticket(acquired.lease.value, Some(candidate), e.gateway.value)))
  }

  function AfterAbort(id: RequestId, a: Artifacts, f: Faults, rf: R.Faults): (Artifacts, Option<RestartError>) {
    if id == "" then (a, None)
    else
      var (receipt, receiptErr) := R.AfterComplete(a.receipt, id, rf);
      var (lease, leaseErr) := ReleaseStep(a.lease, id, f);
      (Artifacts(lease, receipt), AbortError(receiptErr, leaseErr))
  }

  function AfterCommit(id: RequestId, a: Artifacts, spawned: Option<Pid>, f: Faults, abort: Faults, rf: R.Faults)
    : (Artifacts, Option<RestartError>)
  {
    if spawned.None? || spawned.value <= 0 then (AfterAbort(id, a, abort, rf).0, Some(SpawnFailed))
    else
      var (lease, err) := UpdateStep(a.lease, id, RecordHelper(spawned.value), f);
      if err.None? then (a.(lease := lease), None)
      else (AfterAbort(id, a.(lease := lease), abort, rf).0, Some(LeaseFailed(err.value)))
  }

  function AfterReady(lease: LeaseFile, readFails: bool, f: Faults): (LeaseFile, Option<LeaseError>) {
    match ReadFile(lease, readFails)
    case Err(NotExist) => (lease, None)
    case Err(e) => (lease, Some(e))
    case Ok(current) =>
      if current.phase.WaitingForReady? then ReleaseStep(lease, current.requestId, f) else (lease, None)
  }

  function AfterHelperFailure(id: RequestId, oldPid: Pid, a: Artifacts, host: Host, f: Faults, rf: R.Faults)
    : Artifacts
  {
    if host.Alive(oldPid) then AfterAbort(id, a, f, rf).0 else a
  }

  class Coordinator {
    const leases: LeaseStore
    const receipts: R.ReceiptStore

    constructor (leases: LeaseStore, receipts: R.ReceiptStore)
      ensures this.leases == leases && this.receipts == receipts
    {
      this.leases, this.receipts := leases, receipts;
    }

    /** Delivers a receipt an earlier restart left behind, or says why not. */
    method RetryPendingReceipt(e: Setting) returns (err: Option<RestartError>)
      modifies receipts
      ensures (receipts.file, err) == AfterRetry(old(receipts.file), e)
      ensures err.None? <==> RetryWorks(old(receipts.file), e)
      ensures err.None? ==> receipts.file == R.Missing
      ensures !e.readFails && !e.accepted
              && R.ReadReceipt(old(receipts.file), false).Ok? && old(receipts.file).Stored? ==>
                err == Some(ReceiptPending(old(receipts.file).receipt.requestId))
      ensures receipts.file == old(receipts.file)
           || (receipts.file == R.Missing
               && (e.accepted || R.ReadReceipt(old(receipts.file), e.readFails).Err?))
      ensures R.ReadReceipt(old(receipts.file), e.readFails).Ok? ==> receipts.quarantined == old(receipts.quarantined)
      // What cannot be read is kept, here or aside.
      ensures R.ReadReceipt(old(receipts.file), e.readFails).Err? ==>
                if old(receipts.file) != R.Missing && !e.aside.stat && !e.aside.rename then
                  receipts.file == R.Missing && receipts.quarantined == old(receipts.quarantined) + [old(receipts.file)]
                else receipts.file == old(receipts.file) && receipts.quarantined == old(receipts.quarantined)
    {
      var pending := receipts.Read(e.readFails);
      if pending.Err? {
        var moved := receipts.Quarantine(e.aside);
        return Some(ReceiptUnreadable);
      }
      if pending.value.None? {
        return None;
      }
      var id := pending.value.value.requestId;
      if !e.accepted {
        return Some(ReceiptPending(id));
      }
      var failed := receipts.Complete(id, e.complete);
      if failed.Some? {
        return Some(ReceiptFailed(failed.value));
      }
      err := None;
    }

    /** Either the request owns the lease, with its receipt in place when one is
        needed, or it left no lease of its own behind. */
    method Prepare(feishu: bool, request: R.Receipt, e: Setting)
      returns (r: Result<Ticket, RestartError>)
      requires e.ownerPid > 0
      modifies leases, receipts
      ensures (Artifacts(leases.file, receipts.file), r) ==
              AfterPrepare(feishu, request, old(Artifacts(leases.file, receipts.file)), e)
      ensures r.Ok? <==> PrepareWorks(feishu, request.requestedAt, old(leases.file), old(receipts.file), e)
      ensures r.Ok? ==>
                && leases.file == Record(r.value.lease)
                && r.value.lease == FreshLease(e.ownerPid, e.host.now, e.raw)
                && e.gateway == Some(r.value.oldPid)
      ensures r.Ok? && feishu ==>
                && r.value.receipt.Some? && receipts.file == R.Stored(r.value.receipt.value)
                && R.ValidReceipt(r.value.receipt.value)
                && r.value.receipt.value.requestId == r.value.lease.requestId
                && r.value.receipt.value.oldPid == r.value.oldPid
                && r.value.receipt.value.platform == "feishu"
                && r.value.receipt.value.actor == request.actor
                && r.value.receipt.value.botName == request.botName
                && r.value.receipt.value.platformKey == request.platformKey
                && r.value.receipt.value.oldVersion == request.oldVersion
                && r.value.receipt.value.requestedAt ==
                     if request.requestedAt == 0 then e.host.now else request.requestedAt
      ensures r.Ok? && !feishu ==> r.value.receipt.None?
      ensures !feishu ==> receipts.file == old(receipts.file)
      ensures !GatewayFound(e) ==> r == Err(NoGateway)
      ensures var err := AcquireStep(old(leases.file), e.ownerPid, e.host, e.raw, e.acquire).err;
              GatewayFound(e) && err.Some? ==> r == Err(LeaseFailed(err.value))
      // An undelivered receipt of an earlier restart is named.
      ensures var pending := old(receipts.file);
              GatewayFound(e) && AcquireStep(old(leases.file), e.ownerPid, e.host, e.raw, e.acquire).err.None?
              && feishu && !e.readFails && pending.Stored? && R.ValidReceipt(pending.receipt) && !e.accepted ==>
                r == Err(ReceiptPending(pending.receipt.requestId)) && receipts.file == pending
      // A failing Prepare leaves what a failing Acquire leaves, and its lease
      // if it then cannot release it.
      ensures r.Err? && e.host.now != 0 ==>
                var a := AcquireStep(old(leases.file), e.ownerPid, e.host, e.raw, e.acquire);
                leases.file == if !GatewayFound(e) then old(leases.file)
                               else if a.lease.None? || a.err.Some? || !ReleaseWorks(e.release) then a.file
                               else Absent
      ensures r.Err? ==>
                || receipts.file == old(receipts.file)
                || (receipts.file == R.Missing
                    && (e.accepted || R.ReadReceipt(old(receipts.file), e.readFails).Err?))
      ensures Decode(old(leases.file)).Ok? && !Stale(Decode(old(leases.file)).value, e.host) ==>
                r.Err? && leases.file == old(leases.file) && receipts.file == old(receipts.file)
    {
      if e.gateway.None? || e.gateway.value <= 0 {
        return Err(NoGateway);
      }
      AcquireExactly(leases.file, e.ownerPid, e.host, e.raw, e.acquire);
      var lease, failed, rounds := leases.Acquire(e.ownerPid, e.host, e.raw, e.acquire);
      if failed.Some? {
        return Err(LeaseFailed(failed.value));
      }
      var id := lease.value.requestId;
      var stored: Option<R.Receipt> := None;
      if feishu {
        var pending := RetryPendingReceipt(e);
        if pending.Some? {
          var _ := leases.Release(id, e.release);
          return Err(pending.value);
        }
        var receipt := request.(
          schemaVersion := R.SCHEMA_VERSION, requestId := id, platform := "feishu",
          requestedAt := if request.requestedAt == 0 then e.host.now else request.requestedAt,
          oldPid := e.gateway.value);
        var unwritten := receipts.Write(receipt, e.write);
        if unwritten.Some? {
          var _ := leases.Release(id, e.release);
          return Err(ReceiptFailed(unwritten.value));
        }
        stored := Some(receipt);
      }
      r := Ok(Ticket(lease.value, stored, e.gateway.value));
    }

    /** Drops what the request `id` left, and nothing of any other request. */
    method Abort(id: RequestId, f: Faults, rf: R.Faults) returns (err: Option<RestartError>)
      modifies leases, receipts`file
      ensures (Artifacts(leases.file, receipts.file), err) ==
              AfterAbort(id, old(Artifacts(leases.file, receipts.file)), f, rf)
      ensures leases.file == old(leases.file) || (Carries(old(leases.file), id) && leases.file == Absent)
      ensures receipts.file == old(receipts.file) || (R.IsFor(old(receipts.file), id) && receipts.file == R.Missing)
      ensures id != "" && f == NO_FAULTS && Readable(old(leases.file)) ==> !Carries(leases.file, id)
      ensures id != "" && rf == R.NO_FAULTS && R.ReadReceipt(old(receipts.file), false).Ok? ==>
                !R.IsFor(receipts.file, id)
      ensures (f == NO_FAULTS && rf == R.NO_FAULTS && Readable(old(leases.file))
               && R.ReadReceipt(old(receipts.file), false).Ok?) ==> err.None?
    {
      if id == "" {
        return None;
      }
      var receiptErr := receipts.Complete(id, rf);
      var leaseErr := leases.Release(id, f);
      err := AbortError(receiptErr, leaseErr);
    }

    /** Hands the restart to a helper: on success the lease names it; on failure
        a helper that was started is killed and the request is aborted. */
    method Commit(ticket: Ticket, spawned: Option<Pid>, f: Faults, abort: Faults, rf: R.Faults)
      returns (err: Option<RestartError>, killed: Option<Pid>)
      requires ticket.Id() != ""
      modifies leases, receipts`file
      ensures (Artifacts(leases.file, receipts.file), err) ==
              AfterCommit(ticket.Id(), old(Artifacts(leases.file, receipts.file)), spawned, f, abort, rf)
      ensures err.None? <==>
                && spawned.Some? && spawned.value > 0
                && Carries(old(leases.file), ticket.Id()) && ValidLease(old(leases.file).lease)
                && !f.lock && !f.read && !f.write && !f.unlock
      ensures err.None? ==>
                && leases.file == Record(old(leases.file).lease.(phase := HelperStarted, helperPid := spawned.value))
                && receipts.file == old(receipts.file)
      ensures killed == if err.Some? && spawned.Some? && spawned.value > 0 then spawned else None
      ensures err.Some? && abort == NO_FAULTS && Readable(old(leases.file)) ==> !Carries(leases.file, ticket.Id())
      ensures err.Some? && rf == R.NO_FAULTS && R.ReadReceipt(old(receipts.file), false).Ok? ==>
                !R.IsFor(receipts.file, ticket.Id())
      ensures leases.file == old(leases.file) || Carries(old(leases.file), ticket.Id())
      ensures receipts.file == old(receipts.file) || R.IsFor(old(receipts.file), ticket.Id())
    {
      killed := None;
      if spawned.None? || spawned.value <= 0 {
        var _ := Abort(ticket.Id(), abort, rf);
        return Some(SpawnFailed), None;
      }
      var failed := leases.Update(ticket.Id(), RecordHelper(spawned.value), f);
      if failed.Some? {
        killed := spawned;
        var _ := Abort(ticket.Id(), abort, rf);
        return Some(LeaseFailed(failed.value)), killed;
      }
      err := None;
    }

    /** A ready gateway releases the lease that waits for it, and only that. */
    method CompleteReady(readFails: bool, f: Faults) returns (err: Option<LeaseError>)
      modifies leases
      ensures (leases.file, err) == AfterReady(old(leases.file), readFails, f)
      ensures leases.file == old(leases.file)
           || (old(leases.file).Record? && old(leases.file).lease.phase.WaitingForReady? && leases.file == Absent)
      ensures !readFails && f == NO_FAULTS && Readable(old(leases.file)) ==>
                && err.None?
                && (leases.file == Absent <==>
                      old(leases.file) == Absent
                      || (old(leases.file).Record? && old(leases.file).lease.phase.WaitingForReady?))
    {
      var lease := leases.Read(readFails);
      if lease == Err(NotExist) {
        return None;
      }
      if lease.Err? {
        return Some(lease.error);
      }
      if lease.value.phase != WaitingForReady {
        return None;
      }
      err := leases.Release(lease.value.requestId, f);
    }

    /** What a helper that failed before the old gateway stopped does: all of the
        request's traces go while that gateway lives on, none once it is dead. */
    method HelperFailure(id: RequestId, oldPid: Pid, host: Host, f: Faults, rf: R.Faults)
      returns (cleanup: Option<RestartError>)
      requires id != ""
      modifies leases, receipts`file
      ensures Artifacts(leases.file, receipts.file) ==
              AfterHelperFailure(id, oldPid, old(Artifacts(leases.file, receipts.file)), host, f, rf)
      ensures !host.Alive(oldPid) ==> leases.file == old(leases.file) && receipts.file == old(receipts.file)
      ensures host.Alive(oldPid) && f == NO_FAULTS && rf == R.NO_FAULTS
              && Readable(old(leases.file)) && R.ReadReceipt(old(receipts.file), false).Ok? ==>
                && cleanup.None?
                && leases.file == (if Carries(old(leases.file), id) then Absent else old(leases.file))
                && receipts.file == (if R.IsFor(old(receipts.file), id) then R.Missing else old(receipts.file))
      ensures leases.file == old(leases.file) || Carries(old(leases.file), id)
      ensures receipts.file == old(receipts.file) || R.IsFor(old(receipts.file), id)
    {
      if !host.Alive(oldPid) {
        return None;
      }
      cleanup := Abort(id, f, rf);
    }

    /** The chat command up to the point where Commit runs in the background. */
    method HandleCommand(restart: bool, allowed: bool, replyWorks: bool, request: R.Receipt, e: Setting,
                         f: Faults, rf: R.Faults)
      returns (ticket: Option<Ticket>, replyFailed: bool)
      requires e.ownerPid > 0
      modifies leases, receipts
      ensures !restart || !allowed ==>
                ticket.None? && leases.file == old(leases.file) && receipts.file == old(receipts.file)
      ensures ticket.Some? <==>
                && restart && allowed && replyWorks
                && PrepareWorks(true, request.requestedAt, old(leases.file), old(receipts.file), e)
      ensures replyFailed <==>
                && !replyWorks
                && (restart ==> allowed
                                && PrepareWorks(true, request.requestedAt, old(leases.file), old(receipts.file), e))
      ensures ticket.Some? ==>
                && Carries(leases.file, ticket.value.Id()) && leases.file.lease.phase.Prepared?
                && R.IsFor(receipts.file, ticket.value.Id())
      // An accepted request whose reply fails is undone.
      ensures ticket.None? && old(leases.file) == Absent && old(receipts.file) == R.Missing && e.host.now != 0
              && !Strands(Absent, e.host, e.acquire) && !Garbles(Absent, e.host, e.acquire)
              && e.release == NO_FAULTS && f == NO_FAULTS && rf == R.NO_FAULTS ==>
                leases.file == Absent && receipts.file == R.Missing
    {
      if !restart || !allowed {
        return None, !replyWorks && !restart;
      }
      var prepared := Prepare(true, request, e);
      if prepared.Err? {
        return None, false;
      }
      if !replyWorks {
        var _ := Abort(prepared.value.Id(), f, rf);
        return None, true;
      }
      ticket, replyFailed := Some(prepared.value), false;
    }
  }

  /** What one poll of the handoff loop concludes; None means poll again. */
  function PollResult(file: LeaseFile, id: RequestId): Option<Result<(), RestartError>> {
    match Decode(file)
    case Err(e) => Some(Err(LeaseFailed(e)))
    case Ok(lease) =>
      if lease.requestId != id then Some(Err(LeaseFailed(TicketMismatch)))
      else if lease.phase.HelperStarted? || lease.phase.WaitingForReady? then Some(Ok(()))
      else None
  }

  /** The helper waits while its own lease is prepared.  `polls` is what the file
      holds at each poll before the timer fires; the first poll always happens. */
  method WaitForHandoff(polls: seq<LeaseFile>, id: RequestId) returns (r: Result<(), RestartError>)
    requires polls != []
    ensures r.Ok? <==>
              exists k :: 0 <= k < |polls|
                && Carries(polls[k], id) && ValidLease(polls[k].lease) && !polls[k].lease.phase.Prepared?
                && forall j :: 0 <= j < k ==>
                     Carries(polls[j], id) && ValidLease(polls[j].lease) && polls[j].lease.phase.Prepared?
    ensures r == Err(HandoffTimedOut) <==>
              forall j :: 0 <= j < |polls| ==>
                Carries(polls[j], id) && ValidLease(polls[j].lease) && polls[j].lease.phase.Prepared?
  {
    if id == "" {
      assert !(Carries(polls[0], id) && ValidLease(polls[0].lease));
      return Err(LeaseFailed(TicketMismatch));
    }
    var i := 0;
    while i < |polls|
      invariant 0 <= i <= |polls|
      invariant forall j :: 0 <= j < i ==>
                  Carries(polls[j], id) && ValidLease(polls[j].lease) && polls[j].lease.phase.Prepared?
    {
      var result := PollResult(polls[i], id);
      if result.Some? {
        return result.value;
      }
      i := i + 1;
    }
    r := Err(HandoffTimedOut);
  }
}
