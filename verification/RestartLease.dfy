/** The restart lease: one small file that at most one restart request owns.
    `LeaseStore` is the store itself; the functions are what one operation
    under the file lock does, and the protocol model takes its steps from
    them. */
module RestartLease {
  import opened Wrappers
  import Text

  type RequestId = string
  type Pid = int

  const SCHEMA_VERSION := 2
  const RECLAIM_AFTER := 5 * 60 * 1_000_000_000 // nanoseconds

  datatype Phase = Prepared | HelperStarted | WaitingForReady | OtherPhase(text: string)

  datatype Lease = Lease(
    schemaVersion: int,
    requestId: RequestId,
    phase: Phase,
    ownerPid: Pid,
    helperPid: Pid,
    createdAt: int) // nanoseconds since Go's zero time, so 0 is IsZero

  /** What the lease path holds, after JSON decoding. */
  datatype LeaseFile =
    | Absent
    | Record(lease: Lease)
    | Marker(helperPid: Pid, createdAt: int) // a legacy file without schema_version
    | Garbled                                // nothing that a reader can decode

  datatype LeaseError =
    | NotExist
    | Unreadable
    | TicketMismatch
    | InProgress(requestId: RequestId)
    | BadOwner
    | Refused  // the mutation, or validation of what it produced, failed
    | IoFailed

  /** The clock and the process table as one locked operation sees them. */
  datatype Host = Host(now: int, live: set<Pid>) {
    predicate Alive(pid: Pid) {
      pid > 0 && pid in live
    }
  }

  /** Which system calls of one locked operation fail. */
  datatype Faults = Faults(
    lock: bool,
    read: bool,
    remove: bool,
    reread: bool,  // the second read, after a stale lease was removed
    random: bool,  // finding an ID for the new lease, or creating its file
    write: bool,   // Chmod or Write of the new file; in Update, any step of the replacement
    sync: bool,    // Sync of the new file
    cleanup: bool, // the removal of a new file whose Chmod, Write or Sync failed
    unlock: bool)

  const NO_FAULTS := Faults(false, false, false, false, false, false, false, false, false)

  // Request IDs

  predicate ValidRequestId(id: RequestId) {
    && |id| == 36
    && id[..4] == "req_"
    && forall c <- id[4..] :: Text.IsHexDigit(c)
  }

  type Entropy = raw: seq<Text.Octet> | |raw| == 16 witness [0, 0, 0, 0, 0, 0, 0, 0, 0, 0, 0, 0, 0, 0, 0, 0]

  function NewRequestId(raw: Entropy): (id: RequestId)
    ensures ValidRequestId(id)
  {
    var id := "req_" + Text.HexEncode(raw);
    assert id[4..] == Text.HexEncode(raw);
    id
  }

  lemma NewRequestIdInjective(a: Entropy, b: Entropy)
    requires NewRequestId(a) == NewRequestId(b)
    ensures a == b
  {
    assert NewRequestId(a)[4..] == Text.HexEncode(a);
    assert NewRequestId(b)[4..] == Text.HexEncode(b);
    Text.HexInjective(a, b);
  }

  // Reading and validation

  predicate ValidLease(lease: Lease) {
    && lease.schemaVersion == SCHEMA_VERSION
    && ValidRequestId(lease.requestId)
    && !lease.phase.OtherPhase?
    && lease.ownerPid > 0
    && lease.createdAt != 0
    && lease.helperPid >= 0
  }

  function Decode(file: LeaseFile): Result<Lease, LeaseError> {
    match file
    case Absent => Err(NotExist)
    case Garbled => Err(Unreadable)
    case Marker(helperPid, createdAt) =>
      if helperPid <= 0 || createdAt == 0 then Err(Unreadable)
      else Ok(Lease(1, "", HelperStarted, 0, helperPid, createdAt))
    case Record(lease) =>
      if ValidLease(lease) then Ok(lease) else Err(Unreadable)
  }

  function ReadFile(file: LeaseFile, readFails: bool): Result<Lease, LeaseError> {
    if readFails then Err(IoFailed) else Decode(file)
  }

  /** The file is one that every reader accepts. */
  predicate Readable(file: LeaseFile) {
    file.Absent? || Decode(file).Ok?
  }

  predicate Carries(file: LeaseFile, id: RequestId) {
    file.Record? && file.lease.requestId == id
  }

  predicate Stale(lease: Lease, host: Host) {
    if lease.phase.Prepared? then !host.Alive(lease.ownerPid)
    else
      && host.now - lease.createdAt >= RECLAIM_AFTER
      && !host.Alive(lease.ownerPid)
      && !host.Alive(lease.helperPid)
  }

  // One locked operation each

  /** A failed unlock turns success into an error but undoes nothing. */
  function AfterUnlock(err: Option<LeaseError>, f: Faults): Option<LeaseError> {
    if err.None? && f.unlock then Some(IoFailed) else err
  }

  datatype Acquired = Acquired(file: LeaseFile, lease: Option<Lease>, err: Option<LeaseError>)

  function FreshLease(ownerPid: Pid, now: int, raw: Entropy): Lease {
    Lease(SCHEMA_VERSION, NewRequestId(raw), Prepared, ownerPid, 0, now)
  }

  /** Creates the file at its final path.  The error of the removal after a
      failure is dropped, so a partial or a complete file may stay behind. */
  function Create(ownerPid: Pid, now: int, raw: Entropy, f: Faults): Acquired {
    var lease := FreshLease(ownerPid, now, raw);
    if f.random then Acquired(Absent, None, Some(IoFailed))
    else if f.write then Acquired(if f.cleanup then Garbled else Absent, None, Some(IoFailed))
    else if f.sync then Acquired(if f.cleanup then Record(lease) else Absent, None, Some(IoFailed))
    else Acquired(Record(lease), Some(lease), None)
  }

  function AcquireLocked(file: LeaseFile, ownerPid: Pid, host: Host, raw: Entropy, f: Faults): Acquired {
    match ReadFile(file, f.read)
    case Ok(current) =>
      if !Stale(current, host) then Acquired(file, None, Some(InProgress(current.requestId)))
      else if f.remove then Acquired(file, None, Some(IoFailed))
      else if f.reread then Acquired(Absent, None, Some(IoFailed))
      else Create(ownerPid, host.now, raw, f)
    case Err(NotExist) => Create(ownerPid, host.now, raw, f)
    case Err(e) => Acquired(file, None, Some(e))
  }

  function AcquireStep(file: LeaseFile, ownerPid: Pid, host: Host, raw: Entropy, f: Faults): Acquired {
    if ownerPid <= 0 then Acquired(file, None, Some(BadOwner))
    else if f.lock then Acquired(file, None, Some(IoFailed))
    else
      var a := AcquireLocked(file, ownerPid, host, raw, f);
      a.(err := AfterUnlock(a.err, f))
  }

  type Mutation = Lease -> Option<Lease>

  function UpdateStep(file: LeaseFile, id: RequestId, mutate: Mutation, f: Faults): (LeaseFile, Option<LeaseError>) {
    if f.lock then (file, Some(IoFailed))
    else match ReadFile(file, f.read)
      case Err(e) => (file, Some(e))
      case Ok(current) =>
        if current.requestId != id || id == "" then (file, Some(TicketMismatch))
        else match mutate(current)
          case None => (file, Some(Refused))
          case Some(changed) =>
            if !ValidLease(changed) then (file, Some(Refused))
            else if f.write then (file, Some(IoFailed))
            else (Record(changed), AfterUnlock(None, f))
  }

  function ReleaseStep(file: LeaseFile, id: RequestId, f: Faults): (LeaseFile, Option<LeaseError>) {
    if f.lock then (file, Some(IoFailed))
    else match ReadFile(file, f.read)
      case Err(NotExist) => (file, AfterUnlock(None, f))
      case Err(e) => (file, Some(e))
      case Ok(current) =>
        if current.requestId != id || id == "" then (file, Some(TicketMismatch))
        else if f.remove then (file, Some(IoFailed))
        else (Absent, AfterUnlock(None, f))
  }

  function RecordHelper(helperPid: Pid): Mutation {
    (lease: Lease) => Some(lease.(phase := HelperStarted, helperPid := helperPid))
  }

  function AnnounceHelper(helperPid: Pid): Mutation {
    (lease: Lease) => Some(lease.(phase := WaitingForReady, helperPid := helperPid))
  }

  /** The store, with the retry loop of the source.  The file is the only state. */
  class LeaseStore {
    var file: LeaseFile

    constructor (initial: LeaseFile)
      ensures file == initial
    {
      file := initial;
    }

    method Acquire(ownerPid: Pid, host: Host, raw: Entropy, f: Faults)
      returns (acquired: Option<Lease>, err: Option<LeaseError>, ghost rounds: nat)
      modifies this
      ensures Acquired(file, acquired, err) == AcquireStep(old(file), ownerPid, host, raw, f)
      ensures rounds <= 2
    {
      acquired, err, rounds := None, None, 0;
      if ownerPid <= 0 {
        err := Some(BadOwner);
        return;
      }
      if f.lock {
        err := Some(IoFailed);
        return;
      }
      ghost var before := file;
      var reclaimed := false;
      while acquired.None? && err.None?
        invariant rounds <= 2 && (rounds == 2 ==> acquired.Some? || err.Some?)
        invariant acquired.None? && err.None? ==>
                    if rounds == 0 then file == before && !reclaimed
                    else
                      && reclaimed
                      && file == Absent
                      && AcquireLocked(before, ownerPid, host, raw, f) ==
                           if f.reread then Acquired(Absent, None, Some(IoFailed))
                           else Create(ownerPid, host.now, raw, f)
        invariant acquired.Some? || err.Some? ==>
                    Acquired(file, acquired, err) == AcquireLocked(before, ownerPid, host, raw, f)
        decreases acquired.None? && err.None?, !file.Absent?
      {
        var current := ReadFile(file, if reclaimed then f.reread else f.read);
        rounds := rounds + 1;
        match current {
          case Ok(lease) =>
            if !Stale(lease, host) {
              err := Some(InProgress(lease.requestId));
            } else if f.remove {
              err := Some(IoFailed);
            } else {
              file, reclaimed := Absent, true;
            }
          case Err(e) =>
            if e != NotExist {
              err := Some(e);
            } else if f.random {
              err := Some(IoFailed);
            } else {
              var lease := FreshLease(ownerPid, host.now, raw);
              var created := CreateFile(lease, f);
              if created {
                acquired := Some(lease);
              } else {
                err := Some(IoFailed);
              }
            }
        }
      }
      if f.unlock && err.None? {
        err := Some(IoFailed);
      }
    }

    // Open, Chmod, Write, Sync; on a failure, Remove.
    method CreateFile(lease: Lease, f: Faults) returns (ok: bool)
      requires file == Absent
      modifies this
      ensures ok == (!f.write && !f.sync)
      ensures file == if ok || (!f.write && f.cleanup) then Record(lease) else if f.cleanup then Garbled else Absent
    {
      file := Garbled; // empty at first
      if !f.write {
        file := Record(lease);
      }
      ok := !f.write && !f.sync;
      if !ok && !f.cleanup {
        file := Absent;
      }
    }

    method Read(readFails: bool) returns (r: Result<Lease, LeaseError>)
      ensures r == ReadFile(file, readFails)
    {
      r := ReadFile(file, readFails);
    }

    method Update(id: RequestId, mutate: Mutation, f: Faults) returns (err: Option<LeaseError>)
      modifies this
      ensures (file, err) == UpdateStep(old(file), id, mutate, f)
      ensures file == old(file) || (Carries(old(file), id) && file.Record?)
    {
      if f.lock {
        return Some(IoFailed);
      }
      var current := Read(f.read);
      if current.Err? {
        return Some(current.error);
      }
      if current.value.requestId != id || id == "" {
        return Some(TicketMismatch);
      }
      var changed := mutate(current.value);
      if changed.None? || !ValidLease(changed.value) {
        return Some(Refused);
      }
      if f.write {
        return Some(IoFailed);
      }
      file := Record(changed.value);
      err := if f.unlock then Some(IoFailed) else None;
    }

    method Release(id: RequestId, f: Faults) returns (err: Option<LeaseError>)
      modifies this
      ensures (file, err) == ReleaseStep(old(file), id, f)
      ensures file == old(file) || (Carries(old(file), id) && file == Absent)
    {
      if f.lock {
        return Some(IoFailed);
      }
      var current := Read(f.read);
      if current == Err(NotExist) {
        return if f.unlock then Some(IoFailed) else None;
      }
      if current.Err? {
        return Some(current.error);
      }
      if current.value.requestId != id || id == "" {
        return Some(TicketMismatch);
      }
      if f.remove {
        return Some(IoFailed);
      }
      file := Absent;
      err := if f.unlock then Some(IoFailed) else None;
    }
  }

  // What the operations guarantee

  /** Nothing keeps Acquire from creating its file: the lease is absent, or
      stale and removed without trouble. */
  predicate Free(file: LeaseFile, host: Host, f: Faults) {
    && !f.lock && !f.read && !f.random
    && (file.Absent? || (Decode(file).Ok? && Stale(Decode(file).value, host) && !f.remove && !f.reread))
  }

  predicate CanAcquire(file: LeaseFile, host: Host, f: Faults) {
    Free(file, host, f) && !f.write && !f.sync
  }

  predicate Strands(file: LeaseFile, host: Host, f: Faults) {
    Free(file, host, f) && !f.write && if f.sync then f.cleanup else f.unlock
  }

  predicate Garbles(file: LeaseFile, host: Host, f: Faults) {
    Free(file, host, f) && f.write && f.cleanup
  }

  /** When Acquire creates a lease, when it says so, when it strands one (the
      caller gets an error for a lease that is there), and when it leaves a file
      that nobody can read. */
  lemma AcquireExactly(file: LeaseFile, ownerPid: Pid, host: Host, raw: Entropy, f: Faults)
    requires ownerPid > 0
    ensures var a := AcquireStep(file, ownerPid, host, raw, f);
            var lease := FreshLease(ownerPid, host.now, raw);
            && (a.lease.Some? <==> CanAcquire(file, host, f))
            && (a.lease.Some? ==> a.lease.value == lease && a.file == Record(lease))
            && (a.err.None? <==> CanAcquire(file, host, f) && !f.unlock)
            && (Strands(file, host, f) ==> a.file == Record(lease))
            && (Garbles(file, host, f) ==> a.file == Garbled)
    ensures var a := AcquireStep(file, ownerPid, host, raw, f);
            !Carries(file, NewRequestId(raw)) ==>
              (a.err.Some? && Carries(a.file, NewRequestId(raw)) <==> Strands(file, host, f))
    ensures Readable(file) && host.now != 0 ==>
              (!Readable(AcquireStep(file, ownerPid, host, raw, f).file) <==> Garbles(file, host, f))
  {
  }

  /** What readers accept, field by field. */
  lemma DecodeExactly(file: LeaseFile)
    ensures Decode(file) == Err(NotExist) <==> file == Absent
    ensures file.Record? ==>
              var lease := file.lease;
              (Decode(file).Ok? <==>
                && lease.schemaVersion == 2
                && ValidRequestId(lease.requestId)
                && (lease.phase == Prepared || lease.phase == HelperStarted || lease.phase == WaitingForReady)
                && lease.ownerPid > 0 && lease.helperPid >= 0 && lease.createdAt != 0)
              && (Decode(file).Ok? ==> Decode(file).value == lease)
    ensures file.Marker? ==> (Decode(file).Ok? <==> file.helperPid > 0 && file.createdAt != 0)
  {
  }

  /** Somebody may still be at work under this lease: its owner while it is
      prepared; after that anybody within five minutes, and then its owner or
      its helper. */
  predicate InUse(phase: Phase, ownerPid: Pid, helperPid: Pid, createdAt: int, host: Host) {
    var owner, helper := ownerPid > 0 && ownerPid in host.live, helperPid > 0 && helperPid in host.live;
    if phase == Prepared then owner else host.now - createdAt < 300_000_000_000 || owner || helper
  }

  /** A readable lease in use is never displaced, under any faults; without
      faults the caller learns whose it is.  One not in use is replaced. */
  lemma OnlyUnusedLeasesGo(lease: Lease, ownerPid: Pid, host: Host, raw: Entropy, f: Faults)
    requires ownerPid > 0 && ValidLease(lease)
    ensures var used := InUse(lease.phase, lease.ownerPid, lease.helperPid, lease.createdAt, host);
            var a, clean := AcquireStep(Record(lease), ownerPid, host, raw, f),
                            AcquireStep(Record(lease), ownerPid, host, raw, NO_FAULTS);
            && (used ==> a.file == Record(lease) && a.lease.None? && a.err.Some?)
            && (used <==> clean.err == Some(InProgress(lease.requestId)))
            && (!used ==> clean.err.None? && clean.file == Record(FreshLease(ownerPid, host.now, raw)))
  {
  }

  /** The same for the legacy marker, which has no owner and no request ID. */
  lemma OnlyUnusedMarkersGo(helperPid: Pid, createdAt: int, ownerPid: Pid, host: Host, raw: Entropy, f: Faults)
    requires ownerPid > 0 && helperPid > 0 && createdAt != 0
    ensures var used := host.now - createdAt < 300_000_000_000 || helperPid in host.live;
            var marker := Marker(helperPid, createdAt);
            var a, clean := AcquireStep(marker, ownerPid, host, raw, f),
                            AcquireStep(marker, ownerPid, host, raw, NO_FAULTS);
            && (used ==> a.file == marker && a.lease.None? && a.err.Some?)
            && (used <==> clean.err == Some(InProgress("")))
            && (!used ==> clean.err.None? && clean.file == Record(FreshLease(ownerPid, host.now, raw)))
  {
  }

  lemma UpdateExactly(file: LeaseFile, id: RequestId, mutate: Mutation, f: Faults)
    ensures var (after, err) := UpdateStep(file, id, mutate, f);
            var works := && !f.lock && !f.read && !f.write
                         && Carries(file, id) && ValidLease(file.lease)
                         && mutate(file.lease).Some? && ValidLease(mutate(file.lease).value);
            && (err.None? <==> works && !f.unlock)
            && after == if works then Record(mutate(file.lease).value) else file
  {
  }

  lemma ReleaseExactly(file: LeaseFile, id: RequestId, f: Faults)
    ensures var (after, err) := ReleaseStep(file, id, f);
            var works := && !f.lock && !f.read
                         && (file.Absent? || (Carries(file, id) && ValidLease(file.lease) && !f.remove));
            && (err.None? <==> works && !f.unlock)
            && after == if works then Absent else file
  {
  }

  /** The IDs that readers accept are those that some 16 bytes give, in either
      letter case. */
  lemma ValidIdsAreEncodings(id: RequestId)
    ensures ValidRequestId(id) <==>
              |id| >= 4 && id[..4] == "req_" && exists raw: Entropy :: Text.HexEncode(raw) == Text.LowerHex(id[4..])
  {
    if ValidRequestId(id) {
      var raw := Text.HexDecode(Text.LowerHex(id[4..]));
      Text.HexRoundTrip(Text.LowerHex(id[4..]));
    }
    if raw: Entropy :| |id| >= 4 && Text.HexEncode(raw) == Text.LowerHex(id[4..]) {
      Text.HexIsLower(raw);
    }
  }

  /** No operation ever removes or repairs a file that nobody can read. */
  lemma GarbledStays(id: RequestId, mutate: Mutation, ownerPid: Pid, host: Host, raw: Entropy, f: Faults)
    ensures var a := AcquireStep(Garbled, ownerPid, host, raw, f);
            a.file == Garbled && a.lease.None? && a.err.Some?
    ensures UpdateStep(Garbled, id, mutate, f).0 == Garbled && UpdateStep(Garbled, id, mutate, f).1.Some?
    ensures ReleaseStep(Garbled, id, f).0 == Garbled && ReleaseStep(Garbled, id, f).1.Some?
  {
  }

  /** With no fault, acquiring works exactly when nobody holds the lease or its
      holder is stale, and then the file carries the new request alone. */
  lemma AcquireIffFree(file: LeaseFile, ownerPid: Pid, host: Host, raw: Entropy)
    requires ownerPid > 0 && host.now != 0
    ensures var a := AcquireStep(file, ownerPid, host, raw, NO_FAULTS);
            && (a.err.None? <==> file.Absent? || (Decode(file).Ok? && Stale(Decode(file).value, host)))
            && (a.err.None? <==> a.lease.Some?)
            && (a.err.None? ==> a.file == Record(a.lease.value) && ValidLease(a.lease.value))
            && (a.err.Some? ==> a.file == file)
  {
  }

  /** A readable file stays readable, whatever fails, except when a new file
      could be neither written nor removed. */
  lemma OperationsKeepReadable(
      file: LeaseFile, id: RequestId, mutate: Mutation, ownerPid: Pid, host: Host, raw: Entropy, f: Faults)
    requires Readable(file) && host.now != 0
    ensures Readable(AcquireStep(file, ownerPid, host, raw, f).file) <==> ownerPid <= 0 || !Garbles(file, host, f)
    ensures Readable(UpdateStep(file, id, mutate, f).0)
    ensures Readable(ReleaseStep(file, id, f).0)
  {
  }

  /** Nothing but reclaim can touch a lease the caller has no ticket for; the
      legacy marker, whose request ID is empty, has no ticket at all. */
  lemma OnlyTheTicketHolderActs(file: LeaseFile, id: RequestId, mutate: Mutation, f: Faults)
    ensures !Carries(file, id) ==> UpdateStep(file, id, mutate, f).0 == file && ReleaseStep(file, id, f).0 == file
    ensures file.Marker? ==>
              && UpdateStep(file, id, mutate, f).0 == file && UpdateStep(file, id, mutate, f).1.Some?
              && ReleaseStep(file, id, f).0 == file && ReleaseStep(file, id, f).1.Some?
  {
  }

  /** Acquiring displaces a lease only if it is stale, even when calls fail. */
  lemma AcquireDisplacesOnlyStale(file: LeaseFile, ownerPid: Pid, host: Host, raw: Entropy, f: Faults)
    ensures var after := AcquireStep(file, ownerPid, host, raw, f).file;
            after != file ==>
              || file.Absent?
              || (Decode(file).Ok? && Stale(Decode(file).value, host))
  {
  }
}
