/** Everything that can happen around one lease file and one receipt file:
    coordinators (Prepare, Commit, Abort), detached helpers, and gateways
    (BroadcastStarted, CompleteReady, BroadcastStopping), each advancing one
    system-visible operation at a time, and any process dying between any two
    of them.  Lease operations are atomic (they hold the file lock); the
    receipt's read and remove, and read and quarantine, are separate. */
module RestartProtocol {
  import opened Wrappers
  import opened RestartLease
  import R = RestartReceipt

  /** Where Prepare, Commit or Abort of one request stands. */
  datatype Coord =
    | Checking                           // Prepare: lease acquired, about to look for a pending receipt
    | SettingAside(saw: R.ReceiptFile)   //   that receipt could not be read
    | Resending(pending: RequestId)      //   it could: about to send its started message
    | FindingPending(pending: RequestId) //   accepted: Complete is about to read
    | RemovingPending(pending: RequestId)
    | Stating                            //   about to check that no receipt exists
    | Publishing                         //   none did: about to rename the new one into place
    | ReleasingFailed                    //   Prepare fails: about to release its lease
    | Ticketed                           // Prepare returned a ticket
    | Recording                          // Commit: helper spawned, about to record it
    | Killing                            //   recording failed: about to kill the helper
    | FindingOwn                         // Abort: Complete is about to read
    | RemovingOwn
    | ReleasingAborted
    | Closed

  /** Where the detached helper of one request stands. */
  datatype Helper =
    | NotSpawned
    | Polling          // waiting for the handoff
    | Announcing       // handed off: about to update the lease
    | Destructive      // update succeeded: stopping the old gateway, starting the new one
    | Failing          // restartHelperFailure: about to look at the old gateway
    | FindingReceipt
    | RemovingReceipt
    | ReleasingLease
    | Finished

  datatype Gateway =
    | Booting                             // BroadcastStarted is about to read the receipt
    | AsideAtStart(saw: R.ReceiptFile)
    | Sending(pending: RequestId)
    | Finding(pending: RequestId)
    | Removing(pending: RequestId)
    | Readying                            // CompleteReady is about to read the lease
    | Releasing(id: RequestId)            //   it was waiting_for_ready: about to release it
    | Serving
    | AsideAtStop(saw: R.ReceiptFile)     // BroadcastStopping could not read the receipt
    | Stopped

  datatype Request = Request(owner: Pid, oldPid: Pid, coord: Coord, helper: Helper, helperPid: Pid)

  datatype System = System(
    now: int,
    live: set<Pid>,
    born: set<Pid>, // every PID ever used; none is used twice
    file: LeaseFile,
    receipt: R.ReceiptFile,
    reqs: map<RequestId, Request>,
    gateways: map<Pid, Gateway>,
    accepted: set<RequestId>) // requests whose started message some sender accepted
  {
    function View(): Host {
      Host(now, live)
    }
  }

  /** What the environment decides about one move. */
  datatype Choice = Choice(
    ok: bool,         // the call, send, rename or remove succeeds
    alt: bool,        // a polling timeout, or stopping the old gateway
    readFails: bool,  // reading the receipt fails
    f: Faults,        // of a lease operation
    pid: Pid,         // of a spawned process
    receipt: R.Receipt)

  datatype Action =
    | Tick(to: int)
    | Die(pid: Pid)
    | Boot(pid: Pid)
    | AcquireBy(owner: Pid, feishu: bool, oldPid: Pid, raw: Entropy, f: Faults)
    | CoordMoves(id: RequestId, c: Choice)
    | HelperMoves(id: RequestId, c: Choice)
    | GatewayMoves(pid: Pid, c: Choice)

  predicate Enabled(s: System, a: Action) {
    match a
    case Tick(to) => to > 0
    case Die(pid) => pid in s.live
    case Boot(pid) => pid > 0 && pid !in s.gateways && (pid in s.live || pid !in s.born)
    case AcquireBy(owner, _, oldPid, raw, _) =>
      owner > 0 && owner in s.live && oldPid > 0 && NewRequestId(raw) !in s.reqs
    case CoordMoves(id, c) =>
      && id in s.reqs
      && s.reqs[id].owner in s.live
      && !s.reqs[id].coord.Closed?
      && (s.reqs[id].coord.Ticketed? && c.ok ==> c.pid > 0 && c.pid !in s.born)
      && (s.reqs[id].coord.Publishing? && c.ok ==> R.ValidReceipt(c.receipt) && c.receipt.requestId == id)
    case HelperMoves(id, _) =>
      && id in s.reqs
      && !s.reqs[id].helper.NotSpawned? && !s.reqs[id].helper.Finished?
      && s.reqs[id].helperPid in s.live
    case GatewayMoves(pid, _) =>
      pid in s.gateways && pid in s.live && !s.gateways[pid].Stopped?
  }

  function AcquireNext(s: System, owner: Pid, feishu: bool, oldPid: Pid, raw: Entropy, f: Faults): System {
    var a := AcquireStep(s.file, owner, s.View(), raw, f);
    if !Carries(a.file, NewRequestId(raw)) then s.(file := a.file)
    else
      // A failed unlock, or a failed Sync and cleanup, leaves the lease behind
      // while Prepare gives up.
      var coord := if a.err.Some? then Closed else if feishu then Checking else Ticketed;
      s.(file := a.file, reqs := s.reqs[NewRequestId(raw) := Request(owner, oldPid, coord, NotSpawned, 0)])
  }

  function CoordAt(s: System, id: RequestId, coord: Coord): map<RequestId, Request>
    requires id in s.reqs
  {
    s.reqs[id := s.reqs[id].(coord := coord)]
  }

  function HelperAt(s: System, id: RequestId, helper: Helper): map<RequestId, Request>
    requires id in s.reqs
  {
    s.reqs[id := s.reqs[id].(helper := helper)]
  }

  function GatewayAt(s: System, pid: Pid, gateway: Gateway): map<Pid, Gateway> {
    s.gateways[pid := gateway]
  }

  function CoordNext(s: System, id: RequestId, c: Choice): System
    requires id in s.reqs
  {
    var q := s.reqs[id];
    match q.coord
    case Checking => s.(reqs := CoordAt(s, id, 
      match R.ReadReceipt(s.receipt, c.readFails)
      case Err(_) => SettingAside(s.receipt)
      case Ok(None) => Stating
      case Ok(Some(receipt)) => Resending(receipt.requestId)))
    case SettingAside(_) => s.(receipt := R.Removed(s.receipt, c.ok), reqs := CoordAt(s, id, ReleasingFailed))
    case Resending(pending) =>
      if c.ok then s.(accepted := s.accepted + {pending}, reqs := CoordAt(s, id, FindingPending(pending)))
      else s.(reqs := CoordAt(s, id, ReleasingFailed))
    case FindingPending(pending) => s.(reqs := CoordAt(s, id, 
      match R.FindOurs(s.receipt, pending, c.readFails)
      case NothingThere => Stating
      case Ours => RemovingPending(pending)
      case NotCompletable(_) => ReleasingFailed))
    case RemovingPending(_) =>
      s.(receipt := R.Removed(s.receipt, c.ok), reqs := CoordAt(s, id, if c.ok then Stating else ReleasingFailed))
    case Stating => s.(reqs := CoordAt(s, id, if c.ok && s.receipt == R.Missing then Publishing else ReleasingFailed))
    case Publishing =>
      if c.ok then s.(receipt := R.Stored(c.receipt), reqs := CoordAt(s, id, Ticketed))
      else s.(reqs := CoordAt(s, id, ReleasingFailed))
    case ReleasingFailed => s.(file := ReleaseStep(s.file, id, c.f).0, reqs := CoordAt(s, id, Closed))
    case Ticketed => // the caller aborts or the spawn fails; or the helper starts
      if !c.ok then s.(reqs := CoordAt(s, id, FindingOwn))
      else s.(live := s.live + {c.pid}, born := s.born + {c.pid},
              reqs := s.reqs[id := q.(coord := Recording, helper := Polling, helperPid := c.pid)])
    case Recording =>
      var (file, err) := UpdateStep(s.file, id, RecordHelper(q.helperPid), c.f);
      s.(file := file, reqs := CoordAt(s, id, if err.None? then Closed else Killing))
    case Killing => s.(live := if c.ok then s.live - {q.helperPid} else s.live, reqs := CoordAt(s, id, FindingOwn))
    case FindingOwn =>
      var ours := R.FindOurs(s.receipt, id, c.readFails).Ours?;
      s.(reqs := CoordAt(s, id, if ours then RemovingOwn else ReleasingAborted))
    case RemovingOwn => s.(receipt := R.Removed(s.receipt, c.ok), reqs := CoordAt(s, id, ReleasingAborted))
    case ReleasingAborted => s.(file := ReleaseStep(s.file, id, c.f).0, reqs := CoordAt(s, id, Closed))
    case Closed => s
  }

  function PollNext(file: LeaseFile, id: RequestId, c: Choice): Helper {
    match ReadFile(file, c.f.read)
    case Err(_) => Failing
    case Ok(lease) =>
      if lease.requestId != id then Failing
      else if lease.phase.HelperStarted? || lease.phase.WaitingForReady? then Announcing
      else if c.alt then Failing
      else Polling
  }

  function HelperNext(s: System, id: RequestId, c: Choice): System
    requires id in s.reqs
  {
    var q := s.reqs[id];
    match q.helper
    case NotSpawned => s
    case Polling => s.(reqs := HelperAt(s, id, PollNext(s.file, id, c)))
    case Announcing =>
      var (file, err) := UpdateStep(s.file, id, AnnounceHelper(q.helperPid), c.f);
      s.(file := file, reqs := HelperAt(s, id, if err.None? then Destructive else Failing))
    case Destructive =>
      if c.alt then s.(live := s.live - {q.oldPid}) // stop the old gateway
      else // start the new one, or the service restart fails
        s.(reqs := HelperAt(s, id, if c.ok then Finished else Failing))
    case Failing => s.(reqs := HelperAt(s, id, if s.View().Alive(q.oldPid) then FindingReceipt else Finished))
    case FindingReceipt =>
      var ours := R.FindOurs(s.receipt, id, c.readFails).Ours?;
      s.(reqs := HelperAt(s, id, if ours then RemovingReceipt else ReleasingLease))
    case RemovingReceipt => s.(receipt := R.Removed(s.receipt, c.ok), reqs := HelperAt(s, id, ReleasingLease))
    case ReleasingLease => s.(file := ReleaseStep(s.file, id, c.f).0, reqs := HelperAt(s, id, Finished))
    case Finished => s
  }

  function GatewayNext(s: System, pid: Pid, c: Choice): System
    requires pid in s.gateways
  {
    match s.gateways[pid]
    case Booting => s.(gateways := GatewayAt(s, pid, 
      match R.ReadReceipt(s.receipt, c.readFails)
      case Err(_) => AsideAtStart(s.receipt)
      case Ok(None) => Readying
      case Ok(Some(receipt)) => Sending(receipt.requestId)))
    case AsideAtStart(_) => s.(receipt := R.Removed(s.receipt, c.ok), gateways := GatewayAt(s, pid, Readying))
    case Sending(pending) =>
      if c.ok then s.(accepted := s.accepted + {pending}, gateways := GatewayAt(s, pid, Finding(pending)))
      else s.(gateways := GatewayAt(s, pid, Readying))
    case Finding(pending) =>
      var ours := R.FindOurs(s.receipt, pending, c.readFails).Ours?;
      s.(gateways := GatewayAt(s, pid, if ours then Removing(pending) else Readying))
    case Removing(_) => s.(receipt := R.Removed(s.receipt, c.ok), gateways := GatewayAt(s, pid, Readying))
    case Readying => s.(gateways := GatewayAt(s, pid, 
      match ReadFile(s.file, c.f.read)
      case Ok(lease) => if lease.phase.WaitingForReady? then Releasing(lease.requestId) else Serving
      case Err(_) => Serving))
    case Releasing(id) => s.(file := ReleaseStep(s.file, id, c.f).0, gateways := GatewayAt(s, pid, Serving))
    case Serving => s.(gateways := GatewayAt(s, pid, 
      if R.ReadReceipt(s.receipt, c.readFails).Err? then AsideAtStop(s.receipt) else Stopped))
    case AsideAtStop(_) => s.(receipt := R.Removed(s.receipt, c.ok), gateways := GatewayAt(s, pid, Stopped))
    case Stopped => s
  }

  function Next(s: System, a: Action): System
    requires Enabled(s, a)
  {
    match a
    case Tick(to) => s.(now := to)
    case Die(pid) => s.(live := s.live - {pid})
    case Boot(pid) => s.(live := s.live + {pid}, born := s.born + {pid}, gateways := s.gateways[pid := Booting])
    case AcquireBy(owner, feishu, oldPid, raw, f) => AcquireNext(s, owner, feishu, oldPid, raw, f)
    case CoordMoves(id, c) => CoordNext(s, id, c)
    case HelperMoves(id, c) => HelperNext(s, id, c)
    case GatewayMoves(pid, c) => GatewayNext(s, pid, c)
  }

  /** Before the first restart: no lease of this version, any receipt. */
  predicate Init(s: System) {
    && s.now > 0
    && s.live <= s.born
    && (s.file == Absent || (s.file.Marker? && Readable(s.file)))
    && s.reqs == map[] && s.gateways == map[] && s.accepted == {}
  }

  datatype Run = Run(states: seq<System>, actions: seq<Action>)

  predicate StepAt(r: Run, i: nat)
    requires i < |r.actions| < |r.states|
  {
    Enabled(r.states[i], r.actions[i]) && r.states[i + 1] == Next(r.states[i], r.actions[i])
  }

  ghost predicate IsRun(r: Run) {
    && |r.states| == |r.actions| + 1
    && Init(r.states[0])
    && forall i :: 0 <= i < |r.actions| ==> StepAt(r, i)
  }
}
