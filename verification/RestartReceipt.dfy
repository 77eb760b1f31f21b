/** The restart receipt: who asked for the restart and where the "started"
    message has to go.  It outlives the lease. */
module RestartReceipt {
  import opened Wrappers
  import Lease = RestartLease

  type RequestId = Lease.RequestId

  const SCHEMA_VERSION := 1

  datatype Receipt = Receipt(
    schemaVersion: int,
    requestId: RequestId,
    platform: string,
    actor: string,
    botName: string,
    platformKey: map<string, string>,
    requestedAt: int, // 0 is IsZero
    oldVersion: string,
    oldPid: int)

  /** What the receipt path holds, after JSON decoding. */
  datatype ReceiptFile =
    | Missing
    | Stored(receipt: Receipt)
    | Undecodable

  datatype ReceiptError = Exists | Mismatch | Invalid | Corrupt | IoFailed

  predicate ValidReceipt(receipt: Receipt) {
    && receipt.schemaVersion == SCHEMA_VERSION
    && Lease.ValidRequestId(receipt.requestId)
    && receipt.platform != ""
    && receipt.requestedAt != 0
    && receipt.oldPid > 0
  }

  predicate IsFor(file: ReceiptFile, id: RequestId) {
    file.Stored? && file.receipt.requestId == id
  }

  function ReadReceipt(file: ReceiptFile, readFails: bool): Result<Option<Receipt>, ReceiptError> {
    if readFails then Err(IoFailed)
    else match file
      case Missing => Ok(None)
      case Undecodable => Err(Corrupt)
      case Stored(receipt) => if ValidReceipt(receipt) then Ok(Some(receipt)) else Err(Invalid)
  }

  /** Completing is a read that decides, and then a remove; nothing locks the
      file in between. */
  datatype Finding = NothingThere | Ours | NotCompletable(error: ReceiptError)

  function FindOurs(file: ReceiptFile, id: RequestId, readFails: bool): Finding {
    match ReadReceipt(file, readFails)
    case Err(e) => NotCompletable(e)
    case Ok(None) => NothingThere
    case Ok(Some(receipt)) =>
      if receipt.requestId != id || id == "" then NotCompletable(Mismatch) else Ours
  }

  function Removed(file: ReceiptFile, succeeds: bool): ReceiptFile {
    if succeeds then Missing else file
  }

  function WithDefaultVersion(receipt: Receipt): Receipt {
    if receipt.schemaVersion == 0 then receipt.(schemaVersion := SCHEMA_VERSION) else receipt
  }

  datatype Faults = Faults(stat: bool, read: bool, publish: bool, remove: bool, rename: bool)

  const NO_FAULTS := Faults(false, false, false, false, false)

  // What one operation does to the file, and what it reports

  function AfterWrite(file: ReceiptFile, receipt: Receipt, f: Faults): (ReceiptFile, Option<ReceiptError>) {
    if f.stat then (file, Some(IoFailed))
    else if file != Missing then (file, Some(Exists))
    else if !ValidReceipt(WithDefaultVersion(receipt)) then (file, Some(Invalid))
    else if f.publish then (file, Some(IoFailed))
    else (Stored(WithDefaultVersion(receipt)), None)
  }

  function AfterComplete(file: ReceiptFile, id: RequestId, f: Faults): (ReceiptFile, Option<ReceiptError>) {
    match FindOurs(file, id, f.read)
    case NothingThere => (file, None)
    case Ours => (Removed(file, !f.remove), if f.remove then Some(IoFailed) else None)
    case NotCompletable(e) => (file, Some(e))
  }

  function AfterQuarantine(file: ReceiptFile, f: Faults): ReceiptFile {
    Removed(file, !f.stat && !f.rename)
  }

  /** What readers accept, field by field. */
  lemma ReadExactly(file: ReceiptFile, readFails: bool)
    ensures ReadReceipt(file, readFails) == Ok(None) <==> !readFails && file == Missing
    ensures forall receipt :: ReadReceipt(file, readFails) == Ok(Some(receipt)) <==>
              && !readFails && file == Stored(receipt)
              && receipt.schemaVersion == 1
              && Lease.ValidRequestId(receipt.requestId)
              && receipt.platform != "" && receipt.requestedAt != 0 && receipt.oldPid > 0
  {
  }

  class ReceiptStore {
    var file: ReceiptFile
    var quarantined: seq<ReceiptFile>

    constructor (initial: ReceiptFile)
      ensures file == initial && quarantined == []
    {
      file, quarantined := initial, [];
    }

    /** Publishes a receipt and never replaces one. */
    method Write(receipt: Receipt, f: Faults) returns (err: Option<ReceiptError>)
      modifies this`file
      ensures (file, err) == AfterWrite(old(file), receipt, f)
      ensures err.None? <==>
                && old(file) == Missing
                && !f.stat && !f.publish
                && (receipt.schemaVersion == 0 || receipt.schemaVersion == 1)
                && Lease.ValidRequestId(receipt.requestId)
                && receipt.platform != "" && receipt.requestedAt != 0 && receipt.oldPid > 0
      ensures file == if err.None? then Stored(receipt.(schemaVersion := 1)) else old(file)
      ensures !f.stat && old(file) != Missing ==> err == Some(Exists)
    {
      if f.stat {
        return Some(IoFailed);
      }
      if file != Missing {
        return Some(Exists);
      }
      var candidate := WithDefaultVersion(receipt);
      if !ValidReceipt(candidate) {
        return Some(Invalid);
      }
      if f.publish {
        return Some(IoFailed);
      }
      file := Stored(candidate);
      err := None;
    }

    method Read(readFails: bool) returns (r: Result<Option<Receipt>, ReceiptError>)
      ensures r == ReadReceipt(file, readFails)
    {
      r := ReadReceipt(file, readFails);
    }

    /** Removes exactly the receipt of `id`, and reports success only if no
        receipt of `id` is left. */
    method Complete(id: RequestId, f: Faults) returns (err: Option<ReceiptError>)
      modifies this`file
      ensures (file, err) == AfterComplete(old(file), id, f)
      ensures err.None? <==>
                && !f.read
                && (old(file) == Missing
                    || (IsFor(old(file), id) && ValidReceipt(old(file).receipt) && !f.remove))
      ensures file == if err.None? then Missing else old(file)
      ensures file != old(file) ==> IsFor(old(file), id)
    {
      var found := Read(f.read);
      if found.Err? {
        return Some(found.error);
      }
      if found.value.None? {
        return None;
      }
      if found.value.value.requestId != id || id == "" {
        return Some(Mismatch);
      }
      if f.remove {
        return Some(IoFailed);
      }
      file := Missing;
      err := None;
    }

    /** Moves whatever is at the path aside, keeping its content. */
    method Quarantine(f: Faults) returns (moved: Result<bool, ReceiptError>)
      modifies this
      ensures file == AfterQuarantine(old(file), f)
      ensures moved.Ok? && moved.value ==>
                old(file) != Missing && file == Missing && quarantined == old(quarantined) + [old(file)]
      ensures moved != Ok(true) ==> file == old(file) && quarantined == old(quarantined)
      ensures !f.stat && !f.rename ==> moved == Ok(old(file) != Missing)
      ensures f.stat || f.rename ==> moved != Ok(true)
    {
      if f.stat {
        return Err(IoFailed);
      }
      if file == Missing {
        return Ok(false);
      }
      if f.rename {
        return Err(IoFailed);
      }
      file, quarantined := Missing, quarantined + [file];
      moved := Ok(true);
    }
  }
}
