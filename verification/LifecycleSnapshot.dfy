/** The claim-once snapshot of the sessions to tell after a restart.  Saving
    replaces the pending file; claiming renames it aside before reading it.
    The process can die between any two of these operations. */
module LifecycleSnapshot {
  import opened Wrappers

  const VERSION := 1
  const TTL := 24 * 60 * 60 * 1_000_000_000
  const FUTURE_SKEW := 5 * 60 * 1_000_000_000

  datatype Snapshot = Snapshot(version: int, createdAt: int, ids: seq<string>)

  /** What a store is configured with; uuid.Parse decides which IDs are good. */
  datatype Rules = Rules(maxTargets: int, isUuid: string -> bool)

  predicate InWindow(snapshot: Snapshot, now: int) {
    && snapshot.createdAt != 0
    && now - snapshot.createdAt <= TTL
    && snapshot.createdAt - now <= FUTURE_SKEW
  }

  predicate DistinctIds(ids: seq<string>) {
    forall i, j :: 0 <= i < j < |ids| ==> ids[i] != ids[j]
  }

  predicate ValidSnapshot(snapshot: Snapshot, now: int, rules: Rules) {
    && snapshot.version == VERSION
    && 0 < |snapshot.ids| <= rules.maxTargets
    && InWindow(snapshot, now)
    && DistinctIds(snapshot.ids)
    && forall id <- snapshot.ids :: rules.isUuid(id)
  }

  /** A snapshot path: `save` says which Save wrote the content. */
  datatype SnapshotFile = Missing | Written(snapshot: Snapshot, save: nat) | Corrupt

  method Validate(snapshot: Snapshot, now: int, rules: Rules) returns (ok: bool)
    ensures ok == ValidSnapshot(snapshot, now, rules)
  {
    if snapshot.version != VERSION || rules.maxTargets <= 0 || |snapshot.ids| == 0
       || |snapshot.ids| > rules.maxTargets || !InWindow(snapshot, now) {
      return false;
    }
    var seen: set<string> := {};
    for i := 0 to |snapshot.ids|
      invariant seen == set id <- snapshot.ids[..i]
      invariant DistinctIds(snapshot.ids[..i])
      invariant forall id <- snapshot.ids[..i] :: rules.isUuid(id)
    {
      var id := snapshot.ids[i];
      assert snapshot.ids[..i + 1] == snapshot.ids[..i] + [id];
      if !rules.isUuid(id) {
        assert id in snapshot.ids;
        return false;
      }
      if id in seen {
        var j :| 0 <= j < i && snapshot.ids[j] == id;
        return false;
      }
      seen := seen + {id};
    }
    assert snapshot.ids[..|snapshot.ids|] == snapshot.ids;
    ok := true;
  }

  datatype Faults = Faults(removePending: bool, removeClaimed: bool, promote: bool, stat: bool, claim: bool, read: bool)

  /** Both paths, and how many Saves put a snapshot in place so far. */
  datatype Paths = Paths(pending: SnapshotFile, claimed: SnapshotFile, saves: nat)

  function AfterSave(p: Paths, ids: seq<string>, now: int, rules: Rules, f: Faults): (Paths, bool) {
    var snapshot := Snapshot(VERSION, now, ids);
    if ids == [] then
      if f.removePending then (p, false)
      else if f.removeClaimed then (p.(pending := Missing), false)
      else (p.(pending := Missing, claimed := Missing), true)
    else if !ValidSnapshot(snapshot, now, rules) || f.removeClaimed then (p, false)
    else if f.promote then (p.(claimed := Missing), false)
    else (Paths(Written(snapshot, p.saves), Missing, p.saves + 1), true)
  }

  function AfterClaim(p: Paths, now: int, rules: Rules, f: Faults): (Paths, Result<Option<Snapshot>, ()>) {
    if f.stat then (p, Err(()))
    else if p.claimed != Missing || p.pending == Missing then (p, Ok(None))
    else if f.claim then (p, Err(()))
    else
      var moved := p.(pending := Missing, claimed := p.pending);
      if !f.read && p.pending.Written? && ValidSnapshot(p.pending.snapshot, now, rules) then
        (moved, Ok(Some(p.pending.snapshot)))
      else (if f.removeClaimed then moved else moved.(claimed := Missing), Err(()))
  }

  function AfterFinish(p: Paths, hasClaim: bool, f: Faults): (Paths, bool) {
    if !hasClaim then (p, true)
    else if f.removeClaimed then (p, false)
    else (p.(claimed := Missing), true)
  }

  /** When a pending snapshot is handed out, in terms of its fields: at most 24
      hours old and at most five minutes ahead of the clock.  Otherwise it is
      gone without having been returned. */
  lemma ClaimExactly(p: Paths, now: int, rules: Rules, f: Faults)
    requires p.pending.Written? && p.claimed == Missing && !f.stat && !f.claim && !f.read
    ensures var snapshot, (after, r) := p.pending.snapshot, AfterClaim(p, now, rules, f);
            var ids := snapshot.ids;
            && (r == Ok(Some(snapshot)) <==>
                  && snapshot.version == 1
                  && 0 < |ids| <= rules.maxTargets
                  && (forall i, j :: 0 <= i < j < |ids| ==> ids[i] != ids[j])
                  && (forall id <- ids :: rules.isUuid(id))
                  && snapshot.createdAt != 0
                  && now - 86_400_000_000_000 <= snapshot.createdAt <= now + 300_000_000_000)
            && (r != Ok(Some(snapshot)) ==> r == Err(()))
            && after.pending == Missing
  {
  }

  /** When a Save puts a snapshot in place, in the same terms. */
  lemma SaveExactly(p: Paths, ids: seq<string>, now: int, rules: Rules, f: Faults)
    requires ids != []
    ensures var (after, ok) := AfterSave(p, ids, now, rules, f);
            var good := && |ids| <= rules.maxTargets
                        && (forall i, j :: 0 <= i < j < |ids| ==> ids[i] != ids[j])
                        && (forall id <- ids :: rules.isUuid(id))
                        && now != 0;
            && (ok <==> good && !f.removeClaimed && !f.promote)
            && after.pending == (if ok then Written(Snapshot(1, now, ids), p.saves) else p.pending)
            && after.claimed == (if good && !f.removeClaimed then Missing else p.claimed)
  {
  }

  class SnapshotStore {
    const rules: Rules
    var pending: SnapshotFile
    var claimed: SnapshotFile
    var saves: nat

    ghost function Contents(): Paths
      reads this
    {
      Paths(pending, claimed, saves)
    }

    constructor (rules: Rules, pending: SnapshotFile, claimed: SnapshotFile)
      ensures this.rules == rules && Contents() == Paths(pending, claimed, 0)
    {
      this.rules, this.pending, this.claimed, saves := rules, pending, claimed, 0;
    }

    /** Saving nothing clears both files; saving something drops the old claim
        first and then replaces the pending file. */
    method Save(ids: seq<string>, now: int, f: Faults) returns (ok: bool)
      modifies this
      ensures (Contents(), ok) == AfterSave(old(Contents()), ids, now, rules, f)
      ensures ok <==>
                if ids == [] then !f.removePending && !f.removeClaimed
                else ValidSnapshot(Snapshot(VERSION, now, ids), now, rules) && !f.removeClaimed && !f.promote
      ensures ok ==> claimed == Missing
      ensures ok && ids != [] ==> pending.Written? && pending.snapshot.ids == ids && pending.snapshot.createdAt == now
      ensures !ok && ids != [] ==> pending == old(pending)
    {
      if ids == [] {
        if f.removePending {
          return false;
        }
        pending := Missing;
        if f.removeClaimed {
          return false;
        }
        claimed := Missing;
        return true;
      }
      var snapshot := Snapshot(VERSION, now, ids);
      var valid := Validate(snapshot, now, rules);
      if !valid || f.removeClaimed {
        return false;
      }
      claimed := Missing;
      if f.promote {
        return false;
      }
      pending, saves := Written(snapshot, saves), saves + 1;
      ok := true;
    }

    /** Yields the pending snapshot at most once: whatever happens, it is no
        longer pending when it is returned, and nothing is returned while a
        claim is outstanding. */
    method Claim(now: int, f: Faults) returns (r: Result<Option<Snapshot>, ()>)
      modifies this`pending, this`claimed
      ensures (Contents(), r) == AfterClaim(old(Contents()), now, rules, f)
      ensures r.Ok? && r.value.Some? ==>
                && old(claimed) == Missing && old(pending).Written?
                && r.value.value == old(pending).snapshot
                && ValidSnapshot(r.value.value, now, rules)
                && pending == Missing && claimed == old(pending)
      ensures old(claimed) != Missing ==> !(r.Ok? && r.value.Some?) && Contents() == old(Contents())
      ensures pending == old(pending) || pending == Missing
    {
      if f.stat {
        return Err(());
      }
      if claimed != Missing {
        return Ok(None);
      }
      if pending == Missing {
        return Ok(None);
      }
      if f.claim {
        return Err(());
      }
      claimed, pending := pending, Missing;
      if !f.read && claimed.Written? {
        var valid := Validate(claimed.snapshot, now, rules);
        if valid {
          return Ok(Some(claimed.snapshot));
        }
      }
      if !f.removeClaimed {
        claimed := Missing;
      }
      r := Err(());
    }

    method CompleteClaim(hasClaim: bool, f: Faults) returns (ok: bool)
      modifies this`claimed
      ensures (Contents(), ok) == AfterFinish(old(Contents()), hasClaim, f)
    {
      if !hasClaim {
        return true;
      }
      if f.removeClaimed {
        return false;
      }
      claimed := Missing;
      ok := true;
    }
  }

  // Every sequence of operations, with crashes inside them

  datatype Stage =
    | AtRest
    | Clearing                      // Save of nothing: pending gone, claim to go
    | Promoting(snapshot: Snapshot) // Save: claim gone, new file to be renamed in
    | Reading                       // Claim: renamed aside, to be read

  datatype Return = Return(snapshot: Snapshot, save: nat, at: int)

  datatype Disk = Disk(
    pending: SnapshotFile,
    claimed: SnapshotFile,
    stage: Stage,
    now: int,
    written: seq<Snapshot>, // history: what each Save put in place
    returned: seq<Return>)  // history: what each Claim yielded

  datatype Action =
    | Tick(to: int)
    | Crash
    | BeginSave(ids: seq<string>, ok: bool)
    | EndSave(ok: bool)
    | BeginClaim(ok: bool)
    | EndClaim(readFails: bool, ok: bool)
    | FinishClaim(ok: bool)

  predicate Enabled(d: Disk, a: Action) {
    match a
    case Tick(_) => true
    case Crash => true
    case BeginSave(_, _) => d.stage.AtRest?
    case EndSave(_) => d.stage.Clearing? || d.stage.Promoting?
    case BeginClaim(_) => d.stage.AtRest?
    case EndClaim(_, _) => d.stage.Reading?
    case FinishClaim(_) => d.stage.AtRest?
  }

  function Next(d: Disk, a: Action, rules: Rules): Disk
    requires Enabled(d, a)
  {
    match a
    case Tick(to) => d.(now := to)
    case Crash => d.(stage := AtRest)
    case BeginSave(ids, ok) =>
      var snapshot := Snapshot(VERSION, d.now, ids);
      if ids == [] then if ok then d.(pending := Missing, stage := Clearing) else d
      else if ValidSnapshot(snapshot, d.now, rules) && ok then d.(claimed := Missing, stage := Promoting(snapshot))
      else d
    case EndSave(ok) =>
      if !ok then d.(stage := AtRest)
      else if d.stage.Clearing? then d.(claimed := Missing, stage := AtRest)
      else d.(pending := Written(d.stage.snapshot, |d.written|), written := d.written + [d.stage.snapshot],
              stage := AtRest)
    case BeginClaim(ok) =>
      if ok && d.claimed == Missing && d.pending != Missing then
        d.(claimed := d.pending, pending := Missing, stage := Reading)
      else d
    case EndClaim(readFails, ok) =>
      if !readFails && d.claimed.Written? && ValidSnapshot(d.claimed.snapshot, d.now, rules) then
        d.(returned := d.returned + [Return(d.claimed.snapshot, d.claimed.save, d.now)], stage := AtRest)
      else d.(claimed := if ok then Missing else d.claimed, stage := AtRest)
    case FinishClaim(ok) => d.(claimed := if ok then Missing else d.claimed)
  }

  // The store's operations, when nothing comes in between

  function PathsOf(d: Disk): Paths {
    Paths(d.pending, d.claimed, |d.written|)
  }

  function Saved(d: Disk, ids: seq<string>, f: Faults, rules: Rules): Disk
    requires d.stage.AtRest?
  {
    var begun := Next(d, BeginSave(ids, if ids == [] then !f.removePending else !f.removeClaimed), rules);
    if begun.stage.AtRest? then begun
    else Next(begun, EndSave(if ids == [] then !f.removeClaimed else !f.promote), rules)
  }

  function Claimed(d: Disk, f: Faults, rules: Rules): Disk
    requires d.stage.AtRest?
  {
    var begun := Next(d, BeginClaim(!f.stat && !f.claim), rules);
    if begun.stage.AtRest? then begun else Next(begun, EndClaim(f.read, !f.removeClaimed), rules)
  }

  /** Run to the end without a crash, the steps are what the store's methods
      compute, and what Claim returns is what the history gains. */
  lemma StepsAreOperations(d: Disk, ids: seq<string>, f: Faults, rules: Rules)
    requires d.stage.AtRest?
    ensures Saved(d, ids, f, rules).stage.AtRest? && Claimed(d, f, rules).stage.AtRest?
    ensures PathsOf(Saved(d, ids, f, rules)) == AfterSave(PathsOf(d), ids, d.now, rules, f).0
    ensures Saved(d, ids, f, rules).returned == d.returned
    ensures PathsOf(Claimed(d, f, rules)) == AfterClaim(PathsOf(d), d.now, rules, f).0
    ensures Claimed(d, f, rules).returned == d.returned +
              match AfterClaim(PathsOf(d), d.now, rules, f).1
              case Ok(Some(snapshot)) => [Return(snapshot, d.pending.save, d.now)]
              case _ => []
    ensures PathsOf(Next(d, FinishClaim(!f.removeClaimed), rules)) == AfterFinish(PathsOf(d), true, f).0
  {
  }

  predicate Init(d: Disk) {
    && !d.pending.Written? && !d.claimed.Written?
    && d.stage.AtRest? && d.written == [] && d.returned == []
  }

  predicate FromSave(d: Disk, snapshot: Snapshot, save: nat) {
    save < |d.written| && d.written[save] == snapshot
  }

  predicate NotReturned(d: Disk, save: nat) {
    forall r <- d.returned :: r.save != save
  }

  predicate Inv(d: Disk, rules: Rules) {
    && (d.pending.Written? ==> FromSave(d, d.pending.snapshot, d.pending.save) && NotReturned(d, d.pending.save))
    && (d.claimed.Written? ==> FromSave(d, d.claimed.snapshot, d.claimed.save))
    && (d.stage.Reading? && d.claimed.Written? ==> NotReturned(d, d.claimed.save))
    && (d.pending.Written? && d.claimed.Written? ==> d.pending.save != d.claimed.save)
    && (forall i, j :: 0 <= i < j < |d.returned| ==> d.returned[i].save != d.returned[j].save)
    && (forall r <- d.returned :: FromSave(d, r.snapshot, r.save) && ValidSnapshot(r.snapshot, r.at, rules))
  }

  lemma SaveKeepsInv(d: Disk, ok: bool, rules: Rules)
    requires Inv(d, rules) && Enabled(d, EndSave(ok))
    ensures Inv(Next(d, EndSave(ok), rules), rules)
  {
  }

  lemma ClaimKeepsInv(d: Disk, readFails: bool, ok: bool, rules: Rules)
    requires Inv(d, rules) && Enabled(d, EndClaim(readFails, ok))
    ensures Inv(Next(d, EndClaim(readFails, ok), rules), rules)
  {
  }

  lemma StepKeepsInv(d: Disk, a: Action, rules: Rules)
    requires Inv(d, rules) && Enabled(d, a)
    ensures Inv(Next(d, a, rules), rules)
  {
    if a.EndSave? {
      SaveKeepsInv(d, a.ok, rules);
    } else if a.EndClaim? {
      ClaimKeepsInv(d, a.readFails, a.ok, rules);
    }
  }

  datatype Run = Run(states: seq<Disk>, actions: seq<Action>)

  predicate StepAt(r: Run, i: nat, rules: Rules)
    requires i < |r.actions| < |r.states|
  {
    Enabled(r.states[i], r.actions[i]) && r.states[i + 1] == Next(r.states[i], r.actions[i], rules)
  }

  ghost predicate IsRun(r: Run, rules: Rules) {
    && |r.states| == |r.actions| + 1
    && Init(r.states[0])
    && forall i :: 0 <= i < |r.actions| ==> StepAt(r, i, rules)
  }

  /** Over every sequence of operations and crashes, what one Save wrote is
      returned by at most one Claim, unchanged, and only while it is valid: its
      IDs distinct, at most maxTargets of them, its age inside the window. */
  lemma {:induction false} AtMostOnce(r: Run, i: nat, rules: Rules)
    requires IsRun(r, rules) && i < |r.states|
    ensures Inv(r.states[i], rules)
    ensures var d := r.states[i];
            && (forall j, k :: 0 <= j < k < |d.returned| ==> d.returned[j].save != d.returned[k].save)
            && (forall x <- d.returned ::
                  && x.save < |d.written| && d.written[x.save] == x.snapshot
                  && DistinctIds(x.snapshot.ids) && |x.snapshot.ids| <= rules.maxTargets
                  && InWindow(x.snapshot, x.at))
  {
    if i > 0 {
      AtMostOnce(r, i - 1, rules);
      assert StepAt(r, i - 1, rules);
      StepKeepsInv(r.states[i - 1], r.actions[i - 1], rules);
    }
  }

  /** A crash between claiming and finishing leaves the claim in place.  From
      then on, however often it crashes again, no Claim returns anything until a
      Save or FinishClaim comes. */
  lemma {:induction false} InterruptedClaimBlocks(r: Run, i: nat, j: nat, rules: Rules)
    requires IsRun(r, rules) && i <= j < |r.states|
    requires r.states[i].stage.AtRest? && r.states[i].claimed != Missing
    requires forall k :: i <= k < j ==> !r.actions[k].BeginSave? && !r.actions[k].FinishClaim?
    ensures r.states[j].returned == r.states[i].returned
    ensures PathsOf(r.states[j]) == PathsOf(r.states[i]) && r.states[j].stage.AtRest?
    decreases j - i
  {
    if i < j {
      InterruptedClaimBlocks(r, i, j - 1, rules);
      assert StepAt(r, j - 1, rules);
    }
  }

  // Runs that show what is not promised

  lemma Then(r: Run, a: Action, rules: Rules) returns (q: Run)
    requires IsRun(r, rules) && Enabled(r.states[|r.actions|], a)
    ensures q == Run(r.states + [Next(r.states[|r.actions|], a, rules)], r.actions + [a]) && IsRun(q, rules)
  {
    q := Run(r.states + [Next(r.states[|r.actions|], a, rules)], r.actions + [a]);
    forall i | 0 <= i < |q.actions| ensures StepAt(q, i, rules) {
      assert i < |r.actions| ==> StepAt(r, i, rules);
    }
  }

  // A snapshot saved at time 1 is pending.
  lemma SavedOnce(id: string, rules: Rules) returns (r: Run)
    requires rules.isUuid(id) && rules.maxTargets >= 1
    ensures IsRun(r, rules) && |r.actions| == 2
    ensures var snapshot := Snapshot(1, 1, [id]);
            r.states[2] == Disk(Written(snapshot, 0), Missing, AtRest, 1, [snapshot], [])
  {
    r := Run([Disk(Missing, Missing, AtRest, 1, [], [])], []);
    r := Then(r, BeginSave([id], true), rules);
    r := Then(r, EndSave(true), rules);
  }

  /** At most once is not at least once: a crash between claiming and reading
      loses a valid snapshot, although every call works. */
  lemma CrashLosesSnapshot(id: string, rules: Rules) returns (r: Run)
    requires rules.isUuid(id) && rules.maxTargets >= 1
    ensures IsRun(r, rules)
    ensures var d := r.states[|r.actions|];
            d.returned == [] && |d.written| == 1 && d.pending == Missing && d.claimed.Written? && d.stage.AtRest?
  {
    r := SavedOnce(id, rules);
    r := Then(r, BeginClaim(true), rules);
    r := Then(r, Crash, rules);
  }

  /** And so does a restart that comes more than a day later. */
  lemma SnapshotExpires(id: string, later: int, rules: Rules) returns (r: Run)
    requires rules.isUuid(id) && rules.maxTargets >= 1 && later > 1 + 86_400_000_000_000
    ensures IsRun(r, rules)
    ensures var d := r.states[|r.actions|];
            d.returned == [] && |d.written| == 1 && d.pending == Missing && d.claimed == Missing
  {
    r := SavedOnce(id, rules);
    r := Then(r, Tick(later), rules);
    r := Then(r, BeginClaim(true), rules);
    r := Then(r, EndClaim(false, true), rules);
  }
}
