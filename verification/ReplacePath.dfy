/** Replacing a file (or a mirrored package) by rename, with rollback.  Any
    call may fail; a failed rename or remove changes nothing. */
module ReplacePath {
  import opened Wrappers

  datatype Path = Named(name: string) | Temp(n: nat)

  type Content = string

  /** The directory entries, and which of the calls to come fail. */
  class FileSystem {
    var files: map<Path, Content>
    var calls: nat // calls made so far
    var temps: nat // temporary names handed out so far
    const fails: nat -> bool

    ghost predicate Valid()
      reads this
    {
      forall n: nat :: Temp(n) in files ==> n < temps
    }

    constructor (files: map<Path, Content>, temps: nat, fails: nat -> bool)
      requires forall n: nat :: Temp(n) in files ==> n < temps
      ensures Valid() && this.files == files && this.fails == fails && this.temps == temps
    {
      this.files, this.fails, this.calls, this.temps := files, fails, 0, temps;
    }

    method Call() returns (ok: bool)
      modifies this`calls
      ensures calls == old(calls) + 1 && ok == !fails(old(calls))
    {
      ok := !fails(calls);
      calls := calls + 1;
    }

    method Exists(path: Path) returns (r: Result<bool, ()>)
      modifies this`calls
      ensures calls == old(calls) + 1
      ensures r == if fails(old(calls)) then Err(()) else Ok(path in files)
    {
      var ok := Call();
      r := if ok then Ok(path in files) else Err(());
    }

    /** Only ever onto a free name, so that it moves directories as well. */
    method Rename(from: Path, to: Path) returns (ok: bool)
      requires Valid() && from != to && (to.Temp? ==> to.n < temps)
      requires to !in files
      modifies this`calls, this`files
      ensures Valid() && calls == old(calls) + 1
      ensures ok == (!fails(old(calls)) && from in old(files))
      ensures files == if ok then old(files)[to := old(files)[from]] - {from} else old(files)
    {
      ok := Call();
      if from !in files {
        ok := false;
      }
      if ok {
        files := files[to := files[from]] - {from};
      }
    }

    /** os.Remove of a placeholder, or removeIfExists, where a missing path is fine. */
    method Remove(path: Path) returns (ok: bool)
      requires Valid()
      modifies this`calls, this`files
      ensures Valid() && calls == old(calls) + 1 && ok == !fails(old(calls))
      ensures files == if ok then old(files) - {path} else old(files)
    {
      ok := Call();
      if ok {
        files := files - {path};
      }
    }

    /** A sibling name that nobody uses: created, closed and removed again. */
    method SiblingPlaceholder() returns (path: Option<Path>)
      requires Valid()
      modifies this
      ensures Valid() && old(calls) < calls
      ensures path.Some? ==>
                && files == old(files)
                && path.value == Temp(old(temps)) && path.value !in files && old(temps) < temps
      ensures path.None? ==> exists i :: old(calls) <= i < calls && fails(i)
      // A name is left behind only if its own removal failed.
      ensures calls == old(calls) + 1 || calls == old(calls) + 3
      ensures calls == old(calls) + 1 || !fails(calls - 1) ==> files == old(files)
      ensures Extends(old(files), files)
      ensures forall p <- files :: p in old(files) || p == Temp(old(temps))
    {
      var created := Call();
      if !created {
        assert fails(calls - 1);
        return None;
      }
      var placeholder := Temp(temps);
      files, temps := files[placeholder := ""], temps + 1;
      var closed := Call();
      if !closed {
        assert fails(calls - 1);
        var _ := Remove(placeholder);
        return None;
      }
      var removed := Remove(placeholder);
      if !removed {
        assert fails(calls - 1);
        return None;
      }
      path := Some(placeholder);
    }
  }

  /** Every entry of `a` is there in `b`, unchanged. */
  predicate Extends(a: map<Path, Content>, b: map<Path, Content>) {
    forall p <- a :: p in b && b[p] == a[p]
  }

  predicate HoldsAt(files: map<Path, Content>, path: Path, content: Content) {
    path in files && files[path] == content
  }

  /** At most one of the calls `lo`, ..., `hi - 1` failed. */
  ghost predicate AtMostOneFailed(fails: nat -> bool, lo: nat, hi: nat) {
    forall i: nat, j: nat :: lo <= i < j < hi ==> !(fails(i) && fails(j))
  }

  // Puts the backup back after its removal failed.
  method RollbackReplacement(fs: FileSystem, target: Path, backup: Path) returns (ok: bool)
    requires fs.Valid() && target in fs.files && backup in fs.files && target != backup
    modifies fs
    ensures fs.Valid() && old(fs.calls) < fs.calls
    ensures HoldsAt(fs.files, target, old(fs.files)[backup]) || HoldsAt(fs.files, backup, old(fs.files)[backup])
    ensures (forall i: nat :: old(fs.calls) <= i < fs.calls ==> !fs.fails(i)) ==>
              ok && HoldsAt(fs.files, target, old(fs.files)[backup])
    ensures ok ==> fs.files == old(fs.files)[target := old(fs.files)[backup]] - {backup}
    // A single failing call leaves the target with one of the two contents.
    ensures AtMostOneFailed(fs.fails, old(fs.calls), fs.calls) ==>
              || HoldsAt(fs.files, target, old(fs.files)[target])
              || HoldsAt(fs.files, target, old(fs.files)[backup])
    ensures Extends(old(fs.files) - {target, backup}, fs.files)
  {
    assert backup.Temp? ==> backup.n < fs.temps;
    var displaced := fs.SiblingPlaceholder();
    if displaced.None? {
      return false;
    }
    var moved := fs.Rename(target, displaced.value);
    if !moved {
      assert fs.fails(fs.calls - 1);
      return false;
    }
    var restored := fs.Rename(backup, target);
    if !restored {
      assert fs.fails(fs.calls - 1);
      var _ := fs.Rename(displaced.value, target);
      return false;
    }
    ok := fs.Remove(displaced.value);
    if !ok {
      assert fs.fails(fs.calls - 1);
    }
  }

  // With the old content already set aside: promote, or roll back.
  method Promote(fs: FileSystem, staged: Path, target: Path, place: Path) returns (ok: bool)
    requires fs.Valid() && staged != target && place != target && place != staged
    requires target !in fs.files && place in fs.files
    requires (target.Temp? ==> target.n < fs.temps) && (staged.Temp? ==> staged.n < fs.temps)
    modifies fs
    ensures fs.Valid() && old(fs.calls) < fs.calls
    ensures ok ==>
              && staged in old(fs.files)
              && fs.files == old(fs.files)[target := old(fs.files)[staged]] - {staged, place}
    ensures !ok ==> HoldsAt(fs.files, target, old(fs.files)[place]) || HoldsAt(fs.files, place, old(fs.files)[place])
    ensures !ok && staged in old(fs.files) && AtMostOneFailed(fs.fails, old(fs.calls), fs.calls) ==>
              HoldsAt(fs.files, target, old(fs.files)[place])
    ensures staged in old(fs.files) && (forall i: nat :: old(fs.calls) <= i < fs.calls ==> !fs.fails(i)) ==> ok
    ensures Extends(old(fs.files) - {staged, place}, fs.files)
  {
    ghost var before := fs.files;
    ghost var first := fs.calls;
    var promoted := fs.Rename(staged, target);
    if !promoted {
      assert staged in before ==> fs.fails(first);
      var rolledBack := fs.Rename(place, target);
      if !rolledBack {
        assert fs.fails(first + 1);
      }
      return false;
    }
    ok := fs.Remove(place);
    if !ok {
      assert fs.fails(first + 1);
      var _ := RollbackReplacement(fs, target, place);
    }
  }

  /** Moves `staged` over `target`.  `backup` is where the old content was put
      while the new one moved in. */
  method Replace(fs: FileSystem, staged: Path, target: Path) returns (ok: bool, ghost backup: Option<Path>)
    requires fs.Valid() && staged != target
    requires (target.Temp? ==> target.n < fs.temps) && (staged.Temp? ==> staged.n < fs.temps)
    modifies fs
    ensures fs.Valid() && old(fs.calls) < fs.calls
    // Success: the new content, and nothing else, has changed places.
    ensures ok ==>
              && staged in old(fs.files)
              && fs.files == old(fs.files)[target := old(fs.files)[staged]] - {staged}
    // Failure, whatever failed: the old content is whole at one of two places.
    ensures !ok && target in old(fs.files) ==>
              || HoldsAt(fs.files, target, old(fs.files)[target])
              || (backup.Some? && backup.value !in old(fs.files)
                  && HoldsAt(fs.files, backup.value, old(fs.files)[target]))
    ensures !ok && target !in old(fs.files) ==> fs.files == old(fs.files)
    // Failure of a single call: nothing happened to the target.
    ensures !ok && staged in old(fs.files) && target in old(fs.files)
            && AtMostOneFailed(fs.fails, old(fs.calls), fs.calls) ==>
              HoldsAt(fs.files, target, old(fs.files)[target])
    // No call failed: it works.
    ensures staged in old(fs.files) && (forall i: nat :: old(fs.calls) <= i < fs.calls ==> !fs.fails(i)) ==> ok
    // Other entries are never touched.
    ensures Extends(old(fs.files) - {staged, target}, fs.files)
  {
    backup := None;
    ghost var before := fs.files;
    ghost var start := fs.calls;
    var exists_ := fs.Exists(target);
    if exists_.Err? {
      assert fs.fails(fs.calls - 1);
      return false, None;
    }
    if !exists_.value {
      ok := fs.Rename(staged, target);
      assert !ok && staged in before ==> fs.fails(fs.calls - 1);
      return ok, None;
    }
    var place := fs.SiblingPlaceholder();
    if place.None? {
      return false, None;
    }
    backup := place;
    var aside := fs.Rename(target, place.value);
    if !aside {
      assert fs.fails(fs.calls - 1);
      return false, backup;
    }
    ghost var without := fs.files;
    assert without == before[place.value := before[target]] - {target};
    ok := Promote(fs, staged, target, place.value);
    assert Extends(before - {staged, target}, without - {staged, place.value});
    assert ok ==>
        without[target := without[staged]] - {staged, place.value} == before[target := before[staged]] - {staged};
  }

  // Creates, writes, chmods and closes a temporary file; the caller removes it.
  method Stage(fs: FileSystem, data: Content) returns (staged: Option<Path>, complete: bool)
    requires fs.Valid()
    modifies fs
    ensures fs.Valid()
    ensures staged.None? ==> !complete && fs.files == old(fs.files) && fs.temps == old(fs.temps)
    ensures staged.Some? ==>
              && staged.value == Temp(old(fs.temps)) && fs.temps == old(fs.temps) + 1
              && staged.value in fs.files && fs.files - {staged.value} == old(fs.files)
    ensures complete ==> staged.Some? && fs.files[staged.value] == data
    ensures old(fs.calls) <= fs.calls
    ensures (forall i: nat :: old(fs.calls) <= i < fs.calls ==> !fs.fails(i)) ==> complete
  {
    var created := fs.Call();
    if !created {
      return None, false;
    }
    staged := Some(Temp(fs.temps));
    fs.files, fs.temps := fs.files[staged.value := ""], fs.temps + 1;
    var written := fs.Call();
    if !written {
      return staged, false;
    }
    fs.files := fs.files[staged.value := data];
    var chmodded := fs.Call();
    var closed := fs.Call();
    complete := chmodded && closed;
  }

  /** Stages `data` in a temporary file and replaces the target with it.  The
      temporary name is cleaned up at the end, and that too may fail. */
  method WriteAtomic(fs: FileSystem, target: Path, data: Content) returns (ok: bool, ghost backup: Option<Path>)
    requires fs.Valid() && (target.Temp? ==> target.n < fs.temps)
    modifies fs
    ensures fs.Valid()
    ensures ok ==> fs.files == old(fs.files)[target := data]
    ensures !ok && target in old(fs.files) ==>
              || HoldsAt(fs.files, target, old(fs.files)[target])
              || HoldsAt(fs.files, target, data)
              || (backup.Some? && backup.value !in old(fs.files)
                  && HoldsAt(fs.files, backup.value, old(fs.files)[target]))
    ensures !ok && target !in old(fs.files) ==> target !in fs.files || HoldsAt(fs.files, target, data)
    // No call failed: it works.
    ensures (forall i: nat :: old(fs.calls) <= i < fs.calls ==> !fs.fails(i)) ==> ok
    // A failed cleanup is reported; a single failing call leaves no temporary name.
    ensures ok ==> fs.calls > 0 && !fs.fails(fs.calls - 1)
    ensures AtMostOneFailed(fs.fails, old(fs.calls), fs.calls) ==> Temp(old(fs.temps)) !in fs.files
    ensures Extends(old(fs.files) - {target}, fs.files)
  {
    ok, backup := false, None;
    ghost var before := fs.files;
    var staged, complete := Stage(fs, data);
    if staged.None? {
      return false, None;
    }
    assert staged.value !in before;
    ghost var with := fs.files;
    assert Extends(before, with);
    if complete {
      ok, backup := Replace(fs, staged.value, target);
      assert ok ==> fs.files == with[target := data] - {staged.value} == before[target := data];
    }
    ghost var after := fs.files;
    var cleaned := fs.Remove(staged.value);
    assert Extends(after - {staged.value}, fs.files);
    ok := ok && cleaned;
  }
}
