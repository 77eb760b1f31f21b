/** The two lifecycle broadcasts: which targets go to the pool, which counts come
    back, and when the restart receipt is completed. */
module LifecycleBroadcast {
  import opened Wrappers
  import opened LifecycleTargets
  import R = RestartReceipt

  datatype Summary = Summary(targets: int, sent: int, failed: int)

  /** What the counting loop's select yields next. */
  datatype Arrival = Delivered | Failed | DeadlinePassed

  /** The results among the first `count` that report success before the
      deadline. */
  function Timely(count: nat, arrivals: nat -> Arrival): set<nat> {
    set i: nat | i < count && arrivals(i) == Delivered && forall j: nat :: j < i ==> arrivals(j) != DeadlinePassed
  }

  /** The counting loop of broadcast, over `count` targets: everything that did
      not succeed before the deadline has failed. */
  method Count(count: nat, arrivals: nat -> Arrival, summary: Summary) returns (s: Summary)
    ensures s.targets == summary.targets
    ensures s.sent == summary.sent + |Timely(count, arrivals)|
    ensures s.sent + s.failed == summary.sent + summary.failed + count
  {
    s := summary;
    var pending := count;
    while pending > 0
      invariant 0 <= pending <= count
      invariant s.targets == summary.targets
      invariant s.sent == summary.sent + |Timely(count - pending, arrivals)|
      invariant s.sent + s.failed + pending == summary.sent + summary.failed + count
      invariant forall j: nat :: j < count - pending ==> arrivals(j) != DeadlinePassed
    {
      ghost var i := count - pending;
      match arrivals(count - pending) {
        case Delivered =>
          assert Timely(i + 1, arrivals) == Timely(i, arrivals) + {i};
          s := s.(sent := s.sent + 1);
        case Failed =>
          assert Timely(i + 1, arrivals) == Timely(i, arrivals);
          s := s.(failed := s.failed + 1);
        case DeadlinePassed =>
          assert Timely(count, arrivals) == Timely(i, arrivals);
          s := s.(failed := s.failed + pending);
          return;
      }
      pending := pending - 1;
    }
  }

  function ReceiptTarget(receipt: R.Receipt): Target {
    Target(RESTART_PREFIX + receipt.requestId, receipt.platform, receipt.botName, "", receipt.platformKey)
  }

  /** A receipt is sent on the route of a session of the same place. */
  lemma ReceiptRoute(receipt: R.Receipt, t: Target)
    requires t.id != "" && t.platform == receipt.platform && t.platformKey == receipt.platformKey
    requires t.botName == receipt.botName && (t.botName == "" ==> t.botId == "")
    ensures Key(ReceiptTarget(receipt)) == Key(t)
    ensures ReceiptTarget(receipt).id == "restart:" + receipt.requestId && MergeKey(ReceiptTarget(receipt)).Some?
  {
  }

  const MAX_ATTEMPTS := 3

  /** One of the attempts is accepted, and the deadline had not passed by then. */
  ghost predicate SomeAttemptWorks(expired: nat -> bool, accepts: nat -> bool) {
    exists k: nat :: k < 3 && accepts(k) && forall j: nat :: j <= k ==> !expired(j)
  }

  /** Up to three sends of the started message, while the deadline lasts. */
  method SendStarted(receipt: R.Receipt, senderFound: bool, expired: nat -> bool, accepts: nat -> bool)
    returns (accepted: bool)
    ensures accepted <==> Key(ReceiptTarget(receipt)).Some? && senderFound && SomeAttemptWorks(expired, accepts)
  {
    if Key(ReceiptTarget(receipt)).None? || !senderFound {
      return false;
    }
    for attempt := 0 to MAX_ATTEMPTS
      invariant forall j: nat :: j < attempt ==> !expired(j) && !accepts(j)
    {
      if expired(attempt) {
        return false;
      }
      if accepts(attempt) {
        return true;
      }
    }
    accepted := false;
  }

  /** The pending receipt, if it is readable. */
  function Pending(file: R.ReceiptFile, readFails: bool): Option<R.Receipt> {
    match R.ReadReceipt(file, readFails)
    case Ok(receipt) => receipt
    case Err(_) => None
  }

  /** What the receipt path holds after the broadcasts. */
  function AfterStop(file: R.ReceiptFile, f: R.Faults): R.ReceiptFile {
    if R.ReadReceipt(file, f.read).Err? then R.AfterQuarantine(file, f) else file
  }

  /** What an unreadable file is kept as. */
  function SetAside(file: R.ReceiptFile, f: R.Faults): seq<R.ReceiptFile> {
    if R.ReadReceipt(file, f.read).Err? && file != R.Missing && !f.stat && !f.rename then [file] else []
  }

  function AfterStart(file: R.ReceiptFile, f: R.Faults, delivered: bool): R.ReceiptFile {
    if Pending(file, f.read).Some? && delivered && !f.remove then R.Missing else AfterStop(file, f)
  }

  // The receipt that is there, or nothing once an unreadable one is set aside.
  method ReadRestartReceipt(receipts: R.ReceiptStore, f: R.Faults) returns (receipt: Option<R.Receipt>)
    modifies receipts
    ensures receipt == Pending(old(receipts.file), f.read)
    ensures receipt.Some? ==>
              receipts.file == old(receipts.file) == R.Stored(receipt.value) && R.ValidReceipt(receipt.value)
    ensures receipts.file == AfterStop(old(receipts.file), f)
    ensures receipts.quarantined == old(receipts.quarantined) + SetAside(old(receipts.file), f)
  {
    var r := receipts.Read(f.read);
    if r.Ok? {
      return r.value;
    }
    var moved := receipts.Quarantine(f);
    receipt := None;
  }

  /** These targets and the active sessions are told, once a route, and nobody
      else; of one route the first target counts. */
  ghost predicate Tells(pool: seq<Target>, first: seq<Target>, active: seq<Target>) {
    && DistinctKeys(MergeKey, pool)
    && pool == Firsts(MergeKey, first + Firsts(Key, active))
    && KeySet(MergeKey, pool) == KeySet(MergeKey, first) + KeySet(Key, active)
    && forall t <- pool :: t in first || t in active
  }

  // The active sessions, behind a first group.
  method Select(first: seq<Option<Target>>, sessions: Option<seq<Option<Target>>>, hasActive: string -> bool)
    returns (pool: seq<Target>, targets: seq<Target>)
    ensures var active := if sessions.Some? then Active(sessions.value, hasActive) else [];
            targets == Firsts(Key, active) && Tells(pool, Present(first), active)
  {
    targets := [];
    if sessions.Some? {
      targets := Collect(sessions.value, hasActive);
    }
    pool := Merge([first, Wrapped(targets)]);
    Merged(first, if sessions.Some? then Active(sessions.value, hasActive) else []);
  }

  /** Before shutdown: the receipt's own route first, or the configured ones. */
  method BroadcastStopping(
      receipts: R.ReceiptStore, f: R.Faults,
      sessions: Option<seq<Option<Target>>>, hasActive: string -> bool,
      configured: seq<Option<Target>>, arrivals: nat -> Arrival)
    returns (summary: Summary, pool: seq<Target>, saved: Option<seq<string>>)
    modifies receipts
    ensures summary.targets == |pool| && summary.sent == |Timely(|pool|, arrivals)|
    ensures summary.sent + summary.failed == summary.targets
    ensures var receipt := Pending(old(receipts.file), f.read);
            var active := if sessions.Some? then Active(sessions.value, hasActive) else [];
            Tells(pool, if receipt.Some? then [ReceiptTarget(receipt.value)] else Present(configured), active)
    ensures saved.Some? <==> sessions.Some?
    ensures sessions.Some? ==>
              var kept := Firsts(Key, Active(sessions.value, hasActive));
              |saved.value| == |kept| && forall i :: 0 <= i < |kept| ==> saved.value[i] == kept[i].id
    ensures receipts.file == AfterStop(old(receipts.file), f)
    ensures receipts.quarantined == old(receipts.quarantined) + SetAside(old(receipts.file), f)
  {
    var receipt := ReadRestartReceipt(receipts, f);
    var first := configured;
    if receipt.Some? {
      first := [Some(ReceiptTarget(receipt.value))];
      PresentOne(ReceiptTarget(receipt.value));
    }
    var targets;
    pool, targets := Select(first, sessions, hasActive);
    saved := if sessions.Some? then Some(Ids(targets)) else None;
    summary := Count(|pool|, arrivals, Summary(|pool|, 0, 0));
  }

  function Ids(targets: seq<Target>): seq<string> {
    seq(|targets|, i requires 0 <= i < |targets| => targets[i].id)
  }

  function Wrapped(targets: seq<Target>): (w: seq<Option<Target>>)
    ensures |w| == |targets|
  {
    seq(|targets|, i requires 0 <= i < |targets| => Some(targets[i]))
  }

  lemma {:induction false} PresentWrapped(targets: seq<Target>)
    ensures Present(Wrapped(targets)) == targets
  {
    if targets != [] {
      var front := targets[..|targets| - 1];
      PresentWrapped(front);
      assert Wrapped(targets)[..|targets| - 1] == Wrapped(front);
      assert front + [targets[|targets| - 1]] == targets;
    }
  }

  lemma FlattenTwo(a: seq<Option<Target>>, b: seq<Target>)
    ensures Flatten([a, Wrapped(b)]) == Present(a) + b
  {
    PresentWrapped(b);
    assert [a, Wrapped(b)][..1] == [a] && [a][..0] == [];
    assert Flatten([a]) == Flatten([]) + Present(a) == Present(a);
  }

  lemma PresentOne(t: Target)
    ensures Present([Some(t)]) == [t]
  {
    assert [Some(t)][..0] == [];
    assert Present([]) + [t] == [t];
  }

  // Where every target has a route, both keys agree.
  lemma RoutedKeys(targets: seq<Target>)
    requires forall t <- targets :: Key(t).Some?
    ensures KeySet(MergeKey, targets) == KeySet(Key, targets)
  {
  }

  lemma {:induction false} FirstsAreMembers(key: Keyed, targets: seq<Target>)
    ensures forall t <- Firsts(key, targets) :: t in targets
  {
    if targets != [] {
      FirstsAreMembers(key, targets[..|targets| - 1]);
    }
  }

  // Merging the collected sessions into a first group.
  lemma Merged(a: seq<Option<Target>>, sessions: seq<Target>)
    ensures var merged := Firsts(MergeKey, Flatten([a, Wrapped(Firsts(Key, sessions))]));
            && Tells(merged, Present(a), sessions)
            && (forall t <- merged :: t in Present(a) || (t in sessions && Key(t).Some?))
  {
    var b := Firsts(Key, sessions);
    FlattenTwo(a, b);
    FirstsKeys(MergeKey, Present(a) + b);
    FirstsDistinct(MergeKey, Present(a) + b);
    FirstsAreMembers(MergeKey, Present(a) + b);
    FirstsKeys(Key, sessions);
    FirstsAreMembers(Key, sessions);
    RoutedKeys(b);
    KeySetConcat(MergeKey, Present(a), b);
  }

  lemma KeySetConcat(key: Keyed, a: seq<Target>, b: seq<Target>)
    ensures KeySet(key, a + b) == KeySet(key, a) + KeySet(key, b)
  {
    assert forall t <- a :: t in a + b;
    assert forall t <- b :: t in a + b;
  }

  /** The sessions of these IDs that are still known. */
  function Found(ids: seq<string>, find: string -> Option<Target>): (found: seq<Target>)
    ensures |found| <= |ids|
  {
    if ids == [] then []
    else
      Found(ids[..|ids| - 1], find) +
      match find(ids[|ids| - 1]) case None => [] case Some(t) => [t]
  }

  lemma {:induction false} FoundAreAll(ids: seq<string>, find: string -> Option<Target>, t: Target)
    ensures t in Found(ids, find) <==> exists id <- ids :: find(id) == Some(t)
  {
    if ids != [] {
      var front, last := ids[..|ids| - 1], ids[|ids| - 1];
      FoundAreAll(front, find, t);
      assert ids == front + [last];
    }
  }

  /** The sessions of the snapshot that can still be found; the rest have failed. */
  method Restore(ids: seq<string>, find: string -> Option<Target>, summary: Summary)
    returns (restored: seq<Option<Target>>, s: Summary)
    ensures restored == Wrapped(Found(ids, find))
    ensures s == summary.(failed := summary.failed + |ids| - |Found(ids, find)|)
  {
    restored, s := [], summary;
    for i := 0 to |ids|
      invariant restored == Wrapped(Found(ids[..i], find))
      invariant s == summary.(failed := summary.failed + i - |Found(ids[..i], find)|)
    {
      assert ids[..i + 1][..i] == ids[..i];
      var found := find(ids[i]);
      if found.None? {
        s := s.(failed := s.failed + 1);
      } else {
        restored := restored + [found];
      }
    }
    assert ids[..|ids|] == ids;
  }

  lemma {:induction false} AllActive(targets: seq<Target>)
    ensures Active(Wrapped(targets), _ => true) == targets
  {
    if targets != [] {
      var front := targets[..|targets| - 1];
      AllActive(front);
      assert Wrapped(targets)[..|targets| - 1] == Wrapped(front);
      assert front + [targets[|targets| - 1]] == targets;
    }
  }

  /** The targets other than the one on the explicit route. */
  method Remaining(targets: seq<Target>, key: string) returns (remaining: seq<Target>)
    requires DistinctKeys(MergeKey, targets)
    requires exists t <- targets :: Key(t) == Some(key)
    ensures |remaining| == |targets| - 1
    ensures DistinctKeys(MergeKey, remaining)
    ensures forall t :: t in remaining <==> t in targets && Key(t) != Some(key)
    ensures KeySet(MergeKey, remaining) == KeySet(MergeKey, targets) - {key}
  {
    remaining := [];
    var dropped := 0;
    for i := 0 to |targets|
      invariant |remaining| + dropped == i
      invariant forall t :: t in remaining <==> t in targets[..i] && Key(t) != Some(key)
      invariant DistinctKeys(MergeKey, remaining)
      invariant dropped == (if exists t <- targets[..i] :: Key(t) == Some(key) then 1 else 0)
    {
      ghost var before := targets[..i];
      assert targets[..i + 1] == before + [targets[i]];
      assert forall t <- before :: MergeKey(t) != MergeKey(targets[i]);
      if Key(targets[i]) == Some(key) {
        dropped := dropped + 1;
      } else {
        remaining := remaining + [targets[i]];
      }
    }
    assert targets[..|targets|] == targets;
    OneDropped(targets, remaining, key);
  }

  // The dropped target is the only one of that key.
  lemma OneDropped(targets: seq<Target>, remaining: seq<Target>, key: string)
    requires DistinctKeys(MergeKey, targets)
    requires exists t <- targets :: Key(t) == Some(key)
    requires forall t :: t in remaining <==> t in targets && Key(t) != Some(key)
    ensures KeySet(MergeKey, remaining) == KeySet(MergeKey, targets) - {key}
  {
    var gone :| gone in targets && Key(gone) == Some(key);
    var g :| 0 <= g < |targets| && targets[g] == gone;
    forall t <- targets ensures MergeKey(t) == Some(key) <==> Key(t) == Some(key) {
      var i :| 0 <= i < |targets| && targets[i] == t;
      assert i != g ==> MergeKey(targets[i]) != MergeKey(targets[g]);
    }
    var left := KeySet(MergeKey, remaining);
    forall k <- KeySet(MergeKey, targets) | k != key ensures k in left {
      var t :| t in targets && MergeKey(t).Some? && MergeKey(t).value == k;
      assert t in remaining;
    }
  }

  // What is to be told, besides the receipt's own route.
  method Gather(configured: seq<Option<Target>>, ids: seq<string>, find: string -> Option<Target>)
    returns (targets: seq<Target>, summary: Summary)
    ensures Tells(targets, Present(configured), Found(ids, find))
    ensures forall t <- targets :: t in Present(configured) || (t in Found(ids, find) && Key(t).Some?)
    ensures summary == Summary(|ids| - |Found(ids, find)| + |targets|, 0, |ids| - |Found(ids, find)|)
  {
    var restored;
    restored, summary := Restore(ids, find, Summary(0, 0, 0));
    var sessions := Collect(restored, _ => true);
    AllActive(Found(ids, find));
    targets := Merge([configured, Wrapped(sessions)]);
    Merged(configured, Found(ids, find));
    summary := summary.(targets := summary.failed + |targets|);
  }

  // The receipt's route heads the merged list, and it alone is taken out again.
  lemma Explicit(explicit: Target, others: seq<Target>)
    requires Key(explicit).Some?
    ensures var merged := Firsts(MergeKey, Flatten([[Some(explicit)], Wrapped(others)]));
            && explicit in merged && DistinctKeys(MergeKey, merged)
            && KeySet(MergeKey, merged) == {Key(explicit).value} + KeySet(MergeKey, others)
            && (forall t <- merged :: t == explicit || t in others)
  {
    var all := [explicit] + others;
    FlattenTwo([Some(explicit)], others);
    PresentOne(explicit);
    FirstsKeepHead(MergeKey, explicit, others);
    FirstsDistinct(MergeKey, all);
    FirstsKeys(MergeKey, all);
    FirstsAreMembers(MergeKey, all);
    KeySetConcat(MergeKey, [explicit], others);
    assert KeySet(MergeKey, [explicit]) == {Key(explicit).value};
  }

  // The receipt's route gets the message first and alone; the pool the others.
  method TellRequester(
      receipts: R.ReceiptStore, f: R.Faults, receipt: R.Receipt, others: seq<Target>, before: Summary,
      senderFound: bool, expired: nat -> bool, accepts: nat -> bool, arrivals: nat -> Arrival)
    returns (summary: Summary, pool: seq<Target>, delivered: bool)
    requires receipts.file == R.Stored(receipt) && R.ValidReceipt(receipt)
    requires Key(ReceiptTarget(receipt)).Some? && before.sent == 0
    modifies receipts`file
    ensures summary.sent + summary.failed == summary.targets && DistinctKeys(MergeKey, pool)
    ensures summary.targets == before.failed + |pool| + 1
    ensures summary.sent == |Timely(|pool|, arrivals)| + (if delivered then 1 else 0)
    ensures KeySet(MergeKey, pool) == KeySet(MergeKey, others) - {Key(ReceiptTarget(receipt)).value}
    ensures forall t <- pool :: t in others && Key(t) != Key(ReceiptTarget(receipt))
    ensures delivered <==> senderFound && SomeAttemptWorks(expired, accepts)
    ensures receipts.file == if delivered && !f.read && !f.remove then R.Missing else old(receipts.file)
  {
    var explicit := ReceiptTarget(receipt);
    var key := Key(explicit).value;
    var targets := Merge([[Some(explicit)], Wrapped(others)]);
    Explicit(explicit, others);
    pool := Remaining(targets, key);
    delivered := SendStarted(receipt, senderFound, expired, accepts);
    summary := before.(targets := before.failed + |targets|);
    summary := if delivered then summary.(sent := summary.sent + 1) else summary.(failed := summary.failed + 1);
    summary := Count(|pool|, arrivals, summary);
    if delivered {
      var _ := receipts.Complete(receipt.requestId, f);
    }
  }

  /** Who is told by the pool: with a receipt, the sessions found, except on the
      receipt's own route; without one, they and the configured routes. */
  ghost predicate PoolOk(pool: seq<Target>, receipt: Option<R.Receipt>, configured: seq<Target>, found: seq<Target>) {
    match receipt
    case None => Tells(pool, configured, found)
    case Some(r) =>
      var own := Key(ReceiptTarget(r));
      && DistinctKeys(MergeKey, pool)
      && KeySet(MergeKey, pool) == KeySet(Key, found) - (if own.Some? then {own.value} else {})
      && (forall t <- pool :: t in found && Key(t) != own)
  }

  /** After start-up.  Every session of the snapshot and, without a receipt,
      every configured route is told or counted as failed; the receipt's route
      is sent to once and never by the pool; and the receipt is completed
      exactly if its message was accepted. */
  method BroadcastStarted(
      receipts: R.ReceiptStore, f: R.Faults,
      configured: seq<Option<Target>>,
      claim: Result<Option<seq<string>>, ()>, // the claimed snapshot's session IDs
      find: string -> Option<Target>,
      senderFound: bool, expired: nat -> bool, accepts: nat -> bool,
      arrivals: nat -> Arrival)
    returns (summary: Summary, pool: seq<Target>, delivered: bool)
    modifies receipts
    ensures var receipt := Pending(old(receipts.file), f.read);
            var ids := if claim.Ok? && claim.value.Some? then claim.value.value else [];
            var found := Found(ids, find);
            && summary.sent + summary.failed == summary.targets
            && summary.targets == |ids| - |found| + |pool| + (if receipt.Some? then 1 else 0)
            && summary.sent == |Timely(|pool|, arrivals)| + (if delivered then 1 else 0)
            && PoolOk(pool, receipt, Present(configured), found)
            && (delivered <==> receipt.Some? && Key(ReceiptTarget(receipt.value)).Some?
                               && senderFound && SomeAttemptWorks(expired, accepts))
    ensures receipts.file == AfterStart(old(receipts.file), f, delivered)
    ensures receipts.quarantined == old(receipts.quarantined) + SetAside(old(receipts.file), f)
  {
    summary, pool, delivered := Summary(0, 0, 0), [], false;
    var receipt := ReadRestartReceipt(receipts, f);
    var first := if receipt.None? then configured else [];
    if (claim.Err? || claim.value.None?) && receipt.None? && first == [] {
      return;
    }
    var ids := if claim.Ok? && claim.value.Some? then claim.value.value else [];
    pool, summary := Gather(first, ids, find);
    if receipt.None? {
      summary := Count(|pool|, arrivals, summary);
    } else if Key(ReceiptTarget(receipt.value)).None? {
      // The message cannot be routed: it counts as one more failure.
      summary := Count(|pool|, arrivals, summary.(targets := summary.targets + 1, failed := summary.failed + 1));
    } else {
      summary, pool, delivered := TellRequester(receipts, f, receipt.value, pool, summary,
                                                senderFound, expired, accepts, arrivals);
    }
  }
}
