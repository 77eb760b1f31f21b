/** Who a lifecycle message goes to: routes, their keys, and the duplicate-free
    merges of several groups of targets. */
module LifecycleTargets {
  import opened Sequences
  import opened Wrappers
  import opened Text

  datatype Target = Target(
    id: string,
    platform: string,
    botName: string,
    botId: string,
    platformKey: map<string, string>)

  /** A missing map entry reads as the empty string. */
  function Get(m: map<string, string>, key: string): string {
    if key in m then m[key] else ""
  }

  function BotIdentity(t: Target): string {
    if t.botName == "" then t.botId else t.botName
  }

  /** The fields that identify a route, when the target has one. */
  function Route(t: Target): (r: Option<seq<string>>)
    ensures r.Some? ==> |r.value| >= 4 && r.value[0] == t.platform
  {
    if t.id == "" then None
    else
      var head := [t.platform, BotIdentity(t)];
      if t.platform == "slack" then
        if Get(t.platformKey, "channel_id") == "" then None
        else Some(head + [Get(t.platformKey, "team_id"), Get(t.platformKey, "channel_id"),
                          Get(t.platformKey, "thread_ts")])
      else if t.platform == "feishu" then
        if Get(t.platformKey, "chat_id") != "" then
          Some(head + ["chat_id", Get(t.platformKey, "chat_id"), Get(t.platformKey, "thread_ts")])
        else if Get(t.platformKey, "open_id") == "" then None
        else Some(head + ["open_id", Get(t.platformKey, "open_id")])
      else if t.platform == "yuanxin" then
        if Get(t.platformKey, "message_id") == "" then None
        else Some(head + [Get(t.platformKey, "message_id"), Get(t.platformKey, "reply_user_codes"),
                          Get(t.platformKey, "sys_id")])
      else None
  }

  /** lifecycleTargetKey: the fields joined by NUL. */
  function Key(t: Target): Option<string> {
    match Route(t)
    case None => None
    case Some(fields) => Some(Joined(fields))
  }

  const RESTART_PREFIX := "restart:"

  /** What mergeLifecycleTargets compares: an unroutable restart target is still
      kept, under a key of its own. */
  function MergeKey(t: Target): Option<string> {
    if Key(t).None? && RESTART_PREFIX <= t.id then Some(Joined(["restart", t.id])) else Key(t)
  }

  predicate NulFreeRoute(t: Target) {
    && NulFree(t.id)
    && (Route(t).Some? ==> forall f <- Route(t).value :: NulFree(f))
  }

  lemma RestartKeyIsNoRouteKey(t: Target, u: Target)
    requires NulFreeRoute(t) && NulFreeRoute(u)
    requires Route(t).Some? && Route(u).None? && RESTART_PREFIX <= u.id
    ensures MergeKey(t) != MergeKey(u)
  {
    if MergeKey(t) == MergeKey(u) {
      JoinedInjective(Route(t).value, ["restart", u.id]);
    }
  }

  /** For NUL-free fields the keys are equal exactly when the routes are. */
  lemma KeysAreRoutes(t: Target, u: Target)
    requires NulFreeRoute(t) && NulFreeRoute(u)
    requires MergeKey(t).Some? && MergeKey(u).Some?
    ensures MergeKey(t) == MergeKey(u) <==>
              if Route(t).Some? || Route(u).Some? then Route(t) == Route(u) else t.id == u.id
  {
    if Route(t).Some? && Route(u).Some? {
      if MergeKey(t) == MergeKey(u) {
        JoinedInjective(Route(t).value, Route(u).value);
      }
    } else if Route(t).Some? {
      RestartKeyIsNoRouteKey(t, u);
    } else if Route(u).Some? {
      RestartKeyIsNoRouteKey(u, t);
    } else if MergeKey(t) == MergeKey(u) {
      JoinedInjective(["restart", t.id], ["restart", u.id]);
      assert ["restart", t.id][1] == ["restart", u.id][1];
    }
  }

  // The same in terms of the fields themselves

  predicate Has(t: Target, key: string) {
    key in t.platformKey && t.platformKey[key] != ""
  }

  /** Which targets can be sent to at all. */
  lemma RoutableExactly(t: Target)
    ensures Key(t).Some? <==>
              && t.id != ""
              && (|| (t.platform == "slack" && Has(t, "channel_id"))
                  || (t.platform == "feishu" && (Has(t, "chat_id") || Has(t, "open_id")))
                  || (t.platform == "yuanxin" && Has(t, "message_id")))
    ensures MergeKey(t).Some? <==> Key(t).Some? || (|t.id| >= 8 && t.id[..8] == "restart:")
  {
  }

  predicate SameEntry(t: Target, u: Target, key: string) {
    (Has(t, key) || Has(u, key)) ==> Has(t, key) && Has(u, key) && t.platformKey[key] == u.platformKey[key]
  }

  predicate SameBot(t: Target, u: Target) {
    (if t.botName != "" then t.botName else t.botId) == (if u.botName != "" then u.botName else u.botId)
  }

  /** A Slack thread of a channel of a team, a Feishu thread of a chat or a
      user, a Yuanxin message with its addressees. */
  predicate SamePlace(t: Target, u: Target) {
    match t.platform
    case "slack" => SameEntry(t, u, "team_id") && SameEntry(t, u, "channel_id") && SameEntry(t, u, "thread_ts")
    case "feishu" =>
      && SameEntry(t, u, "chat_id")
      && if Has(t, "chat_id") then SameEntry(t, u, "thread_ts") else SameEntry(t, u, "open_id")
    case _ => SameEntry(t, u, "message_id") && SameEntry(t, u, "reply_user_codes") && SameEntry(t, u, "sys_id")
  }

  predicate NulFreeTarget(t: Target) {
    && NulFree(t.id) && NulFree(t.platform) && NulFree(t.botName) && NulFree(t.botId)
    && forall key <- t.platformKey :: NulFree(t.platformKey[key])
  }

  lemma RoutesOfPlaces(t: Target, u: Target)
    requires Route(t).Some? && Route(u).Some?
    ensures Route(t) == Route(u) <==> t.platform == u.platform && SameBot(t, u) && SamePlace(t, u)
  {
    var r, q := Route(t).value, Route(u).value;
    if r == q {
      assert r[0] == q[0] && r[1] == q[1] && r[2] == q[2] && r[3] == q[3] && |r| == |q|;
      assert |r| == 5 ==> r[4] == q[4];
    }
  }

  /** Two targets count as one exactly if they are the same place of the same
      bot, or the same restart that cannot be routed. */
  lemma SameKeyIsSamePlace(t: Target, u: Target)
    requires NulFreeTarget(t) && NulFreeTarget(u)
    ensures Key(t).Some? && Key(u).Some? ==>
              (Key(t) == Key(u) <==> t.platform == u.platform && SameBot(t, u) && SamePlace(t, u))
    ensures MergeKey(t).Some? && MergeKey(u).Some? ==>
              (MergeKey(t) == MergeKey(u) <==>
                 if Key(t).Some? || Key(u).Some? then Key(t) == Key(u) else t.id == u.id)
  {
    assert NulFreeRoute(t) && NulFreeRoute(u);
    if MergeKey(t).Some? && MergeKey(u).Some? {
      KeysAreRoutes(t, u);
    }
    if Key(t).Some? && Key(u).Some? {
      RoutesOfPlaces(t, u);
    }
  }

  // Duplicate-free selection, in order

  type Keyed = Target -> Option<string>

  function KeySet(key: Keyed, targets: seq<Target>): set<string> {
    set t <- targets | key(t).Some? :: key(t).value
  }

  /** The targets that have a key, each key at its first occurrence. */
  function Firsts(key: Keyed, targets: seq<Target>): seq<Target> {
    if targets == [] then []
    else
      var front, last := targets[..|targets| - 1], targets[|targets| - 1];
      Firsts(key, front) + if key(last).Some? && key(last).value !in KeySet(key, front) then [last] else []
  }

  predicate DistinctKeys(key: Keyed, targets: seq<Target>) {
    && (forall t <- targets :: key(t).Some?)
    && forall i, j :: 0 <= i < j < |targets| ==> key(targets[i]) != key(targets[j])
  }

  lemma KeySetAppend(key: Keyed, targets: seq<Target>, t: Target)
    ensures KeySet(key, targets + [t]) == KeySet(key, targets) + if key(t).Some? then {key(t).value} else {}
  {
  }

  lemma {:induction false} FirstsKeys(key: Keyed, targets: seq<Target>)
    ensures KeySet(key, Firsts(key, targets)) == KeySet(key, targets)
    ensures forall t <- Firsts(key, targets) :: key(t).Some?
  {
    if targets != [] {
      var front, last := targets[..|targets| - 1], targets[|targets| - 1];
      assert targets == front + [last];
      FirstsKeys(key, front);
      KeySetAppend(key, front, last);
      KeySetAppend(key, Firsts(key, front), last);
      assert Firsts(key, front) + [] == Firsts(key, front);
    }
  }

  lemma {:induction false} FirstsDistinct(key: Keyed, targets: seq<Target>)
    ensures DistinctKeys(key, Firsts(key, targets))
  {
    if targets != [] {
      var front, last := targets[..|targets| - 1], targets[|targets| - 1];
      var kept := Firsts(key, front);
      FirstsDistinct(key, front);
      FirstsKeys(key, front);
      assert forall t <- kept :: key(t).value in KeySet(key, kept);
      assert kept + [] == kept;
    }
  }

  lemma {:induction false} FirstsInOrder(key: Keyed, targets: seq<Target>)
    ensures Subsequence(Firsts(key, targets), targets)
  {
    if targets != [] {
      var front, last := targets[..|targets| - 1], targets[|targets| - 1];
      assert targets == front + [last];
      FirstsInOrder(key, front);
      SubsequenceAppend(Firsts(key, front), front, last);
      assert Firsts(key, front) + [] == Firsts(key, front);
    }
  }

  /** What merging promises: nothing twice, no route missing, the given order,
      and, of two targets with one key, the earlier. */
  lemma FirstsAreFirsts(key: Keyed, targets: seq<Target>, i: nat)
    ensures DistinctKeys(key, Firsts(key, targets))
    ensures KeySet(key, Firsts(key, targets)) == KeySet(key, targets)
    ensures Subsequence(Firsts(key, targets), targets)
    ensures i < |targets| && key(targets[i]).Some?
            && (forall j :: 0 <= j < i ==> key(targets[j]) != key(targets[i])) ==>
              targets[i] in Firsts(key, targets)
  {
    FirstsDistinct(key, targets);
    FirstsKeys(key, targets);
    FirstsInOrder(key, targets);
    if i < |targets| && key(targets[i]).Some? && forall j :: 0 <= j < i ==> key(targets[j]) != key(targets[i]) {
      FirstOccurrenceKept(key, targets, i);
    }
  }

  lemma {:induction false} FirstOccurrenceKept(key: Keyed, targets: seq<Target>, i: nat)
    requires i < |targets| && key(targets[i]).Some?
    requires forall j :: 0 <= j < i ==> key(targets[j]) != key(targets[i])
    ensures targets[i] in Firsts(key, targets)
  {
    var front := targets[..|targets| - 1];
    if i < |front| {
      FirstOccurrenceKept(key, front, i);
    }
  }

  // The first of equal keys wins.
  lemma {:induction false} FirstsKeepHead(key: Keyed, head: Target, rest: seq<Target>)
    requires key(head).Some?
    ensures Firsts(key, [head] + rest) != [] && Firsts(key, [head] + rest)[0] == head
  {
    var all := [head] + rest;
    if rest == [] {
      assert all[..0] == [] && Firsts(key, []) == [];
    } else {
      assert all[..|all| - 1] == [head] + rest[..|rest| - 1];
      FirstsKeepHead(key, head, rest[..|rest| - 1]);
    }
  }

  function Flatten(groups: seq<seq<Option<Target>>>): seq<Target> {
    if groups == [] then []
    else Flatten(groups[..|groups| - 1]) + Present(groups[|groups| - 1])
  }

  /** The non-nil entries. */
  function Present(group: seq<Option<Target>>): seq<Target> {
    if group == [] then []
    else
      Present(group[..|group| - 1]) +
      match group[|group| - 1] case None => [] case Some(t) => [t]
  }

  method Merge(groups: seq<seq<Option<Target>>>) returns (merged: seq<Target>)
    ensures merged == Firsts(MergeKey, Flatten(groups))
  {
    var seen: set<string> := {};
    merged := [];
    ghost var before: seq<Target> := [];
    for i := 0 to |groups|
      invariant before == Flatten(groups[..i])
      invariant merged == Firsts(MergeKey, before) && seen == KeySet(MergeKey, before)
    {
      assert groups[..i + 1][..i] == groups[..i];
      merged, seen := MergeGroup(groups[i], merged, seen, before);
      before := before + Present(groups[i]);
    }
    assert groups[..|groups|] == groups;
  }

  // Looks at one more target, the way both callers do.
  method Keep(key: Keyed, t: Target, targets: seq<Target>, seen: set<string>, ghost before: seq<Target>)
    returns (targets': seq<Target>, seen': set<string>)
    requires targets == Firsts(key, before) && seen == KeySet(key, before)
    ensures targets' == Firsts(key, before + [t]) && seen' == KeySet(key, before + [t])
  {
    targets', seen' := targets, seen;
    KeySetAppend(key, before, t);
    assert (before + [t])[..|before|] == before;
    var k := key(t);
    if k.Some? && k.value !in seen {
      seen', targets' := seen + {k.value}, targets + [t];
    }
  }

  lemma OneMorePresent(before: seq<Target>, group: seq<Option<Target>>, i: nat)
    requires i < |group|
    ensures before + Present(group[..i + 1]) ==
              before + Present(group[..i]) + match group[i] case None => [] case Some(t) => [t]
  {
    assert group[..i + 1][..i] == group[..i];
  }

  // One group more; `before` is everything merged so far.
  method MergeGroup(group: seq<Option<Target>>, merged: seq<Target>, seen: set<string>, ghost before: seq<Target>)
    returns (merged': seq<Target>, seen': set<string>)
    requires merged == Firsts(MergeKey, before) && seen == KeySet(MergeKey, before)
    ensures merged' == Firsts(MergeKey, before + Present(group))
    ensures seen' == KeySet(MergeKey, before + Present(group))
  {
    merged', seen' := merged, seen;
    assert before + Present([]) == before;
    for i := 0 to |group|
      invariant merged' == Firsts(MergeKey, before + Present(group[..i]))
      invariant seen' == KeySet(MergeKey, before + Present(group[..i]))
    {
      ghost var all := before + Present(group[..i]);
      OneMorePresent(before, group, i);
      if group[i].Some? {
        merged', seen' := Keep(MergeKey, group[i].value, merged', seen', all);
      } else {
        assert all + [] == all;
      }
    }
    assert group[..|group|] == group;
  }

  /** The sessions that are there and have an active connection. */
  function Active(sessions: seq<Option<Target>>, hasActive: string -> bool): seq<Target> {
    if sessions == [] then []
    else
      Active(sessions[..|sessions| - 1], hasActive) +
      match sessions[|sessions| - 1] case None => [] case Some(t) => if hasActive(t.id) then [t] else []
  }

  method Collect(sessions: seq<Option<Target>>, hasActive: string -> bool) returns (targets: seq<Target>)
    ensures targets == Firsts(Key, Active(sessions, hasActive))
  {
    targets := [];
    var seen: set<string> := {};
    for i := 0 to |sessions|
      invariant targets == Firsts(Key, Active(sessions[..i], hasActive))
      invariant seen == KeySet(Key, Active(sessions[..i], hasActive))
    {
      ghost var all := Active(sessions[..i], hasActive);
      assert sessions[..i + 1][..i] == sessions[..i];
      if sessions[i].Some? && hasActive(sessions[i].value.id) {
        targets, seen := Keep(Key, sessions[i].value, targets, seen, all);
      } else {
        assert Active(sessions[..i + 1], hasActive) == all + [] == all;
      }
    }
    assert sessions[..|sessions|] == sessions;
  }
}
