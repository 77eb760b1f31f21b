/** The worker pool behind a broadcast: a closed queue of jobs, a few workers, a
    results channel, and the goroutine that counts until every target is
    accounted for or the deadline passes. */
module LifecyclePool {
  import B = LifecycleBroadcast

  type Job = nat

  datatype Hand = Ready | Holding(job: Job) | Gone

  datatype Result = Result(job: Job, ok: bool)

  datatype Counter = Counting | ReturnedComplete | ReturnedAtDeadline

  datatype Pool = Pool(
    n: nat,                  // targets
    jobs: seq<Job>,          // the closed jobs channel
    hands: seq<Hand>,        // the workers
    results: seq<Result>,    // the results channel, of capacity n
    collected: seq<Result>,
    expired: bool,           // the context's deadline
    sent: int,
    failed: int,
    counter: Counter,
    sends: seq<Job>)         // history: jobs a worker has taken up

  datatype Action =
    | Take(w: nat)
    | Report(w: nat, ok: bool)
    | Leave(w: nat)
    | Collect
    | Expire
    | GiveUp
    | Complete

  function Range(n: nat): (r: seq<Job>)
    ensures |r| == n && forall i :: 0 <= i < n ==> r[i] == i
  {
    seq(n, i => i)
  }

  /** The pool as broadcast sets it up, with the counts so far. */
  predicate Init(p: Pool, n: nat, concurrency: int, sent: int, failed: int) {
    var limit := if concurrency <= 0 then 1 else concurrency;
    && n > 0
    && p == Pool(n, Range(n), seq(if limit > n then n else limit, _ => Ready), [], [], false,
                 sent, failed, Counting, [])
  }

  predicate Enabled(p: Pool, a: Action) {
    match a
    case Take(w) => w < |p.hands| && p.hands[w].Ready? && p.jobs != []
    case Report(w, _) => w < |p.hands| && p.hands[w].Holding? && |p.results| < p.n
    case Leave(w) => w < |p.hands| && p.hands[w].Ready? && (p.jobs == [] || p.expired)
    case Collect => p.counter.Counting? && |p.collected| < p.n && p.results != []
    case Expire => !p.expired
    case GiveUp => p.counter.Counting? && |p.collected| < p.n && p.expired
    case Complete => p.counter.Counting? && |p.collected| == p.n
  }

  function Next(p: Pool, a: Action): Pool
    requires Enabled(p, a)
  {
    match a
    case Take(w) =>
      p.(jobs := p.jobs[1..], hands := p.hands[w := Holding(p.jobs[0])], sends := p.sends + [p.jobs[0]])
    case Report(w, ok) =>
      p.(hands := p.hands[w := Ready], results := p.results + [Result(p.hands[w].job, ok)])
    case Leave(w) => p.(hands := p.hands[w := Gone])
    case Collect =>
      var r := p.results[0];
      p.(results := p.results[1..], collected := p.collected + [r],
         sent := if r.ok then p.sent + 1 else p.sent, failed := if r.ok then p.failed else p.failed + 1)
    case Expire => p.(expired := true)
    case GiveUp => p.(failed := p.failed + (p.n - |p.collected|), counter := ReturnedAtDeadline)
    case Complete => p.(counter := ReturnedComplete)
  }

  function HeldBy(hand: Hand): multiset<Job> {
    if hand.Holding? then multiset{hand.job} else multiset{}
  }

  function Held(hands: seq<Hand>): multiset<Job> {
    if hands == [] then multiset{} else HeldBy(hands[0]) + Held(hands[1..])
  }

  function JobsOf(results: seq<Result>): multiset<Job> {
    if results == [] then multiset{} else multiset{results[0].job} + JobsOf(results[1..])
  }

  function Accepted(results: seq<Result>): nat {
    if results == [] then 0 else (if results[0].ok then 1 else 0) + Accepted(results[1..])
  }

  lemma {:induction false} HeldUpdate(hands: seq<Hand>, w: nat, hand: Hand)
    requires w < |hands|
    ensures forall j :: Held(hands[w := hand])[j] + HeldBy(hands[w])[j] == Held(hands)[j] + HeldBy(hand)[j]
    ensures forall j :: HeldBy(hands[w])[j] <= Held(hands)[j]
  {
    var updated := hands[w := hand];
    if w == 0 {
      assert updated[1..] == hands[1..];
    } else {
      HeldUpdate(hands[1..], w - 1, hand);
      assert updated[1..] == hands[1..][w - 1 := hand];
    }
    assert forall j :: Held(updated)[j] == HeldBy(updated[0])[j] + Held(updated[1..])[j];
    assert forall j :: Held(hands)[j] == HeldBy(hands[0])[j] + Held(hands[1..])[j];
  }

  lemma {:induction false} ResultsAppend(results: seq<Result>, r: Result)
    ensures JobsOf(results + [r]) == JobsOf(results) + multiset{r.job}
    ensures Accepted(results + [r]) == Accepted(results) + if r.ok then 1 else 0
  {
    if results == [] {
      assert results + [r] == [r] && [r][1..] == [];
    } else {
      assert (results + [r])[1..] == results[1..] + [r];
      ResultsAppend(results[1..], r);
    }
  }

  lemma {:induction false} JobsOfSize(results: seq<Result>)
    ensures |JobsOf(results)| == |results|
  {
    if results != [] {
      JobsOfSize(results[1..]);
    }
  }

  /** Every target is in exactly one place: still queued, in a worker's hand,
      reported or counted; and the counts say what was counted. */
  ghost predicate Inv(p: Pool, sent: int, failed: int) {
    && p.hands != []
    && p.sends + p.jobs == Range(p.n)
    && multiset(p.sends) == Held(p.hands) + JobsOf(p.results) + JobsOf(p.collected)
    && p.sent == sent + Accepted(p.collected)
    && (p.counter.Counting? || p.counter.ReturnedComplete? ==>
          p.sent + p.failed == sent + failed + |p.collected|)
    && (p.counter.ReturnedComplete? ==> |p.collected| == p.n)
    && (p.counter.ReturnedAtDeadline? ==> p.expired && p.sent + p.failed == sent + failed + p.n)
    && (forall w :: 0 <= w < |p.hands| && p.hands[w].Gone? ==> p.jobs == [] || p.expired)
  }

  lemma {:induction false} NothingHeld(k: nat)
    ensures Held(seq(k, _ => Ready)) == multiset{}
  {
    if k > 0 {
      NothingHeld(k - 1);
      assert seq(k, _ => Ready)[1..] == seq(k - 1, _ => Ready);
    }
  }

  lemma InitIsInv(p: Pool, n: nat, concurrency: int, sent: int, failed: int)
    requires Init(p, n, concurrency, sent, failed)
    ensures Inv(p, sent, failed)
  {
    NothingHeld(|p.hands|);
    assert p.hands == seq(|p.hands|, _ => Ready);
    assert [] + Range(n) == Range(n);
  }

  // A job that moves from a hand to the results stays accounted for.
  lemma HandedOver(hands: seq<Hand>, w: nat, results: seq<Result>, ok: bool)
    requires w < |hands| && hands[w].Holding?
    ensures Held(hands[w := Ready]) + JobsOf(results + [Result(hands[w].job, ok)]) == Held(hands) + JobsOf(results)
  {
    HeldUpdate(hands, w, Ready);
    ResultsAppend(results, Result(hands[w].job, ok));
  }

  lemma Picked(hands: seq<Hand>, w: nat, hand: Hand)
    requires w < |hands| && hands[w].Ready?
    ensures Held(hands[w := hand]) == Held(hands) + HeldBy(hand)
  {
    HeldUpdate(hands, w, hand);
  }

  lemma TakeKeepsInv(p: Pool, w: nat, sent: int, failed: int)
    requires Inv(p, sent, failed) && Enabled(p, Take(w))
    ensures Inv(Next(p, Take(w)), sent, failed)
  {
    var job := p.jobs[0];
    Picked(p.hands, w, Holding(job));
    MoveOne(p.sends, p.jobs);
    OneMore(p.sends, job, Held(p.hands), JobsOf(p.results), JobsOf(p.collected));
  }

  lemma MoveOne(sends: seq<Job>, jobs: seq<Job>)
    requires jobs != []
    ensures (sends + [jobs[0]]) + jobs[1..] == sends + jobs
  {
  }

  lemma OneMore(sends: seq<Job>, job: Job, h: multiset<Job>, r: multiset<Job>, c: multiset<Job>)
    requires multiset(sends) == h + r + c
    ensures multiset(sends + [job]) == (h + multiset{job}) + r + c
  {
  }

  lemma ReportKeepsInv(p: Pool, w: nat, ok: bool, sent: int, failed: int)
    requires Inv(p, sent, failed) && Enabled(p, Report(w, ok))
    ensures Inv(Next(p, Report(w, ok)), sent, failed)
  {
    HandedOver(p.hands, w, p.results, ok);
  }

  lemma LeaveKeepsInv(p: Pool, w: nat, sent: int, failed: int)
    requires Inv(p, sent, failed) && Enabled(p, Leave(w))
    ensures Inv(Next(p, Leave(w)), sent, failed)
  {
    Picked(p.hands, w, Gone);
    assert Held(p.hands[w := Gone]) == Held(p.hands) + multiset{} == Held(p.hands);
  }

  lemma StepKeepsInv(p: Pool, a: Action, sent: int, failed: int)
    requires Inv(p, sent, failed) && Enabled(p, a)
    ensures Inv(Next(p, a), sent, failed)
  {
    if a.Take? {
      TakeKeepsInv(p, a.w, sent, failed);
    } else if a.Report? {
      ReportKeepsInv(p, a.w, a.ok, sent, failed);
    } else if a.Leave? {
      LeaveKeepsInv(p, a.w, sent, failed);
    } else if a.Collect? {
      ResultsAppend(p.collected, p.results[0]);
    }
  }

  /** No worker takes up a target that was taken up before. */
  lemma AtMostOneSend(p: Pool, sent: int, failed: int)
    requires Inv(p, sent, failed)
    ensures |p.sends| <= p.n
    ensures forall i, j :: 0 <= i < j < |p.sends| ==> p.sends[i] != p.sends[j]
  {
    assert forall i :: 0 <= i < |p.sends| ==> (p.sends + p.jobs)[i] == p.sends[i];
  }

  /** A worker with a result never waits for room, even after the counting
      goroutine has gone; so no worker is left behind. */
  lemma ReportNeverBlocks(p: Pool, w: nat, ok: bool, sent: int, failed: int)
    requires Inv(p, sent, failed) && w < |p.hands| && p.hands[w].Holding?
    ensures Enabled(p, Report(w, ok))
  {
    AtMostOneSend(p, sent, failed);
    HeldUpdate(p.hands, w, Ready);
    JobsOfSize(p.results);
    JobsOfSize(p.collected);
    assert |multiset(p.sends)| == |p.sends|;
    assert HeldBy(p.hands[w]) <= Held(p.hands);
    assert |Held(p.hands)| == |Held(p.hands) - HeldBy(p.hands[w])| + |HeldBy(p.hands[w])|;
  }

  lemma {:induction false} NobodyHolds(hands: seq<Hand>)
    requires forall hand <- hands :: !hand.Holding?
    ensures Held(hands) == multiset{}
  {
    if hands != [] {
      NobodyHolds(hands[1..]);
    }
  }

  predicate CanDo(p: Pool, actions: seq<Action>)
    decreases |actions|
  {
    actions != [] ==> Enabled(p, actions[0]) && CanDo(Next(p, actions[0]), actions[1..])
  }

  function After(p: Pool, actions: seq<Action>): Pool
    requires CanDo(p, actions)
    decreases |actions|
  {
    if actions == [] then p else After(Next(p, actions[0]), actions[1..])
  }

  /** What the workers still have to do before they are gone. */
  function Staying(hands: seq<Hand>): nat {
    if hands == [] then 0
    else (match hands[0] case Holding(_) => 2 case Ready => 1 case Gone => 0) + Staying(hands[1..])
  }

  lemma {:induction false} StayingLess(hands: seq<Hand>, w: nat, hand: Hand)
    requires w < |hands|
    requires (hands[w].Holding? && hand.Ready?) || (hands[w].Ready? && hand.Gone?)
    ensures Staying(hands[w := hand]) < Staying(hands)
  {
    if w == 0 {
      assert hands[w := hand][1..] == hands[1..];
    } else {
      StayingLess(hands[1..], w - 1, hand);
      assert hands[w := hand][1..] == hands[1..][w - 1 := hand];
    }
  }

  /** After the deadline, or with no target left, every worker leaves by itself,
      whether or not anybody still takes results. */
  lemma {:induction false} WorkersLeave(p: Pool, sent: int, failed: int) returns (actions: seq<Action>)
    requires Inv(p, sent, failed) && (p.expired || p.jobs == [])
    ensures CanDo(p, actions)
    ensures forall hand <- After(p, actions).hands :: hand.Gone?
    ensures forall a <- actions :: a.Report? || a.Leave?
    decreases Staying(p.hands)
  {
    actions := [];
    if w: nat :| w < |p.hands| && !p.hands[w].Gone? {
      var a := if p.hands[w].Holding? then Report(w, true) else Leave(w);
      if p.hands[w].Holding? {
        ReportNeverBlocks(p, w, true, sent, failed);
      }
      StayingLess(p.hands, w, if p.hands[w].Holding? then Ready else Gone);
      StepKeepsInv(p, a, sent, failed);
      var rest := WorkersLeave(Next(p, a), sent, failed);
      actions := [a] + rest;
      assert actions[1..] == rest;
    }
  }

  /** The deadline may pass at any moment, and then the broadcast returns with
      all that is not counted yet as failed. */
  lemma DeadlineEnds(p: Pool, sent: int, failed: int)
    requires Inv(p, sent, failed) && p.counter.Counting? && |p.collected| < p.n && !p.expired
    ensures CanDo(p, [Expire, GiveUp])
    ensures var q := After(p, [Expire, GiveUp]);
            && q.counter == ReturnedAtDeadline && q.sent == p.sent
            && q.failed == failed + p.n - (p.sent - sent)
  {
    var q := Next(p, Expire);
    assert [Expire, GiveUp][1..] == [GiveUp] && [GiveUp][1..] == [];
    assert After(q, [GiveUp]) == After(Next(q, GiveUp), []);
  }

  /** Failed does not mean untold: a worker that passed its check of the context
      may take a target after the deadline and after the broadcast returned. */
  lemma LateSend() returns (p: Pool, actions: seq<Action>)
    ensures Init(p, 1, 1, 0, 0) && CanDo(p, actions)
    ensures var q := After(p, actions);
            q.counter == ReturnedAtDeadline && q.sent == 0 && q.failed == 1 && q.results == [Result(0, true)]
  {
    p := Pool(1, Range(1), seq(1, _ => Ready), [], [], false, 0, 0, Counting, []);
    var a := Next(p, Expire);
    var b := Next(a, GiveUp);
    var c := Next(b, Take(0));
    var d := Next(c, Report(0, true));
    actions := [Expire, GiveUp, Take(0), Report(0, true)];
    assert actions[1..] == [GiveUp, Take(0), Report(0, true)] && actions[1..][1..] == [Take(0), Report(0, true)];
    assert actions[1..][1..][1..] == [Report(0, true)] && actions[1..][1..][1..][1..] == [];
    assert CanDo(c, [Report(0, true)]) && After(c, [Report(0, true)]) == After(d, []);
    assert CanDo(b, actions[1..][1..]) && CanDo(a, actions[1..]);
  }

  /** Until it returns, the broadcast can always go on. */
  lemma NeverStuck(p: Pool, sent: int, failed: int) returns (a: Action)
    requires Inv(p, sent, failed) && p.counter.Counting?
    ensures Enabled(p, a) && !a.Expire?
  {
    if |p.collected| >= p.n {
      AtMostOneSend(p, sent, failed);
      JobsOfSize(p.results);
      JobsOfSize(p.collected);
      assert |multiset(p.sends)| == |p.sends|;
      a := Complete;
    } else if p.expired {
      a := GiveUp;
    } else if p.results != [] {
      a := Collect;
    } else if w :| 0 <= w < |p.hands| && p.hands[w].Holding? {
      ReportNeverBlocks(p, w, true, sent, failed);
      a := Report(w, true);
    } else {
      NobodyHolds(p.hands);
      JobsOfSize(p.results);
      JobsOfSize(p.collected);
      assert |multiset(p.sends)| == |p.sends|;
      assert |p.sends + p.jobs| == p.n;
      assert !p.hands[0].Gone? && p.hands[0] in p.hands;
      a := Take(0);
    }
  }

  datatype Run = Run(states: seq<Pool>, actions: seq<Action>)

  predicate StepAt(r: Run, i: nat)
    requires i < |r.actions| < |r.states|
  {
    Enabled(r.states[i], r.actions[i]) && r.states[i + 1] == Next(r.states[i], r.actions[i])
  }

  ghost predicate IsRun(r: Run, n: nat, concurrency: int, sent: int, failed: int) {
    && |r.states| == |r.actions| + 1
    && Init(r.states[0], n, concurrency, sent, failed)
    && forall i :: 0 <= i < |r.actions| ==> StepAt(r, i)
  }

  lemma {:induction false} RunKeepsInv(r: Run, i: nat, n: nat, concurrency: int, sent: int, failed: int)
    requires IsRun(r, n, concurrency, sent, failed) && i < |r.states|
    ensures Inv(r.states[i], sent, failed) && r.states[i].n == n
  {
    if i == 0 {
      InitIsInv(r.states[0], n, concurrency, sent, failed);
    } else {
      RunKeepsInv(r, i - 1, n, concurrency, sent, failed);
      assert StepAt(r, i - 1);
      StepKeepsInv(r.states[i - 1], r.actions[i - 1], sent, failed);
    }
  }

  /** Under every interleaving of workers, deadline and counting, the counts
      grow by exactly the number of targets, no target is sent to twice, and
      SentCount counts only accepted sends of distinct targets. */
  lemma Conservation(r: Run, i: nat, n: nat, concurrency: int, sent: int, failed: int)
    requires IsRun(r, n, concurrency, sent, failed) && i < |r.states|
    ensures var p := r.states[i];
            && (!p.counter.Counting? ==> p.sent + p.failed == sent + failed + n)
            && (forall j, k :: 0 <= j < k < |p.sends| ==> p.sends[j] != p.sends[k])
            && p.sent == sent + Accepted(p.collected)
            && JobsOf(p.collected) <= multiset(p.sends)
            && (p.counter.ReturnedComplete? ==> p.sends == Range(n) && JobsOf(p.collected) == multiset(Range(n)))
  {
    RunKeepsInv(r, i, n, concurrency, sent, failed);
    var p := r.states[i];
    AtMostOneSend(p, sent, failed);
    if p.counter.ReturnedComplete? {
      JobsOfSize(p.collected);
      JobsOfSize(p.results);
      assert |multiset(p.sends)| == |p.sends|;
      assert |p.sends| == n && p.jobs == [];
      assert p.sends + [] == p.sends;
      assert Held(p.hands) + JobsOf(p.results) == multiset{};
    }
  }

  /** At step k a worker reports this result of the target it holds. */
  predicate Reports(r: Run, k: nat, x: Result) {
    && k < |r.actions| < |r.states|
    && r.actions[k].Report? && r.actions[k].ok == x.ok
    && r.actions[k].w < |r.states[k].hands| && r.states[k].hands[r.actions[k].w] == Holding(x.job)
  }

  /** Nothing is counted that no worker reported: every result there is tells
      how a send by a worker ended. */
  lemma {:induction false} ResultsAreReports(
      r: Run, i: nat, n: nat, concurrency: int, sent: int, failed: int, x: Result)
    returns (k: nat)
    requires IsRun(r, n, concurrency, sent, failed) && i < |r.states|
    requires x in r.states[i].results || x in r.states[i].collected
    ensures k < i && Reports(r, k, x)
  {
    assert StepAt(r, i - 1);
    var p := r.states[i - 1];
    if x in p.results || x in p.collected {
      k := ResultsAreReports(r, i - 1, n, concurrency, sent, failed, x);
    } else {
      k := i - 1;
    }
  }

  lemma {:induction false} HeldFits(hands: seq<Hand>)
    ensures |Held(hands)| <= |hands|
  {
    if hands != [] {
      HeldFits(hands[1..]);
    }
  }

  lemma SameWorkers(p: Pool, a: Action)
    requires Enabled(p, a)
    ensures |Next(p, a).hands| == |p.hands|
  {
  }

  lemma WorkersAtFirst(p: Pool, n: nat, concurrency: int, sent: int, failed: int)
    requires Init(p, n, concurrency, sent, failed)
    ensures |p.hands| == if concurrency <= 0 then 1 else if concurrency <= n then concurrency else n
  {
  }

  /** Never more sends at once than the concurrency allows. */
  lemma {:induction false} Bounded(r: Run, i: nat, n: nat, concurrency: int, sent: int, failed: int)
    requires IsRun(r, n, concurrency, sent, failed) && i < |r.states|
    ensures |r.states[i].hands| == if concurrency <= 0 then 1 else if concurrency <= n then concurrency else n
    ensures |Held(r.states[i].hands)| <= |r.states[i].hands|
  {
    HeldFits(r.states[i].hands);
    if i == 0 {
      WorkersAtFirst(r.states[0], n, concurrency, sent, failed);
    } else {
      Bounded(r, i - 1, n, concurrency, sent, failed);
      assert StepAt(r, i - 1);
      SameWorkers(r.states[i - 1], r.actions[i - 1]);
    }
  }

  // The counting loop, run on its own, sees what the pool's counter saw

  /** The results in the order collected, and then the deadline. */
  function ArrivalsOf(collected: seq<Result>): nat -> B.Arrival {
    (i: nat) =>
      if i >= |collected| then B.DeadlinePassed
      else if collected[i].ok then B.Delivered else B.Failed
  }

  lemma {:induction false} TimelySoFar(collected: seq<Result>, k: nat)
    requires k <= |collected|
    ensures |B.Timely(k, ArrivalsOf(collected))| == Accepted(collected[..k])
  {
    var arrivals := ArrivalsOf(collected);
    if k == 0 {
      assert B.Timely(0, arrivals) == {};
    } else {
      TimelySoFar(collected, k - 1);
      ResultsAppend(collected[..k - 1], collected[k - 1]);
      assert collected[..k] == collected[..k - 1] + [collected[k - 1]];
      OneMoreArrival(collected, k - 1);
    }
  }

  lemma OneMoreArrival(collected: seq<Result>, k: nat)
    requires k < |collected|
    ensures B.Timely(k + 1, ArrivalsOf(collected)) ==
              B.Timely(k, ArrivalsOf(collected)) + if collected[k].ok then {k} else {}
  {
    var arrivals := ArrivalsOf(collected);
    assert forall j: nat :: j < k ==> arrivals(j) != B.DeadlinePassed;
  }

  lemma TimelyIsAccepted(collected: seq<Result>, n: nat)
    requires |collected| <= n
    ensures |B.Timely(n, ArrivalsOf(collected))| == Accepted(collected)
  {
    var k, arrivals := |collected|, ArrivalsOf(collected);
    TimelySoFar(collected, k);
    assert collected[..k] == collected;
    assert arrivals(k) == B.DeadlinePassed;
    assert B.Timely(n, arrivals) == B.Timely(k, arrivals);
  }

  /** Whatever the workers do, a broadcast that returns has the counts that the
      loop has when it runs over the results in some order of arrival. */
  lemma RefinesCount(r: Run, i: nat, n: nat, concurrency: int, sent: int, failed: int)
    requires IsRun(r, n, concurrency, sent, failed) && i < |r.states| && !r.states[i].counter.Counting?
    ensures var timely := |B.Timely(n, ArrivalsOf(r.states[i].collected))|;
            r.states[i].sent == sent + timely && r.states[i].failed == failed + n - timely
  {
    RunKeepsInv(r, i, n, concurrency, sent, failed);
    var p := r.states[i];
    AtMostOneSend(p, sent, failed);
    JobsOfSize(p.results);
    JobsOfSize(p.collected);
    assert |multiset(p.sends)| == |p.sends|;
    TimelyIsAccepted(p.collected, n);
  }
}
