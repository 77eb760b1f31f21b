/** The client's event fan-out: the receive pump offers every event to every
    subscriber it knew when the event was read, while others subscribe,
    unsubscribe, receive, and close the client. */
module ClientFanout {
  import opened Sequences

  const CAPACITY := 100

  datatype Kind = Done | Error | State | Other(name: string)

  datatype Event = Event(kind: Kind, seqNo: int, session: string) {
    predicate Critical() {
      !kind.Other?
    }
  }

  type Sid = nat

  datatype Outcome = Delivered | SkippedFull | SkippedGone | SkippedShutdown

  /** What became of one event, and how full the buffer was just then. */
  datatype Offer = Offer(event: Event, outcome: Outcome, occupancy: nat)

  datatype Subscriber = Subscriber(
    since: nat,             // events read before it subscribed
    buffer: seq<Event>,     // its channel
    received: seq<Event>,   // taken out by its consumer
    done: bool,
    closed: bool,
    offers: seq<Offer>)     // history
  {
    function Log(): seq<Event> {
      received + buffer
    }
  }

  datatype Pump =
    | Idle
    | Delivering(event: Event, todo: seq<Sid>, last: bool) // last: the pump returns afterwards
    | Exited

  datatype Closing = NotClosing | Cancelling | WaitingForPumps | ClosedDown

  datatype Client = Client(
    subs: map<Sid, Subscriber>,
    listeners: seq<Sid>,
    pump: Pump,
    closing: Closing,
    cancelled: bool,  // the client's context
    connected: bool,
    backlog: nat,     // frames that arrived and were not read
    read: seq<Event>) // history: every event the pump delivered or is delivering

  datatype Action =
    | Subscribe(sid: Sid)
    | Unsubscribe(sid: Sid)
    | Receive(sid: Sid)
    | Arrive
    | ParentCancels
    | ReadFrame(event: Event)  // a frame, or one that does not decode (an error event)
    | ReadFails(event: Event)  // an abnormal read error
    | ReadEnds                 // a normal websocket close
    | Offered(outcome: Outcome)
    | DeliveryEnds
    | CloseBegins
    | CloseCancels
    | CloseFinishes

  function Without<T(==)>(listeners: seq<T>, sid: T): seq<T> {
    if listeners == [] then []
    else if listeners[0] == sid then listeners[1..]
    else [listeners[0]] + Without(listeners[1..], sid)
  }

  /** Which case of the select in deliver can be taken.  (A subscriber that goes
      away after the first check may still be sent to.) */
  predicate CanOffer(c: Client, outcome: Outcome)
    requires c.pump.Delivering? && c.pump.todo != [] && c.pump.todo[0] in c.subs
  {
    var s := c.subs[c.pump.todo[0]];
    match outcome
    case Delivered => |s.buffer| < CAPACITY
    case SkippedGone => s.done
    case SkippedShutdown => c.pump.event.Critical() && c.cancelled
    case SkippedFull => !c.pump.event.Critical() && |s.buffer| == CAPACITY && !s.done
  }

  predicate Enabled(c: Client, a: Action) {
    match a
    case Subscribe(sid) => sid !in c.subs
    case Unsubscribe(sid) => sid in c.subs
    case Receive(sid) => sid in c.subs && c.subs[sid].buffer != []
    case Arrive => c.connected
    case ParentCancels => true
    case ReadFrame(_) => c.pump.Idle? && c.backlog > 0
    case ReadFails(event) => c.pump.Idle? && event.kind.Error?
    case ReadEnds => c.pump.Idle?
    case Offered(outcome) =>
      c.pump.Delivering? && c.pump.todo != [] && c.pump.todo[0] in c.subs && CanOffer(c, outcome)
    case DeliveryEnds => c.pump.Delivering? && c.pump.todo == []
    case CloseBegins => c.closing.NotClosing?
    case CloseCancels => c.closing.Cancelling?
    case CloseFinishes => c.closing.WaitingForPumps? && c.pump.Exited?
  }

  function Offers(s: Subscriber, event: Event, outcome: Outcome): Subscriber {
    s.(offers := s.offers + [Offer(event, outcome, |s.buffer|)],
       buffer := if outcome.Delivered? then s.buffer + [event] else s.buffer)
  }

  function AfterLeaving(c: Client, sid: Sid): Client
    requires sid in c.subs
  {
    c.(subs := c.subs[sid := c.subs[sid].(done := true)], listeners := Without(c.listeners, sid))
  }

  /** The pump takes a copy of the listeners; an error event is its last. */
  function AfterRead(c: Client, event: Event): Client {
    c.(read := c.read + [event], pump := Delivering(event, c.listeners, event.kind.Error?))
  }

  function AfterReceive(c: Client, sid: Sid): Client
    requires Enabled(c, Receive(sid))
  {
    var s := c.subs[sid];
    c.(subs := c.subs[sid := s.(buffer := s.buffer[1..], received := s.received + [s.buffer[0]])])
  }

  function AfterOffer(c: Client, outcome: Outcome): Client
    requires Enabled(c, Offered(outcome))
  {
    var sid := c.pump.todo[0];
    c.(subs := c.subs[sid := Offers(c.subs[sid], c.pump.event, outcome)],
       pump := c.pump.(todo := c.pump.todo[1..]))
  }

  function Next(c: Client, a: Action): Client
    requires Enabled(c, a)
  {
    match a
    case Subscribe(sid) =>
      c.(subs := c.subs[sid := Subscriber(|c.read|, [], [], false, false, [])], listeners := c.listeners + [sid])
    case Unsubscribe(sid) => if sid in c.listeners then AfterLeaving(c, sid) else c
    case Receive(sid) => AfterReceive(c, sid)
    case Arrive => c.(backlog := c.backlog + 1)
    case ParentCancels => c.(cancelled := true)
    case ReadFrame(event) => AfterRead(c, event).(backlog := c.backlog - 1)
    case ReadFails(event) => AfterRead(c, event)
    case ReadEnds => c.(pump := Exited)
    case Offered(outcome) => AfterOffer(c, outcome)
    case DeliveryEnds => c.(pump := if c.pump.last then Exited else Idle)
    case CloseBegins => c.(closing := Cancelling)
    case CloseCancels => c.(cancelled := true, connected := false, closing := WaitingForPumps)
    case CloseFinishes =>
      c.(subs := map sid <- c.subs :: if sid in c.listeners then c.subs[sid].(closed := true) else c.subs[sid],
         listeners := [], closing := ClosedDown)
  }

  predicate Init(c: Client) {
    c == Client(map[], [], Idle, NotClosing, false, true, 0, [])
  }

  // Histories

  function Events(offers: seq<Offer>): (e: seq<Event>)
    ensures |e| == |offers|
  {
    seq(|offers|, i requires 0 <= i < |offers| => offers[i].event)
  }

  function DeliveredOf(offers: seq<Offer>): seq<Event> {
    if offers == [] then []
    else
      var last := offers[|offers| - 1];
      DeliveredOf(offers[..|offers| - 1]) + if last.outcome.Delivered? then [last.event] else []
  }

  /** The done, error and state events, in order. */
  function Criticals(events: seq<Event>): seq<Event> {
    if events == [] then []
    else
      var last := events[|events| - 1];
      Criticals(events[..|events| - 1]) + if last.Critical() then [last] else []
  }

  // The invariant

  predicate Distinct<T(==)>(sids: seq<T>) {
    forall i, j :: 0 <= i < j < |sids| ==> sids[i] != sids[j]
  }

  predicate IsPending(c: Client, sid: Sid) {
    c.pump.Delivering? && sid in c.pump.todo
  }

  /** The subscriber was offered the events read since it came, in order, up to
      now, or up to the one being delivered. */
  predicate UpToDate(c: Client, sid: Sid)
    requires sid in c.subs
  {
    var s := c.subs[sid];
    && s.since + |s.offers| + (if IsPending(c, sid) then 1 else 0) <= |c.read|
    && (sid in c.listeners || IsPending(c, sid) ==>
          s.since + |s.offers| + (if IsPending(c, sid) then 1 else 0) == |c.read|)
    && Events(s.offers) == c.read[s.since..s.since + |s.offers|]
  }

  predicate OfferOk(c: Client, s: Subscriber, o: Offer) {
    match o.outcome
    case Delivered => true
    case SkippedFull => !o.event.Critical() && o.occupancy == CAPACITY
    case SkippedGone => s.done
    case SkippedShutdown => o.event.Critical() && c.cancelled
  }

  predicate SubscriberOk(c: Client, sid: Sid)
    requires sid in c.subs
  {
    var s := c.subs[sid];
    && |s.buffer| <= CAPACITY
    && s.Log() == DeliveredOf(s.offers)
    && (forall o <- s.offers :: OfferOk(c, s, o))
    && (if sid in c.listeners then !s.done && !s.closed else s.done != s.closed)
    && (s.closed ==> c.pump.Exited? && c.closing.ClosedDown?)
    && UpToDate(c, sid)
  }

  ghost predicate Inv(c: Client) {
    && Distinct(c.listeners) && (forall sid <- c.listeners :: sid in c.subs)
    && (c.pump.Delivering? ==>
          && Distinct(c.pump.todo) && (forall sid <- c.pump.todo :: sid in c.subs)
          && c.read != [] && c.read[|c.read| - 1] == c.pump.event
          && (c.pump.last <==> c.pump.event.kind == Error))
    && (forall sid <- c.subs :: SubscriberOk(c, sid))
    && (c.closing.WaitingForPumps? || c.closing.ClosedDown? ==> c.cancelled && !c.connected)
    && (c.closing.ClosedDown? ==> c.pump.Exited?)
  }

  lemma {:induction false} WithoutMembers<T>(listeners: seq<T>, sid: T)
    requires Distinct(listeners)
    ensures forall x <- Without(listeners, sid) :: x in listeners && x != sid
    ensures forall x <- listeners :: x != sid ==> x in Without(listeners, sid)
  {
    if listeners != [] {
      DistinctRest(listeners);
      WithoutMembers(listeners[1..], sid);
      assert listeners == [listeners[0]] + listeners[1..];
    }
  }

  lemma DistinctRest<T>(sids: seq<T>)
    requires Distinct(sids) && sids != []
    ensures Distinct(sids[1..]) && sids[0] !in sids[1..]
  {
  }

  lemma {:induction false} WithoutDistinct<T>(listeners: seq<T>, sid: T)
    requires Distinct(listeners)
    ensures Distinct(Without(listeners, sid))
  {
    if listeners != [] {
      DistinctRest(listeners);
      WithoutDistinct(listeners[1..], sid);
      WithoutMembers(listeners[1..], sid);
    }
  }

  /** Nothing that matters to this subscriber happened. */
  predicate Unaffected(c: Client, d: Client, sid: Sid) {
    && sid in c.subs && sid in d.subs && d.subs[sid] == c.subs[sid]
    && (sid in d.listeners <==> sid in c.listeners)
    && IsPending(d, sid) == IsPending(c, sid)
    && d.read == c.read
    && (c.cancelled ==> d.cancelled)
    && (c.pump.Exited? && c.closing.ClosedDown? ==> d.pump.Exited? && d.closing.ClosedDown?)
  }

  lemma UnaffectedStaysOk(c: Client, d: Client, sid: Sid)
    requires Unaffected(c, d, sid) && SubscriberOk(c, sid)
    ensures SubscriberOk(d, sid)
  {
  }

  lemma SubscribeKeepsInv(c: Client, sid: Sid)
    requires Inv(c) && Enabled(c, Subscribe(sid))
    ensures Inv(Next(c, Subscribe(sid)))
  {
    var d := Next(c, Subscribe(sid));
    forall other <- d.subs ensures SubscriberOk(d, other) {
      if other != sid {
        UnaffectedStaysOk(c, d, other);
      }
    }
  }

  lemma LeavingKeepsInv(c: Client, sid: Sid)
    requires Inv(c) && sid in c.listeners
    ensures Inv(AfterLeaving(c, sid))
  {
    var d := AfterLeaving(c, sid);
    WithoutMembers(c.listeners, sid);
    WithoutDistinct(c.listeners, sid);
    forall other <- d.subs ensures SubscriberOk(d, other) {
      if other == sid {
        LeaverIsOk(c, sid);
      } else {
        UnaffectedStaysOk(c, d, other);
      }
    }
  }

  lemma LeaverIsOk(c: Client, sid: Sid)
    requires sid in c.subs && sid in c.listeners && SubscriberOk(c, sid) && sid !in Without(c.listeners, sid)
    ensures SubscriberOk(AfterLeaving(c, sid), sid)
  {
  }

  lemma FinishKeepsInv(c: Client)
    requires Inv(c) && Enabled(c, CloseFinishes)
    ensures Inv(Next(c, CloseFinishes))
  {
  }

  lemma ReceiverIsOk(c: Client, sid: Sid)
    requires Inv(c) && Enabled(c, Receive(sid))
    ensures SubscriberOk(AfterReceive(c, sid), sid)
  {
  }

  lemma ReceiveKeepsInv(c: Client, sid: Sid)
    requires Inv(c) && Enabled(c, Receive(sid))
    ensures Inv(AfterReceive(c, sid))
  {
    var d := AfterReceive(c, sid);
    ReceiverIsOk(c, sid);
    forall other <- d.subs ensures SubscriberOk(d, other) {
      if other != sid {
        UnaffectedStaysOk(c, d, other);
      }
    }
  }

  lemma ReadKeepsInv(c: Client, event: Event, backlog: nat)
    requires Inv(c) && c.pump.Idle?
    ensures Inv(AfterRead(c, event).(backlog := backlog))
  {
  }

  lemma EventsAppend(offers: seq<Offer>, o: Offer)
    ensures Events(offers + [o]) == Events(offers) + [o.event]
  {
  }

  lemma OneLonger(read: seq<Event>, lo: nat, hi: nat)
    requires lo <= hi < |read|
    ensures read[lo..hi + 1] == read[lo..hi] + [read[hi]]
  {
  }

  lemma OfferedIsUpToDate(c: Client, d: Client, s: Subscriber, outcome: Outcome)
    requires c.pump.Delivering? && c.pump.todo != [] && Distinct(c.pump.todo)
    requires var sid := c.pump.todo[0];
             && sid in c.subs && UpToDate(c, sid) && c.subs[sid] == s
             && sid in d.subs && d.subs[sid] == Offers(s, c.pump.event, outcome)
    requires c.read != [] && c.read[|c.read| - 1] == c.pump.event
    requires d.read == c.read && d.pump == c.pump.(todo := c.pump.todo[1..])
    ensures UpToDate(d, c.pump.todo[0])
  {
    DistinctRest(c.pump.todo);
    EventsAppend(s.offers, Offer(c.pump.event, outcome, |s.buffer|));
    OneLonger(c.read, s.since, s.since + |s.offers|);
  }

  lemma OfferedLog(s: Subscriber, event: Event, outcome: Outcome)
    requires s.Log() == DeliveredOf(s.offers)
    ensures Offers(s, event, outcome).Log() == DeliveredOf(Offers(s, event, outcome).offers)
  {
  }

  lemma OfferToHeadIsOk(c: Client, outcome: Outcome)
    requires Inv(c) && Enabled(c, Offered(outcome))
    ensures SubscriberOk(AfterOffer(c, outcome), c.pump.todo[0])
  {
    var d, sid := AfterOffer(c, outcome), c.pump.todo[0];
    var s, t := c.subs[sid], d.subs[sid];
    assert SubscriberOk(c, sid);
    OfferedIsUpToDate(c, d, s, outcome);
    OfferedLog(s, c.pump.event, outcome);
    forall o <- t.offers ensures OfferOk(d, t, o) {
      if o in s.offers {
        assert OfferOk(c, s, o);
      }
    }
  }

  lemma OfferLeavesOthers(c: Client, outcome: Outcome, other: Sid)
    requires Enabled(c, Offered(outcome))
    requires other in c.subs && other != c.pump.todo[0] && SubscriberOk(c, other)
    ensures SubscriberOk(AfterOffer(c, outcome), other)
  {
    var d := AfterOffer(c, outcome);
    assert IsPending(d, other) == IsPending(c, other) by {
      assert c.pump.todo == [c.pump.todo[0]] + d.pump.todo;
    }
    UnaffectedStaysOk(c, d, other);
  }

  lemma OfferKeepsInv(c: Client, outcome: Outcome)
    requires Inv(c) && Enabled(c, Offered(outcome))
    ensures Inv(AfterOffer(c, outcome))
  {
    var d := AfterOffer(c, outcome);
    DistinctRest(c.pump.todo);
    OfferToHeadIsOk(c, outcome);
    forall other <- d.subs ensures SubscriberOk(d, other) {
      if other != c.pump.todo[0] {
        OfferLeavesOthers(c, outcome, other);
      }
    }
  }

  lemma OtherStepsKeepInv(c: Client, a: Action)
    requires Inv(c) && Enabled(c, a)
    requires a.Arrive? || a.ParentCancels? || a.ReadEnds? || a.DeliveryEnds? || a.CloseBegins? || a.CloseCancels?
    ensures Inv(Next(c, a))
  {
    var d := Next(c, a);
    forall sid <- d.subs ensures SubscriberOk(d, sid) {
      UnaffectedStaysOk(c, d, sid);
    }
  }

  lemma PumpStepsKeepInv(c: Client, a: Action)
    requires Inv(c) && Enabled(c, a)
    requires a.ReadFrame? || a.ReadFails? || a.Offered?
    ensures Inv(Next(c, a))
  {
    if a.Offered? {
      OfferKeepsInv(c, a.outcome);
    } else {
      ReadKeepsInv(c, a.event, if a.ReadFrame? then c.backlog - 1 else c.backlog);
    }
  }

  lemma RegistryStepsKeepInv(c: Client, a: Action)
    requires Inv(c) && Enabled(c, a)
    requires a.Subscribe? || a.Unsubscribe? || a.Receive? || a.CloseFinishes?
    ensures Inv(Next(c, a))
  {
    if a.Subscribe? {
      SubscribeKeepsInv(c, a.sid);
    } else if a.Receive? {
      ReceiveKeepsInv(c, a.sid);
    } else if a.CloseFinishes? {
      FinishKeepsInv(c);
    } else if a.sid in c.listeners {
      LeavingKeepsInv(c, a.sid);
    }
  }

  lemma StepKeepsInv(c: Client, a: Action)
    requires Inv(c) && Enabled(c, a)
    ensures Inv(Next(c, a))
  {
    if a.ReadFrame? || a.ReadFails? || a.Offered? {
      PumpStepsKeepInv(c, a);
    } else if a.Subscribe? || a.Unsubscribe? || a.Receive? || a.CloseFinishes? {
      RegistryStepsKeepInv(c, a);
    } else {
      OtherStepsKeepInv(c, a);
    }
  }

  datatype Run = Run(states: seq<Client>, actions: seq<Action>)

  predicate StepAt(r: Run, i: nat)
    requires i < |r.actions| < |r.states|
  {
    Enabled(r.states[i], r.actions[i]) && r.states[i + 1] == Next(r.states[i], r.actions[i])
  }

  ghost predicate IsRun(r: Run) {
    && |r.states| == |r.actions| + 1
    && Init(r.states[0])
    && forall i :: 0 <= i < |r.actions| ==> StepAt(r, i)
  }

  lemma {:induction false} RunKeepsInv(r: Run, i: nat)
    requires IsRun(r) && i < |r.states|
    ensures Inv(r.states[i])
  {
    if i > 0 {
      RunKeepsInv(r, i - 1);
      assert StepAt(r, i - 1);
      StepKeepsInv(r.states[i - 1], r.actions[i - 1]);
    }
  }

  // Ordered delivery, with nothing critical missing

  lemma {:induction false} DeliveredIsSubsequence(offers: seq<Offer>)
    ensures Subsequence(DeliveredOf(offers), Events(offers))
  {
    if offers != [] {
      var front, last := offers[..|offers| - 1], offers[|offers| - 1];
      DeliveredIsSubsequence(front);
      assert Events(offers) == Events(front) + [last.event];
      SubsequenceAppend(DeliveredOf(front), Events(front), last.event);
      assert DeliveredOf(front) + [] == DeliveredOf(front);
    }
  }

  lemma CriticalsAppend(events: seq<Event>, last: Event)
    ensures Criticals(events + [last]) == Criticals(events) + if last.Critical() then [last] else []
  {
  }

  lemma {:induction false} CriticalsSurvive(offers: seq<Offer>)
    requires forall o <- offers :: o.event.Critical() ==> o.outcome.Delivered?
    ensures Criticals(DeliveredOf(offers)) == Criticals(Events(offers))
  {
    if offers != [] {
      var front, last := offers[..|offers| - 1], offers[|offers| - 1];
      CriticalsSurvive(front);
      assert Events(offers) == Events(front) + [last.event];
      CriticalsAppend(Events(front), last.event);
      CriticalsAppend(DeliveredOf(front), last.event);
      assert DeliveredOf(front) + [] == DeliveredOf(front);
      assert last in offers;
    }
  }

  /** Of the events the pump has finished offering to this subscriber. */
  function OfferedSoFar(c: Client, sid: Sid): seq<Event>
    requires sid in c.subs && UpToDate(c, sid)
  {
    c.read[c.subs[sid].since..c.subs[sid].since + |c.subs[sid].offers|]
  }

  /** A subscriber that is still subscribed has, received or waiting in its
      channel, a subsequence of what the pump read since it came; whatever is
      missing was offered to a full buffer and is not critical, unless the
      client was shutting down.  Before shutdown no critical event is missing
      and none is out of order, and only the event being delivered is not yet
      accounted for. */
  lemma CriticalDelivery(r: Run, i: nat, sid: Sid)
    requires IsRun(r) && i < |r.states| && sid in r.states[i].listeners
    ensures var c := r.states[i];
            && sid in c.subs && UpToDate(c, sid)
            && Subsequence(c.subs[sid].Log(), OfferedSoFar(c, sid))
            && OfferedSoFar(c, sid) ==
                 c.read[c.subs[sid].since..if IsPending(c, sid) then |c.read| - 1 else |c.read|]
            && (!c.cancelled ==> Criticals(c.subs[sid].Log()) == Criticals(OfferedSoFar(c, sid)))
    ensures var c := r.states[i];
            forall o <- c.subs[sid].offers :: !o.outcome.Delivered? ==>
              if o.event.kind == Done || o.event.kind == Error || o.event.kind == State then c.cancelled
              else o.occupancy == 100
  {
    RunKeepsInv(r, i);
    var c := r.states[i];
    assert SubscriberOk(c, sid);
    var s := c.subs[sid];
    DeliveredIsSubsequence(s.offers);
    forall o <- s.offers ensures OfferOk(c, s, o) {
    }
    if !c.cancelled {
      CriticalsSurvive(s.offers);
    }
  }

  // The pump outlives every turn

  lemma {:induction false} FramesAreRead(r: Run, i: nat)
    requires IsRun(r) && i < |r.states|
    ensures r.states[i].backlog == CountArrivals(r.actions[..i]) - CountFrames(r.actions[..i])
  {
    if i > 0 {
      FramesAreRead(r, i - 1);
      assert StepAt(r, i - 1);
      assert r.actions[..i][..i - 1] == r.actions[..i - 1];
    }
  }

  function CountArrivals(actions: seq<Action>): nat {
    if actions == [] then 0
    else CountArrivals(actions[..|actions| - 1]) + if actions[|actions| - 1].Arrive? then 1 else 0
  }

  function CountFrames(actions: seq<Action>): nat {
    if actions == [] then 0
    else CountFrames(actions[..|actions| - 1]) + if actions[|actions| - 1].ReadFrame? then 1 else 0
  }

  /** In every run the pump stops only when the connection ends or after it has
      delivered an error.  In particular a done event ends a turn and not the
      pump: having delivered it, or any other event, the pump is ready to read,
      and it reads the next frame as soon as one waits. */
  lemma PumpEndsExactly(r: Run, i: nat, next: Event)
    requires IsRun(r) && i < |r.actions| && !r.states[i].pump.Exited?
    ensures var c, d, a := r.states[i], r.states[i + 1], r.actions[i];
            && (d.pump.Exited? <==>
                  a == ReadEnds || (a == DeliveryEnds && c.pump.Delivering? && c.pump.event.kind == Error))
            && (a == DeliveryEnds && c.pump.Delivering? && c.pump.event.kind != Error ==> d.pump.Idle?)
            && (d.pump.Idle? ==>
                  && (Enabled(d, ReadFrame(next)) <==> d.backlog > 0)
                  && (d.backlog > 0 ==>
                        var e := Next(d, ReadFrame(next));
                        e.read == d.read + [next] && e.pump.Delivering? && e.pump.event == next
                        && e.pump.todo == d.listeners && e.backlog == d.backlog - 1)
                  && (next.kind == Error ==>
                        && Enabled(d, ReadFails(next))
                        && Next(d, ReadFails(next)).pump == Delivering(next, d.listeners, true)))
  {
    RunKeepsInv(r, i);
    assert StepAt(r, i);
  }

  // Channels are closed safely

  /** The pump never sends on a closed channel, and nothing is closed twice. */
  lemma ClosedSafely(r: Run, i: nat)
    requires IsRun(r) && i < |r.actions|
    ensures var c, a := r.states[i], r.actions[i];
            && (a == Offered(Delivered) ==> c.pump.Delivering? && c.pump.todo != [] && c.pump.todo[0] in c.subs
                                            && !c.subs[c.pump.todo[0]].closed)
            && (a.Unsubscribe? && a.sid in c.listeners ==> a.sid in c.subs && !c.subs[a.sid].done)
            && (a.CloseFinishes? ==>
                  Distinct(c.listeners) && forall sid <- c.listeners :: sid in c.subs && !c.subs[sid].closed)
  {
    RunKeepsInv(r, i);
    assert StepAt(r, i);
    var c := r.states[i];
    forall sid <- c.subs ensures SubscriberOk(c, sid) {
    }
  }

  lemma StepsAfterClose(c: Client, a: Action, sid: Sid)
    requires Enabled(c, a) && c.closing.ClosedDown? && sid in Next(c, a).subs
    ensures Next(c, a).closing.ClosedDown? && c.subs.Keys <= Next(c, a).subs.Keys
    ensures Next(c, a).subs[sid].closed <==> sid in c.subs && c.subs[sid].closed
  {
  }

  /** The channels that are ever closed: exactly those of the subscribers that
      came before Close finished and had not unsubscribed by then. */
  lemma {:induction false} ClosedExactly(r: Run, j: nat, k: nat, sid: Sid)
    requires IsRun(r) && j < k < |r.states| && r.actions[j].CloseFinishes? && sid in r.states[k].subs
    ensures r.states[k].closing.ClosedDown? && r.states[j].subs.Keys <= r.states[k].subs.Keys
    ensures r.states[k].subs[sid].closed <==> sid in r.states[j].subs && !r.states[j].subs[sid].done
    decreases k - j
  {
    assert StepAt(r, k - 1);
    if k == j + 1 {
      RunKeepsInv(r, j);
      assert SubscriberOk(r.states[j], sid);
    } else {
      ClosedStaysDown(r, j, k - 1);
      StepsAfterClose(r.states[k - 1], r.actions[k - 1], sid);
      if sid in r.states[k - 1].subs {
        ClosedExactly(r, j, k - 1, sid);
      }
    }
  }

  lemma {:induction false} ClosedStaysDown(r: Run, j: nat, k: nat)
    requires IsRun(r) && j < k < |r.states| && r.actions[j].CloseFinishes?
    ensures r.states[k].closing.ClosedDown? && r.states[j].subs.Keys <= r.states[k].subs.Keys
    decreases k - j
  {
    assert StepAt(r, k - 1);
    if k > j + 1 {
      ClosedStaysDown(r, j, k - 1);
    }
  }

  /** Unsubscribing first leaves a channel open for good, whatever Close does, and
      so does subscribing afterwards. */
  lemma UnsubscribedStaysOpen() returns (r: Run)
    ensures IsRun(r) && r.actions == [Subscribe(0), Unsubscribe(0), ReadEnds, CloseBegins, CloseCancels, CloseFinishes,
                                      Subscribe(1)]
    ensures var c := r.states[|r.actions|];
            c.closing.ClosedDown? && 0 in c.subs && c.subs[0].done && !c.subs[0].closed
            && 1 in c.subs && !c.subs[1].closed
  {
    r := SubscribeAndLeave();
    r := Then(r, ReadEnds);
    r := Then(r, CloseBegins);
    r := Then(r, CloseCancels);
    r := Then(r, CloseFinishes);
    r := Then(r, Subscribe(1));
  }

  lemma SubscribeAndLeave() returns (r: Run)
    ensures IsRun(r) && r.actions == [Subscribe(0), Unsubscribe(0)] && |r.states| == 3
    ensures r.states[2] == Client(map[0 := Subscriber(0, [], [], true, false, [])], [], Idle, NotClosing,
                                  false, true, 0, [])
  {
    r := Run([Client(map[], [], Idle, NotClosing, false, true, 0, [])], []);
    r := Then(r, Subscribe(0));
    r := Then(r, Unsubscribe(0));
  }

  // One step of a run being built.
  lemma Then(r: Run, a: Action) returns (q: Run)
    requires IsRun(r) && Enabled(r.states[|r.actions|], a)
    ensures q == Run(r.states + [Next(r.states[|r.actions|], a)], r.actions + [a]) && IsRun(q)
  {
    q := Run(r.states + [Next(r.states[|r.actions|], a)], r.actions + [a]);
    forall i | 0 <= i < |q.actions| ensures StepAt(q, i) {
      assert i < |r.actions| ==> StepAt(r, i);
    }
  }

  /** A delivery waits exactly while a critical event meets a full buffer of a
      subscriber that is still there, before shutdown. */
  lemma BlockedExactlyWhen(c: Client)
    requires Inv(c) && c.pump.Delivering? && c.pump.todo != []
    ensures var s := c.subs[c.pump.todo[0]];
            (exists outcome :: Enabled(c, Offered(outcome)))
            <==> !(c.pump.event.Critical() && |s.buffer| == CAPACITY && !s.done && !c.cancelled)
  {
    var s := c.subs[c.pump.todo[0]];
    assert SubscriberOk(c, c.pump.todo[0]);
    if |s.buffer| < CAPACITY {
      assert Enabled(c, Offered(Delivered));
    } else if s.done {
      assert Enabled(c, Offered(SkippedGone));
    } else if !c.pump.event.Critical() {
      assert Enabled(c, Offered(SkippedFull));
    } else if c.cancelled {
      assert Enabled(c, Offered(SkippedShutdown));
    }
  }

  /** So unsubscribing frees the pump from a subscriber that does not receive. */
  lemma LeavingUnblocks(c: Client)
    requires Inv(c) && c.pump.Delivering? && c.pump.todo != [] && c.pump.todo[0] in c.listeners
    ensures Enabled(c, Unsubscribe(c.pump.todo[0]))
    ensures exists outcome :: Enabled(Next(c, Unsubscribe(c.pump.todo[0])), Offered(outcome))
  {
    StepKeepsInv(c, Unsubscribe(c.pump.todo[0]));
    BlockedExactlyWhen(Next(c, Unsubscribe(c.pump.todo[0])));
  }

  /** Cancelling the client's context frees the pump, whatever it waits for. */
  lemma CancellingUnblocks(c: Client)
    requires Inv(c) && c.pump.Delivering? && c.pump.todo != []
    ensures exists outcome :: Enabled(Next(c, ParentCancels), Offered(outcome))
  {
    StepKeepsInv(c, ParentCancels);
    BlockedExactlyWhen(Next(c, ParentCancels));
  }

  // Close comes to an end

  predicate PumpActs(a: Action) {
    a.ReadFrame? || a.ReadFails? || a.ReadEnds? || a.Offered? || a.DeliveryEnds?
  }

  /** What is left for the pump to do once nothing more can arrive. */
  function Work(c: Client): (nat, nat, nat) {
    match c.pump
    case Exited => (0, 0, 0)
    case Idle => (2, c.backlog, 0)
    case Delivering(_, todo, last) => if last then (1, 0, |todo|) else (2, c.backlog, 1 + |todo|)
  }

  predicate Less(a: (nat, nat, nat), b: (nat, nat, nat)) {
    a.0 < b.0 || (a.0 == b.0 && (a.1 < b.1 || (a.1 == b.1 && a.2 < b.2)))
  }

  lemma PumpCanMove(c: Client) returns (a: Action)
    requires Inv(c) && c.closing.WaitingForPumps?
    ensures Enabled(c, a) && (PumpActs(a) || a.CloseFinishes?)
  {
    match c.pump {
      case Exited => a := CloseFinishes;
      case Idle => a := ReadEnds;
      case Delivering(_, todo, _) =>
        if todo == [] {
          a := DeliveryEnds;
        } else {
          BlockedExactlyWhen(c);
          var outcome :| Enabled(c, Offered(outcome));
          a := Offered(outcome);
        }
    }
  }

  /** While Close waits, the pump can always move, each of its moves leaves less
      to do, and nobody else adds to it. */
  lemma CloseMakesProgress(c: Client, a: Action)
    requires Inv(c) && c.closing.WaitingForPumps? && Enabled(c, a)
    ensures exists b :: Enabled(c, b) && (PumpActs(b) || b.CloseFinishes?)
    ensures if PumpActs(a) then Less(Work(Next(c, a)), Work(c)) else Work(Next(c, a)) == Work(c)
    ensures !a.CloseFinishes? ==> Next(c, a).closing.WaitingForPumps?
  {
    var b := PumpCanMove(c);
  }

  predicate CanDo(c: Client, actions: seq<Action>)
    decreases |actions|
  {
    actions != [] ==> Enabled(c, actions[0]) && CanDo(Next(c, actions[0]), actions[1..])
  }

  function After(c: Client, actions: seq<Action>): Client
    requires CanDo(c, actions)
    decreases |actions|
  {
    if actions == [] then c else After(Next(c, actions[0]), actions[1..])
  }

  /** So Close always gets to the end: from wherever it waits, moves of the pump
      alone, with nobody receiving, take it there. */
  lemma {:induction false} CloseEnds(c: Client) returns (actions: seq<Action>)
    requires Inv(c) && c.closing.WaitingForPumps?
    ensures CanDo(c, actions) && After(c, actions).closing.ClosedDown?
    ensures forall a <- actions :: PumpActs(a) || a.CloseFinishes?
    decreases Work(c).0, Work(c).1, Work(c).2
  {
    var a := PumpCanMove(c);
    actions := [a];
    if PumpActs(a) {
      StepKeepsInv(c, a);
      CloseMakesProgress(c, a);
      var rest := CloseEnds(Next(c, a));
      actions := [a] + rest;
      assert actions[1..] == rest;
    } else {
      assert actions[1..] == [];
    }
  }

  /** A consumer can take out everything that is in its channel, in order, even
      when the channel is closed or its subscriber gone. */
  lemma {:induction false} ConsumerGetsAll(c: Client, sid: Sid) returns (actions: seq<Action>)
    requires sid in c.subs
    ensures CanDo(c, actions) && forall a <- actions :: a == Receive(sid)
    ensures var d := After(c, actions);
            sid in d.subs && d.subs[sid].buffer == [] && d.subs[sid].received == c.subs[sid].Log()
    decreases |c.subs[sid].buffer|
  {
    var s := c.subs[sid];
    actions := [];
    if s.buffer == [] {
      assert s.Log() == s.received;
    } else {
      var d := Next(c, Receive(sid));
      assert d.subs[sid].Log() == s.Log() by {
        assert s.buffer == [s.buffer[0]] + s.buffer[1..];
      }
      var rest := ConsumerGetsAll(d, sid);
      actions := [Receive(sid)] + rest;
      assert actions[1..] == rest;
    }
  }
}
