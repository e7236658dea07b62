/** The SSE broker's locking scheme (internal/api/broker.go): one reader/writer lock, sends under the read lock, every
    change of the map and every close under the write lock.

    Each step is one critical section under the write lock, or one channel operation. `sent`, `received`, `born`,
    `taken`, `missed` and `log` are history. */
module Broker {
  import opened Common
  import opened Scopes
  import opened Streams

  const SUBSCRIBER_BUFFER_SIZE := 256

  datatype Subscriber = Subscriber(
    filter: Filter,
    registered: bool,
    closes: nat,
    buffer: seq<Event>,
    sent: seq<Event>,       // everything ever enqueued
    received: seq<Event>,   // everything the consumer took out
    born: nat,              // batches published before it subscribed
    taken: nat,             // batches that came to it
    missed: bool)

  datatype Publisher =
    | Idle
    | Sending(events: seq<Event>, todo: set<nat>, dropped: set<nat>)                        // holds the read lock
    | InSub(events: seq<Event>, sub: nat, next: nat, todo: set<nat>, dropped: set<nat>)     // holds the read lock
    | Dropping(dropped: set<nat>)                                                           // read lock released

  datatype State = State(subs: seq<Subscriber>, pubs: seq<Publisher>, closed: bool, panicked: bool,
    log: seq<seq<Event>>)

  datatype Step =
    | Subscribe(filter: Filter)
    | Cancel(i: nat)
    | Receive(i: nat)
    | Shutdown
    | BeginPublish(p: nat, events: seq<Event>)
    | PickSub(p: nat, i: nat)
    | SendNext(p: nat)
    | LeaveSub(p: nat)
    | EndSends(p: nat)
    | Drop(p: nat)

  predicate Reading(pub: Publisher) {
    pub.Sending? || pub.InSub?
  }

  /** The write lock can be taken: no publisher holds the read lock. */
  predicate Unlocked(s: State) {
    forall p :: 0 <= p < |s.pubs| ==> !Reading(s.pubs[p])
  }

  ghost predicate Enabled(s: State, step: Step) {
    match step
    case Subscribe(_) => Unlocked(s)
    case Cancel(i) => Unlocked(s) && i < |s.subs|
    case Receive(i) => i < |s.subs| && s.subs[i].buffer != []
    case Shutdown => Unlocked(s)
    case BeginPublish(p, _) => p < |s.pubs| && s.pubs[p].Idle?
    case PickSub(p, i) => p < |s.pubs| && s.pubs[p].Sending? && i in s.pubs[p].todo && i < |s.subs|
    case SendNext(p) => p < |s.pubs| && s.pubs[p].InSub? && s.pubs[p].next < |s.pubs[p].events| &&
      s.pubs[p].sub < |s.subs|
    case LeaveSub(p) => p < |s.pubs| && s.pubs[p].InSub? && s.pubs[p].next == |s.pubs[p].events|
    case EndSends(p) => p < |s.pubs| && s.pubs[p].Sending? && s.pubs[p].todo == {}
    case Drop(p) => p < |s.pubs| && s.pubs[p].Dropping? && Unlocked(s)
  }

  function SetSub(s: State, i: nat, sub: Subscriber): State
    requires i < |s.subs|
  {
    s.(subs := s.subs[i := sub])
  }

  function SetPub(s: State, p: nat, pub: Publisher): State
    requires p < |s.pubs|
  {
    s.(pubs := s.pubs[p := pub])
  }

  /** close and delete every registered subscriber among `ids`; closing a closed channel would panic. */
  function CloseAll(s: State, ids: set<nat>): State {
    s.(subs := seq(|s.subs|, i requires 0 <= i < |s.subs| =>
                     if i in ids && s.subs[i].registered
                     then s.subs[i].(registered := false, closes := s.subs[i].closes + 1) else s.subs[i]),
       panicked := s.panicked || exists i ::
         0 <= i < |s.subs| && i in ids && s.subs[i].registered && s.subs[i].closes > 0)
  }

  function Registered(s: State): set<nat> {
    set i | 0 <= i < |s.subs| && s.subs[i].registered
  }

  function DoSendNext(s: State, p: nat): State
    requires p < |s.pubs| && s.pubs[p].InSub? && s.pubs[p].next < |s.pubs[p].events| && s.pubs[p].sub < |s.subs|
  {
    var pub := s.pubs[p];
    var sub := s.subs[pub.sub];
    var e := pub.events[pub.next];
    if !sub.filter(e) then SetPub(s, p, pub.(next := pub.next + 1))
    else if |sub.buffer| < SUBSCRIBER_BUFFER_SIZE then
      SetPub(SetSub(s.(panicked := s.panicked || sub.closes > 0), pub.sub,
        sub.(buffer := sub.buffer + [e], sent := sub.sent + [e])),
             p, pub.(next := pub.next + 1))
    else
      SetPub(SetSub(s, pub.sub, sub.(missed := true)), p, Sending(pub.events, pub.todo, pub.dropped + {pub.sub}))
  }

  /** The batch is logged, and subscribers out of the map will miss it. */
  function Announce(s: State, events: seq<Event>): State {
    s.(log := s.log + [events],
       subs := seq(|s.subs|, i requires 0 <= i < |s.subs| =>
                     if s.subs[i].registered then s.subs[i] else s.subs[i].(missed := true)))
  }

  /** A publish without events, or with nobody to get them, does nothing. */
  predicate Idles(s: State, events: seq<Event>) {
    events == [] || s.closed || Registered(s) == {}
  }

  ghost function Apply(s: State, step: Step): State
    requires Enabled(s, step)
  {
    match step
    case Subscribe(filter) =>
      // A closed broker hands out a channel that is already closed and registers nothing.
      s.(subs := s.subs + [Subscriber(filter, !s.closed, if s.closed then 1 else 0, [], [], [], |s.log|, 0, false)])
    case Cancel(i) => CloseAll(s, {i})
    case Receive(i) =>
      SetSub(s, i, s.subs[i].(buffer := s.subs[i].buffer[1..], received := s.subs[i].received + [s.subs[i].buffer[0]]))
    case Shutdown => if s.closed then s else CloseAll(s, Registered(s)).(closed := true)
    case BeginPublish(p, events) =>
      if Idles(s, events) then s else SetPub(Announce(s, events), p, Sending(events, Registered(s), {}))
    case PickSub(p, i) =>
      var pub := s.pubs[p];
      SetPub(SetSub(s, i, s.subs[i].(taken := s.subs[i].taken + 1)), p,
             InSub(pub.events, i, 0, pub.todo - {i}, pub.dropped))
    case SendNext(p) => DoSendNext(s, p)
    case LeaveSub(p) => var pub := s.pubs[p]; SetPub(s, p, Sending(pub.events, pub.todo, pub.dropped))
    case EndSends(p) => SetPub(s, p, Dropping(s.pubs[p].dropped))
    case Drop(p) => SetPub(CloseAll(s, s.pubs[p].dropped), p, Idle)
  }

  /** In the map exactly while its channel is open. */
  ghost predicate SubInv(s: State, i: nat) {
    i < |s.subs| &&
    var sub := s.subs[i];
    && sub.closes <= 1 && (sub.registered <==> sub.closes == 0)
    && |sub.buffer| <= SUBSCRIBER_BUFFER_SIZE && sub.sent == sub.received + sub.buffer
    && (s.closed ==> !sub.registered)
  }

  ghost predicate AllRegistered(s: State, ids: set<nat>) {
    forall i :: i in ids ==> i < |s.subs| && s.subs[i].registered
  }

  /** What a publisher under the read lock works on stays in the map. */
  ghost predicate PubInv(s: State, p: nat) {
    p < |s.pubs| &&
    match s.pubs[p]
    case Sending(_, todo, _) => AllRegistered(s, todo)
    case InSub(_, i, _, todo, _) => AllRegistered(s, todo) && i < |s.subs| && s.subs[i].registered
    case _ => true
  }

  ghost predicate SubsOk(s: State) {
    forall i {:trigger SubInv(s, i)} :: 0 <= i < |s.subs| ==> SubInv(s, i)
  }

  ghost predicate PubsOk(s: State) {
    forall p {:trigger PubInv(s, p)} :: 0 <= p < |s.pubs| ==> PubInv(s, p)
  }

  ghost predicate Inv(s: State) {
    !s.panicked && SubsOk(s) && PubsOk(s)
  }

  lemma CloseAllKeepsSubs(s: State, ids: set<nat>)
    requires Inv(s)
    ensures !CloseAll(s, ids).panicked && SubsOk(CloseAll(s, ids))
  {
    var s' := CloseAll(s, ids);
    forall i | 0 <= i < |s.subs| ensures s.subs[i].registered ==> s.subs[i].closes == 0 { assert SubInv(s, i); }
    forall i | 0 <= i < |s'.subs| ensures SubInv(s', i) { assert SubInv(s, i); }
  }

  lemma WriterKeepsInv(s: State, step: Step, s': State)
    requires Inv(s) && Enabled(s, step) && s' == Apply(s, step)
    requires step.Subscribe? || step.Cancel? || step.Shutdown? || step.Drop?
    ensures Inv(s')
  {
    match step {
      case Cancel(i) => CloseAllKeepsSubs(s, {i});
      case Shutdown => CloseAllKeepsSubs(s, Registered(s));
      case Drop(p) => CloseAllKeepsSubs(s, s.pubs[p].dropped);
      case Subscribe(_) =>
    }
    forall i | 0 <= i < |s'.subs| ensures SubInv(s', i) {
      assert i < |s.subs| ==> SubInv(s, i);
      assert step.Cancel? ==> SubInv(CloseAll(s, {step.i}), i);
      assert step.Shutdown? && !s.closed ==> SubInv(CloseAll(s, Registered(s)), i);
      assert step.Drop? ==> SubInv(CloseAll(s, s.pubs[step.p].dropped), i);
    }
    forall p | 0 <= p < |s'.pubs| ensures PubInv(s', p) { assert PubInv(s, p) && !Reading(s.pubs[p]); }
  }

  lemma ReaderKeepsInv(s: State, step: Step, s': State)
    requires Inv(s) && Enabled(s, step) && s' == Apply(s, step)
    requires step.BeginPublish? || step.PickSub? || step.SendNext? || step.LeaveSub? || step.EndSends?
    ensures Inv(s')
  {
    assert PubInv(s, step.p);
    if step.SendNext? {
      assert SubInv(s, s.pubs[step.p].sub);
    }
    forall i | 0 <= i < |s'.subs| ensures SubInv(s', i) { assert SubInv(s, i); }
    forall p | 0 <= p < |s'.pubs| ensures PubInv(s', p) { assert PubInv(s, p); }
  }

  lemma ReceiveKeepsInv(s: State, i: nat, s': State)
    requires Inv(s) && Enabled(s, Receive(i)) && s' == Apply(s, Receive(i))
    ensures Inv(s')
  {
    forall j | 0 <= j < |s'.subs| ensures SubInv(s', j) { assert SubInv(s, j); }
    forall p | 0 <= p < |s'.pubs| ensures PubInv(s', p) { assert PubInv(s, p); }
  }

  lemma StepKeepsInv(s: State, step: Step)
    requires Inv(s) && Enabled(s, step)
    ensures Inv(Apply(s, step))
  {
    if step.Receive? {
      ReceiveKeepsInv(s, step.i, Apply(s, step));
    } else if step.Subscribe? || step.Cancel? || step.Shutdown? || step.Drop? {
      WriterKeepsInv(s, step, Apply(s, step));
    } else {
      ReaderKeepsInv(s, step, Apply(s, step));
    }
  }

  ghost predicate IsRun(steps: seq<Step>, states: seq<State>) {
    && |states| == |steps| + 1
    && states[0].subs == [] && !states[0].closed && !states[0].panicked && states[0].log == []
    && (forall p {:trigger states[0].pubs[p]} :: 0 <= p < |states[0].pubs| ==> states[0].pubs[p].Idle?)
    && (forall n {:trigger StepAt(steps, states, n)} :: 0 <= n < |steps| ==> StepAt(steps, states, n))
  }

  /** The n-th step leads from the n-th state to the next. */
  ghost predicate StepAt(steps: seq<Step>, states: seq<State>, n: nat) {
    && n < |steps| && |states| == |steps| + 1
    && Enabled(states[n], steps[n]) && states[n + 1] == Apply(states[n], steps[n])
  }

  lemma {:induction false} InvHolds(steps: seq<Step>, states: seq<State>, n: nat)
    requires IsRun(steps, states) && n < |states|
    ensures Inv(states[n])
  {
    if n == 0 {
      forall p | 0 <= p < |states[0].pubs| ensures PubInv(states[0], p) { assert states[0].pubs[p].Idle?; }
    } else {
      InvHolds(steps, states, n - 1);
      assert StepAt(steps, states, n - 1);
      StepKeepsInv(states[n - 1], steps[n - 1]);
    }
  }

  /** In every interleaving of subscribes, cancels, publishes and a shutdown: nothing is sent on a closed channel, no
      channel is closed twice, being in the map is the same as having an open channel, buffers are bounded, and after
      a shutdown every channel ever handed out is closed. */
  lemma NeverPanics(steps: seq<Step>, states: seq<State>, n: nat, i: nat)
    requires IsRun(steps, states) && n < |states| && i < |states[n].subs|
    ensures var s := states[n]; var sub := s.subs[i];
            && !s.panicked && sub.closes <= 1 && (sub.registered <==> sub.closes == 0)
            && |sub.buffer| <= SUBSCRIBER_BUFFER_SIZE && (s.closed ==> sub.closes == 1)
  {
    InvHolds(steps, states, n);
    assert SubInv(states[n], i);
  }

  // ----- Delivery, when publishes do not overlap -----

  /** The matching events of the first `taken` batches from `born` on. */
  function WantedOf(filter: Filter, log: seq<seq<Event>>, born: nat, taken: nat): seq<Event>
    requires born + taken <= |log|
  {
    if taken == 0 then []
    else WantedOf(filter, log, born, taken - 1) + Wanted(Wildcard, filter, log[born + taken - 1])
  }

  lemma {:induction false} WantedOfStays(filter: Filter, log: seq<seq<Event>>, born: nat, taken: nat,
                                         batch: seq<Event>)
    requires born + taken <= |log|
    ensures WantedOf(filter, log + [batch], born, taken) == WantedOf(filter, log, born, taken)
  {
    if taken > 0 {
      WantedOfStays(filter, log, born, taken - 1, batch);
    }
  }

  /** What the batches that came to the subscriber hold for it. */
  ghost function Owed(sub: Subscriber, log: seq<seq<Event>>): seq<Event>
    requires sub.born + sub.taken <= |log|
  {
    WantedOf(sub.filter, log, sub.born, sub.taken)
  }

  /** Every batch published since the subscription began came to it. */
  predicate UpToDate(sub: Subscriber, log: seq<seq<Event>>) {
    sub.born + sub.taken == |log|
  }

  ghost predicate Served(sub: Subscriber, log: seq<seq<Event>>, leaving: bool) {
    sub.born + sub.taken <= |log| &&
    if sub.missed then sub.sent <= Owed(sub, log) && (!sub.registered || leaving)
      else UpToDate(sub, log) && sub.sent == Owed(sub, log)
  }

  ghost predicate Pending(sub: Subscriber, log: seq<seq<Event>>) {
    sub.born + sub.taken == |log| - 1 && !sub.missed && sub.sent == Owed(sub, log)
  }

  ghost predicate Partly(sub: Subscriber, log: seq<seq<Event>>, batch: seq<Event>, next: nat) {
    && UpToDate(sub, log) && sub.taken > 0 && !sub.missed && next <= |batch|
    && sub.sent == WantedOf(sub.filter, log, sub.born, sub.taken - 1) + Wanted(Wildcard, sub.filter, batch[..next])
  }

  ghost predicate Delivers(sub: Subscriber, i: nat, pub: Publisher, log: seq<seq<Event>>) {
    match pub
    case Idle => Served(sub, log, false)
    case Dropping(dropped) => Served(sub, log, i in dropped)
    case Sending(_, todo, dropped) => if i in todo then Pending(sub, log) else Served(sub, log, i in dropped)
    case InSub(batch, j, next, todo, dropped) =>
      if i == j then i !in todo && Partly(sub, log, batch, next)
      else if i in todo then Pending(sub, log) else Served(sub, log, i in dropped)
  }

  ghost predicate DeliveryInv(s: State, pub: Publisher, i: nat) {
    i < |s.subs| && Delivers(s.subs[i], i, pub, s.log)
  }

  /** The batch being published is the last one logged. */
  ghost predicate BatchInv(s: State, pub: Publisher) {
    Reading(pub) ==> |s.log| > 0 && pub.events == s.log[|s.log| - 1]
  }

  ghost predicate DeliveryOk(s: State, pub: Publisher) {
    BatchInv(s, pub) && forall i {:trigger DeliveryInv(s, pub, i)} :: 0 <= i < |s.subs| ==> DeliveryInv(s, pub, i)
  }

  lemma PartlyMeans(sub: Subscriber, log: seq<seq<Event>>, batch: seq<Event>, next: nat)
    requires Partly(sub, log, batch, next) && batch == log[|log| - 1]
    ensures sub.sent <= Owed(sub, log) && (next == |batch| ==> sub.sent == Owed(sub, log))
    ensures next < |batch| ==>
              if !sub.filter(batch[next]) then Partly(sub, log, batch, next + 1)
              else forall buffer ::
                     Partly(sub.(buffer := buffer, sent := sub.sent + [batch[next]]), log, batch, next + 1)
  {
    WantedPrefix(Wildcard, sub.filter, batch, next);
    if next == |batch| {
      assert batch[..next] == batch;
    } else {
      WantedNext(Wildcard, sub.filter, batch, next);
    }
  }

  lemma BeginKeepsDelivery(s: State, p: nat, events: seq<Event>, s': State)
    requires Inv(s) && Enabled(s, BeginPublish(p, events)) && DeliveryOk(s, Idle)
    requires s' == Apply(s, BeginPublish(p, events))
    ensures DeliveryOk(s', s'.pubs[p])
  {
    forall i | 0 <= i < |s'.subs| ensures DeliveryInv(s', s'.pubs[p], i) {
      assert DeliveryInv(s, Idle, i) && SubInv(s, i);
      WantedOfStays(s.subs[i].filter, s.log, s.subs[i].born, s.subs[i].taken, events);
      assert s.subs[i].registered ==> i in Registered(s);
    }
  }

  lemma PickKeepsDelivery(s: State, p: nat, i: nat, s': State)
    requires Enabled(s, PickSub(p, i)) && DeliveryOk(s, s.pubs[p]) && s' == Apply(s, PickSub(p, i))
    ensures DeliveryOk(s', s'.pubs[p])
  {
    assert s.pubs[p].events[..0] == [];
    forall j | 0 <= j < |s'.subs| ensures DeliveryInv(s', s'.pubs[p], j) { assert DeliveryInv(s, s.pubs[p], j); }
  }

  /** The publisher has moved on with one subscriber; the others wait, or have been served, as before. */
  lemma OneMoves(s: State, pub: Publisher, s': State, pub': Publisher)
    requires DeliveryOk(s, pub) && pub.InSub? && pub.sub < |s.subs| && s'.log == s.log && |s'.subs| == |s.subs|
    requires s'.subs == s.subs[pub.sub := s'.subs[pub.sub]]
    requires || pub' == pub.(next := pub.next + 1)
             || pub' == Sending(pub.events, pub.todo, pub.dropped + {pub.sub})
    requires DeliveryInv(s', pub', pub.sub)
    ensures DeliveryOk(s', pub')
  {
    forall j | 0 <= j < |s'.subs| ensures DeliveryInv(s', pub', j) { assert DeliveryInv(s, pub, j); }
  }

  lemma SendKeepsDelivery(s: State, p: nat, s': State)
    requires Enabled(s, SendNext(p)) && DeliveryOk(s, s.pubs[p]) && s' == DoSendNext(s, p)
    ensures DeliveryOk(s', s'.pubs[p])
  {
    var pub := s.pubs[p];
    assert DeliveryInv(s, pub, pub.sub);
    PartlyMeans(s.subs[pub.sub], s.log, pub.events, pub.next);
    assert s.subs[pub.sub := s.subs[pub.sub]] == s.subs;
    OneMoves(s, pub, s', s'.pubs[p]);
  }

  lemma LeaveKeepsDelivery(s: State, p: nat, s': State)
    requires Inv(s) && Enabled(s, LeaveSub(p)) && DeliveryOk(s, s.pubs[p]) && s' == Apply(s, LeaveSub(p))
    ensures DeliveryOk(s', s'.pubs[p])
  {
    var pub := s.pubs[p];
    assert PubInv(s, p) && DeliveryInv(s, pub, pub.sub);
    PartlyMeans(s.subs[pub.sub], s.log, pub.events, pub.next);
    forall j | 0 <= j < |s'.subs| ensures DeliveryInv(s', s'.pubs[p], j) { assert DeliveryInv(s, pub, j); }
  }

  lemma EndKeepsDelivery(s: State, step: Step, s': State)
    requires Enabled(s, step) && (step.EndSends? || step.Drop?) && s' == Apply(s, step) && DeliveryOk(s, s.pubs[step.p])
    ensures DeliveryOk(s', s'.pubs[step.p])
  {
    forall j | 0 <= j < |s'.subs| ensures DeliveryInv(s', s'.pubs[step.p], j) {
      assert DeliveryInv(s, s.pubs[step.p], j);
    }
  }

  predicate ByPublish(step: Step) {
    step.BeginPublish? || step.PickSub? || step.SendNext? || step.LeaveSub? || step.EndSends? || step.Drop?
  }

  lemma PublishKeepsDelivery(s: State, step: Step, s': State)
    requires Inv(s) && Enabled(s, step) && ByPublish(step) && s' == Apply(s, step) && DeliveryOk(s, s.pubs[step.p])
    ensures step.p < |s'.pubs| && DeliveryOk(s', s'.pubs[step.p])
  {
    match step
    case BeginPublish(p, events) => BeginKeepsDelivery(s, p, events, s');
    case PickSub(p, i) => PickKeepsDelivery(s, p, i, s');
    case SendNext(p) => SendKeepsDelivery(s, p, s');
    case LeaveSub(p) => LeaveKeepsDelivery(s, p, s');
    case _ => EndKeepsDelivery(s, step, s');
  }

  /** Changes that delivery does not look at. */
  ghost predicate SameDelivery(a: Subscriber, b: Subscriber) {
    && a.filter == b.filter && a.sent == b.sent && a.born == b.born && a.taken == b.taken && a.missed == b.missed
    && (b.registered ==> a.registered)
  }

  lemma SubscriberStepIsQuiet(s: State, step: Step, s': State)
    requires Enabled(s, step) && !ByPublish(step) && s' == Apply(s, step)
    ensures s'.pubs == s.pubs && s'.log == s.log && |s.subs| <= |s'.subs|
    ensures forall i {:trigger s'.subs[i]} :: 0 <= i < |s.subs| ==> SameDelivery(s.subs[i], s'.subs[i])
    ensures forall i {:trigger s'.subs[i]} :: |s.subs| <= i < |s'.subs| ==>
              step.Subscribe? && s'.subs[i].born == |s.log| && s'.subs[i].taken == 0 && s'.subs[i].sent == [] &&
                !s'.subs[i].missed
  {
  }

  /** A step of a subscriber, or the shutdown, whoever is publishing. */
  lemma SubscriberKeepsDelivery(s: State, pub: Publisher, step: Step, s': State)
    requires Enabled(s, step) && !ByPublish(step) && s' == Apply(s, step) && DeliveryOk(s, pub)
    requires step.Subscribe? ==> !Reading(pub)
    ensures s'.pubs == s.pubs && DeliveryOk(s', pub)
  {
    SubscriberStepIsQuiet(s, step, s');
    forall j | 0 <= j < |s'.subs| ensures DeliveryInv(s', pub, j) {
      assert j < |s.subs| ==> DeliveryInv(s, pub, j) && SameDelivery(s.subs[j], s'.subs[j]);
    }
  }

  /** At most one publish is going on. */
  predicate OneAtATime(s: State) {
    forall p, q {:trigger s.pubs[p], s.pubs[q]} :: 0 <= p < q < |s.pubs| ==> s.pubs[p].Idle? || s.pubs[q].Idle?
  }

  predicate Quiet(s: State) {
    forall p {:trigger s.pubs[p]} :: 0 <= p < |s.pubs| ==> s.pubs[p].Idle?
  }

  /** Delivery is as the publish going on says, or as no publish says. */
  ghost predicate DeliveryAsPublished(s: State) {
    && (Quiet(s) ==> DeliveryOk(s, Idle))
    && forall p {:trigger s.pubs[p]} :: 0 <= p < |s.pubs| && !s.pubs[p].Idle? ==> DeliveryOk(s, s.pubs[p])
  }

  lemma StepKeepsDelivery(s: State, step: Step, s': State)
    requires Inv(s) && Enabled(s, step) && s' == Apply(s, step) && OneAtATime(s) && OneAtATime(s')
    requires DeliveryAsPublished(s)
    ensures DeliveryAsPublished(s')
  {
    if ByPublish(step) {
      var p := step.p;
      assert s'.pubs == s.pubs[p := s'.pubs[p]];
      if s.pubs[p].Idle? && !s'.pubs[p].Idle? {
        forall q | 0 <= q < |s.pubs| ensures s.pubs[q].Idle? { assert s'.pubs[q].Idle? || q == p; }
      }
      if Quiet(s) || !s.pubs[p].Idle? {
        PublishKeepsDelivery(s, step, s');
      } else {
        assert s'.subs == s.subs && s'.log == s.log;
      }
    } else {
      assert s'.pubs == s.pubs;
      if Quiet(s) {
        SubscriberKeepsDelivery(s, Idle, step, s');
      }
      forall p | 0 <= p < |s'.pubs| && !s'.pubs[p].Idle? ensures DeliveryOk(s', s'.pubs[p]) {
        SubscriberKeepsDelivery(s, s.pubs[p], step, s');
      }
    }
  }

  /** No two publishes overlap in the first `n` states. */
  predicate NoOverlap(states: seq<State>, n: nat) {
    n < |states| &&
    forall m {:trigger OneAtATime(states[m])} :: 0 <= m <= n ==> OneAtATime(states[m])
  }

  lemma {:induction false} DeliveryHolds(steps: seq<Step>, states: seq<State>, n: nat)
    requires IsRun(steps, states) && n < |states| && NoOverlap(states, n)
    ensures DeliveryAsPublished(states[n])
  {
    if n > 0 {
      DeliveryHolds(steps, states, n - 1);
      InvHolds(steps, states, n - 1);
      assert StepAt(steps, states, n - 1);
      assert OneAtATime(states[n - 1]) && OneAtATime(states[n]);
      StepKeepsDelivery(states[n - 1], steps[n - 1], states[n]);
    }
  }

  /** Any number of publishers whose publishes do not overlap: what was ever enqueued to a subscriber, and what it
      received, is a prefix of the matching events of the batches published since it subscribed, in order, no gap, no
      duplicate; and between publishes nothing is outstanding for one that is still in the map. */
  lemma DeliveredIsAPrefix(steps: seq<Step>, states: seq<State>, n: nat, i: nat)
    requires IsRun(steps, states) && n < |states| && NoOverlap(states, n) && i < |states[n].subs|
    ensures var s := states[n]; var sub := s.subs[i];
            && sub.born + sub.taken <= |s.log| && sub.received <= sub.sent <= Owed(sub, s.log)
            && (Quiet(s) && sub.registered ==> UpToDate(sub, s.log) && sub.sent == Owed(sub, s.log))
  {
    var s := states[n];
    DeliveryHolds(steps, states, n);
    InvHolds(steps, states, n);
    assert SubInv(s, i);
    if Quiet(s) {
      assert DeliveryInv(s, Idle, i);
    } else {
      var p :| 0 <= p < |s.pubs| && !s.pubs[p].Idle?;
      assert DeliveryInv(s, s.pubs[p], i);
      if s.pubs[p].InSub? && s.pubs[p].sub == i {
        PartlyMeans(s.subs[i], s.log, s.pubs[p].events, s.pubs[p].next);
      }
    }
  }

  // ----- What was asked for, read off the steps alone -----

  function Subscribes(steps: seq<Step>): nat {
    if steps == [] then 0
    else Subscribes(steps[..|steps| - 1]) + if steps[|steps| - 1].Subscribe? then 1 else 0
  }

  /** The filter the `i`-th subscriber asked for. */
  function AskedFilter(steps: seq<Step>, i: nat): Option<Filter> {
    if steps == [] then None
    else
      var before, last := steps[..|steps| - 1], steps[|steps| - 1];
      if last.Subscribe? && Subscribes(before) == i then Some(last.filter) else AskedFilter(before, i)
  }

  /** Every batch that anybody was there to get, in order. */
  ghost function Published(steps: seq<Step>, states: seq<State>, n: nat): seq<seq<Event>>
    requires n <= |steps| && |states| == |steps| + 1
  {
    if n == 0 then []
    else
      var last := steps[n - 1];
      Published(steps, states, n - 1) +
      if last.BeginPublish? && !Idles(states[n - 1], last.events) then [last.events] else []
  }

  lemma StepAsks(s: State, step: Step, s': State)
    requires Enabled(s, step) && s' == Apply(s, step)
    ensures |s'.subs| == |s.subs| + if step.Subscribe? then 1 else 0
    ensures forall i {:trigger s'.subs[i]} :: 0 <= i < |s.subs| ==>
              s'.subs[i].filter == s.subs[i].filter && s'.subs[i].born == s.subs[i].born
    ensures step.Subscribe? ==> s'.subs[|s.subs|].filter == step.filter && s'.subs[|s.subs|].born == |s.log|
    ensures s'.log == s.log + if step.BeginPublish? && !Idles(s, step.events) then [step.events] else []
  {
  }

  /** In every run: each subscriber has the filter it asked for, and the batches are those published. */
  lemma {:induction false} HistoryIsTrue(steps: seq<Step>, states: seq<State>, n: nat, i: nat)
    requires IsRun(steps, states) && n < |states|
    ensures states[n].log == Published(steps, states, n) && |states[n].subs| == Subscribes(steps[..n])
    ensures i < |states[n].subs| ==> Some(states[n].subs[i].filter) == AskedFilter(steps[..n], i)
  {
    if n > 0 {
      HistoryIsTrue(steps, states, n - 1, i);
      assert StepAt(steps, states, n - 1);
      StepAsks(states[n - 1], steps[n - 1], states[n]);
      assert steps[..n][..n - 1] == steps[..n - 1];
    }
  }
}
