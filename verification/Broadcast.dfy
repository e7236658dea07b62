/** Events, and what a subscriber is owed of a published batch. */
module Streams {
  import opened Scopes

  datatype Event = Event(contractID: string, payload: string)

  /** The user filter is any predicate on events. */
  type Filter = Event -> bool

  predicate Wants(scope: Scope, filter: Filter, e: Event) {
    Allows(scope, e.contractID) && filter(e)
  }

  /** The allowed and matching events of a batch, in order. */
  function Wanted(scope: Scope, filter: Filter, batch: seq<Event>): seq<Event> {
    if batch == [] then []
    else
      var last := batch[|batch| - 1];
      Wanted(scope, filter, batch[..|batch| - 1]) + (if Wants(scope, filter, last) then [last] else [])
  }

  /** The wanted events of the batches from `born` on, each under its own scope. */
  function WantedUnder(scopes: seq<Scope>, filter: Filter, log: seq<seq<Event>>, born: nat): seq<Event>
    requires born + |scopes| <= |log|
  {
    if scopes == [] then []
    else
      var n := |scopes| - 1;
      WantedUnder(scopes[..n], filter, log, born) + Wanted(scopes[n], filter, log[born + n])
  }

  lemma {:induction false} WantedPrefix(scope: Scope, filter: Filter, batch: seq<Event>, n: nat)
    requires n <= |batch|
    ensures Wanted(scope, filter, batch[..n]) <= Wanted(scope, filter, batch)
    decreases |batch|
  {
    if n == |batch| {
      assert batch[..n] == batch;
    } else {
      WantedPrefix(scope, filter, batch[..|batch| - 1], n);
      assert batch[..|batch| - 1][..n] == batch[..n];
    }
  }

  lemma WantedNext(scope: Scope, filter: Filter, batch: seq<Event>, n: nat)
    requires n < |batch|
    ensures Wanted(scope, filter, batch[..n + 1]) ==
            Wanted(scope, filter, batch[..n]) + (if Wants(scope, filter, batch[n]) then [batch[n]] else [])
  {
    assert batch[..n + 1][..n] == batch[..n];
  }

  /** Later batches make no difference. */
  lemma {:induction false} WantedUnderStays(scopes: seq<Scope>, filter: Filter, log: seq<seq<Event>>, born: nat,
                                            batch: seq<Event>)
    requires born + |scopes| <= |log|
    ensures WantedUnder(scopes, filter, log + [batch], born) == WantedUnder(scopes, filter, log, born)
  {
    if scopes != [] {
      WantedUnderStays(scopes[..|scopes| - 1], filter, log, born, batch);
    }
  }
}

/** The broadcaster's locking scheme (internal/broadcast/broadcast.go): the subscriber map under one lock, each
    channel under its own, sends outside the map lock.

    Each step is one critical section or one channel operation of one goroutine. `sent`, `born`, `scopes`,
    `missed`, `removedBy` and `log` are history. */
module Broadcast {
  import opened Common
  import opened Scopes
  import opened Streams

  datatype Removal = Registered | ByClose | ByPublisher(p: nat)

  datatype Closer = NotCalled | Unregistering | Closing | Finished

  datatype Subscription = Subscription(
    filter: Filter,
    scope: Scope,
    buffer: seq<Event>,
    closed: bool,           // the flag under chMu
    closes: nat,            // how often the channel itself was closed
    holder: Option<nat>,    // publisher inside publishTo
    closer: Closer,         // progress of Close
    removedBy: Removal,     // Registered: still in the map
    sent: seq<Event>,       // everything ever enqueued
    received: seq<Event>,   // everything the consumer took out
    born: nat,              // batches published before it subscribed
    scopes: seq<Scope>,     // the scope each publish read when it came to it
    missed: bool)

  datatype Publisher =
    | Idle
    | Sending(events: seq<Event>, todo: set<nat>, evict: set<nat>)
    | InSub(events: seq<Event>, sub: nat, scope: Scope, next: nat, todo: set<nat>, evict: set<nat>)
    | Evicting(rest: set<nat>)

  datatype State = State(bound: nat, subs: seq<Subscription>, pubs: seq<Publisher>, log: seq<seq<Event>>,
    panicked: bool)

  datatype Step =
    | Subscribe(filter: Filter, scope: Scope)
    | SetScope(i: nat, scope: Scope)
    | Receive(i: nat)
    | CallClose(i: nat)
    | Unregister(i: nat)
    | CloserCloses(i: nat)
    | Snapshot(p: nat, events: seq<Event>)
    | LockSub(p: nat, i: nat)
    | SendNext(p: nat)
    | LeaveSub(p: nat)
    | RemoveEvicted(p: nat)
    | EvictorCloses(p: nat, i: nat)
    | EndPublish(p: nat)

  ghost predicate Enabled(s: State, step: Step) {
    match step
    case Subscribe(_, _) => true
    case SetScope(i, _) => i < |s.subs|
    case Receive(i) => i < |s.subs| && s.subs[i].buffer != []
    case CallClose(i) => i < |s.subs| && s.subs[i].closer.NotCalled?
    case Unregister(i) => i < |s.subs| && s.subs[i].closer.Unregistering?
    case CloserCloses(i) => i < |s.subs| && s.subs[i].closer.Closing? && s.subs[i].holder.None?
    case Snapshot(p, _) => p < |s.pubs| && s.pubs[p].Idle?
    case LockSub(p, i) => p < |s.pubs| && s.pubs[p].Sending? && i in s.pubs[p].todo && i < |s.subs| &&
      s.subs[i].holder.None?
    case SendNext(p) => p < |s.pubs| && s.pubs[p].InSub? && s.pubs[p].next < |s.pubs[p].events| &&
      s.pubs[p].sub < |s.subs|
    case LeaveSub(p) => p < |s.pubs| && s.pubs[p].InSub? && s.pubs[p].next == |s.pubs[p].events| &&
      s.pubs[p].sub < |s.subs|
    case RemoveEvicted(p) => p < |s.pubs| && s.pubs[p].Sending? && s.pubs[p].todo == {}
    case EvictorCloses(p, i) => p < |s.pubs| && s.pubs[p].Evicting? && i in s.pubs[p].rest && i < |s.subs| &&
      s.subs[i].holder.None?
    case EndPublish(p) => p < |s.pubs| && s.pubs[p].Evicting? && s.pubs[p].rest == {}
  }

  function SetSub(s: State, i: nat, sub: Subscription): State
    requires i < |s.subs|
  {
    s.(subs := s.subs[i := sub])
  }

  function SetPub(s: State, p: nat, pub: Publisher): State
    requires p < |s.pubs|
  {
    s.(pubs := s.pubs[p := pub])
  }

  /** close(ch) guarded by the flag; closing a closed channel would panic. */
  function CloseChannel(s: State, i: nat): State
    requires i < |s.subs|
  {
    var sub := s.subs[i];
    if sub.closed then s
    else SetSub(s.(panicked := s.panicked || sub.closes > 0), i, sub.(closed := true, closes := sub.closes + 1))
  }

  /** A snapshot scopes the map; subscriptions outside it will miss this batch. */
  function DoSnapshot(s: State, p: nat, events: seq<Event>): State
    requires p < |s.pubs|
  {
    var todo := set i | 0 <= i < |s.subs| && s.subs[i].removedBy.Registered?;
    var subs := seq(|s.subs|, i requires 0 <= i < |s.subs| =>
                      if s.subs[i].removedBy.Registered? then s.subs[i] else s.subs[i].(missed := true));
    SetPub(s.(subs := subs, log := s.log + [events]), p, Sending(events, todo, {}))
  }

  function DoLockSub(s: State, p: nat, i: nat): State
    requires p < |s.pubs| && s.pubs[p].Sending? && i < |s.subs|
  {
    var pub := s.pubs[p];
    var sub := s.subs[i];
    if sub.closed then SetPub(SetSub(s, i, sub.(missed := true)), p, Sending(pub.events, pub.todo - {i}, pub.evict))
    else
      SetPub(SetSub(s, i, sub.(holder := Some(p), scopes := sub.scopes + [sub.scope])), p,
             InSub(pub.events, i, sub.scope, 0, pub.todo - {i}, pub.evict))
  }

  /** One event of a publishTo: skip it, enqueue it without blocking, or give up on a full buffer.
      Sending on a closed channel would panic. */
  function DoSendNext(s: State, p: nat): State
    requires p < |s.pubs| && s.pubs[p].InSub? && s.pubs[p].next < |s.pubs[p].events| && s.pubs[p].sub < |s.subs|
  {
    var pub := s.pubs[p];
    var sub := s.subs[pub.sub];
    var e := pub.events[pub.next];
    if !Allows(pub.scope, e.contractID) || !sub.filter(e) then SetPub(s, p, pub.(next := pub.next + 1))
    else if |sub.buffer| < s.bound then
      SetPub(SetSub(s.(panicked := s.panicked || sub.closes > 0), pub.sub,
        sub.(buffer := sub.buffer + [e], sent := sub.sent + [e])),
             p, pub.(next := pub.next + 1))
    else
      SetPub(SetSub(s, pub.sub, sub.(holder := None, missed := true)), p,
        Sending(pub.events, pub.todo, pub.evict + {pub.sub}))
  }

  function DoRemoveEvicted(s: State, p: nat): State
    requires p < |s.pubs| && s.pubs[p].Sending?
  {
    var evict := s.pubs[p].evict;
    var subs := seq(|s.subs|, i requires 0 <= i < |s.subs| =>
                      if i in evict && s.subs[i].removedBy.Registered? then s.subs[i].(removedBy := ByPublisher(p))
                        else s.subs[i]);
    SetPub(s.(subs := subs), p, Evicting(evict))
  }

  ghost function Apply(s: State, step: Step): State
    requires Enabled(s, step)
  {
    match step
    case Subscribe(filter, scope) =>
      s.(subs := s.subs + [Subscription(filter, scope, [], false, 0, None, NotCalled, Registered, [], [], |s.log|, [],
        false)])
    case SetScope(i, scope) => SetSub(s, i, s.subs[i].(scope := scope))
    case Receive(i) =>
      SetSub(s, i, s.subs[i].(buffer := s.subs[i].buffer[1..],
                             received := s.subs[i].received + [s.subs[i].buffer[0]]))
    case CallClose(i) => SetSub(s, i, s.subs[i].(closer := Unregistering))
    case Unregister(i) =>
      if s.subs[i].removedBy.Registered? then SetSub(s, i, s.subs[i].(closer := Closing, removedBy := ByClose))
      else SetSub(s, i, s.subs[i].(closer := Finished))
    case CloserCloses(i) => var s' := CloseChannel(s, i); SetSub(s', i, s'.subs[i].(closer := Finished))
    case Snapshot(p, events) => DoSnapshot(s, p, events)
    case LockSub(p, i) => DoLockSub(s, p, i)
    case SendNext(p) => DoSendNext(s, p)
    case LeaveSub(p) =>
      var pub := s.pubs[p];
      SetPub(SetSub(s, pub.sub, s.subs[pub.sub].(holder := None)), p, Sending(pub.events, pub.todo, pub.evict))
    case RemoveEvicted(p) => DoRemoveEvicted(s, p)
    case EvictorCloses(p, i) => SetPub(CloseChannel(s, i), p, Evicting(s.pubs[p].rest - {i}))
    case EndPublish(p) => SetPub(s, p, Idle)
  }

  // ----- Safety, for any number of publishers -----

  /** Flag and channel agree, the buffer is bounded, a held channel is open, and a subscription out of the map whose
      channel is still open has a goroutine that is about to close it. */
  ghost predicate SubInv(s: State, i: nat) {
    i < |s.subs| &&
    var sub := s.subs[i];
    && sub.closes == (if sub.closed then 1 else 0)
    && |sub.buffer| <= s.bound && sub.sent == sub.received + sub.buffer
    && (sub.holder.Some? ==>
          && !sub.closed && sub.holder.value < |s.pubs|
          && s.pubs[sub.holder.value].InSub? && s.pubs[sub.holder.value].sub == i)
    && (sub.closer == Closing ==> sub.removedBy == ByClose)
    && (sub.closed ==> sub.removedBy != Registered)
    && (sub.closed || sub.removedBy == Registered || HasCloser(s, i))
  }

  ghost predicate HasCloser(s: State, i: nat) {
    i < |s.subs| &&
    var sub := s.subs[i];
    || (sub.removedBy == ByClose && sub.closer == Closing)
    || (sub.removedBy.ByPublisher? && sub.removedBy.p < |s.pubs| && s.pubs[sub.removedBy.p].Evicting? &&
         i in s.pubs[sub.removedBy.p].rest)
  }

  ghost predicate PubInv(s: State, p: nat) {
    p < |s.pubs| &&
    match s.pubs[p]
    case InSub(_, i, _, _, _, evict) => i < |s.subs| && s.subs[i].holder == Some(p) && Known(s, evict)
    case Sending(_, _, evict) => Known(s, evict)
    case Evicting(rest) => Unregistered(s, rest)
    case Idle => true
  }

  ghost predicate Known(s: State, ids: set<nat>) {
    forall i :: i in ids ==> i < |s.subs|
  }

  ghost predicate Unregistered(s: State, ids: set<nat>) {
    forall i :: i in ids ==> i < |s.subs| && s.subs[i].removedBy != Registered
  }

  ghost predicate SubsOk(s: State) {
    forall i {:trigger SubInv(s, i)} :: 0 <= i < |s.subs| ==> SubInv(s, i)
  }

  ghost predicate PubsOk(s: State) {
    forall p {:trigger PubInv(s, p)} :: 0 <= p < |s.pubs| ==> PubInv(s, p)
  }

  ghost predicate Inv(s: State) {
    !s.panicked && SubsOk(s) && PubsOk(s)
  }

  lemma SubscriberStepKeepsInv(s: State, step: Step, s': State)
    requires Inv(s) && Enabled(s, step) && s' == Apply(s, step)
    requires step.Subscribe? || step.SetScope? || step.Receive? || step.CallClose? || step.Unregister?
    ensures Inv(s')
  {
    forall i | 0 <= i < |s'.subs| ensures SubInv(s', i) { assert i < |s.subs| ==> SubInv(s, i); }
    forall p | 0 <= p < |s'.pubs| ensures PubInv(s', p) { assert PubInv(s, p); }
  }

  lemma CloserStepKeepsInv(s: State, step: Step, s': State)
    requires Inv(s) && Enabled(s, step) && s' == Apply(s, step)
    requires step.CloserCloses? || step.EvictorCloses? || step.EndPublish?
    ensures Inv(s')
  {
    assert !step.EndPublish? ==> SubInv(s, step.i);
    assert !step.CloserCloses? ==> PubInv(s, step.p);
    forall i | 0 <= i < |s'.subs| ensures SubInv(s', i) { assert SubInv(s, i); }
    forall p | 0 <= p < |s'.pubs| ensures PubInv(s', p) { assert PubInv(s, p); }
  }

  lemma SnapshotKeepsInv(s: State, p: nat, events: seq<Event>, s': State)
    requires Inv(s) && p < |s.pubs| && s.pubs[p].Idle? && s' == DoSnapshot(s, p, events)
    ensures Inv(s')
  {
    forall i | 0 <= i < |s'.subs| ensures SubInv(s', i) { assert SubInv(s, i); }
    forall r | 0 <= r < |s'.pubs| ensures PubInv(s', r) { assert PubInv(s, r); }
  }

  lemma LockSubKeepsInv(s: State, p: nat, i: nat, s': State)
    requires Inv(s) && Enabled(s, LockSub(p, i)) && s' == DoLockSub(s, p, i)
    ensures Inv(s')
  {
    forall j | 0 <= j < |s'.subs| ensures SubInv(s', j) { assert SubInv(s, j); }
    forall r | 0 <= r < |s'.pubs| ensures PubInv(s', r) { assert PubInv(s, r); }
  }

  lemma SendKeepsInv(s: State, p: nat, s': State)
    requires Inv(s) && Enabled(s, SendNext(p)) && s' == DoSendNext(s, p)
    ensures Inv(s')
  {
    assert PubInv(s, p);
    assert SubInv(s, s.pubs[p].sub);
    forall j | 0 <= j < |s'.subs| ensures SubInv(s', j) { assert SubInv(s, j); }
    forall r | 0 <= r < |s'.pubs| ensures PubInv(s', r) { assert PubInv(s, r); }
  }

  lemma LeaveSubKeepsInv(s: State, p: nat, s': State)
    requires Inv(s) && Enabled(s, LeaveSub(p)) && s' == Apply(s, LeaveSub(p))
    ensures Inv(s')
  {
    assert PubInv(s, p);
    forall j | 0 <= j < |s'.subs| ensures SubInv(s', j) { assert SubInv(s, j); }
    forall r | 0 <= r < |s'.pubs| ensures PubInv(s', r) { assert PubInv(s, r); }
  }

  lemma RemoveEvictedKeepsInv(s: State, p: nat, s': State)
    requires Inv(s) && p < |s.pubs| && s.pubs[p].Sending? && s' == DoRemoveEvicted(s, p)
    ensures Inv(s')
  {
    assert PubInv(s, p);
    forall j | 0 <= j < |s'.subs| ensures SubInv(s', j) { assert SubInv(s, j); }
    forall r | 0 <= r < |s'.pubs| ensures PubInv(s', r) { assert PubInv(s, r); }
  }

  lemma StepKeepsInv(s: State, step: Step)
    requires Inv(s) && Enabled(s, step)
    ensures Inv(Apply(s, step))
  {
    var s' := Apply(s, step);
    match step
    case Snapshot(p, events) => SnapshotKeepsInv(s, p, events, s');
    case LockSub(p, i) => LockSubKeepsInv(s, p, i, s');
    case SendNext(p) => SendKeepsInv(s, p, s');
    case LeaveSub(p) => LeaveSubKeepsInv(s, p, s');
    case RemoveEvicted(p) => RemoveEvictedKeepsInv(s, p, s');
    case CloserCloses(_) => CloserStepKeepsInv(s, step, s');
    case EvictorCloses(_, _) => CloserStepKeepsInv(s, step, s');
    case EndPublish(_) => CloserStepKeepsInv(s, step, s');
    case _ => SubscriberStepKeepsInv(s, step, s');
  }

  ghost predicate IsRun(steps: seq<Step>, states: seq<State>) {
    && |states| == |steps| + 1
    && states[0].subs == [] && states[0].log == [] && !states[0].panicked
    && (forall p {:trigger states[0].pubs[p]} :: 0 <= p < |states[0].pubs| ==> states[0].pubs[p].Idle?)
    && (forall n {:trigger StepAt(steps, states, n)} :: 0 <= n < |steps| ==> StepAt(steps, states, n))
  }

  /** The n-th step leads from the n-th state to the next. */
  ghost predicate StepAt(steps: seq<Step>, states: seq<State>, n: nat) {
    && n < |steps| && |states| == |steps| + 1
    && Enabled(states[n], steps[n]) && states[n + 1] == Apply(states[n], steps[n])
  }

  lemma {:induction false} InvHolds(steps: seq<Step>, states: seq<State>, n: nat)
    requires IsRun(steps, states) && n < |states|
    ensures Inv(states[n]) && |states[n].pubs| == |states[0].pubs|
  {
    if n == 0 {
      forall p | 0 <= p < |states[0].pubs| ensures PubInv(states[0], p) { assert states[0].pubs[p].Idle?; }
    } else {
      InvHolds(steps, states, n - 1);
      assert StepAt(steps, states, n - 1);
      StepKeepsInv(states[n - 1], steps[n - 1]);
    }
  }

  /** However subscribers and any number of publishers interleave: nothing is sent on a closed channel, no channel is
      closed twice, no buffer exceeds its bound, and an open channel out of the map has a closer on its way. */
  lemma NeverPanics(steps: seq<Step>, states: seq<State>, n: nat, i: nat)
    requires IsRun(steps, states) && n < |states| && i < |states[n].subs|
    ensures var s := states[n]; var sub := s.subs[i];
            && !s.panicked && sub.closes <= 1 && |sub.buffer| <= s.bound
            && (sub.removedBy != Registered && sub.closes == 0 ==> HasCloser(s, i))
  {
    InvHolds(steps, states, n);
    assert SubInv(states[n], i);
  }

  // ----- Delivery, when publishes do not overlap -----

  /** Owed by the batches that came to the subscription, each under the scope that was read for it. */
  ghost function Owed(sub: Subscription, log: seq<seq<Event>>): seq<Event>
    requires sub.born + |sub.scopes| <= |log|
  {
    WantedUnder(sub.scopes, sub.filter, log, sub.born)
  }

  /** Every batch published since the subscription began came to it. */
  predicate UpToDate(sub: Subscription, log: seq<seq<Event>>) {
    sub.born + |sub.scopes| == |log|
  }

  /** The publisher is done with this subscription for the current batch. */
  ghost predicate Served(sub: Subscription, log: seq<seq<Event>>, leaving: bool) {
    sub.born + |sub.scopes| <= |log| &&
    if sub.missed then sub.sent <= Owed(sub, log) && (sub.removedBy != Registered || leaving)
      else UpToDate(sub, log) && sub.sent == Owed(sub, log)
  }

  /** The publisher has not come to this subscription yet. */
  ghost predicate Pending(sub: Subscription, log: seq<seq<Event>>) {
    sub.born + |sub.scopes| == |log| - 1 && !sub.missed && sub.sent == Owed(sub, log)
  }

  /** The publisher is inside publishTo, past the first `next` events. */
  ghost predicate Partly(sub: Subscription, log: seq<seq<Event>>, scope: Scope, batch: seq<Event>, next: nat) {
    && UpToDate(sub, log) && |sub.scopes| > 0 && !sub.missed && next <= |batch|
    && var n := |sub.scopes| - 1;
       && scope == sub.scopes[n]
       && sub.sent == WantedUnder(sub.scopes[..n], sub.filter, log, sub.born) + Wanted(scope, sub.filter, batch[..next])
  }

  ghost predicate Delivers(sub: Subscription, i: nat, pub: Publisher, log: seq<seq<Event>>) {
    match pub
    case Idle => Served(sub, log, false)
    case Evicting(_) => Served(sub, log, false)
    case Sending(_, todo, evict) => if i in todo then Pending(sub, log) else Served(sub, log, i in evict)
    case InSub(batch, j, scope, next, todo, evict) =>
      if i == j then i !in todo && Partly(sub, log, scope, batch, next)
      else if i in todo then Pending(sub, log) else Served(sub, log, i in evict)
  }

  ghost predicate DeliveryInv(s: State, pub: Publisher, i: nat) {
    i < |s.subs| && Delivers(s.subs[i], i, pub, s.log)
  }

  /** The batch being published is the last one logged, and the work list names existing subscriptions. */
  ghost predicate BatchInv(s: State, pub: Publisher) {
    match pub
    case Idle => true
    case Evicting(_) => true
    case Sending(events, todo, _) => |s.log| > 0 && events == s.log[|s.log| - 1] && Known(s, todo)
    case InSub(events, _, _, _, todo, _) => |s.log| > 0 && events == s.log[|s.log| - 1] && Known(s, todo)
  }

  /** What every subscription was sent is what the progress of `pub`, the one publisher at work, says. */
  ghost predicate DeliveryOk(s: State, pub: Publisher) {
    BatchInv(s, pub) && forall i {:trigger DeliveryInv(s, pub, i)} :: 0 <= i < |s.subs| ==> DeliveryInv(s, pub, i)
  }

  /** One event further: skipped or enqueued, the subscription has exactly what it was owed so far. */
  lemma PartlyAdvances(sub: Subscription, log: seq<seq<Event>>, scope: Scope, batch: seq<Event>, next: nat)
    requires Partly(sub, log, scope, batch, next) && next < |batch|
    ensures !Wants(scope, sub.filter, batch[next]) ==> Partly(sub, log, scope, batch, next + 1)
    ensures Wants(scope, sub.filter, batch[next]) ==>
              forall buffer :: Partly(sub.(buffer := buffer, sent := sub.sent + [batch[next]]), log, scope, batch,
                next + 1)
  {
    WantedNext(scope, sub.filter, batch, next);
  }

  lemma PartlyIsPrefix(sub: Subscription, log: seq<seq<Event>>, scope: Scope, batch: seq<Event>, next: nat)
    requires Partly(sub, log, scope, batch, next) && batch == log[|log| - 1]
    ensures sub.sent <= Owed(sub, log)
    ensures next == |batch| ==> sub.sent == Owed(sub, log)
  {
    WantedPrefix(scope, sub.filter, batch, next);
    if next == |batch| {
      assert batch[..next] == batch;
    }
  }

  lemma SnapshotKeepsDelivery(s: State, p: nat, events: seq<Event>, s': State)
    requires p < |s.pubs| && DeliveryOk(s, Idle) && s' == DoSnapshot(s, p, events)
    ensures DeliveryOk(s', s'.pubs[p])
  {
    forall i | 0 <= i < |s'.subs| ensures DeliveryInv(s', s'.pubs[p], i) {
      assert DeliveryInv(s, Idle, i);
      WantedUnderStays(s.subs[i].scopes, s.subs[i].filter, s.log, s.subs[i].born, events);
    }
  }

  lemma LockSubKeepsDelivery(s: State, p: nat, i: nat, s': State)
    requires Enabled(s, LockSub(p, i)) && DeliveryOk(s, s.pubs[p]) && SubsOk(s) && s' == DoLockSub(s, p, i)
    ensures DeliveryOk(s', s'.pubs[p])
  {
    assert SubInv(s, i) && DeliveryInv(s, s.pubs[p], i);
    assert s.pubs[p].events[..0] == [];
    assert (s.subs[i].scopes + [s.subs[i].scope])[..|s.subs[i].scopes|] == s.subs[i].scopes;
    forall j | 0 <= j < |s'.subs| ensures DeliveryInv(s', s'.pubs[p], j) { assert DeliveryInv(s, s.pubs[p], j); }
  }

  lemma SendKeepsDelivery(s: State, p: nat, s': State)
    requires Enabled(s, SendNext(p)) && DeliveryOk(s, s.pubs[p]) && s' == DoSendNext(s, p)
    ensures DeliveryOk(s', s'.pubs[p])
  {
    var pub := s.pubs[p];
    assert DeliveryInv(s, pub, pub.sub);
    PartlyAdvances(s.subs[pub.sub], s.log, pub.scope, pub.events, pub.next);
    PartlyIsPrefix(s.subs[pub.sub], s.log, pub.scope, pub.events, pub.next);
    forall j | 0 <= j < |s'.subs| ensures DeliveryInv(s', s'.pubs[p], j) { assert DeliveryInv(s, pub, j); }
  }

  lemma LeaveSubKeepsDelivery(s: State, p: nat, s': State)
    requires Enabled(s, LeaveSub(p)) && DeliveryOk(s, s.pubs[p]) && s' == Apply(s, LeaveSub(p))
    ensures DeliveryOk(s', s'.pubs[p])
  {
    var pub := s.pubs[p];
    assert DeliveryInv(s, pub, pub.sub);
    PartlyIsPrefix(s.subs[pub.sub], s.log, pub.scope, pub.events, pub.next);
    forall j | 0 <= j < |s'.subs| ensures DeliveryInv(s', s'.pubs[p], j) { assert DeliveryInv(s, pub, j); }
  }

  lemma RemoveEvictedKeepsDelivery(s: State, p: nat, s': State)
    requires Enabled(s, RemoveEvicted(p)) && DeliveryOk(s, s.pubs[p]) && s' == DoRemoveEvicted(s, p)
    ensures DeliveryOk(s', s'.pubs[p])
  {
    forall j | 0 <= j < |s'.subs| ensures DeliveryInv(s', s'.pubs[p], j) { assert DeliveryInv(s, s.pubs[p], j); }
  }

  /** A publisher that is still closing evicted channels, or is done, owes nothing more. */
  lemma EvictionKeepsDelivery(s: State, step: Step, s': State)
    requires Enabled(s, step) && (step.EvictorCloses? || step.EndPublish?) && s' == Apply(s, step)
    requires DeliveryOk(s, s.pubs[step.p])
    ensures DeliveryOk(s', s'.pubs[step.p])
  {
    forall j | 0 <= j < |s'.subs| ensures DeliveryInv(s', s'.pubs[step.p], j) {
      assert DeliveryInv(s, s.pubs[step.p], j);
    }
  }

  lemma SubscribeKeepsDelivery(s: State, pub: Publisher, filter: Filter, scope: Scope, s': State)
    requires DeliveryOk(s, pub) && PubKnown(s, pub) && s' == Apply(s, Subscribe(filter, scope))
    ensures DeliveryOk(s', pub)
  {
    forall j | 0 <= j < |s'.subs| ensures DeliveryInv(s', pub, j) { assert j < |s.subs| ==> DeliveryInv(s, pub, j); }
  }

  /** The publisher works on existing subscriptions only. */
  ghost predicate PubKnown(s: State, pub: Publisher) {
    match pub
    case InSub(_, i, _, _, _, evict) => i < |s.subs| && Known(s, evict)
    case Sending(_, _, evict) => Known(s, evict)
    case _ => true
  }

  /** Changes that delivery does not look at. */
  predicate SameDelivery(a: Subscription, b: Subscription) {
    && a.born == b.born && a.missed == b.missed && a.sent == b.sent && a.scopes == b.scopes
    && (b.removedBy == Registered ==> a.removedBy == Registered)
  }

  lemma BookkeepingKeepsDelivery(s: State, pub: Publisher, i: nat, s': State)
    requires DeliveryOk(s, pub) && i < |s.subs| && |s'.subs| == |s.subs|
    requires s'.subs == s.subs[i := s'.subs[i]] && s'.log == s.log
    requires s.subs[i].filter == s'.subs[i].filter && SameDelivery(s.subs[i], s'.subs[i])
    ensures DeliveryOk(s', pub)
  {
    forall j | 0 <= j < |s'.subs| ensures DeliveryInv(s', pub, j) { assert DeliveryInv(s, pub, j); }
  }

  predicate ByPublish(step: Step) {
    step.Snapshot? || step.LockSub? || step.SendNext? || step.LeaveSub? || step.RemoveEvicted? || step.EvictorCloses?
    || step.EndPublish?
  }

  /** A step of the publisher at work. */
  lemma PublishKeepsDelivery(s: State, step: Step, s': State)
    requires Inv(s) && Enabled(s, step) && ByPublish(step) && s' == Apply(s, step)
    requires DeliveryOk(s, s.pubs[step.p])
    ensures step.p < |s'.pubs| && DeliveryOk(s', s'.pubs[step.p])
  {
    match step
    case Snapshot(p, events) => SnapshotKeepsDelivery(s, p, events, s');
    case LockSub(p, i) => LockSubKeepsDelivery(s, p, i, s');
    case SendNext(p) => SendKeepsDelivery(s, p, s');
    case LeaveSub(p) => LeaveSubKeepsDelivery(s, p, s');
    case RemoveEvicted(p) => RemoveEvictedKeepsDelivery(s, p, s');
    case _ => EvictionKeepsDelivery(s, step, s');
  }

  /** A step of a subscriber, whoever is publishing. */
  lemma SubscriberKeepsDelivery(s: State, pub: Publisher, step: Step, s': State)
    requires Enabled(s, step) && !ByPublish(step) && s' == Apply(s, step) && DeliveryOk(s, pub) && PubKnown(s, pub)
    ensures DeliveryOk(s', pub) && s'.pubs == s.pubs
  {
    if step.Subscribe? {
      SubscribeKeepsDelivery(s, pub, step.filter, step.scope, s');
    } else {
      BookkeepingKeepsDelivery(s, pub, step.i, s');
    }
  }

  /** At most one publish is going on. */
  predicate OneAtATime(s: State) {
    forall p, q {:trigger s.pubs[p], s.pubs[q]} :: 0 <= p < q < |s.pubs| ==> s.pubs[p].Idle? || s.pubs[q].Idle?
  }

  predicate Quiet(s: State) {
    forall p {:trigger s.pubs[p]} :: 0 <= p < |s.pubs| ==> s.pubs[p].Idle?
  }

  /** Delivery is as the publish going on says, or as no publish says. */
  ghost predicate DeliveryAsPublished(s: State) {
    && (Quiet(s) ==> DeliveryOk(s, Idle))
    && forall p {:trigger s.pubs[p]} :: 0 <= p < |s.pubs| && !s.pubs[p].Idle? ==> DeliveryOk(s, s.pubs[p])
  }

  lemma StepKeepsDelivery(s: State, step: Step, s': State)
    requires Inv(s) && Enabled(s, step) && s' == Apply(s, step) && OneAtATime(s) && OneAtATime(s')
    requires DeliveryAsPublished(s)
    ensures DeliveryAsPublished(s')
  {
    if ByPublish(step) {
      var p := step.p;
      assert s'.pubs == s.pubs[p := s'.pubs[p]];
      if s.pubs[p].Idle? {
        forall q | 0 <= q < |s.pubs| ensures s.pubs[q].Idle? { assert s'.pubs[q].Idle? || q == p; }
      }
      PublishKeepsDelivery(s, step, s');
    } else {
      if Quiet(s) {
        SubscriberKeepsDelivery(s, Idle, step, s');
      }
      forall p | 0 <= p < |s'.pubs| && !s'.pubs[p].Idle? ensures DeliveryOk(s', s'.pubs[p]) {
        assert PubInv(s, p);
        SubscriberKeepsDelivery(s, s.pubs[p], step, s');
      }
    }
  }

  /** No two publishes overlap in the first `n` states. */
  predicate NoOverlap(states: seq<State>, n: nat) {
    n < |states| &&
    forall m {:trigger OneAtATime(states[m])} :: 0 <= m <= n ==> OneAtATime(states[m])
  }

  lemma {:induction false} DeliveryHolds(steps: seq<Step>, states: seq<State>, n: nat)
    requires IsRun(steps, states) && n < |states| && NoOverlap(states, n)
    ensures DeliveryAsPublished(states[n])
  {
    if n > 0 {
      DeliveryHolds(steps, states, n - 1);
      InvHolds(steps, states, n - 1);
      assert StepAt(steps, states, n - 1);
      assert OneAtATime(states[n - 1]) && OneAtATime(states[n]);
      StepKeepsDelivery(states[n - 1], steps[n - 1], states[n]);
    }
  }

  /** What was ever enqueued, and what the consumer received, is a prefix of what the subscription is owed. */
  ghost predicate DeliversPrefix(s: State, i: nat) {
    i < |s.subs| ==>
      var sub := s.subs[i];
      sub.born + |sub.scopes| <= |s.log| && sub.received <= sub.sent <= Owed(sub, s.log)
  }

  lemma ProgressIsAPrefix(s: State, pub: Publisher, i: nat)
    requires i < |s.subs| && DeliveryOk(s, pub) && SubInv(s, i)
    ensures DeliversPrefix(s, i)
  {
    assert DeliveryInv(s, pub, i);
    if pub.InSub? && pub.sub == i {
      PartlyIsPrefix(s.subs[i], s.log, pub.scope, pub.events, pub.next);
    }
  }

  /** Any number of publishers, as long as their publishes do not overlap, and scopes replaced at any time: what was
      ever enqueued, and what the consumer received, is a prefix of the allowed, matching events of the batches
      published since the subscription began, each batch under the scope that was read for it: in order, no gap, no
      duplicate. */
  lemma DeliveredIsAPrefix(steps: seq<Step>, states: seq<State>, n: nat, i: nat)
    requires IsRun(steps, states) && n < |states| && NoOverlap(states, n)
    ensures DeliversPrefix(states[n], i)
  {
    var s := states[n];
    DeliveryHolds(steps, states, n);
    InvHolds(steps, states, n);
    if i < |s.subs| {
      assert SubInv(s, i);
      if Quiet(s) {
        ProgressIsAPrefix(s, Idle, i);
      } else {
        var p :| 0 <= p < |s.pubs| && !s.pubs[p].Idle?;
        ProgressIsAPrefix(s, s.pubs[p], i);
      }
    }
  }

  /** Between publishes nothing is outstanding: every batch has come to the subscription and all it was owed was sent,
      except to one that is closed, or that Close has already taken out of the map and is about to close. */
  lemma NothingOutstandingBetweenPublishes(steps: seq<Step>, states: seq<State>, n: nat, i: nat)
    requires IsRun(steps, states) && n < |states| && NoOverlap(states, n) && Quiet(states[n])
    requires i < |states[n].subs|
    ensures var s := states[n]; var sub := s.subs[i];
            || (UpToDate(sub, s.log) && sub.sent == Owed(sub, s.log))
            || sub.closed || (sub.removedBy == ByClose && sub.closer == Closing)
  {
    var s := states[n];
    DeliveryHolds(steps, states, n);
    InvHolds(steps, states, n);
    assert DeliveryInv(s, Idle, i) && SubInv(s, i);
    assert s.subs[i].removedBy.ByPublisher? && s.subs[i].removedBy.p < |s.pubs| ==> s.pubs[s.subs[i].removedBy.p].Idle?;
  }

  // ----- What was asked for, read off the steps alone -----

  function Subscribes(steps: seq<Step>): nat {
    if steps == [] then 0
    else Subscribes(steps[..|steps| - 1]) + if steps[|steps| - 1].Subscribe? then 1 else 0
  }

  /** Every batch published, in order. */
  function Published(steps: seq<Step>): seq<seq<Event>> {
    if steps == [] then []
    else
      var before, last := steps[..|steps| - 1], steps[|steps| - 1];
      Published(before) + if last.Snapshot? then [last.events] else []
  }

  /** The scope that was last set for subscription `i`, by SetScope or when it subscribed. */
  function LastScope(steps: seq<Step>, i: nat): Option<Scope> {
    if steps == [] then None
    else
      var before, last := steps[..|steps| - 1], steps[|steps| - 1];
      if last.SetScope? && last.i == i then Some(last.scope)
      else if last.Subscribe? && Subscribes(before) == i then Some(last.scope)
      else LastScope(before, i)
  }

  /** The filter subscription `i` asked for, and how many batches had been published by then. */
  function Asked(steps: seq<Step>, i: nat): Option<(Filter, nat)> {
    if steps == [] then None
    else
      var before, last := steps[..|steps| - 1], steps[|steps| - 1];
      if last.Subscribe? && Subscribes(before) == i then Some((last.filter, |Published(before)|)) else Asked(before, i)
  }

  /** The batch publisher `p` last set out to publish. */
  function BatchOf(steps: seq<Step>, p: nat): seq<Event> {
    if steps == [] then []
    else
      var before, last := steps[..|steps| - 1], steps[|steps| - 1];
      if last.Snapshot? && last.p == p then last.events else BatchOf(before, p)
  }

  ghost predicate SubIsAsAsked(s: State, steps: seq<Step>, i: nat) {
    i < |s.subs| && Some(s.subs[i].scope) == LastScope(steps, i) &&
    Some((s.subs[i].filter, s.subs[i].born)) == Asked(steps, i)
  }

  ghost predicate PubIsAsAsked(s: State, steps: seq<Step>, p: nat) {
    p < |s.pubs| && (s.pubs[p].Sending? || s.pubs[p].InSub? ==> s.pubs[p].events == BatchOf(steps, p))
  }

  /** Batches, filters, scopes and work in progress are what the steps so far asked for. */
  ghost predicate AsAsked(s: State, steps: seq<Step>) {
    && |s.subs| == Subscribes(steps) && s.log == Published(steps)
    && (forall i {:trigger SubIsAsAsked(s, steps, i)} :: 0 <= i < |s.subs| ==> SubIsAsAsked(s, steps, i))
    && (forall p {:trigger PubIsAsAsked(s, steps, p)} :: 0 <= p < |s.pubs| ==> PubIsAsAsked(s, steps, p))
  }

  /** Filters and births stay; a scope changes by SetScope only. */
  lemma SubStays(s: State, step: Step, s': State, i: nat)
    requires Enabled(s, step) && s' == Apply(s, step) && i < |s.subs|
    ensures |s'.subs| == |s.subs| + if step.Subscribe? then 1 else 0
    ensures s'.subs[i].filter == s.subs[i].filter && s'.subs[i].born == s.subs[i].born
    ensures s'.subs[i].scope == if step.SetScope? && step.i == i then step.scope else s.subs[i].scope
  {
  }

  lemma PubStays(s: State, step: Step, s': State, p: nat)
    requires Enabled(s, step) && s' == Apply(s, step) && p < |s'.pubs|
    ensures |s'.pubs| == |s.pubs| && s'.log == s.log + if step.Snapshot? then [step.events] else []
    ensures s'.pubs[p].Sending? || s'.pubs[p].InSub? ==>
              (step.Snapshot? && step.p == p && s'.pubs[p].events == step.events) ||
              (!(step.Snapshot? && step.p == p) && (s.pubs[p].Sending? || s.pubs[p].InSub?) &&
                 s'.pubs[p].events == s.pubs[p].events)
    ensures s'.pubs[p].InSub? ==>
              (step.LockSub? && step.p == p && s'.pubs[p].sub == step.i && s'.pubs[p].scope == s.subs[step.i].scope) ||
              (s.pubs[p].InSub? && s'.pubs[p].sub == s.pubs[p].sub && s'.pubs[p].scope == s.pubs[p].scope)
  {
  }

  lemma CountsGrow(s: State, step: Step, s': State)
    requires Enabled(s, step) && s' == Apply(s, step)
    ensures |s'.subs| == |s.subs| + (if step.Subscribe? then 1 else 0) && |s'.pubs| == |s.pubs|
    ensures s'.log == s.log + if step.Snapshot? then [step.events] else []
    ensures step.Subscribe? ==>
              var sub := s'.subs[|s.subs|];
              sub.filter == step.filter && sub.scope == step.scope && sub.born == |s.log|
  {
  }

  lemma StepIsAsAsked(s: State, steps: seq<Step>, step: Step, s': State)
    requires AsAsked(s, steps) && Enabled(s, step) && s' == Apply(s, step)
    ensures AsAsked(s', steps + [step])
  {
    assert (steps + [step])[..|steps|] == steps;
    CountsGrow(s, step, s');
    forall i | 0 <= i < |s'.subs| ensures SubIsAsAsked(s', steps + [step], i) {
      if i < |s.subs| {
        assert SubIsAsAsked(s, steps, i);
        SubStays(s, step, s', i);
      }
    }
    forall p | 0 <= p < |s'.pubs| ensures PubIsAsAsked(s', steps + [step], p) {
      assert PubIsAsAsked(s, steps, p);
      PubStays(s, step, s', p);
    }
  }

  /** In every run, with any number of publishers: each subscription has the filter it asked for and the scope last set
      for it, counts from the first batch published after it subscribed, and the batches are those published. */
  lemma {:induction false} HistoryIsTrue(steps: seq<Step>, states: seq<State>, n: nat)
    requires IsRun(steps, states) && n < |states|
    ensures AsAsked(states[n], steps[..n])
  {
    if n == 0 {
      forall p | 0 <= p < |states[0].pubs| ensures PubIsAsAsked(states[0], [], p) { assert states[0].pubs[p].Idle?; }
    } else {
      HistoryIsTrue(steps, states, n - 1);
      assert StepAt(steps, states, n - 1);
      assert steps[..n] == steps[..n - 1] + [steps[n - 1]];
      StepIsAsAsked(states[n - 1], steps[..n - 1], steps[n - 1], states[n]);
    }
  }

  // ----- Replaced scopes, for any number of publishers -----

  /** A publish came to subscription `i` at step `m`, its `k`-th, and read the scope that was last set by then. */
  ghost predicate ReadAt(steps: seq<Step>, states: seq<State>, n: nat, i: nat, k: nat, m: nat) {
    && m < n < |states| == |steps| + 1 && i < |states[n].subs| && k < |states[n].subs[i].scopes|
    && steps[m].LockSub? && steps[m].i == i < |states[m].subs| && |states[m].subs[i].scopes| == k
    && LastScope(steps[..m], i) == Some(states[n].subs[i].scopes[k])
  }

  lemma ScopesGrow(s: State, step: Step, s': State, i: nat)
    requires Enabled(s, step) && s' == Apply(s, step) && i < |s'.subs|
    ensures i < |s.subs| ==>
              s'.subs[i].scopes == s.subs[i].scopes ||
              (step.LockSub? && step.i == i && s'.subs[i].scopes == s.subs[i].scopes + [s.subs[i].scope])
    ensures i >= |s.subs| ==> s'.subs[i].scopes == []
  {
  }

  /** In every run: the scope under which a publish serves a subscription is the one last set when it came to it. */
  lemma {:induction false} ScopesAreCurrent(steps: seq<Step>, states: seq<State>, n: nat, i: nat, k: nat)
    requires IsRun(steps, states) && n < |states| && i < |states[n].subs| && k < |states[n].subs[i].scopes|
    ensures exists m :: 0 <= m < n && ReadAt(steps, states, n, i, k, m)
  {
    var s, step := states[n - 1], steps[n - 1];
    assert StepAt(steps, states, n - 1);
    ScopesGrow(s, step, states[n], i);
    if k < |s.subs[i].scopes| {
      ScopesAreCurrent(steps, states, n - 1, i, k);
      var m :| 0 <= m < n - 1 && ReadAt(steps, states, n - 1, i, k, m);
      assert ReadAt(steps, states, n, i, k, m);
    } else {
      HistoryIsTrue(steps, states, n - 1);
      assert SubIsAsAsked(s, steps[..n - 1], i);
      assert ReadAt(steps, states, n, i, k, n - 1);
    }
  }

  /** Publisher `p` took up subscription `i` at step `m`, and no other before step `n`. */
  ghost predicate TakenUp(steps: seq<Step>, m: nat, n: nat, p: nat, i: nat) {
    && m < n <= |steps| && steps[m] == LockSub(p, i)
    && forall k {:trigger steps[k]} :: m < k < n ==> !(steps[k].LockSub? && steps[k].p == p)
  }

  lemma {:induction false} ScopeWasRead(steps: seq<Step>, states: seq<State>, n: nat, p: nat)
    requires IsRun(steps, states) && n < |states| && p < |states[n].pubs| && states[n].pubs[p].InSub?
    ensures exists m :: 0 <= m < n && TakenUp(steps, m, n, p, states[n].pubs[p].sub) &&
                        LastScope(steps[..m], states[n].pubs[p].sub) == Some(states[n].pubs[p].scope)
  {
    var s, step := states[n - 1], steps[n - 1];
    assert StepAt(steps, states, n - 1);
    PubStays(s, step, states[n], p);
    if step.LockSub? && step.p == p {
      HistoryIsTrue(steps, states, n - 1);
      assert SubIsAsAsked(s, steps[..n - 1], step.i);
      assert TakenUp(steps, n - 1, n, p, step.i);
    } else {
      ScopeWasRead(steps, states, n - 1, p);
      var m :| 0 <= m < n - 1 && TakenUp(steps, m, n - 1, p, s.pubs[p].sub) &&
        LastScope(steps[..m], s.pubs[p].sub) == Some(s.pubs[p].scope);
      assert TakenUp(steps, m, n, p, s.pubs[p].sub);
    }
  }

  /** Step `k` sent event `e` to subscription `i`, in a publish that took it up at step `m`. */
  ghost predicate SentBy(steps: seq<Step>, states: seq<State>, k: nat, m: nat, i: nat, e: Event) {
    && k < |steps| && |states| == |steps| + 1 && steps[k].SendNext? && TakenUp(steps, m, k, steps[k].p, i)
    && i < |states[k].subs| && e in BatchOf(steps[..k], steps[k].p)
    && states[k].subs[i].filter(e)
    && LastScope(steps[..m], i).Some? && Allows(LastScope(steps[..m], i).value, e.contractID)
  }

  /** Only a publish enqueues, one event at a time. */
  lemma SentGrows(s: State, step: Step, s': State, i: nat)
    requires Enabled(s, step) && s' == Apply(s, step) && i < |s'.subs|
    requires i < |s.subs| ==> s'.subs[i].sent != s.subs[i].sent
    ensures i >= |s.subs| ==> s'.subs[i].sent == []
    ensures i < |s.subs| ==>
              && step.SendNext? && s.pubs[step.p].sub == i
              && var pub := s.pubs[step.p]; var e := pub.events[pub.next];
                 s'.subs[i].sent == s.subs[i].sent + [e] && Wants(pub.scope, s.subs[i].filter, e)
  {
  }

  /** In every run, with any number of publishers: every event enqueued to a subscription is of the batch being
      published, matches its filter, and is allowed by the scope that was last set when the publish took it up. */
  lemma {:induction false} OnlyAllowedIsSent(steps: seq<Step>, states: seq<State>, n: nat, i: nat, j: nat)
    requires IsRun(steps, states) && n < |states| && i < |states[n].subs| && j < |states[n].subs[i].sent|
    ensures exists k, m {:trigger SentBy(steps, states, k, m, i, states[n].subs[i].sent[j])} ::
              0 <= m < k < n && SentBy(steps, states, k, m, i, states[n].subs[i].sent[j])
  {
    var s, step := states[n - 1], steps[n - 1];
    assert StepAt(steps, states, n - 1);
    var e := states[n].subs[i].sent[j];
    if i >= |s.subs| || states[n].subs[i].sent != s.subs[i].sent {
      SentGrows(s, step, states[n], i);
    }
    if j < |s.subs[i].sent| {
      OnlyAllowedIsSent(steps, states, n - 1, i, j);
      var k, m :| 0 <= m < k < n - 1 && SentBy(steps, states, k, m, i, s.subs[i].sent[j]);
      assert SentBy(steps, states, k, m, i, e);
    } else {
      HistoryIsTrue(steps, states, n - 1);
      assert PubIsAsAsked(s, steps[..n - 1], step.p);
      ScopeWasRead(steps, states, n - 1, step.p);
      var m :| 0 <= m < n - 1 && TakenUp(steps, m, n - 1, step.p, i) &&
        LastScope(steps[..m], i) == Some(s.pubs[step.p].scope);
      assert SentBy(steps, states, n - 1, m, i, e);
    }
  }

  lemma {:induction false} ScopeStays(steps: seq<Step>, i: nat, m: nat, n: nat, scope: Scope)
    requires m < n <= |steps| && steps[m] == SetScope(i, scope)
    requires Subscribes(steps[..m]) > i
    requires forall k {:trigger steps[k]} :: m < k < n ==> !(steps[k].SetScope? && steps[k].i == i)
    ensures LastScope(steps[..n], i) == Some(scope) && Subscribes(steps[..n]) > i
    decreases n
  {
    assert steps[..n][..n - 1] == steps[..n - 1];
    if m < n - 1 {
      ScopeStays(steps, i, m, n - 1, scope);
    }
  }

  /** A replaced scope binds: whatever a publish that comes to the subscription after SetScope sends it, until the
      scope is replaced again, the new scope allows. */
  lemma NewScopeBinds(steps: seq<Step>, states: seq<State>, at: nat, i: nat, scope: Scope, k: nat, m: nat, e: Event)
    requires IsRun(steps, states) && at < m && SentBy(steps, states, k, m, i, e) && steps[at] == SetScope(i, scope)
    requires forall n {:trigger steps[n]} :: at < n < m ==> !(steps[n].SetScope? && steps[n].i == i)
    ensures Allows(scope, e.contractID)
  {
    HistoryIsTrue(steps, states, at);
    assert StepAt(steps, states, at);
    ScopeStays(steps, i, at, m, scope);
  }

  // ----- Overlapping publishes -----

  ghost predicate Reaches(s: State, steps: seq<Step>, s': State)
    decreases |steps|
  {
    if steps == [] then s' == s else Enabled(s, steps[0]) && Reaches(Apply(s, steps[0]), steps[1..], s')
  }

  /** The step leads from one state to the other, compared field by field. */
  ghost predicate Leads(s: State, step: Step, s': State) {
    Enabled(s, step) &&
    var t := Apply(s, step);
    t.bound == s'.bound && t.subs == s'.subs && t.pubs == s'.pubs && t.log == s'.log && t.panicked == s'.panicked
  }

  lemma Prepend(s: State, step: Step, via: State, rest: seq<Step>, s': State) returns (steps: seq<Step>)
    requires Leads(s, step, via) && Reaches(via, rest, s')
    ensures Reaches(s, steps, s')
  {
    steps := [step] + rest;
    assert steps[1..] == rest && Apply(s, step) == via;
  }

  /** The states along the way. */
  lemma {:induction false} Trace(s: State, steps: seq<Step>, s': State) returns (states: seq<State>)
    requires Reaches(s, steps, s')
    ensures |states| == |steps| + 1 && states[0] == s && states[|steps|] == s'
    ensures forall n {:trigger StepAt(steps, states, n)} :: 0 <= n < |steps| ==> StepAt(steps, states, n)
    decreases |steps|
  {
    if steps == [] {
      states := [s];
    } else {
      var rest := Trace(Apply(s, steps[0]), steps[1..], s');
      states := [s] + rest;
      forall n | 0 <= n < |steps| ensures StepAt(steps, states, n) {
        assert n > 0 ==> StepAt(steps[1..], rest, n - 1) && steps[n] == steps[1..][n - 1];
      }
    }
  }

  /** The run below: one subscription; the first two publishers, with all others idle. `missed` is set from the moment
      the first publisher has given up on the subscription. */
  function Scene(bound: nat, others: seq<Publisher>, sub: Subscription, first: Publisher, second: Publisher,
                 log: seq<seq<Event>>): State {
    State(bound, [sub], [first, second] + others, log, false)
  }

  function Sub(filter: Filter, buffer: seq<Event>, holder: Option<nat>, sent: seq<Event>, received: seq<Event>,
               scopes: seq<Scope>, missed: bool): Subscription {
    Subscription(filter, Wildcard, buffer, false, 0, holder, NotCalled, Registered, sent, received, 0, scopes, missed)
  }

  predicate AllMatch(filter: Filter, batch: seq<Event>) {
    forall e <- batch :: filter(e)
  }

  lemma {:induction false} MatchingBatchIsWanted(filter: Filter, batch: seq<Event>)
    requires AllMatch(filter, batch)
    ensures Wanted(Wildcard, filter, batch) == batch
  {
    if batch != [] {
      MatchingBatchIsWanted(filter, batch[..|batch| - 1]);
    }
  }

  lemma BothBatchesAreOwed(filter: Filter, batch: seq<Event>, c: Event)
    requires AllMatch(filter, batch) && filter(c)
    ensures WantedUnder([Wildcard, Wildcard], filter, [batch, [c]], 0) == batch + [c]
  {
    MatchingBatchIsWanted(filter, batch);
    MatchingBatchIsWanted(filter, [c]);
    var scopes, log := [Wildcard, Wildcard], [batch, [c]];
    assert scopes[..1] == [Wildcard] && scopes[..1][..0] == [];
    assert WantedUnder(scopes[..1], filter, log, 0) == batch;
  }

  /** A batch offered to a lone subscription. */
  lemma SnapshotOfOne(s: State, p: nat, events: seq<Event>)
    requires p < |s.pubs| && |s.subs| == 1 && s.subs[0].removedBy.Registered?
    ensures DoSnapshot(s, p, events) == SetPub(s.(log := s.log + [events]), p, Sending(events, {0}, {}))
  {
    var d := DoSnapshot(s, p, events);
    assert d.subs == s.subs;
    assert d.pubs[p].todo == {0} && d.pubs == s.pubs[p := Sending(events, {0}, {})];
  }

  function Offered(b: nat, others: seq<Publisher>, filter: Filter): State {
    Scene(b, others, Sub(filter, [], None, [], [], [], false), Idle, Idle, [])
  }

  /** The first publisher has sent the first `k` events of its batch. */
  function Filling(b: nat, others: seq<Publisher>, filter: Filter, batch: seq<Event>, k: nat): State
    requires k <= |batch|
  {
    Scene(b, others, Sub(filter, batch[..k], Some(0), batch[..k], [], [Wildcard], false),
      InSub(batch, 0, Wildcard, k, {}, {}), Idle, [batch])
  }

  /** It has given up on the full subscription, and the consumer has made room again. */
  function Drained(b: nat, others: seq<Publisher>, filter: Filter, batch: seq<Event>): State
    requires 0 < b <= |batch|
  {
    Scene(b, others, Sub(filter, batch[1..b], None, batch[..b], batch[..1], [Wildcard], true), Sending(batch, {}, {0}),
      Idle, [batch])
  }

  function Skipped(b: nat, others: seq<Publisher>, filter: Filter, batch: seq<Event>, c: Event): State
    requires 0 < b <= |batch|
  {
    Scene(b, others, Sub(filter, batch[1..b] + [c], Some(1), batch[..b] + [c], batch[..1], [Wildcard, Wildcard],
      true),
          Sending(batch, {}, {0}), InSub([c], 0, Wildcard, 1, {}, {}), [batch, [c]])
  }

  lemma FirstStarts(b: nat, others: seq<Publisher>, filter: Filter, batch: seq<Event>, rest: seq<Step>, s': State)
    returns (steps: seq<Step>)
    requires Reaches(Filling(b, others, filter, batch, 0), rest, s')
    ensures Reaches(Offered(b, others, filter), steps, s')
  {
    var s1 := Offered(b, others, filter);
    var s2 := Scene(b, others, s1.subs[0], Sending(batch, {0}, {}), Idle, [batch]);
    SnapshotOfOne(s1, 0, batch);
    assert {0 as nat} - {0} == {} && batch[..0] == [] && [] + [Wildcard] == [Wildcard];
    steps := Prepend(s2, LockSub(0, 0), Filling(b, others, filter, batch, 0), rest, s');
    steps := Prepend(s1, Snapshot(0, batch), s2, steps, s');
  }

  lemma SendOne(b: nat, others: seq<Publisher>, filter: Filter, batch: seq<Event>, k: nat)
    requires k < b && k < |batch| && filter(batch[k])
    ensures Leads(Filling(b, others, filter, batch, k), SendNext(0), Filling(b, others, filter, batch, k + 1))
  {
    assert batch[..k] + [batch[k]] == batch[..k + 1];
  }

  lemma {:induction false} FirstFills(b: nat, others: seq<Publisher>, filter: Filter, batch: seq<Event>, k: nat,
                                      rest: seq<Step>, s': State)
    returns (steps: seq<Step>)
    requires k <= b <= |batch| && AllMatch(filter, batch) && Reaches(Filling(b, others, filter, batch, b), rest, s')
    ensures Reaches(Filling(b, others, filter, batch, k), steps, s')
    decreases b - k
  {
    if k == b {
      steps := rest;
    } else {
      steps := FirstFills(b, others, filter, batch, k + 1, rest, s');
      assert filter(batch[k]);
      SendOne(b, others, filter, batch, k);
      steps := Prepend(Filling(b, others, filter, batch, k), SendNext(0), Filling(b, others, filter, batch, k + 1),
        steps, s');
    }
  }

  lemma FirstGivesUp(b: nat, others: seq<Publisher>, filter: Filter, batch: seq<Event>, rest: seq<Step>, s': State)
    returns (steps: seq<Step>)
    requires 0 < b < |batch| && filter(batch[b]) && Reaches(Drained(b, others, filter, batch), rest, s')
    ensures Reaches(Filling(b, others, filter, batch, b), steps, s')
  {
    var sub := Sub(filter, batch[..b], None, batch[..b], [], [Wildcard], true);
    var s5 := Scene(b, others, sub, Sending(batch, {}, {0}), Idle, [batch]);
    assert {} + {0 as nat} == {0} && batch[..b][1..] == batch[1..b] && sub.received + [batch[..b][0]] == batch[..1];
    steps := Prepend(s5, Receive(0), Drained(b, others, filter, batch), rest, s');
    steps := Prepend(Filling(b, others, filter, batch, b), SendNext(0), s5, steps, s');
  }

  lemma SecondDelivers(b: nat, others: seq<Publisher>, filter: Filter, batch: seq<Event>,
                       c: Event) returns (steps: seq<Step>)
    requires 0 < b <= |batch| && filter(c)
    ensures Reaches(Drained(b, others, filter, batch), steps, Skipped(b, others, filter, batch, c))
  {
    var s6, s9 := Drained(b, others, filter, batch), Skipped(b, others, filter, batch, c);
    var s7 := Scene(b, others, s6.subs[0], s6.pubs[0], Sending([c], {0}, {}), [batch, [c]]);
    var s8 := Scene(b, others, s6.subs[0].(holder := Some(1), scopes := [Wildcard, Wildcard]), s6.pubs[0],
                    InSub([c], 0, Wildcard, 0, {}, {}), [batch, [c]]);
    SnapshotOfOne(s6, 1, [c]);
    assert {0 as nat} - {0} == {} && [Wildcard] + [Wildcard] == [Wildcard, Wildcard];
    steps := Prepend(s8, SendNext(1), s9, [], s9);
    steps := Prepend(s7, LockSub(1, 0), s8, steps, s9);
    steps := Prepend(s6, Snapshot(1, [c]), s7, steps, s9);
  }

  function Resting(bound: nat, publishers: nat): State {
    State(bound, [], seq(publishers, _ => Idle), [], false)
  }

  /** For every capacity, every number of publishers from two on, every batch of one event more than the capacity and
      every further event, all matching: a gap can open. One publisher gives up on the full buffer, the consumer makes
      room, and another delivers the later event before the first has closed the channel. */
  lemma OverlapCanLeaveAGap(b: nat, publishers: nat, filter: Filter, batch: seq<Event>, c: Event)
    returns (steps: seq<Step>, s: State)
    requires 0 < b && 2 <= publishers && |batch| == b + 1 && AllMatch(filter, batch) && filter(c)
    ensures Reaches(Resting(b, publishers), steps, s)
    ensures |s.subs| == 1 && s.subs[0].born == 0 && UpToDate(s.subs[0], s.log)
    ensures s.subs[0].sent == batch[..b] + [c] && Owed(s.subs[0], s.log) == batch + [c]
  {
    var others: seq<Publisher> := seq(publishers - 2, _ => Idle);
    s := Skipped(b, others, filter, batch, c);
    steps := SecondDelivers(b, others, filter, batch, c);
    assert batch[b] in batch;
    steps := FirstGivesUp(b, others, filter, batch, steps, s);
    steps := FirstFills(b, others, filter, batch, 0, steps, s);
    steps := FirstStarts(b, others, filter, batch, steps, s);
    assert Resting(b, publishers).pubs == [Idle, Idle] + others;
    steps := Prepend(Resting(b, publishers), Subscribe(filter, Wildcard), Offered(b, others, filter), steps, s);
    BothBatchesAreOwed(filter, batch, c);
  }

  /** Exactly when every run delivers prefixes: with at most one publisher. */
  lemma PrefixesIffOnePublisher(b: nat, publishers: nat)
    requires 0 < b
    ensures (forall steps: seq<Step>, states: seq<State>, n: nat, i: nat
               {:trigger IsRun(steps, states), DeliversPrefix(states[n], i)} ::
               (IsRun(steps, states) && states[0].bound == b && |states[0].pubs| == publishers && n < |states|) ==>
                 DeliversPrefix(states[n], i))
            <==> publishers <= 1
  {
    if publishers <= 1 {
      forall steps: seq<Step>, states: seq<State>, n: nat, i: nat
        | IsRun(steps, states) && |states[0].pubs| == publishers && n < |states|
        ensures DeliversPrefix(states[n], i)
      {
        forall m | 0 <= m <= n ensures OneAtATime(states[m]) { InvHolds(steps, states, m); }
        DeliveredIsAPrefix(steps, states, n, i);
      }
    } else {
      var a, c := Event("", "a"), Event("", "c");
      var batch := seq(b + 1, _ => a);
      var steps, s := OverlapCanLeaveAGap(b, publishers, _ => true, batch, c);
      var states := Trace(Resting(b, publishers), steps, s);
      assert IsRun(steps, states);
      GapIsNoPrefix(batch[..b], a, c, batch + [c]);
      assert !DeliversPrefix(states[|steps|], 0);
    }
  }

  lemma GapIsNoPrefix(front: seq<Event>, a: Event, c: Event, owed: seq<Event>)
    requires |front| < |owed| && owed[|front|] == a != c
    ensures !(front + [c] <= owed)
  {
    assert (front + [c])[|front|] == c;
  }
}
