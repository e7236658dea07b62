/** The buffer that captures a handler's response before it is stored and sent
    (internal/api/idempotency.go, idempotencyResponseRecorder). */
module IdempotencyRecorder {
  import opened Common
  import opened IdempotencyStore

  /** What a handler may do to its ResponseWriter. */
  datatype Call = SetContentType(contentType: string) | WriteHeader(code: nat) | Write(data: Bytes)

  datatype Recorder = Recorder(statusCode: nat, wroteHeader: bool, contentType: string, body: Bytes)

  const NEW_RECORDER := Recorder(0, false, "", [])

  function Record(r: Recorder, c: Call): Recorder {
    match c
    case SetContentType(t) => r.(contentType := t)
    case WriteHeader(code) => if r.wroteHeader then r else r.(statusCode := code, wroteHeader := true)
    case Write(data) =>
      var r := if r.wroteHeader then r else r.(statusCode := 200, wroteHeader := true);
      r.(body := r.body + data)
  }

  function RecordAll(r: Recorder, calls: seq<Call>): Recorder
    decreases |calls|
  {
    if calls == [] then r else RecordAll(Record(r, calls[0]), calls[1..])
  }

  /** The response of a recorder: an unset status counts as 200. */
  function ResponseOf(r: Recorder): Response {
    Response(if r.statusCode == 0 then 200 else r.statusCode, r.contentType, r.body)
  }

  function Recorded(calls: seq<Call>): Response {
    ResponseOf(RecordAll(NEW_RECORDER, calls))
  }

  // What the handler meant, read off the call list without any recorder.

  /** The status of the first header-committing call. */
  function FirstStatus(calls: seq<Call>): nat {
    if calls == [] then 200
    else match calls[0]
      case SetContentType(_) => FirstStatus(calls[1..])
      case WriteHeader(code) => if code == 0 then 200 else code
      case Write(_) => 200
  }

  function WrittenBytes(calls: seq<Call>): Bytes {
    if calls == [] then []
    else (if calls[0].Write? then calls[0].data else []) + WrittenBytes(calls[1..])
  }

  /** The content type last set, if any was. */
  function LastContentType(calls: seq<Call>, before: string): string {
    if calls == [] then before
    else LastContentType(calls[1..], if calls[0].SetContentType? then calls[0].contentType else before)
  }

  lemma {:induction false} RecordAllKeeps(r: Recorder, calls: seq<Call>)
    ensures RecordAll(r, calls).body == r.body + WrittenBytes(calls)
    ensures RecordAll(r, calls).contentType == LastContentType(calls, r.contentType)
    ensures r.wroteHeader ==> RecordAll(r, calls).statusCode == r.statusCode
    ensures !r.wroteHeader && r.statusCode == 0 ==> ResponseOf(RecordAll(r, calls)).status == FirstStatus(calls)
    decreases |calls|
  {
    if calls != [] {
      RecordAllKeeps(Record(r, calls[0]), calls[1..]);
    }
  }

  /** The recorder loses nothing: status of the first committing call, last content type, every written byte in
      order. */
  lemma RecordedIsWhatTheHandlerWrote(calls: seq<Call>)
    ensures Recorded(calls).status == FirstStatus(calls) > 0
    ensures Recorded(calls).body == WrittenBytes(calls)
    ensures Recorded(calls).contentType == LastContentType(calls, "")
  {
    RecordAllKeeps(NEW_RECORDER, calls);
  }

  class ResponseRecorder {
    var statusCode: nat
    var wroteHeader: bool
    var contentType: string
    var body: Bytes

    function View(): Recorder
      reads this
    {
      Recorder(statusCode, wroteHeader, contentType, body)
    }

    constructor ()
      ensures View() == NEW_RECORDER
    {
      statusCode, wroteHeader, contentType, body := 0, false, "", [];
    }

    method SetContentType(t: string)
      modifies this
      ensures View() == Record(old(View()), Call.SetContentType(t))
    {
      contentType := t;
    }

    method WriteHeader(code: nat)
      modifies this
      ensures View() == Record(old(View()), Call.WriteHeader(code))
    {
      if wroteHeader {
        return;
      }
      statusCode := code;
      wroteHeader := true;
    }

    method Write(data: Bytes) returns (n: nat)
      modifies this
      ensures View() == Record(old(View()), Call.Write(data)) && n == |data|
    {
      if !wroteHeader {
        WriteHeader(200);
      }
      body := body + data;
      n := |data|;
    }

    /** What reaches the underlying writer is exactly the response that is stored for replays. */
    method FlushToUnderlying() returns (status: nat, sentType: string, sent: Bytes)
      ensures Response(status, sentType, sent) == ResponseOf(View())
    {
      sentType := contentType;
      status := statusCode;
      if status == 0 {
        status := 200;
      }
      sent := [];
      if |body| > 0 {
        sent := body;
      }
    }
  }
}

/** Single-flight execution of same-key requests across replicas
    (internal/api/idempotency.go, idempotencyMiddleware and executeWithIdempotencySlot).

    The state is that of ONE (tenant, key) pair: store rows and slots are addressed by the pair, so
    requests for different pairs never touch each other's state. Every step below is one atomic action of
    the source: a critical section under the coordinator's mutex, one store transaction, or one handler event. */
module Idempotency {
  import opened Common
  import opened IdempotencyStore
  import IdempotencyRecorder

  /** An in-process slot. `closes` counts the closes of its done channel; `source` names the run a result came from. */
  datatype Slot = Slot(replica: nat, owner: nat, fp: Fingerprint, result: Response, source: nat, failed: bool,
    closes: nat)

  datatype Cleanup = NoRun | Stored(run: nat) | Deleted(run: nat) | DeleteFailed(run: nat)

  datatype Phase =
    | Arrived                                    // clock read, slot map not consulted yet
    | Waiting(slot: nat)                         // blocked on another request's slot
    | Claiming(slot: nat)                        // owns a slot, about to claim the row
    | Polling(slot: nat)                         // another replica holds the row
    | Running(slot: nat, run: nat)               // handler executing
    | Completing(slot: nat, run: nat)            // handler returned below 500, row not written yet
    | Aborting(slot: nat, run: nat, answer: Option<Response>) // handler panicked or returned 5xx, row not deleted yet
    | Releasing(slot: nat, cleanup: Cleanup)     // deferred release pending
    | Done

  datatype Request = Request(replica: nat, fp: Fingerprint, now: int, ttl: int, phase: Phase)

  datatype RunOutcome = InProgress | Completed(response: Response) | Aborted

  datatype HandlerRun = HandlerRun(request: nat, fp: Fingerprint, startedAt: int, expiresAt: int, outcome: RunOutcome)

  datatype Reply =
    | Direct(request: nat, response: Response)
    | Replay(request: nat, response: Response, source: nat)
    | Conflict(request: nat)
    | TimedOut(request: nat)
    | StoreFailure(request: nat)

  /** `rowRun`, `rowSource`, `runs` and `replies` are history: which run inserted the row, which run's response the row
      carries, every run, every reply. */
  datatype State = State(
    clock: int,
    row: Option<Row>,
    rowRun: nat,
    rowSource: nat,
    slots: seq<Slot>,
    inFlight: map<nat, nat>,
    requests: seq<Request>,
    runs: seq<HandlerRun>,
    replies: seq<Reply>)

  function Start(clock: int): State {
    State(clock, None, 0, 0, [], map[], [], [], [])
  }

  datatype Step =
    | Tick(to: int)
    | Sweep(now: int)
    | Arrive(replica: nat, fp: Fingerprint, ttl: int)
    | Enter(i: nat)
    | Wake(i: nat)
    | Cancel(i: nat)
    | ClaimRow(i: nat, storeFails: bool)
    | Poll(i: nat, giveUp: bool)
    | HandlerReturns(i: nat, calls: seq<IdempotencyRecorder.Call>)
    | HandlerPanics(i: nat)
    | StoreComplete(i: nat, ok: bool)
    | StoreDelete(i: nat, ok: bool)
    | Release(i: nat)

  predicate Owning(p: Phase) {
    p.Claiming? || p.Polling? || p.Running? || p.Completing? || p.Aborting? || p.Releasing?
  }

  /** The request holds the row: it must finish (store step included) before the reservation expires. */
  predicate Holding(p: Phase) {
    p.Running? || p.Completing? || p.Aborting?
  }

  /** The slot and run a phase names exist. */
  predicate InRange(s: State, p: Phase) {
    && (Owning(p) || p.Waiting? ==> p.slot < |s.slots|)
    && (Holding(p) ==> p.run < |s.runs|)
  }

  predicate Enabled(s: State, step: Step)
  {
    && (step.Tick? || step.Sweep? || step.Arrive? || (step.i < |s.requests| && InRange(s, s.requests[step.i].phase)))
    && match step
       case Tick(to) => s.clock <= to
       case Sweep(now) => now <= s.clock && s.row.Some? && Expired(s.row.value, now)
       case Arrive(_, _, _) => true
       case Enter(i) => s.requests[i].phase.Arrived?
       case Wake(i) => s.requests[i].phase.Waiting? && s.slots[s.requests[i].phase.slot].closes > 0
       case Cancel(i) => s.requests[i].phase.Waiting?
       case ClaimRow(i, _) => s.requests[i].phase.Claiming?
       case Poll(i, _) => s.requests[i].phase.Polling?
       case HandlerReturns(i, _) => s.requests[i].phase.Running?
       case HandlerPanics(i) => s.requests[i].phase.Running?
       case StoreComplete(i, _) => s.requests[i].phase.Completing? && s.runs[s.requests[i].phase.run].outcome.Completed?
       case StoreDelete(i, _) => s.requests[i].phase.Aborting?
       case Release(i) => s.requests[i].phase.Releasing?
  }

  function Move(s: State, i: nat, phase: Phase): State
    requires i < |s.requests|
  {
    s.(requests := s.requests[i := s.requests[i].(phase := phase)])
  }

  function Say(s: State, reply: Reply): State {
    s.(replies := s.replies + [reply])
  }

  /** The owner records an error in its slot, answers, and goes on to the deferred release. */
  function FailSlot(s: State, i: nat, k: nat, reply: Reply): State
    requires i < |s.requests| && k < |s.slots|
  {
    Say(Move(s.(slots := s.slots[k := s.slots[k].(failed := true)]), i, Releasing(k, NoRun)), reply)
  }

  /** The owner publishes a stored response in its slot and replays it. */
  function ReplayIntoSlot(s: State, i: nat, k: nat, response: Response): State
    requires i < |s.requests| && k < |s.slots|
  {
    Say(Move(s.(slots := s.slots[k := s.slots[k].(result := response, source := s.rowSource)]), i,
             Releasing(k, NoRun)),
        Replay(i, response, s.rowSource))
  }

  function DoEnter(s: State, i: nat): State
    requires i < |s.requests|
  {
    var q := s.requests[i];
    if q.replica in s.inFlight then Move(s, i, Waiting(s.inFlight[q.replica]))
    else
      var k := |s.slots|;
      Move(s.(slots := s.slots + [Slot(q.replica, i, q.fp, NO_RESPONSE, 0, false, 0)],
              inFlight := s.inFlight[q.replica := k]), i, Claiming(k))
  }

  function DoWake(s: State, i: nat): State
    requires Enabled(s, Wake(i))
  {
    var slot := s.slots[s.requests[i].phase.slot];
    if slot.fp != s.requests[i].fp then Say(Move(s, i, Done), Conflict(i))
    else if !slot.failed && slot.result.status > 0 then Say(Move(s, i, Done), Replay(i, slot.result, slot.source))
    else Move(s, i, Arrived)
  }

  function DoClaim(s: State, i: nat, storeFails: bool): State
    requires Enabled(s, ClaimRow(i, storeFails))
  {
    var q := s.requests[i];
    var k := q.phase.slot;
    if storeFails then FailSlot(s, i, k, StoreFailure(i))
    else
      var (outcome, row) := Claim(s.row, q.fp, q.now + q.ttl, q.now);
      match outcome
      case Mismatch => FailSlot(s, i, k, Conflict(i))
      case InFlight => Move(s, i, Polling(k))
      case Replayed(existing) => ReplayIntoSlot(s, i, k, existing.response)
      case Started =>
        var run := HandlerRun(i, q.fp, s.clock, q.now + q.ttl, InProgress);
        Move(s.(row := row, rowRun := |s.runs|, runs := s.runs + [run]), i, Running(k, |s.runs|))
  }

  function DoPoll(s: State, i: nat, giveUp: bool): State
    requires Enabled(s, Poll(i, giveUp))
  {
    var q := s.requests[i];
    var k := q.phase.slot;
    var found := Get(s.row, q.now);
    if giveUp || found.None? then FailSlot(s, i, k, Conflict(i))
    else if found.value.response.status == 0 then s
    else if found.value.fp != q.fp then FailSlot(s, i, k, Conflict(i))
    else ReplayIntoSlot(s, i, k, found.value.response)
  }

  function EndRun(s: State, r: nat, outcome: RunOutcome): State
    requires r < |s.runs|
  {
    s.(runs := s.runs[r := s.runs[r].(outcome := outcome)])
  }

  function DoHandlerReturns(s: State, i: nat, calls: seq<IdempotencyRecorder.Call>): State
    requires Enabled(s, HandlerReturns(i, calls))
  {
    var p := s.requests[i].phase;
    var response := IdempotencyRecorder.Recorded(calls);
    if response.status >= 500 then
      Move(EndRun(s.(slots := s.slots[p.slot := s.slots[p.slot].(failed := true)]), p.run, Aborted),
           i, Aborting(p.slot, p.run, Some(response)))
    else Move(EndRun(s, p.run, Completed(response)), i, Completing(p.slot, p.run))
  }

  function DoStoreComplete(s: State, i: nat, ok: bool): State
    requires Enabled(s, StoreComplete(i, ok))
  {
    var p := s.requests[i].phase;
    var response := s.runs[p.run].outcome.response;
    Say(Move(s.(row := if ok then Complete(s.row, response) else s.row,
                rowSource := if ok then p.run else s.rowSource,
                slots := s.slots[p.slot := s.slots[p.slot].(result := response, source := p.run)]),
             i, Releasing(p.slot, Stored(p.run))),
        Direct(i, response))
  }

  function DoStoreDelete(s: State, i: nat, ok: bool): State
    requires Enabled(s, StoreDelete(i, ok))
  {
    var p := s.requests[i].phase;
    var s' := Move(s.(row := if ok then None else s.row), i,
      Releasing(p.slot, if ok then Deleted(p.run) else DeleteFailed(p.run)));
    if p.answer.Some? then Say(s', Direct(i, p.answer.value)) else s'
  }

  function DoRelease(s: State, i: nat): State
    requires Enabled(s, Release(i))
  {
    var k := s.requests[i].phase.slot;
    var slot := s.slots[k];
    Move(s.(inFlight := s.inFlight - {s.requests[i].replica},
            slots := s.slots[k := slot.(closes := slot.closes + 1)]), i, Done)
  }

  function Apply(s: State, step: Step): State
    requires Enabled(s, step)
  {
    match step
    case Tick(to) => s.(clock := to)
    case Sweep(_) => s.(row := None)
    case Arrive(replica, fp, ttl) => s.(requests := s.requests + [Request(replica, fp, s.clock, ttl, Arrived)])
    case Enter(i) => DoEnter(s, i)
    case Wake(i) => DoWake(s, i)
    case Cancel(i) => Say(Move(s, i, Done), TimedOut(i))
    case ClaimRow(i, storeFails) => DoClaim(s, i, storeFails)
    case Poll(i, giveUp) => DoPoll(s, i, giveUp)
    case HandlerReturns(i, calls) => DoHandlerReturns(s, i, calls)
    case HandlerPanics(i) => Move(EndRun(s, s.requests[i].phase.run, Aborted), i,
                                  Aborting(s.requests[i].phase.slot, s.requests[i].phase.run, None))
    case StoreComplete(i, ok) => DoStoreComplete(s, i, ok)
    case StoreDelete(i, ok) => DoStoreDelete(s, i, ok)
    case Release(i) => DoRelease(s, i)
  }

  // ----- What every step leaves alone -----

  /** The request that takes the step; None for the clock, the sweeper and a new arrival. */
  function Actor(step: Step): Option<nat> {
    if step.Tick? || step.Sweep? || step.Arrive? then None else Some(step.i)
  }

  /** The requests, slots and runs that a step leaves alone. */
  ghost predicate Local(s: State, who: Option<nat>, s': State) {
    && (who.Some? ==> who.value < |s.requests|)
    && |s.requests| <= |s'.requests| && |s.slots| <= |s'.slots| && |s.runs| <= |s'.runs|
    && (forall j {:trigger s'.requests[j]} :: 0 <= j < |s.requests| ==>
          s'.requests[j] == s.requests[j].(phase := s'.requests[j].phase) &&
            (who != Some(j) ==> s'.requests[j] == s.requests[j]))
    && (forall k {:trigger s'.slots[k]} :: 0 <= k < |s.slots| ==> s'.slots[k] == s.slots[k] || OwnsSlot(s, who, k))
    && (forall r {:trigger s'.runs[r]} :: 0 <= r < |s.runs| ==>
          && s'.runs[r] == s.runs[r].(outcome := s'.runs[r].outcome)
          && (s'.runs[r] == s.runs[r] || HoldsRun(s, who, r)))
  }

  predicate OwnsSlot(s: State, who: Option<nat>, k: nat) {
    who.Some? && who.value < |s.requests| && Owning(s.requests[who.value].phase) &&
      s.requests[who.value].phase.slot == k
  }

  predicate HoldsRun(s: State, who: Option<nat>, r: nat) {
    who.Some? && who.value < |s.requests| && Holding(s.requests[who.value].phase) &&
      s.requests[who.value].phase.run == r
  }

  lemma ClaimIsLocal(s: State, i: nat, storeFails: bool)
    requires Enabled(s, ClaimRow(i, storeFails))
    ensures Local(s, Some(i), DoClaim(s, i, storeFails))
  {
  }

  lemma PollIsLocal(s: State, i: nat, giveUp: bool)
    requires Enabled(s, Poll(i, giveUp))
    ensures Local(s, Some(i), DoPoll(s, i, giveUp))
  {
  }

  lemma ReturnIsLocal(s: State, i: nat, calls: seq<IdempotencyRecorder.Call>)
    requires Enabled(s, HandlerReturns(i, calls))
    ensures Local(s, Some(i), DoHandlerReturns(s, i, calls))
  {
  }

  lemma StepIsLocal(s: State, step: Step, s': State)
    requires Enabled(s, step) && s' == Apply(s, step)
    ensures Local(s, Actor(step), s')
  {
    match step
    case ClaimRow(i, storeFails) => ClaimIsLocal(s, i, storeFails);
    case Poll(i, giveUp) => PollIsLocal(s, i, giveUp);
    case HandlerReturns(i, calls) => ReturnIsLocal(s, i, calls);
    case _ =>
  }

  // ----- Slots and their owners, with any timing -----

  /** A slot is in its replica's map exactly while its done channel is open, and then a live request owns it. */
  ghost predicate SlotShape(s: State, k: nat) {
    k < |s.slots| &&
    var slot := s.slots[k];
    && slot.closes <= 1
    && (slot.closes == 0 <==> slot.replica in s.inFlight && s.inFlight[slot.replica] == k)
    && slot.owner < |s.requests|
    && (slot.closes == 0 ==> Owning(s.requests[slot.owner].phase) && s.requests[slot.owner].phase.slot == k)
  }

  /** What a request names exists, and the slot it owns is its own, open, and its replica's. */
  ghost predicate RequestShape(s: State, i: nat) {
    i < |s.requests| &&
    var q := s.requests[i];
    && InRange(s, q.phase)
    && (Owning(q.phase) ==>
          var slot := s.slots[q.phase.slot];
          slot.owner == i && slot.closes == 0 && slot.replica == q.replica && slot.fp == q.fp)
    && OwnRun(s, i)
  }

  /** The run a holder names is its own, and as far as the holder's phase says. */
  predicate OwnRun(s: State, i: nat) {
    i < |s.requests| && InRange(s, s.requests[i].phase) &&
    var p := s.requests[i].phase;
    Holding(p) ==>
      && s.runs[p.run].request == i && s.runs[p.run].fp == s.requests[i].fp
      && (p.Running? ==> s.runs[p.run].outcome.InProgress?)
      && (p.Completing? ==> s.runs[p.run].outcome.Completed?)
      && (p.Aborting? ==> s.runs[p.run].outcome.Aborted?)
  }

  ghost predicate InFlightOk(s: State) {
    forall r {:trigger s.inFlight[r]} :: r in s.inFlight ==>
      s.inFlight[r] < |s.slots| && s.slots[s.inFlight[r]].replica == r
  }

  ghost predicate SlotShapes(s: State) {
    forall k {:trigger SlotShape(s, k)} :: 0 <= k < |s.slots| ==> SlotShape(s, k)
  }

  ghost predicate RequestShapes(s: State) {
    forall i {:trigger RequestShape(s, i)} :: 0 <= i < |s.requests| ==> RequestShape(s, i)
  }

  ghost predicate Shape(s: State) {
    SlotShapes(s) && RequestShapes(s) && InFlightOk(s)
  }

  /** How far an owner is from its release. */
  function Rank(p: Phase): nat {
    match p
    case Claiming(_) => 4
    case Running(_, _) => 3
    case Polling(_) => 2
    case Completing(_, _) => 2
    case Aborting(_, _, _) => 2
    case Releasing(_, _) => 1
    case _ => 0
  }

  /** The step closes the owner's channel and takes the slot out of the map. */
  predicate Closes(s: State, i: nat, k: nat, s': State) {
    && i < |s.requests| && k < |s.slots|
    && i < |s'.requests| && s'.requests[i].phase.Done?
    && k < |s'.slots| && s'.slots[k] == s.slots[k].(closes := s.slots[k].closes + 1)
    && s'.inFlight == s.inFlight - {s.requests[i].replica}
  }

  /** The step leaves the owner in possession of its slot. */
  predicate Retains(s: State, i: nat, k: nat, s': State) {
    && i < |s.requests| && k < |s.slots| && InRange(s, s.requests[i].phase)
    && i < |s'.requests| && Owning(s'.requests[i].phase) && s'.requests[i].phase.slot == k
    && InRange(s', s'.requests[i].phase) && (OwnRun(s, i) ==> OwnRun(s', i))
    && k < |s'.slots| && s'.inFlight == s.inFlight
    && var slot := s'.slots[k];
       slot == s.slots[k].(result := slot.result, source := slot.source, failed := slot.failed)
  }

  predicate OwnerInRange(s: State, i: nat) {
    i < |s.requests| && Owning(s.requests[i].phase) && InRange(s, s.requests[i].phase)
  }

  /** No change, or a step down in rank that closes the slot from the last rank and only from there. */
  predicate Descends(s: State, i: nat, s': State) {
    OwnerInRange(s, i) &&
    var p := s.requests[i].phase;
    || s' == s
    || (i < |s'.requests| && Rank(s'.requests[i].phase) < Rank(p) &&
        if p.Releasing? then Closes(s, i, p.slot, s') else Retains(s, i, p.slot, s'))
  }

  lemma ClaimDescends(s: State, i: nat, storeFails: bool)
    requires Enabled(s, ClaimRow(i, storeFails))
    ensures var s' := DoClaim(s, i, storeFails); s' != s && Descends(s, i, s')
  {
  }

  lemma HandlerDescends(s: State, step: Step, s': State)
    requires Enabled(s, step) && s' == Apply(s, step) && (step.HandlerReturns? || step.HandlerPanics?)
    ensures s' != s && Descends(s, step.i, s')
  {
  }

  /** Whatever the store and the handler answer, a step of an owner is a poll that changes nothing, or brings it
      closer to its release; the last one closes its slot's channel, and no other touches who owns the slot. */
  lemma OwnerStepDescends(s: State, step: Step, s': State)
    requires Enabled(s, step) && Actor(step).Some? && Owning(s.requests[step.i].phase) && s' == Apply(s, step)
    ensures Descends(s, step.i, s') && (s' == s ==> step.Poll?)
  {
    if step.ClaimRow? {
      ClaimDescends(s, step.i, step.storeFails);
    } else if step.HandlerReturns? || step.HandlerPanics? {
      HandlerDescends(s, step, s');
    }
  }

  lemma OwnerKeepsShape(s: State, i: nat, s': State)
    requires Shape(s) && OwnerInRange(s, i) && Local(s, Some(i), s') && Descends(s, i, s')
    requires |s'.requests| == |s.requests| && |s'.slots| == |s.slots|
    ensures Shape(s')
  {
    assert RequestShape(s, i);
    assert SlotShape(s, s.requests[i].phase.slot);
    forall k | 0 <= k < |s'.slots| ensures SlotShape(s', k) { assert SlotShape(s, k); }
    forall j | 0 <= j < |s'.requests| ensures RequestShape(s', j) { assert RequestShape(s, j); }
  }

  lemma TakeSlotKeepsShape(s: State, i: nat, s': State)
    requires Shape(s) && Enabled(s, Enter(i)) && s.requests[i].replica !in s.inFlight && s' == DoEnter(s, i)
    ensures Shape(s')
  {
    forall k | 0 <= k < |s'.slots| ensures SlotShape(s', k) { assert k < |s.slots| ==> SlotShape(s, k); }
    forall j | 0 <= j < |s'.requests| ensures RequestShape(s', j) { assert j < |s.requests| ==> RequestShape(s, j); }
  }

  /** Slots and map stay, and whoever moved or arrived owns nothing. */
  ghost predicate Passive(s: State, who: Option<nat>, s': State) {
    && s'.slots == s.slots && s'.inFlight == s.inFlight
    && forall j {:trigger s'.requests[j]} :: 0 <= j < |s'.requests| && (j >= |s.requests| || who == Some(j)) ==>
         !Owning(s'.requests[j].phase) && InRange(s', s'.requests[j].phase)
  }

  /** A step of nobody that owns a slot, and takes none. */
  lemma BystanderKeepsShape(s: State, who: Option<nat>, s': State)
    requires Shape(s) && (who.Some? ==> who.value < |s.requests| && !Owning(s.requests[who.value].phase))
    requires Local(s, who, s') && Passive(s, who, s')
    ensures Shape(s')
  {
    forall k | 0 <= k < |s'.slots| ensures SlotShape(s', k) { assert SlotShape(s, k); }
    forall j | 0 <= j < |s'.requests| ensures RequestShape(s', j) { assert j < |s.requests| ==> RequestShape(s, j); }
  }

  lemma OwnerKeepsCounts(s: State, step: Step, s': State)
    requires Enabled(s, step) && s' == Apply(s, step) && Actor(step).Some? && Owning(s.requests[step.i].phase)
    ensures |s'.requests| == |s.requests| && |s'.slots| == |s.slots|
  {
  }

  lemma StepKeepsShape(s: State, step: Step, s': State)
    requires Shape(s) && Enabled(s, step) && s' == Apply(s, step)
    ensures Shape(s')
  {
    if step.Enter? && s.requests[step.i].replica !in s.inFlight {
      TakeSlotKeepsShape(s, step.i, s');
    } else {
      StepIsLocal(s, step, s');
      if Actor(step).Some? && Owning(s.requests[step.i].phase) {
        OwnerStepDescends(s, step, s');
        OwnerKeepsCounts(s, step, s');
        OwnerKeepsShape(s, step.i, s');
      } else {
        BystanderKeepsShape(s, Actor(step), s');
      }
    }
  }

  // ----- Runs of the system -----

  /** A run of the system from an empty store, with any timing. */
  ghost predicate IsRun(steps: seq<Step>, states: seq<State>) {
    && |states| == |steps| + 1
    && states[0] == Start(states[0].clock)
    && (forall n {:trigger StepAt(steps, states, n)} :: 0 <= n < |steps| ==> StepAt(steps, states, n))
  }

  /** The n-th step leads from the n-th state to the next. */
  ghost predicate StepAt(steps: seq<Step>, states: seq<State>, n: nat) {
    && n < |steps| && |states| == |steps| + 1
    && Enabled(states[n], steps[n]) && states[n + 1] == Apply(states[n], steps[n])
  }

  lemma {:induction false} ShapeHolds(steps: seq<Step>, states: seq<State>, n: nat)
    requires IsRun(steps, states) && n < |states|
    ensures Shape(states[n])
  {
    if n > 0 {
      ShapeHolds(steps, states, n - 1);
      assert StepAt(steps, states, n - 1);
      StepKeepsShape(states[n - 1], steps[n - 1], states[n]);
    }
  }

  /** In every run, with any timing: a slot is in its replica's map iff its done channel is open, the channel is
      closed at most once, and while it is open its owner is live and past no release. */
  lemma SlotsTrackTheirOwners(steps: seq<Step>, states: seq<State>, n: nat, k: nat)
    requires IsRun(steps, states) && n < |states| && k < |states[n].slots|
    ensures var s := states[n]; var slot := s.slots[k];
            && slot.closes <= 1
            && (slot.closes == 0 <==> slot.replica in s.inFlight && s.inFlight[slot.replica] == k)
            && (slot.closes == 0 ==>
                  slot.owner < |s.requests| && Owning(s.requests[slot.owner].phase) &&
                    s.requests[slot.owner].phase.slot == k)
  {
    ShapeHolds(steps, states, n);
    assert SlotShape(states[n], k);
  }

  /** In every run: once a done channel is closed nothing about the slot changes, so a waiter reads settled fields. */
  lemma ClosedSlotsAreFrozen(steps: seq<Step>, states: seq<State>, n: nat, k: nat)
    requires IsRun(steps, states) && n < |steps| && k < |states[n].slots| && states[n].slots[k].closes > 0
    ensures k < |states[n + 1].slots| && states[n + 1].slots[k] == states[n].slots[k]
  {
    ShapeHolds(steps, states, n);
    assert StepAt(steps, states, n);
    StepIsLocal(states[n], steps[n], states[n + 1]);
    if Actor(steps[n]).Some? {
      assert RequestShape(states[n], steps[n].i);
    }
  }

  /** The step is one that its request's phase calls for. */
  predicate Suits(step: Step, p: Phase) {
    match p
    case Claiming(_) => step.ClaimRow?
    case Polling(_) => step.Poll?
    case Running(_, _) => step.HandlerReturns? || step.HandlerPanics?
    case Completing(_, _) => step.StoreComplete?
    case Aborting(_, _, _) => step.StoreDelete?
    case Releasing(_, _) => step.Release?
    case _ => false
  }

  /** An owner is never stuck: every answer the store or the handler may give is a step it can take. */
  lemma OwnerCanMove(s: State, i: nat, step: Step)
    requires Shape(s) && i < |s.requests| && Actor(step) == Some(i) && Suits(step, s.requests[i].phase)
    ensures Enabled(s, step)
  {
    assert RequestShape(s, i);
  }

  /** Steps of request `i` among steps n to m, fruitless polls aside. */
  function Moves(steps: seq<Step>, states: seq<State>, i: nat, n: nat, m: nat): nat
    requires n <= m <= |steps| && |states| == |steps| + 1
    decreases m
  {
    if n == m then 0
    else
      var moved := Actor(steps[m - 1]) == Some(i) && states[m] != states[m - 1];
      Moves(steps, states, i, n, m - 1) + if moved then 1 else 0
  }

  /** What an owner of slot `k` has come to: it still owns the open slot, or it is done and the slot is closed. */
  predicate OwnsOrClosed(s: State, i: nat, k: nat) {
    && i < |s.requests| && k < |s.slots|
    && if Owning(s.requests[i].phase) then
         InRange(s, s.requests[i].phase) && s.requests[i].phase.slot == k && s.slots[k].closes == 0
       else s.requests[i].phase.Done? && s.slots[k].closes == 1
  }

  lemma OwnerStays(s: State, step: Step, s': State, i: nat, k: nat)
    requires Shape(s) && Enabled(s, step) && s' == Apply(s, step) && OwnsOrClosed(s, i, k)
    ensures OwnsOrClosed(s', i, k)
    ensures var spent := if Actor(step) == Some(i) && s' != s then 1 else 0;
            Rank(s'.requests[i].phase) + spent <= Rank(s.requests[i].phase)
  {
    StepIsLocal(s, step, s');
    assert RequestShape(s, i) && SlotShape(s, k);
    if Actor(step).Some? {
      assert RequestShape(s, step.i);
      if step.i == i {
        OwnerStepDescends(s, step, s');
      }
    }
  }

  /** Progress of the owner of a slot, in every run and whatever the store, the handler and the other requests do: it
      makes at most four moves, and when it has none left its slot's channel is closed. */
  lemma {:induction false} OwnerReleases(steps: seq<Step>, states: seq<State>, n: nat, m: nat, i: nat)
    requires IsRun(steps, states) && n <= m < |states|
    requires i < |states[n].requests| && Owning(states[n].requests[i].phase)
    ensures OwnsOrClosed(states[m], i, states[n].requests[i].phase.slot)
    ensures Moves(steps, states, i, n, m) + Rank(states[m].requests[i].phase) <= Rank(states[n].requests[i].phase) <= 4
    decreases m
  {
    if m == n {
      ShapeHolds(steps, states, n);
      assert RequestShape(states[n], i);
    } else {
      OwnerReleases(steps, states, n, m - 1, i);
      ShapeHolds(steps, states, m - 1);
      assert StepAt(steps, states, m - 1);
      OwnerStays(states[m - 1], steps[m - 1], states[m], i, states[n].requests[i].phase.slot);
    }
  }

  // ----- Runs and reservations, with any timing -----

  /** A run in progress has a running request; that of an aborted one gets no further than its delete allows. */
  ghost predicate RunTold(s: State, r: nat) {
    && r < |s.runs| && s.runs[r].request < |s.requests| && s.runs[r].fp == s.requests[s.runs[r].request].fp
    && var run, p := s.runs[r], s.requests[s.runs[r].request].phase;
       match run.outcome
       case InProgress => p.Running? && p.run == r
       case Completed(response) => 0 < response.status < 500
       case Aborted => AbortPending(p, r)
  }

  /** Where the request of an aborted run can be: it reaches Done only past the delete of its reservation. */
  predicate AbortPending(p: Phase, r: nat) {
    || (p.Aborting? && p.run == r)
    || (p.Releasing? && (p.cleanup == Deleted(r) || p.cleanup == DeleteFailed(r)))
    || p.Done?
  }

  ghost predicate RunsTold(s: State) {
    forall r {:trigger RunTold(s, r)} :: 0 <= r < |s.runs| ==> RunTold(s, r)
  }

  /** What a step does to the run and the phase of the request that takes it. */
  predicate Advances(s: State, step: Step, s': State) {
    Actor(step).Some? &&
    var i := step.i;
    && i < |s.requests| && InRange(s, s.requests[i].phase) && i < |s'.requests| && |s.runs| <= |s'.runs|
    && var p, p' := s.requests[i].phase, s'.requests[i].phase;
       match p
       case Running(_, r) =>
         (p'.Completing? && p'.run == r && s'.runs[r].outcome.Completed? &&
            0 < s'.runs[r].outcome.response.status < 500) ||
         (p'.Aborting? && p'.run == r && s'.runs[r].outcome.Aborted?)
       case Aborting(_, r, _) =>
         && p'.Releasing? && (p'.cleanup == Deleted(r) || p'.cleanup == DeleteFailed(r))
         && step == StoreDelete(i, p'.cleanup.Deleted?) && (step.ok ==> s'.row.None?)
       case Completing(_, r) => p'.Releasing? && p'.cleanup == Stored(r)
       case Releasing(_, _) => p'.Done?
       case Done => false
       case _ =>
         && (p'.Releasing? ==> p'.cleanup.NoRun?)
         && if |s'.runs| == |s.runs| then !Holding(p') else p'.Running? && p'.run == |s.runs|
  }

  lemma ClaimAdvances(s: State, i: nat, storeFails: bool)
    requires Enabled(s, ClaimRow(i, storeFails))
    ensures Advances(s, ClaimRow(i, storeFails), DoClaim(s, i, storeFails))
  {
  }

  lemma PollAdvances(s: State, i: nat, giveUp: bool)
    requires Enabled(s, Poll(i, giveUp))
    ensures Advances(s, Poll(i, giveUp), DoPoll(s, i, giveUp))
  {
  }

  lemma ReturnAdvances(s: State, i: nat, calls: seq<IdempotencyRecorder.Call>)
    requires Enabled(s, HandlerReturns(i, calls))
    ensures Advances(s, HandlerReturns(i, calls), DoHandlerReturns(s, i, calls))
  {
    IdempotencyRecorder.RecordedIsWhatTheHandlerWrote(calls);
  }

  lemma StepAdvances(s: State, step: Step, s': State)
    requires Enabled(s, step) && s' == Apply(s, step) && Actor(step).Some?
    ensures Advances(s, step, s')
  {
    match step
    case ClaimRow(i, storeFails) => ClaimAdvances(s, i, storeFails);
    case Poll(i, giveUp) => PollAdvances(s, i, giveUp);
    case HandlerReturns(i, calls) => ReturnAdvances(s, i, calls);
    case _ =>
  }

  /** Only a claim adds to the runs, and only the run of the claim. */
  lemma RunsGrow(s: State, step: Step, s': State)
    requires Enabled(s, step) && s' == Apply(s, step) && |s'.runs| != |s.runs|
    ensures step.ClaimRow? && !step.storeFails && (s.row.None? || Expired(s.row.value, s.requests[step.i].now))
    ensures var q := s.requests[step.i];
            s'.runs == s.runs + [HandlerRun(step.i, q.fp, s.clock, q.now + q.ttl, InProgress)] &&
            s'.row == Some(Row(q.fp, NO_RESPONSE, q.now + q.ttl)) && s'.rowRun == |s.runs| && s'.clock == s.clock
  {
  }

  lemma AdvanceKeepsRunsTold(s: State, step: Step, s': State)
    requires RunsTold(s) && Local(s, Actor(step), s') && Settled(s, s')
    requires Actor(step).Some? ==> RequestShape(s, step.i) && Advances(s, step, s')
    requires |s'.runs| == |s.runs| ||
             (step.ClaimRow? && s.requests[step.i].phase.Claiming? && s'.runs == s.runs + [s'.runs[|s.runs|]] &&
              s'.runs[|s.runs|].outcome.InProgress? &&
              s'.runs[|s.runs|].request == step.i && s'.runs[|s.runs|].fp == s.requests[step.i].fp)
    ensures RunsTold(s')
  {
    forall r | 0 <= r < |s'.runs| ensures RunTold(s', r) { assert r < |s.runs| ==> RunTold(s, r); }
  }

  lemma StepKeepsRunsTold(s: State, step: Step, s': State)
    requires Shape(s) && RunsTold(s) && Enabled(s, step) && s' == Apply(s, step)
    ensures RunsTold(s')
  {
    StepIsLocal(s, step, s');
    if Actor(step).Some? {
      assert RequestShape(s, step.i);
      StepAdvances(s, step, s');
    }
    if |s'.runs| != |s.runs| {
      RunsGrow(s, step, s');
    }
    StepSettles(s, step, s');
    AdvanceKeepsRunsTold(s, step, s');
  }

  /** The row is the reservation of the run that inserted it, nobody reads the clock ahead of time, and past a delete
      the row is not the deleted run's. */
  ghost predicate RowTold(s: State) {
    && (s.row.Some? ==>
          s.rowRun < |s.runs| && s.row.value.fp == s.runs[s.rowRun].fp &&
            s.row.value.expiresAt == s.runs[s.rowRun].expiresAt)
    && forall i {:trigger s.requests[i]} :: 0 <= i < |s.requests| ==>
         && s.requests[i].now <= s.clock
         && (s.requests[i].phase.Releasing? && s.requests[i].phase.cleanup.Deleted? ==>
               var r := s.requests[i].phase.cleanup.run; r < |s.runs| && (s.row.None? || s.rowRun > r))
  }

  /** Takes the row out of the store: a sweep past its expiry, or the delete of an aborted run. */
  predicate Removes(s: State, step: Step) {
    s.row.Some? && (step.Sweep? || (step.StoreDelete? && step.ok))
  }

  /** What a step can do to the row: insert one, take it out, complete it, or nothing. */
  ghost predicate RowMoves(s: State, step: Step, s': State) {
    && s.clock <= s'.clock
    && if |s'.runs| != |s.runs| then
         && |s'.runs| == |s.runs| + 1 == s'.rowRun + 1 && s'.row.Some?
         && s'.row.value.fp == s'.runs[s'.rowRun].fp && s'.row.value.expiresAt == s'.runs[s'.rowRun].expiresAt
       else
         || (s'.row.None? && (s.row.None? || Removes(s, step)))
         || (s.row.Some? && s'.row.Some? && s'.rowRun == s.rowRun &&
               s'.row.value == s.row.value.(response := s'.row.value.response))
  }

  lemma ClaimMovesRow(s: State, i: nat, storeFails: bool)
    requires Enabled(s, ClaimRow(i, storeFails))
    ensures RowMoves(s, ClaimRow(i, storeFails), DoClaim(s, i, storeFails))
  {
  }

  lemma PollMovesNoRow(s: State, i: nat, giveUp: bool)
    requires Enabled(s, Poll(i, giveUp))
    ensures RowMoves(s, Poll(i, giveUp), DoPoll(s, i, giveUp))
  {
  }

  lemma StepMovesRow(s: State, step: Step, s': State)
    requires Enabled(s, step) && s' == Apply(s, step)
    ensures RowMoves(s, step, s')
  {
    match step
    case ClaimRow(i, storeFails) => ClaimMovesRow(s, i, storeFails);
    case Poll(i, giveUp) => PollMovesNoRow(s, i, giveUp);
    case _ =>
  }

  lemma MoveKeepsRowTold(s: State, step: Step, s': State)
    requires RowTold(s) && Local(s, Actor(step), s') && RowMoves(s, step, s')
    requires if Actor(step).Some? then |s'.requests| == |s.requests| && Advances(s, step, s')
             else s'.requests == s.requests || (step.Arrive? && s' == Apply(s, step))
    ensures RowTold(s')
  {
  }

  lemma StepKeepsRowTold(s: State, step: Step, s': State)
    requires RowTold(s) && Enabled(s, step) && s' == Apply(s, step)
    ensures RowTold(s')
  {
    StepIsLocal(s, step, s');
    StepMovesRow(s, step, s');
    if Actor(step).Some? {
      StepAdvances(s, step, s');
    }
    MoveKeepsRowTold(s, step, s');
  }

  ghost predicate Told(s: State) {
    Shape(s) && RunsTold(s) && RowTold(s)
  }

  lemma {:induction false} ToldHolds(steps: seq<Step>, states: seq<State>, n: nat)
    requires IsRun(steps, states) && n < |states|
    ensures Told(states[n])
  {
    ShapeHolds(steps, states, n);
    if n > 0 {
      ToldHolds(steps, states, n - 1);
      assert StepAt(steps, states, n - 1);
      StepKeepsRunsTold(states[n - 1], steps[n - 1], states[n]);
      StepKeepsRowTold(states[n - 1], steps[n - 1], states[n]);
    }
  }

  /** The delete of run `r`'s reservation was tried by request `i` at step `m`, and went as `ok` says. */
  ghost predicate Tried(steps: seq<Step>, states: seq<State>, m: nat, i: nat, r: nat, ok: bool) {
    && m < |steps| && |states| == |steps| + 1 && steps[m] == StoreDelete(i, ok)
    && i < |states[m].requests| && states[m].requests[i].phase.Aborting? && states[m].requests[i].phase.run == r
    && (ok ==> states[m + 1].row.None?)
  }

  lemma {:induction false} CleanupWasTried(steps: seq<Step>, states: seq<State>, n: nat, i: nat, r: nat)
    requires IsRun(steps, states) && n < |states| && i < |states[n].requests|
    requires var p := states[n].requests[i].phase;
             p.Releasing? && (p.cleanup == Deleted(r) || p.cleanup == DeleteFailed(r))
    ensures exists m :: 0 <= m < n && Tried(steps, states, m, i, r, states[n].requests[i].phase.cleanup.Deleted?)
  {
    assert StepAt(steps, states, n - 1);
    var s, step := states[n - 1], steps[n - 1];
    StepIsLocal(s, step, states[n]);
    if Actor(step) == Some(i) {
      StepAdvances(s, step, states[n]);
    }
    if i < |s.requests| && s.requests[i] == states[n].requests[i] {
      CleanupWasTried(steps, states, n - 1, i, r);
    } else {
      assert Tried(steps, states, n - 1, i, r, states[n].requests[i].phase.cleanup.Deleted?);
    }
  }

  /** In every run, with any timing: the request whose run panicked or ended in 5xx releases its slot only after it
      tried to delete the reservation, and unless that delete failed the row in the store is no longer its own. */
  lemma DeletePrecedesRelease(steps: seq<Step>, states: seq<State>, n: nat, r: nat)
    requires IsRun(steps, states) && n < |steps|
    requires r < |states[n].runs| && states[n].runs[r].outcome.Aborted?
    requires steps[n] == Release(states[n].runs[r].request)
    ensures StepAt(steps, states, n)
    ensures var s := states[n]; var ok := s.requests[steps[n].i].phase.cleanup == Deleted(r);
            && (exists m :: 0 <= m < n && Tried(steps, states, m, steps[n].i, r, ok))
            && (ok ==> s.row.None? || s.rowRun > r)
  {
    ToldHolds(steps, states, n);
    assert StepAt(steps, states, n);
    assert RunTold(states[n], r);
    var p := states[n].requests[steps[n].i].phase;
    assert p.cleanup == Deleted(r) || p.cleanup == DeleteFailed(r);
    CleanupWasTried(steps, states, n, steps[n].i, r);
    assert p.cleanup.Deleted? <==> p.cleanup == Deleted(r);
  }

  /** What is over stays, and a request is for the same thing throughout. */
  ghost predicate Settled(s: State, s': State) {
    && |s.runs| <= |s'.runs| && |s.requests| <= |s'.requests|
    && (forall r {:trigger s.runs[r]} :: 0 <= r < |s.runs| ==>
          && s'.runs[r] == s.runs[r].(outcome := s'.runs[r].outcome)
          && (!s.runs[r].outcome.InProgress? ==> s'.runs[r] == s.runs[r]))
    && (forall i {:trigger s.requests[i]} :: 0 <= i < |s.requests| ==> s'.requests[i].fp == s.requests[i].fp)
  }

  lemma StepSettles(s: State, step: Step, s': State)
    requires Shape(s) && Enabled(s, step) && s' == Apply(s, step)
    ensures Settled(s, s')
  {
    StepIsLocal(s, step, s');
    if Actor(step).Some? {
      assert RequestShape(s, step.i);
    }
  }

  /** A run that is over stays as it ended. */
  lemma {:induction false} OutcomeIsFinal(steps: seq<Step>, states: seq<State>, m: nat, n: nat, r: nat)
    requires IsRun(steps, states) && m <= n < |states| && r < |states[m].runs|
    ensures r < |states[n].runs| && states[n].runs[r] == states[m].runs[r].(outcome := states[n].runs[r].outcome)
    ensures !states[m].runs[r].outcome.InProgress? ==> states[n].runs[r] == states[m].runs[r]
    decreases n
  {
    if m < n {
      OutcomeIsFinal(steps, states, m, n - 1, r);
      assert StepAt(steps, states, n - 1);
      ShapeHolds(steps, states, n - 1);
      StepSettles(states[n - 1], steps[n - 1], states[n]);
    }
  }

  // ----- Replies, with any timing -----

  /** Run `r` ended with this response, and if `matched` says so, it was a run of this fingerprint. */
  ghost predicate Produced(s: State, matched: bool, r: nat, fp: Fingerprint, response: Response) {
    r < |s.runs| && s.runs[r].outcome == Completed(response) && (matched ==> s.runs[r].fp == fp)
  }

  ghost predicate RowSourced(s: State, matched: bool) {
    s.row.Some? && s.row.value.response.status > 0 ==>
      Produced(s, matched, s.rowSource, s.row.value.fp, s.row.value.response)
  }

  ghost predicate SlotSourced(s: State, matched: bool, k: nat) {
    k < |s.slots| &&
    (s.slots[k].result.status > 0 ==> Produced(s, matched, s.slots[k].source, s.slots[k].fp, s.slots[k].result))
  }

  ghost predicate ReplySourced(s: State, matched: bool, n: nat) {
    n < |s.replies| &&
    (s.replies[n].Replay? ==>
       && s.replies[n].request < |s.requests|
       && Produced(s, matched, s.replies[n].source, s.requests[s.replies[n].request].fp, s.replies[n].response))
  }

  /** The response in the row, in a slot or in a replay is that of the run it names. */
  ghost predicate Sourced(s: State, matched: bool) {
    && RowSourced(s, matched)
    && (forall k {:trigger SlotSourced(s, matched, k)} :: 0 <= k < |s.slots| ==> SlotSourced(s, matched, k))
    && (forall n {:trigger ReplySourced(s, matched, n)} :: 0 <= n < |s.replies| ==> ReplySourced(s, matched, n))
  }

  /** The step stores a run's response in a row that is another request's reservation. */
  predicate Misfiles(s: State, step: Step) {
    && step.StoreComplete? && step.ok && step.i < |s.requests|
    && s.row.Some? && s.row.value.fp != s.requests[step.i].fp
  }

  /** Where request `i` can take a response and its source from: its own run, the row, or the slot it waited on, the
      latter two if they are for the same fingerprint. */
  ghost predicate Offered(s: State, i: nat, response: Response, source: nat) {
    && i < |s.requests| && InRange(s, s.requests[i].phase) && response.status > 0
    && var q := s.requests[i];
       || (q.phase.Completing? && source == q.phase.run && s.runs[source].outcome == Completed(response))
       || (s.row.Some? && s.row.value.fp == q.fp && s.row.value.response == response && s.rowSource == source)
       || (q.phase.Waiting? &&
             var slot := s.slots[q.phase.slot]; slot.fp == q.fp && slot.result == response && slot.source == source)
  }

  lemma OfferedIsProduced(s: State, matched: bool, i: nat, response: Response, source: nat)
    requires Shape(s) && Sourced(s, matched) && Offered(s, i, response, source)
    ensures Produced(s, matched, source, s.requests[i].fp, response)
  {
    assert RequestShape(s, i);
    if s.requests[i].phase.Waiting? {
      assert SlotSourced(s, matched, s.requests[i].phase.slot);
    }
  }

  /** The row's response stays, goes, or becomes that of the completing run. */
  ghost predicate RowTakes(s: State, step: Step, s': State) {
    s'.row.Some? && s'.row.value.response.status > 0 ==>
      && s.row.Some? && s'.row.value.fp == s.row.value.fp
      && ((s'.row.value.response == s.row.value.response && s'.rowSource == s.rowSource) ||
          (step.StoreComplete? && step.ok && Offered(s, step.i, s'.row.value.response, s'.rowSource)))
  }

  ghost predicate SlotTakes(s: State, step: Step, s': State, k: nat) {
    k < |s'.slots| &&
    var slot := s'.slots[k];
    || slot.result.status == 0
    || (k < |s.slots| && slot.fp == s.slots[k].fp && slot.result == s.slots[k].result &&
          slot.source == s.slots[k].source)
    || (Actor(step).Some? && OwnsSlot(s, Actor(step), k) && k < |s.slots| && slot.fp == s.slots[k].fp &&
          Offered(s, step.i, slot.result, slot.source))
  }

  ghost predicate ReplyTakes(s: State, step: Step, s': State, n: nat) {
    n < |s'.replies| &&
    var reply := s'.replies[n];
    || (n < |s.replies| && reply == s.replies[n]) || !reply.Replay?
    || (Actor(step).Some? && reply.request == step.i && Offered(s, step.i, reply.response, reply.source))
  }

  ghost predicate Takes(s: State, step: Step, s': State) {
    && RowTakes(s, step, s')
    && (forall k {:trigger SlotTakes(s, step, s', k)} :: 0 <= k < |s'.slots| ==> SlotTakes(s, step, s', k))
    && (forall n {:trigger ReplyTakes(s, step, s', n)} :: 0 <= n < |s'.replies| ==> ReplyTakes(s, step, s', n))
  }

  lemma ClaimTakes(s: State, i: nat, storeFails: bool, s': State)
    requires Enabled(s, ClaimRow(i, storeFails)) && s' == DoClaim(s, i, storeFails)
    ensures Takes(s, ClaimRow(i, storeFails), s')
  {
  }

  lemma PollTakes(s: State, i: nat, giveUp: bool, s': State)
    requires Enabled(s, Poll(i, giveUp)) && s' == DoPoll(s, i, giveUp)
    ensures Takes(s, Poll(i, giveUp), s')
  {
  }

  lemma CompleteTakes(s: State, i: nat, ok: bool, s': State)
    requires Told(s) && Enabled(s, StoreComplete(i, ok)) && s' == DoStoreComplete(s, i, ok)
    ensures Takes(s, StoreComplete(i, ok), s')
  {
    assert RunTold(s, s.requests[i].phase.run);
  }

  lemma WakeTakes(s: State, i: nat, s': State)
    requires Enabled(s, Wake(i)) && s' == DoWake(s, i)
    ensures Takes(s, Wake(i), s')
  {
  }

  /** Every other step takes nothing. */
  lemma OthersTakeNothing(s: State, step: Step, s': State)
    requires Enabled(s, step) && s' == Apply(s, step)
    requires !step.ClaimRow? && !step.Poll? && !step.StoreComplete? && !step.Wake?
    ensures Takes(s, step, s')
  {
    assert forall k {:trigger s'.slots[k]} :: 0 <= k < |s.slots| ==>
        s'.slots[k].result == s.slots[k].result && s'.slots[k].source == s.slots[k].source &&
          s'.slots[k].fp == s.slots[k].fp;
  }

  lemma StepTakes(s: State, step: Step, s': State)
    requires Told(s) && Enabled(s, step) && s' == Apply(s, step)
    ensures Takes(s, step, s')
  {
    match step
    case ClaimRow(i, storeFails) => ClaimTakes(s, i, storeFails, s');
    case Poll(i, giveUp) => PollTakes(s, i, giveUp, s');
    case StoreComplete(i, ok) => CompleteTakes(s, i, ok, s');
    case Wake(i) => WakeTakes(s, i, s');
    case _ => OthersTakeNothing(s, step, s');
  }

  lemma RowStaysSourced(s: State, matched: bool, step: Step, s': State)
    requires Shape(s) && Sourced(s, matched) && RowTakes(s, step, s') && Settled(s, s')
    requires matched ==> !Misfiles(s, step)
    ensures RowSourced(s', matched)
  {
    if s'.row.Some? && step.StoreComplete? && Offered(s, step.i, s'.row.value.response, s'.rowSource) {
      OfferedIsProduced(s, matched, step.i, s'.row.value.response, s'.rowSource);
    }
  }

  lemma SlotStaysSourced(s: State, matched: bool, step: Step, s': State, k: nat)
    requires Shape(s) && Sourced(s, matched) && SlotTakes(s, step, s', k) && Settled(s, s')
    ensures SlotSourced(s', matched, k)
  {
    var slot := s'.slots[k];
    if k < |s.slots| && slot.result == s.slots[k].result && slot.source == s.slots[k].source {
      assert SlotSourced(s, matched, k);
    } else if slot.result.status > 0 {
      OfferedIsProduced(s, matched, step.i, slot.result, slot.source);
      assert RequestShape(s, step.i);
    }
  }

  lemma ReplyStaysSourced(s: State, matched: bool, step: Step, s': State, n: nat)
    requires Shape(s) && Sourced(s, matched) && ReplyTakes(s, step, s', n) && Settled(s, s')
    ensures ReplySourced(s', matched, n)
  {
    var reply := s'.replies[n];
    if n < |s.replies| && reply == s.replies[n] {
      assert ReplySourced(s, matched, n);
    } else if reply.Replay? {
      OfferedIsProduced(s, matched, step.i, reply.response, reply.source);
    }
  }

  lemma TakingKeepsSourced(s: State, matched: bool, step: Step, s': State)
    requires Shape(s) && Sourced(s, matched) && Takes(s, step, s') && Settled(s, s')
    requires matched ==> !Misfiles(s, step)
    ensures Sourced(s', matched)
  {
    RowStaysSourced(s, matched, step, s');
    forall k | 0 <= k < |s'.slots| ensures SlotSourced(s', matched, k) {
      assert SlotTakes(s, step, s', k);
      SlotStaysSourced(s, matched, step, s', k);
    }
    forall n | 0 <= n < |s'.replies| ensures ReplySourced(s', matched, n) {
      assert ReplyTakes(s, step, s', n);
      ReplyStaysSourced(s, matched, step, s', n);
    }
  }

  /** No run's response is stored in another request's reservation by the first `n` steps. */
  ghost predicate Filed(steps: seq<Step>, states: seq<State>, n: nat) {
    |states| == |steps| + 1 && n <= |steps| &&
    forall m {:trigger steps[m]} :: 0 <= m < n ==> !Misfiles(states[m], steps[m])
  }

  lemma {:induction false} SourcedHolds(steps: seq<Step>, states: seq<State>, n: nat, matched: bool)
    requires IsRun(steps, states) && n < |states| && (matched ==> Filed(steps, states, n))
    ensures Sourced(states[n], matched)
  {
    if n > 0 {
      SourcedHolds(steps, states, n - 1, matched);
      assert StepAt(steps, states, n - 1) && (matched ==> !Misfiles(states[n - 1], steps[n - 1]));
      ToldHolds(steps, states, n - 1);
      StepTakes(states[n - 1], steps[n - 1], states[n]);
      StepSettles(states[n - 1], steps[n - 1], states[n]);
      TakingKeepsSourced(states[n - 1], matched, steps[n - 1], states[n]);
    }
  }

  /** In every run, with any timing: a replayed reply is, byte for byte, the response below 500 of the run it names. And
      as long as no run's response was stored in another request's reservation, that run was one of the same request. */
  lemma ReplaysAreFaithful(steps: seq<Step>, states: seq<State>, n: nat, m: nat)
    requires IsRun(steps, states) && n < |states|
    requires m < |states[n].replies| && states[n].replies[m].Replay?
    ensures var s := states[n]; var reply := s.replies[m];
            && reply.request < |s.requests| && reply.source < |s.runs|
            && s.runs[reply.source].outcome == Completed(reply.response) && 0 < reply.response.status < 500
            && (Filed(steps, states, n) ==> s.runs[reply.source].fp == s.requests[reply.request].fp)
  {
    var matched := Filed(steps, states, n);
    SourcedHolds(steps, states, n, matched);
    assert ReplySourced(states[n], matched, m);
    ToldHolds(steps, states, n);
    assert RunTold(states[n], states[n].replies[m].source);
  }

  /** Exactly when a stored response is at all times one of its own reservation's request: when no run completes
      another request's reservation. */
  lemma RowsMatchIffFiled(steps: seq<Step>, states: seq<State>)
    requires IsRun(steps, states)
    ensures (forall n {:trigger states[n]} :: 0 <= n < |states| ==> RowSourced(states[n], true))
            <==> Filed(steps, states, |steps|)
  {
    if Filed(steps, states, |steps|) {
      forall n | 0 <= n < |states| ensures RowSourced(states[n], true) { SourcedHolds(steps, states, n, true); }
    } else {
      var m :| 0 <= m < |steps| && Misfiles(states[m], steps[m]);
      assert StepAt(steps, states, m);
      ToldHolds(steps, states, m);
      assert RequestShape(states[m], steps[m].i);
      assert RunTold(states[m], states[m].requests[steps[m].i].phase.run);
      assert !RowSourced(states[m + 1], true);
    }
  }

  lemma ArrivalsOnly(s: State, step: Step, s': State)
    requires Enabled(s, step) && s' == Apply(s, step)
    ensures |s'.requests| == |s.requests| ||
            (step.Arrive? && |s'.requests| == |s.requests| + 1 && s'.requests[|s.requests|].fp == step.fp &&
               s'.requests[|s.requests|].phase.Arrived?)
  {
  }

  predicate AllFor(s: State, fp: Fingerprint) {
    forall i {:trigger s.requests[i]} :: 0 <= i < |s.requests| ==> s.requests[i].fp == fp
  }

  lemma SameRequestIsFiled(s: State, step: Step, s': State, fp: Fingerprint)
    requires Told(s) && AllFor(s, fp) && Enabled(s, step) && s' == Apply(s, step) && (step.Arrive? ==> step.fp == fp)
    ensures !Misfiles(s, step) && AllFor(s', fp)
  {
    if s.row.Some? {
      assert RunTold(s, s.rowRun);
    }
    ArrivalsOnly(s, step, s');
    StepSettles(s, step, s');
    forall i | 0 <= i < |s'.requests| ensures s'.requests[i].fp == fp {
      assert i < |s.requests| ==> s.requests[i].fp == fp;
    }
  }

  /** The first `n` steps bring nothing but retries of one request. */
  predicate OnlyRetries(steps: seq<Step>, n: nat, fp: Fingerprint) {
    n <= |steps| && forall m {:trigger steps[m]} :: 0 <= m < n && steps[m].Arrive? ==> steps[m].fp == fp
  }

  /** One way to be sure of that: all requests with the key are retries of one request. */
  lemma {:induction false} RetriesAreFiled(steps: seq<Step>, states: seq<State>, n: nat, fp: Fingerprint)
    requires IsRun(steps, states) && n <= |steps| && OnlyRetries(steps, n, fp)
    ensures Filed(steps, states, n) && AllFor(states[n], fp)
  {
    if n > 0 {
      RetriesAreFiled(steps, states, n - 1, fp);
      ToldHolds(steps, states, n - 1);
      assert StepAt(steps, states, n - 1);
      RetryNext(steps, states, n - 1, fp);
    }
  }

  lemma RetryNext(steps: seq<Step>, states: seq<State>, n: nat, fp: Fingerprint)
    requires StepAt(steps, states, n) && Told(states[n]) && AllFor(states[n], fp) && Filed(steps, states, n)
    requires OnlyRetries(steps, n + 1, fp)
    ensures Filed(steps, states, n + 1) && AllFor(states[n + 1], fp)
  {
    SameRequestIsFiled(states[n], steps[n], states[n + 1], fp);
    FiledNext(steps, states, n);
  }

  lemma FiledNext(steps: seq<Step>, states: seq<State>, n: nat)
    requires n < |steps| && Filed(steps, states, n) && !Misfiles(states[n], steps[n])
    ensures Filed(steps, states, n + 1)
  {
  }

  /** Request `i` is the one that arrived at step `m`, and has the clock of that moment. */
  ghost predicate ArrivedAt(steps: seq<Step>, states: seq<State>, m: nat, q: Request, i: nat) {
    && m < |steps| && |states| == |steps| + 1 && |states[m].requests| == i
    && steps[m] == Arrive(q.replica, q.fp, q.ttl) && q.now == states[m].clock
  }

  /** In every run: requests are what arrived, in order, each with the clock at its arrival. */
  lemma {:induction false} RequestsAreAsAsked(steps: seq<Step>, states: seq<State>, n: nat, i: nat)
    requires IsRun(steps, states) && n < |states| && i < |states[n].requests|
    ensures exists m :: 0 <= m < n && ArrivedAt(steps, states, m, states[n].requests[i], i)
  {
    assert StepAt(steps, states, n - 1);
    var s := states[n - 1];
    StepIsLocal(s, steps[n - 1], states[n]);
    if i < |s.requests| {
      RequestsAreAsAsked(steps, states, n - 1, i);
      var m :| 0 <= m < n - 1 && ArrivedAt(steps, states, m, s.requests[i], i);
      assert ArrivedAt(steps, states, m, states[n].requests[i], i);
    } else {
      ArrivalsOnly(s, steps[n - 1], states[n]);
      assert ArrivedAt(steps, states, n - 1, states[n].requests[i], i);
    }
  }

  // ----- Who is answered, and with what -----

  /** What a handler that made these calls meant to send. */
  predicate Says(calls: seq<IdempotencyRecorder.Call>, response: Response) {
    && response.status == IdempotencyRecorder.FirstStatus(calls)
    && response.contentType == IdempotencyRecorder.LastContentType(calls, "")
    && response.body == IdempotencyRecorder.WrittenBytes(calls)
  }

  /** The handler of request `i` has returned, having sent this response. */
  ghost predicate Voiced(past: seq<Step>, i: nat, response: Response) {
    exists k {:trigger past[k]} ::
      0 <= k < |past| && past[k].HandlerReturns? && past[k].i == i && Says(past[k].calls, response)
  }

  lemma VoicedStays(past: seq<Step>, step: Step, i: nat, response: Response)
    requires Voiced(past, i, response)
    ensures Voiced(past + [step], i, response)
  {
    var k :| 0 <= k < |past| && past[k].HandlerReturns? && past[k].i == i && Says(past[k].calls, response);
    assert (past + [step])[k] == past[k];
  }

  lemma ReturnIsVoiced(past: seq<Step>, i: nat, calls: seq<IdempotencyRecorder.Call>)
    ensures Voiced(past + [HandlerReturns(i, calls)], i, IdempotencyRecorder.Recorded(calls))
  {
    IdempotencyRecorder.RecordedIsWhatTheHandlerWrote(calls);
    assert (past + [HandlerReturns(i, calls)])[|past|] == HandlerReturns(i, calls);
  }

  ghost predicate RunVoiced(s: State, past: seq<Step>, r: nat) {
    r < |s.runs| && (s.runs[r].outcome.Completed? ==> Voiced(past, s.runs[r].request, s.runs[r].outcome.response))
  }

  ghost predicate RequestVoiced(s: State, past: seq<Step>, i: nat) {
    i < |s.requests| &&
    var p := s.requests[i].phase;
    p.Aborting? && p.answer.Some? ==> Voiced(past, i, p.answer.value) && p.answer.value.status >= 500
  }

  ghost predicate ReplyVoiced(s: State, past: seq<Step>, n: nat) {
    n < |s.replies| && (s.replies[n].Direct? ==> Voiced(past, s.replies[n].request, s.replies[n].response))
  }

  ghost predicate AllVoiced(s: State, past: seq<Step>) {
    && (forall r {:trigger RunVoiced(s, past, r)} :: 0 <= r < |s.runs| ==> RunVoiced(s, past, r))
    && (forall i {:trigger RequestVoiced(s, past, i)} :: 0 <= i < |s.requests| ==> RequestVoiced(s, past, i))
    && (forall n {:trigger ReplyVoiced(s, past, n)} :: 0 <= n < |s.replies| ==> ReplyVoiced(s, past, n))
  }

  /** Where a completed run, or an answer in hand, can come from. */
  ghost predicate Returned(s: State, step: Step, s': State, r: nat) {
    r < |s'.runs| &&
    (s'.runs[r].outcome.Completed? ==>
       || (r < |s.runs| && s'.runs[r] == s.runs[r])
       || (step.HandlerReturns? && s'.runs[r].request == step.i &&
             s'.runs[r].outcome.response == IdempotencyRecorder.Recorded(step.calls)))
  }

  ghost predicate InHand(s: State, step: Step, s': State, i: nat) {
    i < |s'.requests| &&
    var p := s'.requests[i].phase;
    (p.Aborting? && p.answer.Some? ==>
       || (i < |s.requests| && s.requests[i].phase == p)
       || (step.HandlerReturns? && step.i == i && p.answer.value == IdempotencyRecorder.Recorded(step.calls) &&
             p.answer.value.status >= 500))
  }

  lemma StepReturns(s: State, step: Step, s': State, r: nat)
    requires Shape(s) && Enabled(s, step) && s' == Apply(s, step) && r < |s'.runs|
    ensures Returned(s, step, s', r)
  {
    if Actor(step).Some? {
      assert RequestShape(s, step.i);
    }
    if |s'.runs| != |s.runs| {
      RunsGrow(s, step, s');
    }
  }

  lemma StepInHand(s: State, step: Step, s': State, i: nat)
    requires Enabled(s, step) && s' == Apply(s, step) && i < |s'.requests|
    ensures InHand(s, step, s', i)
  {
    StepIsLocal(s, step, s');
    if Actor(step) == Some(i) {
      StepAdvances(s, step, s');
    } else {
      ArrivalsOnly(s, step, s');
    }
  }

  /** The request is answered, or was given up without an answer because its handler panicked. */
  predicate Answered(p: Phase) {
    p.Releasing? || p.Done?
  }

  /** The row as request `i` sees it. */
  function RowFor(s: State, i: nat): Option<Row>
    requires i < |s.requests|
  {
    Get(s.row, s.requests[i].now)
  }

  /** Why a step gives a reply: the owner's own response once its store step is through; a replay of the response in the
      slot it waited on, or in the row it claimed or polled, for the same fingerprint; a conflict with a slot or a row
      of another fingerprint, or a poll that ended without a response; a timeout; a store failure. */
  ghost predicate Reason(s: State, step: Step, reply: Reply) {
    Actor(step) == Some(reply.request) && Enabled(s, step) &&
    var i := step.i;
    var q := s.requests[i];
    match reply
    case Direct(_, response) =>
      if step.StoreComplete? then s.runs[q.phase.run].outcome == Completed(response)
      else step.StoreDelete? && q.phase.answer == Some(response)
    case Replay(_, response, source) =>
      response.status > 0 &&
      if step.Wake? then
        var slot := s.slots[q.phase.slot];
        slot.fp == q.fp && !slot.failed && slot.result == response && slot.source == source
      else
        && (step == ClaimRow(i, false) || step == Poll(i, false)) && RowFor(s, i).Some? && source == s.rowSource
        && RowFor(s, i).value.fp == q.fp && RowFor(s, i).value.response == response
    case Conflict(_) =>
      || (step.Wake? && s.slots[q.phase.slot].fp != q.fp)
      || (step == ClaimRow(i, false) && RowFor(s, i).Some? && RowFor(s, i).value.fp != q.fp)
      || (step.Poll? && (step.giveUp || RowFor(s, i).None? ||
            (RowFor(s, i).value.fp != q.fp && RowFor(s, i).value.response.status > 0)))
    case TimedOut(_) => step.Cancel?
    case StoreFailure(_) => step == ClaimRow(i, true)
  }

  /** A step gives its request one reply for a reason, or none; and it gives one exactly when it takes the request to
      its end, a panicked handler's request apart. */
  ghost predicate Speaks(s: State, step: Step, s': State) {
    if s'.replies == s.replies then
      Actor(step).Some? ==>
        && step.i < |s.requests| && step.i < |s'.requests|
        && var p := s.requests[step.i].phase;
           Answered(s'.requests[step.i].phase) ==> p.Releasing? || (p.Aborting? && p.answer.None?)
    else
      && Actor(step).Some? && step.i < |s.requests| && step.i < |s'.requests| && |s'.replies| == |s.replies| + 1
      && s'.replies == s.replies + [s'.replies[|s.replies|]] && Reason(s, step, s'.replies[|s.replies|])
      && var p := s.requests[step.i].phase;
         !Answered(p) && Answered(s'.requests[step.i].phase) && !(p.Aborting? && p.answer.None?)
  }

  lemma ClaimSpeaks(s: State, i: nat, storeFails: bool)
    requires Enabled(s, ClaimRow(i, storeFails))
    ensures Speaks(s, ClaimRow(i, storeFails), DoClaim(s, i, storeFails))
  {
  }

  lemma PollSpeaks(s: State, i: nat, giveUp: bool)
    requires Enabled(s, Poll(i, giveUp))
    ensures Speaks(s, Poll(i, giveUp), DoPoll(s, i, giveUp))
  {
  }

  lemma WakeSpeaks(s: State, i: nat)
    requires Enabled(s, Wake(i))
    ensures Speaks(s, Wake(i), DoWake(s, i))
  {
  }

  lemma StoreStepSpeaks(s: State, step: Step)
    requires Enabled(s, step) && (step.StoreComplete? || step.StoreDelete?)
    ensures Speaks(s, step, Apply(s, step))
  {
  }

  lemma StepSpeaks(s: State, step: Step, s': State)
    requires Enabled(s, step) && s' == Apply(s, step)
    ensures Speaks(s, step, s')
  {
    match step
    case ClaimRow(i, storeFails) => ClaimSpeaks(s, i, storeFails);
    case Poll(i, giveUp) => PollSpeaks(s, i, giveUp);
    case Wake(i) => WakeSpeaks(s, i);
    case StoreComplete(_, _) => StoreStepSpeaks(s, step);
    case StoreDelete(_, _) => StoreStepSpeaks(s, step);
    case _ =>
  }

  lemma StepVoices(s: State, past: seq<Step>, step: Step, s': State)
    requires Shape(s) && AllVoiced(s, past) && Enabled(s, step) && s' == Apply(s, step)
    ensures AllVoiced(s', past + [step])
  {
    forall r | 0 <= r < |s'.runs| ensures RunVoiced(s', past + [step], r) { RunStaysVoiced(s, past, step, s', r); }
    forall i | 0 <= i < |s'.requests| ensures RequestVoiced(s', past + [step], i) {
      RequestStaysVoiced(s, past, step, s', i);
    }
    forall n | 0 <= n < |s'.replies| ensures ReplyVoiced(s', past + [step], n) {
      ReplyStaysVoiced(s, past, step, s', n);
    }
  }

  lemma RunStaysVoiced(s: State, past: seq<Step>, step: Step, s': State, r: nat)
    requires Shape(s) && AllVoiced(s, past) && Enabled(s, step) && s' == Apply(s, step) && r < |s'.runs|
    ensures RunVoiced(s', past + [step], r)
  {
    StepReturns(s, step, s', r);
    if s'.runs[r].outcome.Completed? {
      if r < |s.runs| && s'.runs[r] == s.runs[r] {
        assert RunVoiced(s, past, r);
        VoicedStays(past, step, s.runs[r].request, s.runs[r].outcome.response);
      } else {
        ReturnIsVoiced(past, step.i, step.calls);
      }
    }
  }

  lemma RequestStaysVoiced(s: State, past: seq<Step>, step: Step, s': State, i: nat)
    requires AllVoiced(s, past) && Enabled(s, step) && s' == Apply(s, step) && i < |s'.requests|
    ensures RequestVoiced(s', past + [step], i)
  {
    StepInHand(s, step, s', i);
    var p := s'.requests[i].phase;
    if p.Aborting? && p.answer.Some? {
      if i < |s.requests| && s.requests[i].phase == p {
        assert RequestVoiced(s, past, i);
        VoicedStays(past, step, i, p.answer.value);
      } else {
        ReturnIsVoiced(past, step.i, step.calls);
      }
    }
  }

  lemma ReplyStaysVoiced(s: State, past: seq<Step>, step: Step, s': State, n: nat)
    requires Shape(s) && AllVoiced(s, past) && Enabled(s, step) && s' == Apply(s, step) && n < |s'.replies|
    ensures ReplyVoiced(s', past + [step], n)
  {
    StepSpeaks(s, step, s');
    var reply := s'.replies[n];
    if reply.Direct? {
      if n < |s.replies| {
        assert ReplyVoiced(s, past, n);
      } else {
        var p := s.requests[step.i].phase;
        assert RequestShape(s, step.i) && RequestVoiced(s, past, step.i);
        assert step.StoreComplete? ==> RunVoiced(s, past, p.run);
      }
      VoicedStays(past, step, reply.request, reply.response);
    }
  }

  lemma {:induction false} VoicedHolds(steps: seq<Step>, states: seq<State>, n: nat)
    requires IsRun(steps, states) && n < |states|
    ensures AllVoiced(states[n], steps[..n])
  {
    if n > 0 {
      VoicedHolds(steps, states, n - 1);
      ShapeHolds(steps, states, n - 1);
      assert StepAt(steps, states, n - 1);
      assert steps[..n] == steps[..n - 1] + [steps[n - 1]];
      StepVoices(states[n - 1], steps[..n - 1], steps[n - 1], states[n]);
    }
  }

  /** In every run: the client whose request ran the handler is sent what the handler wrote, status, content type and
      every byte in order; and so is every client that is answered with a replay of that run. */
  lemma AnswersAreTheHandlers(steps: seq<Step>, states: seq<State>, n: nat, m: nat)
    requires IsRun(steps, states) && n < |states| && m < |states[n].replies|
    ensures var s := states[n]; var reply := s.replies[m];
            && (reply.Direct? ==> Voiced(steps[..n], reply.request, reply.response))
            && (reply.Replay? ==> reply.source < |s.runs| &&
                                  Voiced(steps[..n], s.runs[reply.source].request, reply.response))
  {
    VoicedHolds(steps, states, n);
    assert ReplyVoiced(states[n], steps[..n], m);
    if states[n].replies[m].Replay? {
      ReplaysAreFaithful(steps, states, n, m);
      assert RunVoiced(states[n], steps[..n], states[n].replies[m].source);
    }
  }

  /** In every run: every reply was given, in its turn, by a step that had a reason for it. */
  lemma {:induction false} RepliesHaveReasons(steps: seq<Step>, states: seq<State>, n: nat, m: nat)
    requires IsRun(steps, states) && n < |states| && m < |states[n].replies|
    ensures exists k :: 0 <= k < n && |states[k].replies| == m && Reason(states[k], steps[k], states[n].replies[m])
  {
    assert StepAt(steps, states, n - 1);
    StepSpeaks(states[n - 1], steps[n - 1], states[n]);
    if m < |states[n - 1].replies| {
      RepliesHaveReasons(steps, states, n - 1, m);
    }
  }

  function RepliesTo(replies: seq<Reply>, i: nat): nat {
    if replies == [] then 0
    else RepliesTo(replies[..|replies| - 1], i) + if replies[|replies| - 1].request == i then 1 else 0
  }

  lemma RepliesToNext(replies: seq<Reply>, reply: Reply, i: nat)
    ensures RepliesTo(replies + [reply], i) == RepliesTo(replies, i) + if reply.request == i then 1 else 0
  {
    assert (replies + [reply])[..|replies|] == replies;
  }

  /** Nobody is answered before its time, and then once; a request whose handler panicked never. */
  ghost predicate AnsweredOnce(s: State, past: seq<Step>, i: nat) {
    var panicked, told := HandlerPanics(i) in past, RepliesTo(s.replies, i);
    if i >= |s.requests| then told == 0 && !panicked
    else
      var p := s.requests[i].phase;
      if Answered(p) then told == if panicked then 0 else 1
      else told == 0 && (panicked <==> p.Aborting? && p.answer.None?)
  }

  /** Where a step takes its request, as far as panics and answers go. */
  predicate PanicPhase(s: State, step: Step, s': State) {
    && Actor(step).Some? && |s'.requests| == |s.requests| && step.i < |s.requests|
    && var p, p' := s.requests[step.i].phase, s'.requests[step.i].phase;
       && !p.Done? && (p.Releasing? ==> p'.Done?) && (p.Aborting? ==> p'.Releasing?)
       && (p'.Aborting? && p'.answer.None? <==> step.HandlerPanics?)
  }

  lemma PhaseForPanic(s: State, step: Step, s': State)
    requires Enabled(s, step) && s' == Apply(s, step) && Actor(step).Some?
    ensures PanicPhase(s, step, s')
  {
    ArrivalsOnly(s, step, s');
    StepAdvances(s, step, s');
  }

  lemma AnsweredOnceStays(s: State, past: seq<Step>, step: Step, s': State, i: nat)
    requires AnsweredOnce(s, past, i) && Local(s, Actor(step), s') && Speaks(s, step, s')
    requires Actor(step).Some? ==> PanicPhase(s, step, s')
    requires Actor(step).None? ==>
               |s'.requests| == |s.requests| ||
               (|s'.requests| == |s.requests| + 1 && s'.requests[|s.requests|].phase.Arrived?)
    ensures AnsweredOnce(s', past + [step], i)
  {
    assert HandlerPanics(i) in past + [step] <==> HandlerPanics(i) in past || step == HandlerPanics(i);
    if s'.replies != s.replies {
      RepliesToNext(s.replies, s'.replies[|s.replies|], i);
    }
  }

  lemma StepAnswersOnce(s: State, past: seq<Step>, step: Step, s': State, i: nat)
    requires AnsweredOnce(s, past, i) && Enabled(s, step) && s' == Apply(s, step)
    ensures AnsweredOnce(s', past + [step], i)
  {
    StepIsLocal(s, step, s');
    StepSpeaks(s, step, s');
    if Actor(step).Some? {
      PhaseForPanic(s, step, s');
    } else {
      ArrivalsOnly(s, step, s');
    }
    AnsweredOnceStays(s, past, step, s', i);
  }

  /** In every run: a request gets at most one reply, and one that is through has had exactly one unless its handler
      panicked. */
  lemma {:induction false} EachIsAnsweredOnce(steps: seq<Step>, states: seq<State>, n: nat, i: nat)
    requires IsRun(steps, states) && n < |states|
    ensures AnsweredOnce(states[n], steps[..n], i)
  {
    if n > 0 {
      EachIsAnsweredOnce(steps, states, n - 1, i);
      assert StepAt(steps, states, n - 1);
      assert steps[..n] == steps[..n - 1] + [steps[n - 1]];
      StepAnswersOnce(states[n - 1], steps[..n - 1], steps[n - 1], states[n], i);
    }
  }

  // ----- One answer for all that wait on it -----

  /** The reply to request `i`; there is at most one. */
  function ReplyTo(replies: seq<Reply>, i: nat): Option<Reply> {
    if replies == [] then None
    else if replies[|replies| - 1].request == i then Some(replies[|replies| - 1])
    else ReplyTo(replies[..|replies| - 1], i)
  }

  lemma ReplyToNext(replies: seq<Reply>, reply: Reply, i: nat)
    ensures ReplyTo(replies + [reply], i) == if reply.request == i then Some(reply) else ReplyTo(replies, i)
  {
    assert (replies + [reply])[..|replies|] == replies;
  }

  /** The response a reply shares with those that wait: the owner's own, if below 500, or a replayed one. */
  function Shared(reply: Option<Reply>): Option<Response> {
    if reply.None? then None
    else match reply.value
      case Direct(_, response) => if response.status < 500 then Some(response) else None
      case Replay(_, response, _) => Some(response)
      case _ => None
  }

  /** What is in the slot is what its owner was answered with, if that is to be shared, and nothing otherwise. */
  predicate Carries(slot: Slot, reply: Option<Reply>) {
    if Shared(reply).Some? then !slot.failed && slot.result == Shared(reply).value && slot.result.status > 0
    else slot.failed || slot.result.status == 0
  }

  ghost predicate SlotTold(s: State, k: nat) {
    k < |s.slots| &&
    var slot := s.slots[k];
    slot.owner < |s.requests| &&
    var p := s.requests[slot.owner].phase;
    && (slot.closes > 0 ==> p.Done?)
    && if Answered(p) then Carries(slot, ReplyTo(s.replies, slot.owner))
       else && slot.result.status == 0 && slot.failed == (p.Aborting? && p.answer.Some?)
            && ReplyTo(s.replies, slot.owner).None?
            && (p.Aborting? && p.answer.Some? ==> p.answer.value.status >= 500)
  }

  ghost predicate SlotsTold(s: State) {
    forall k {:trigger SlotTold(s, k)} :: 0 <= k < |s.slots| ==> SlotTold(s, k)
  }

  lemma FailingTells(s: State, i: nat, k: nat, reply: Reply)
    requires i < |s.requests| && k < |s.slots| && s.slots[k].owner == i && SlotTold(s, k)
    requires !Answered(s.requests[i].phase) && reply.request == i && Shared(Some(reply)).None?
    ensures SlotTold(FailSlot(s, i, k, reply), k)
  {
    ReplyToNext(s.replies, reply, i);
  }

  lemma ReplayingTells(s: State, i: nat, k: nat, response: Response)
    requires i < |s.requests| && k < |s.slots| && s.slots[k].owner == i && SlotTold(s, k) && response.status > 0
    requires s.requests[i].phase.Claiming? || s.requests[i].phase.Polling?
    ensures SlotTold(ReplayIntoSlot(s, i, k, response), k)
  {
    ReplyToNext(s.replies, Replay(i, response, s.rowSource), i);
  }

  lemma ClaimTells(s: State, i: nat, storeFails: bool, s': State)
    requires Told(s) && Enabled(s, ClaimRow(i, storeFails)) && s' == DoClaim(s, i, storeFails)
    requires SlotTold(s, s.requests[i].phase.slot)
    ensures SlotTold(s', s.requests[i].phase.slot)
  {
    assert RequestShape(s, i);
    var q := s.requests[i];
    var k, outcome := q.phase.slot, Claim(s.row, q.fp, q.now + q.ttl, q.now).0;
    if storeFails {
      FailingTells(s, i, k, StoreFailure(i));
    } else if outcome.Mismatch? {
      FailingTells(s, i, k, Conflict(i));
    } else if outcome.Replayed? {
      ReplayingTells(s, i, k, outcome.existing.response);
    }
  }

  lemma PollTells(s: State, i: nat, giveUp: bool, s': State)
    requires Told(s) && Enabled(s, Poll(i, giveUp)) && s' == DoPoll(s, i, giveUp)
    requires SlotTold(s, s.requests[i].phase.slot)
    ensures SlotTold(s', s.requests[i].phase.slot)
  {
    assert RequestShape(s, i);
    var k, found := s.requests[i].phase.slot, Get(s.row, s.requests[i].now);
    FailingTells(s, i, k, Conflict(i));
    if found.Some? && found.value.response.status > 0 {
      ReplayingTells(s, i, k, found.value.response);
    }
  }

  lemma HandlerTells(s: State, step: Step, s': State)
    requires Told(s) && Enabled(s, step) && (step.HandlerReturns? || step.HandlerPanics?) && s' == Apply(s, step)
    requires SlotTold(s, s.requests[step.i].phase.slot)
    ensures SlotTold(s', s.requests[step.i].phase.slot)
  {
    assert RequestShape(s, step.i);
  }

  lemma StoreStepTells(s: State, step: Step, s': State)
    requires Told(s) && Enabled(s, step) && (step.StoreComplete? || step.StoreDelete?) && s' == Apply(s, step)
    requires SlotTold(s, s.requests[step.i].phase.slot)
    ensures SlotTold(s', s.requests[step.i].phase.slot)
  {
    assert RequestShape(s, step.i);
    assert RunTold(s, s.requests[step.i].phase.run);
    if s'.replies != s.replies {
      ReplyToNext(s.replies, s'.replies[|s.replies|], step.i);
    }
  }

  lemma ReleaseTells(s: State, i: nat, s': State)
    requires Told(s) && Enabled(s, Release(i)) && s' == DoRelease(s, i) && SlotTold(s, s.requests[i].phase.slot)
    ensures SlotTold(s', s.requests[i].phase.slot)
  {
    assert RequestShape(s, i);
  }

  lemma OwnerTells(s: State, step: Step, s': State)
    requires Told(s) && Enabled(s, step) && Actor(step).Some? && s' == Apply(s, step)
    requires Owning(s.requests[step.i].phase) && SlotTold(s, s.requests[step.i].phase.slot)
    ensures SlotTold(s', s.requests[step.i].phase.slot)
  {
    match step
    case ClaimRow(i, storeFails) => ClaimTells(s, i, storeFails, s');
    case Poll(i, giveUp) => PollTells(s, i, giveUp, s');
    case HandlerReturns(_, _) => HandlerTells(s, step, s');
    case HandlerPanics(_) => HandlerTells(s, step, s');
    case StoreComplete(_, _) => StoreStepTells(s, step, s');
    case StoreDelete(_, _) => StoreStepTells(s, step, s');
    case Release(i) => ReleaseTells(s, i, s');
  }

  /** A step of somebody else leaves slot, owner and reply alone. */
  lemma OthersTell(s: State, step: Step, s': State, k: nat)
    requires SlotTold(s, k) && Actor(step) != Some(s.slots[k].owner) && Local(s, Actor(step), s') && Speaks(s, step, s')
    requires Actor(step).Some? ==> RequestShape(s, step.i)
    ensures SlotTold(s', k)
  {
    if s'.replies != s.replies {
      ReplyToNext(s.replies, s'.replies[|s.replies|], s.slots[k].owner);
    }
  }

  lemma {:induction false} UnansweredHasNoReply(replies: seq<Reply>, i: nat)
    requires RepliesTo(replies, i) == 0
    ensures ReplyTo(replies, i).None?
  {
    if replies != [] {
      UnansweredHasNoReply(replies[..|replies| - 1], i);
    }
  }

  ghost predicate AllAnsweredOnce(s: State, past: seq<Step>) {
    forall i: nat {:trigger AnsweredOnce(s, past, i)} :: AnsweredOnce(s, past, i)
  }

  lemma NewSlotTells(s: State, past: seq<Step>, step: Step, s': State)
    requires Told(s) && Enabled(s, step) && s' == Apply(s, step) && |s'.slots| > |s.slots|
    requires AllAnsweredOnce(s, past)
    ensures |s'.slots| == |s.slots| + 1 && SlotTold(s', |s.slots|)
  {
    assert step.Enter? && AnsweredOnce(s, past, step.i);
    UnansweredHasNoReply(s.replies, step.i);
  }

  lemma SlotStaysTold(s: State, step: Step, s': State, k: nat)
    requires Told(s) && Enabled(s, step) && s' == Apply(s, step) && SlotTold(s, k)
    ensures SlotTold(s', k)
  {
    if Actor(step) == Some(s.slots[k].owner) {
      assert SlotShape(s, k);
      PhaseForPanic(s, step, s');
      OwnerTells(s, step, s');
    } else {
      StepIsLocal(s, step, s');
      StepSpeaks(s, step, s');
      assert Actor(step).Some? ==> RequestShape(s, step.i);
      OthersTell(s, step, s', k);
    }
  }

  lemma SlotsGrow(s: State, step: Step, s': State)
    requires Enabled(s, step) && s' == Apply(s, step)
    ensures |s.slots| <= |s'.slots| <= |s.slots| + 1
  {
  }

  lemma StepKeepsSlotsTold(s: State, past: seq<Step>, step: Step, s': State)
    requires Told(s) && SlotsTold(s) && Enabled(s, step) && s' == Apply(s, step) && AllAnsweredOnce(s, past)
    ensures SlotsTold(s')
  {
    SlotsGrow(s, step, s');
    forall k | 0 <= k < |s'.slots| ensures SlotTold(s', k) {
      if k < |s.slots| {
        assert SlotTold(s, k);
        SlotStaysTold(s, step, s', k);
      } else {
        NewSlotTells(s, past, step, s');
      }
    }
  }

  /** In every run: a closed slot holds what its owner was answered with, if that is to be shared. */
  lemma {:induction false} SlotsTellTheAnswer(steps: seq<Step>, states: seq<State>, n: nat)
    requires IsRun(steps, states) && n < |states|
    ensures SlotsTold(states[n])
  {
    if n > 0 {
      SlotsTellTheAnswer(steps, states, n - 1);
      ToldHolds(steps, states, n - 1);
      assert StepAt(steps, states, n - 1);
      var s, past := states[n - 1], steps[..n - 1];
      forall i: nat ensures AnsweredOnce(s, past, i) { EachIsAnsweredOnce(steps, states, n - 1, i); }
      StepKeepsSlotsTold(s, past, steps[n - 1], states[n]);
    }
  }

  /** In every run: a request that waited on another one's slot is answered with the very response the other's client
      got, if it is a retry of the same request and that response is below 500; it is turned away if it is another
      request; and it starts over if there is nothing to share. */
  lemma WaitersShareTheAnswer(steps: seq<Step>, states: seq<State>, n: nat, i: nat)
    requires IsRun(steps, states) && n < |steps| && steps[n] == Wake(i)
    ensures StepAt(steps, states, n)
    ensures var s, s' := states[n], states[n + 1];
            var slot := s.slots[s.requests[i].phase.slot];
            var shared := Shared(ReplyTo(s.replies, slot.owner));
            if slot.fp != s.requests[i].fp then s'.replies == s.replies + [Conflict(i)]
            else if shared.Some? then s'.replies == s.replies + [Replay(i, shared.value, slot.source)]
            else s'.replies == s.replies && s'.requests[i].phase.Arrived?
  {
    assert StepAt(steps, states, n);
    SlotsTellTheAnswer(steps, states, n);
    ToldHolds(steps, states, n);
    assert RequestShape(states[n], i);
    assert SlotTold(states[n], states[n].requests[i].phase.slot);
  }

  // ----- Reservations, with any timing -----

  /** The step deletes the reservation of run `r`. */
  predicate Deletes(s: State, step: Step, r: nat) {
    step.StoreDelete? && step.ok && s.row.Some? && s.rowRun == r
  }

  lemma RowLeaves(s: State, step: Step, s': State)
    requires RowTold(s) && s.row.Some? && Enabled(s, step) && s' == Apply(s, step)
    ensures (s'.row.Some? && s'.rowRun == s.rowRun) || s.runs[s.rowRun].expiresAt <= s'.clock
            || Deletes(s, step, s.rowRun)
  {
    StepMovesRow(s, step, s');
    if |s'.runs| != |s.runs| {
      RunsGrow(s, step, s');
    }
  }

  /** In every run, with any timing: the reservation of a run is in the store until it expires or is deleted. */
  lemma {:induction false} ReservationsLast(steps: seq<Step>, states: seq<State>, n: nat, r: nat)
    requires IsRun(steps, states) && n < |states| && r < |states[n].runs|
    ensures var s := states[n];
            || (s.row.Some? && s.rowRun == r) || s.runs[r].expiresAt <= s.clock
            || exists m :: 0 <= m < n && Deletes(states[m], steps[m], r)
  {
    if n > 0 {
      assert StepAt(steps, states, n - 1);
      ToldHolds(steps, states, n - 1);
      StepIsLocal(states[n - 1], steps[n - 1], states[n]);
      StepMovesRow(states[n - 1], steps[n - 1], states[n]);
      if r < |states[n - 1].runs| {
        ReservationsLast(steps, states, n - 1, r);
        if states[n - 1].row.Some? {
          RowLeaves(states[n - 1], steps[n - 1], states[n]);
        }
      }
    }
  }

  /** In every run, with any timing: a handler starts before an earlier run has expired only if that run's reservation
      was deleted. */
  lemma NoRerunBeforeExpiry(steps: seq<Step>, states: seq<State>, n: nat, r: nat)
    requires IsRun(steps, states) && n < |steps| && |states[n].runs| < |states[n + 1].runs| && r < |states[n].runs|
    requires states[n].clock < states[n].runs[r].expiresAt
    ensures exists m :: 0 <= m < n && Deletes(states[m], steps[m], r)
  {
    ReservationsLast(steps, states, n, r);
    assert StepAt(steps, states, n);
    ToldHolds(steps, states, n);
    RunsGrow(states[n], steps[n], states[n + 1]);
  }

  /** Every run that did not fail and has not expired has its reservation in the store, so nobody else can start. */
  ghost predicate Reserved(s: State) {
    forall r {:trigger s.runs[r]} ::
      0 <= r < |s.runs| && !s.runs[r].outcome.Aborted? && s.clock < s.runs[r].expiresAt ==>
        s.row.Some? && s.rowRun == r
  }

  /** The step, taken for one run that failed, deletes the live reservation of another that did not. */
  predicate DeletesAnothers(s: State, step: Step) {
    && step.StoreDelete? && step.ok && step.i < |s.requests| && s.requests[step.i].phase.Aborting?
    && s.row.Some? && s.rowRun < |s.runs| && s.requests[step.i].phase.run != s.rowRun
    && !s.runs[s.rowRun].outcome.Aborted? && s.clock < s.runs[s.rowRun].expiresAt
  }

  lemma {:induction false} ClockGoesOn(steps: seq<Step>, states: seq<State>, m: nat, n: nat)
    requires IsRun(steps, states) && m <= n < |states|
    ensures states[m].clock <= states[n].clock
    decreases n
  {
    if m < n {
      ClockGoesOn(steps, states, m, n - 1);
      assert StepAt(steps, states, n - 1);
      StepMovesRow(states[n - 1], steps[n - 1], states[n]);
    }
  }

  /** Exactly when that holds throughout a run: when no failed run deletes another's live reservation. */
  lemma ReservedIffOwnDeletes(steps: seq<Step>, states: seq<State>)
    requires IsRun(steps, states)
    ensures (forall n {:trigger states[n]} :: 0 <= n < |states| ==> Reserved(states[n]))
            <==> (forall m {:trigger steps[m]} :: 0 <= m < |steps| ==> !DeletesAnothers(states[m], steps[m]))
  {
    if m :| 0 <= m < |steps| && DeletesAnothers(states[m], steps[m]) {
      assert StepAt(steps, states, m);
      assert states[m + 1].runs[states[m].rowRun] == states[m].runs[states[m].rowRun];
      assert !Reserved(states[m + 1]);
    } else {
      forall n | 0 <= n < |states| ensures Reserved(states[n]) { OwnDeletesReserve(steps, states, n); }
    }
  }

  lemma OwnDeletesReserve(steps: seq<Step>, states: seq<State>, n: nat)
    requires IsRun(steps, states) && n < |states|
    requires forall m {:trigger steps[m]} :: 0 <= m < n ==> !DeletesAnothers(states[m], steps[m])
    ensures Reserved(states[n])
  {
    var s := states[n];
    forall r | 0 <= r < |s.runs| && !s.runs[r].outcome.Aborted? && s.clock < s.runs[r].expiresAt
      ensures s.row.Some? && s.rowRun == r
    {
      ReservationsLast(steps, states, n, r);
      if m :| 0 <= m < n && Deletes(states[m], steps[m], r) {
        assert StepAt(steps, states, m);
        ToldHolds(steps, states, m);
        assert RequestShape(states[m], steps[m].i);
        ClockGoesOn(steps, states, m, n);
        OutcomeIsFinal(steps, states, m, n, r);
      }
    }
  }

  // ----- One handler at a time -----

  /** The step removes or replaces the row because it has expired. */
  predicate Evicts(s: State, step: Step) {
    Enabled(s, step) && s.row.Some? &&
    (step.Sweep? || (step.ClaimRow? && !step.storeFails && Expired(s.row.value, s.requests[step.i].now)))
  }

  predicate Holds(s: State, i: nat) {
    && i < |s.requests| && Holding(s.requests[i].phase) && InRange(s, s.requests[i].phase)
    && s.requests[i].phase.run == s.rowRun
  }

  /** The step evicts a row whose own request is not through with it: the reservation was outlived. */
  ghost predicate Overruns(s: State, step: Step) {
    Evicts(s, step) && exists i {:trigger Holds(s, i)} :: 0 <= i < |s.requests| && Holds(s, i)
  }

  /** A simple way to rule that out: a request that holds the row is still inside its reservation. */
  predicate Timely(s: State) {
    forall i {:trigger s.requests[i]} :: 0 <= i < |s.requests| && Holding(s.requests[i].phase) ==>
      s.requests[i].phase.run < |s.runs| && s.clock < s.runs[s.requests[i].phase.run].expiresAt
  }

  /** None of the first `n` steps evicts a reservation that is still held. */
  ghost predicate Unbroken(steps: seq<Step>, states: seq<State>, n: nat) {
    |states| == |steps| + 1 && n <= |steps| &&
    forall m {:trigger steps[m]} :: 0 <= m < n ==> !Overruns(states[m], steps[m])
  }

  /** Every request that holds a run has its own reservation in the store. */
  ghost predicate Guarded(s: State) {
    forall i {:trigger Holds(s, i)} ::
      0 <= i < |s.requests| && Holding(s.requests[i].phase) ==> s.row.Some? && Holds(s, i)
  }

  ghost predicate Inv(s: State) {
    Told(s) && Guarded(s)
  }

  /** A step that evicts no held reservation leaves every holder its own. */
  lemma StepKeepsInv(s: State, step: Step, s': State)
    requires Inv(s) && Enabled(s, step) && s' == Apply(s, step) && !Overruns(s, step)
    ensures Inv(s')
  {
    StepKeepsShape(s, step, s');
    StepKeepsRunsTold(s, step, s');
    StepKeepsRowTold(s, step, s');
    StepKeepsGuarded(s, step, s');
  }

  lemma OneHolder(s: State, i: nat, j: nat)
    requires Inv(s) && i < |s.requests| && j < |s.requests|
    requires Holding(s.requests[i].phase) && Holding(s.requests[j].phase)
    ensures i == j
  {
    assert Holds(s, i) && Holds(s, j) && RequestShape(s, i) && RequestShape(s, j);
  }

  lemma OthersStayGuarded(s: State, step: Step, s': State, j: nat)
    requires Inv(s) && Enabled(s, step) && s' == Apply(s, step) && !Overruns(s, step)
    requires j < |s.requests| && Holding(s.requests[j].phase) && Actor(step) != Some(j)
    ensures s'.row.Some? && s'.rowRun == s.rowRun
  {
    assert Holds(s, j) && RequestShape(s, j);
    assert !Evicts(s, step);
    StepMovesRow(s, step, s');
    if |s'.runs| != |s.runs| {
      RunsGrow(s, step, s');
    } else if step.StoreDelete? {
      OneHolder(s, step.i, j);
    }
  }

  lemma ActorStaysGuarded(s: State, step: Step, s': State)
    requires Guarded(s) && Enabled(s, step) && Advances(s, step, s') && RowMoves(s, step, s')
    requires Holding(s'.requests[step.i].phase) && (|s'.runs| != |s.runs| ==> step.ClaimRow?)
    ensures s'.row.Some? && s'.rowRun == s'.requests[step.i].phase.run
  {
    assert Holding(s.requests[step.i].phase) ==> Holds(s, step.i);
  }

  lemma StepKeepsGuarded(s: State, step: Step, s': State)
    requires Inv(s) && Shape(s') && Enabled(s, step) && s' == Apply(s, step) && !Overruns(s, step)
    ensures Guarded(s')
  {
    StepIsLocal(s, step, s');
    forall j | 0 <= j < |s'.requests| && Holding(s'.requests[j].phase) ensures s'.row.Some? && Holds(s', j) {
      assert RequestShape(s', j);
      if Actor(step) == Some(j) {
        StepAdvances(s, step, s');
        StepMovesRow(s, step, s');
        if |s'.runs| != |s.runs| {
          RunsGrow(s, step, s');
        }
        ActorStaysGuarded(s, step, s');
      } else {
        ArrivalsOnly(s, step, s');
        assert Holds(s, j);
        OthersStayGuarded(s, step, s', j);
      }
    }
  }

  lemma {:induction false} InvHolds(steps: seq<Step>, states: seq<State>, n: nat)
    requires IsRun(steps, states) && n < |states| && Unbroken(steps, states, n)
    ensures Inv(states[n])
  {
    if n > 0 {
      InvHolds(steps, states, n - 1);
      assert StepAt(steps, states, n - 1) && !Overruns(states[n - 1], steps[n - 1]);
      StepKeepsInv(states[n - 1], steps[n - 1], states[n]);
    }
  }

  /** A run whose holders always finish inside their reservations has no such step. */
  lemma TimelyRunsAreUnbroken(steps: seq<Step>, states: seq<State>, n: nat)
    requires IsRun(steps, states) && n <= |steps|
    requires forall m {:trigger Timely(states[m])} :: 0 <= m < n ==> Timely(states[m])
    ensures Unbroken(steps, states, n)
  {
    forall m | 0 <= m < n ensures !Overruns(states[m], steps[m]) {
      var s := states[m];
      ToldHolds(steps, states, m);
      assert StepAt(steps, states, m) && Timely(s);
      forall i | 0 <= i < |s.requests| && Holds(s, i) ensures !Evicts(s, steps[m]) { assert RequestShape(s, i); }
    }
  }

  /** Until a held reservation is evicted, at most one request holds a run, over all replicas. */
  lemma AtMostOneHolder(steps: seq<Step>, states: seq<State>, n: nat, i: nat, j: nat)
    requires IsRun(steps, states) && n < |states| && Unbroken(steps, states, n)
    requires i < |states[n].requests| && j < |states[n].requests|
    requires Holding(states[n].requests[i].phase) && Holding(states[n].requests[j].phase)
    ensures i == j
  {
    InvHolds(steps, states, n);
    OneHolder(states[n], i, j);
  }

  /** So at most one handler is executing. */
  lemma AtMostOneHandlerRuns(steps: seq<Step>, states: seq<State>, n: nat, i: nat, j: nat)
    requires IsRun(steps, states) && n < |states| && Unbroken(steps, states, n)
    requires i < |states[n].requests| && j < |states[n].requests|
    requires states[n].requests[i].phase.Running? && states[n].requests[j].phase.Running?
    ensures i == j
  {
    AtMostOneHolder(steps, states, n, i, j);
  }

  /** Until then a step that starts a handler finds every earlier run over: failed, or ended below 500 and expired. */
  lemma RunsAreSerial(steps: seq<Step>, states: seq<State>, n: nat, r: nat)
    requires IsRun(steps, states) && n < |steps| && Unbroken(steps, states, n + 1)
    requires |states[n].runs| < |states[n + 1].runs| && r < |states[n].runs|
    ensures var run := states[n].runs[r];
            run.outcome.Aborted? || (run.outcome.Completed? && run.expiresAt <= states[n].clock)
  {
    var s := states[n];
    InvHolds(steps, states, n);
    assert RunTold(s, r) && (s.runs[r].outcome.InProgress? ==> Holds(s, s.runs[r].request));
    assert StepAt(steps, states, n) && !Overruns(s, steps[n]);
    RunsGrow(s, steps[n], states[n + 1]);
    if !s.runs[r].outcome.InProgress? && s.clock < s.runs[r].expiresAt {
      NoRerunBeforeExpiry(steps, states, n, r);
      var m :| 0 <= m < n && Deletes(states[m], steps[m], r);
      assert Unbroken(steps, states, m) && StepAt(steps, states, m);
      InvHolds(steps, states, m);
      assert Holds(states[m], steps[m].i) && RequestShape(states[m], steps[m].i);
      OutcomeIsFinal(steps, states, m, n, r);
    }
  }

  lemma OverrunLeavesAHolderUnguarded(s: State, step: Step)
    requires Overruns(s, step)
    ensures !Guarded(Apply(s, step))
  {
    var i :| 0 <= i < |s.requests| && Holds(s, i);
    assert !Holds(Apply(s, step), i) || Apply(s, step).row.None?;
  }

  /** Exactly when every holder keeps its reservation throughout a run: when no step of the run evicts a reservation
      that is still held. No assumption about time is made. */
  lemma GuardedIffUnbroken(steps: seq<Step>, states: seq<State>)
    requires IsRun(steps, states)
    ensures (forall n {:trigger states[n]} :: 0 <= n < |states| ==> Guarded(states[n]))
          <==> Unbroken(steps, states, |steps|)
  {
    if Unbroken(steps, states, |steps|) {
      forall n | 0 <= n < |states| ensures Guarded(states[n]) { InvHolds(steps, states, n); }
    } else {
      var n :| 0 <= n < |steps| && Overruns(states[n], steps[n]);
      assert StepAt(steps, states, n);
      OverrunLeavesAHolderUnguarded(states[n], steps[n]);
      assert !Guarded(states[n + 1]);
    }
  }

  /** Two runs held at once, in any run of the system: some earlier step evicted a held reservation. */
  lemma TwoHoldersNeedAnOverrun(steps: seq<Step>, states: seq<State>, n: nat, i: nat, j: nat)
    requires IsRun(steps, states) && n < |states| && i < |states[n].requests| && j < |states[n].requests| && i != j
    requires Holding(states[n].requests[i].phase) && Holding(states[n].requests[j].phase)
    ensures exists m :: 0 <= m < n && Overruns(states[m], steps[m])
  {
    if Unbroken(steps, states, n) {
      AtMostOneHolder(steps, states, n, i, j);
    }
  }

  /** Nor is a response misfiled before then. */
  lemma UnbrokenRunsAreFiled(steps: seq<Step>, states: seq<State>, n: nat)
    requires IsRun(steps, states) && n <= |steps| && Unbroken(steps, states, n)
    ensures Filed(steps, states, n)
  {
    forall m | 0 <= m < n ensures !Misfiles(states[m], steps[m]) {
      assert Unbroken(steps, states, m) && StepAt(steps, states, m);
      InvHolds(steps, states, m);
      if steps[m].StoreComplete? {
        assert Holds(states[m], steps[m].i) && RequestShape(states[m], steps[m].i);
      }
    }
  }

  // ----- Retries, while reservations are not outlived -----

  /** Run `r` has its response in the store, under its own reservation. */
  ghost predicate OnRecord(s: State, i: nat, r: nat, response: Response) {
    && i < |s.requests| && Answered(s.requests[i].phase) && r < |s.runs| && s.runs[r].request == i
    && s.runs[r].outcome == Completed(response) && response.status > 0
    && (s.runs[r].expiresAt <= s.clock ||
        (s.row.Some? && s.rowRun == s.rowSource == r && s.row.value.response == response))
  }

  lemma StepKeepsRecord(s: State, step: Step, s': State, i: nat, r: nat, response: Response)
    requires Inv(s) && Enabled(s, step) && s' == Apply(s, step) && OnRecord(s, i, r, response)
    ensures OnRecord(s', i, r, response)
  {
    StepIsLocal(s, step, s');
    StepSettles(s, step, s');
    StepMovesRow(s, step, s');
    if Actor(step).Some? {
      PhaseForPanic(s, step, s');
      assert RequestShape(s, step.i) && (Holding(s.requests[step.i].phase) ==> Holds(s, step.i));
    }
    if s'.clock < s.runs[r].expiresAt {
      RowLeaves(s, step, s');
      SourceStays(s, step, s');
    }
  }

  lemma SourceStays(s: State, step: Step, s': State)
    requires Enabled(s, step) && s' == Apply(s, step) && |s'.runs| == |s.runs| && s.row.Some? && s'.row.Some?
    requires !step.StoreComplete?
    ensures s'.rowSource == s.rowSource && s'.row == s.row
  {
  }

  lemma StoringRecords(s: State, i: nat)
    requires Inv(s) && Enabled(s, StoreComplete(i, true))
    ensures var r := s.requests[i].phase.run;
            OnRecord(DoStoreComplete(s, i, true), i, r, s.runs[r].outcome.response)
  {
    assert Holds(s, i) && RequestShape(s, i) && RunTold(s, s.requests[i].phase.run);
  }

  lemma {:induction false} RecordLasts(steps: seq<Step>, states: seq<State>, m: nat, n: nat)
    requires IsRun(steps, states) && m < n < |states| && Unbroken(steps, states, n)
    requires steps[m].StoreComplete? && steps[m].ok
    ensures StepAt(steps, states, m)
    ensures var s, i := states[m], steps[m].i;
            OnRecord(states[n], i, s.requests[i].phase.run, s.runs[s.requests[i].phase.run].outcome.response)
    decreases n
  {
    assert StepAt(steps, states, m);
    var s, i := states[m], steps[m].i;
    var r := s.requests[i].phase.run;
    if m == n - 1 {
      assert Unbroken(steps, states, m);
      InvHolds(steps, states, m);
      StoringRecords(s, i);
    } else {
      assert Unbroken(steps, states, n - 1);
      RecordLasts(steps, states, m, n - 1);
      InvHolds(steps, states, n - 1);
      assert StepAt(steps, states, n - 1);
      StepKeepsRecord(states[n - 1], steps[n - 1], states[n], i, r, s.runs[r].outcome.response);
    }
  }

  /** What idempotency is for: once a run's response is stored, and until it expires, every claim for the same request,
      on any replica, is answered with that response and runs no handler; one for another request is turned away. */
  lemma RetriesAreReplayed(steps: seq<Step>, states: seq<State>, m: nat, n: nat, j: nat)
    requires IsRun(steps, states) && m < n < |steps| && Unbroken(steps, states, n)
    requires steps[m].StoreComplete? && steps[m].ok && steps[n] == ClaimRow(j, false)
    ensures StepAt(steps, states, m) && StepAt(steps, states, n)
    ensures var s, i := states[m], steps[m].i;
            var r := s.requests[i].phase.run;
            states[n].clock < s.runs[r].expiresAt ==>
              && states[n + 1].runs == states[n].runs
              && states[n + 1].replies == states[n].replies +
                   [if states[n].requests[j].fp == s.runs[r].fp then Replay(j, s.runs[r].outcome.response, r)
                    else Conflict(j)]
  {
    assert StepAt(steps, states, m) && StepAt(steps, states, n);
    RecordLasts(steps, states, m, n);
    ToldHolds(steps, states, n);
    var r := states[m].requests[steps[m].i].phase.run;
    OutcomeIsFinal(steps, states, m, n, r);
    assert states[n].requests[j].now <= states[n].clock;
  }

  /** The row has been missing since step `m` took it out. */
  ghost predicate MissingSince(steps: seq<Step>, states: seq<State>, m: nat, n: nat) {
    && |states| == |steps| + 1 && m < n < |states| && Removes(states[m], steps[m])
    && forall k {:trigger states[k]} :: m < k <= n ==> states[k].row.None?
  }

  lemma {:induction false} MissingRowWasRemoved(steps: seq<Step>, states: seq<State>, n: nat)
    requires IsRun(steps, states) && n < |states| && states[n].row.None?
    ensures states[n].runs == [] || exists m: nat :: MissingSince(steps, states, m, n)
  {
    if n > 0 {
      assert StepAt(steps, states, n - 1);
      if states[n - 1].row.None? {
        MissingRowWasRemoved(steps, states, n - 1);
        if states[n].runs != [] {
          var m: nat :| MissingSince(steps, states, m, n - 1);
          assert MissingSince(steps, states, m, n);
        }
      } else {
        assert MissingSince(steps, states, n - 1, n);
      }
    }
  }

  /** Phases up to the end of a handler's execution. */
  predicate Early(p: Phase) {
    p.Arrived? || p.Waiting? || p.Claiming? || p.Running?
  }

  lemma {:induction false} EarlyAllAlong(steps: seq<Step>, states: seq<State>, m: nat, n: nat, h: nat)
    requires IsRun(steps, states) && m <= n < |states| && h < |states[m].requests|
    ensures h < |states[n].requests| && (Early(states[n].requests[h].phase) ==> Early(states[m].requests[h].phase))
    decreases n
  {
    if m < n {
      EarlyAllAlong(steps, states, m, n - 1, h);
      assert StepAt(steps, states, n - 1);
      StepIsLocal(states[n - 1], steps[n - 1], states[n]);
    }
  }

  /** The reasons for which a claim finds the row free while handler `h` is running: the row in the store has expired by
      the claim's reading; or a sweep removed one that had; or another request's run deleted it. */
  ghost predicate Freed(steps: seq<Step>, states: seq<State>, n: nat, h: nat, now: int) {
    |states| == |steps| + 1 && n < |states| &&
    if states[n].row.Some? then Expired(states[n].row.value, now)
    else exists m: nat :: MissingSince(steps, states, m, n) && (steps[m].StoreDelete? ==> steps[m].i != h)
  }

  /** In every reachable state, with any timing: with a handler running, a claim starts a second run iff the row was
      freed in one of these ways. The claim that does so first in a run of the system evicts the held reservation
      itself, or an earlier step did. */
  lemma SecondRunIff(steps: seq<Step>, states: seq<State>, n: nat, h: nat, i: nat)
    requires IsRun(steps, states) && n < |states| && h < |states[n].requests| && states[n].requests[h].phase.Running?
    requires Enabled(states[n], ClaimRow(i, false))
    ensures var s := states[n]; var s' := Apply(s, ClaimRow(i, false));
            && (s'.requests[i].phase.Running? <==> Freed(steps, states, n, h, s.requests[i].now))
            && s'.requests[h].phase.Running?
            && (s'.requests[i].phase.Running? ==> Overruns(s, ClaimRow(i, false)) || !Unbroken(steps, states, n))
  {
    var s := states[n];
    ShapeHolds(steps, states, n);
    assert RequestShape(s, h);
    if s.row.None? {
      MissingRowWasRemoved(steps, states, n);
      var m: nat :| MissingSince(steps, states, m, n);
      assert StepAt(steps, states, m);
      if steps[m].StoreDelete? && steps[m].i == h {
        EarlyAllAlong(steps, states, m, n, h);
      }
    }
    if Unbroken(steps, states, n) {
      InvHolds(steps, states, n);
      assert Holds(s, h);
    }
  }

  // ----- Runs in which it goes wrong -----

  ghost predicate Replays(s: State, steps: seq<Step>, s': State)
    decreases |steps|
  {
    if steps == [] then s' == s
    else Enabled(s, steps[0]) && Replays(Apply(s, steps[0]), steps[1..], s')
  }

  lemma Prepend(s: State, step: Step, rest: seq<Step>, s': State) returns (steps: seq<Step>)
    requires Enabled(s, step) && Replays(Apply(s, step), rest, s')
    ensures Replays(s, steps, s')
  {
    steps := [step] + rest;
    assert steps[1..] == rest;
  }

  /** Two requests of two replicas, both running: the first has outlived its reservation of one time unit, the second's
      lasts until 101. */
  predicate SideBySide(s: State, fp: Fingerprint, other: Fingerprint) {
    && s.requests == [Request(0, fp, 0, 1, Running(0, 0)), Request(1, other, 1, 100, Running(1, 1))]
    && s.clock == 1 && s.row == Some(Row(other, NO_RESPONSE, 101)) && s.rowRun == 1
    && |s.slots| == 2 && s.inFlight == map[0 := 0, 1 := 1]
    && s.runs == [HandlerRun(0, fp, 0, 1, InProgress), HandlerRun(1, other, 1, 101, InProgress)] && s.replies == []
  }

  /** It can happen by expiry: a reservation of one time unit, outlived by its handler, for the same request or
      another one with the key. */
  lemma OutlivedReservationRunsTwice(fp: Fingerprint, other: Fingerprint)
    ensures exists s, steps: seq<Step> :: Replays(Start(0), steps, s) && SideBySide(s, fp, other)
  {
    var s1 := Apply(Start(0), Arrive(0, fp, 1));
    var s2 := Apply(s1, Enter(0));
    var s3 := Apply(s2, ClaimRow(0, false));
    assert s3.requests == [Request(0, fp, 0, 1, Running(0, 0))] && s3.row == Some(Row(fp, NO_RESPONSE, 1));
    assert s3.runs == [HandlerRun(0, fp, 0, 1, InProgress)];
    var s4 := Apply(s3, Tick(1));
    var s5 := Apply(s4, Arrive(1, other, 100));
    var s6 := Apply(s5, Enter(1));
    assert s6.requests == [Request(0, fp, 0, 1, Running(0, 0)), Request(1, other, 1, 100, Claiming(1))] &&
      s6.row == s3.row && s6.runs == s3.runs;
    var s7 := Apply(s6, ClaimRow(1, false));
    assert SideBySide(s7, fp, other);
    var steps := Prepend(s6, ClaimRow(1, false), [], s7);
    steps := Prepend(s5, Enter(1), steps, s7);
    steps := Prepend(s4, Arrive(1, other, 100), steps, s7);
    steps := Prepend(s3, Tick(1), steps, s7);
    steps := Prepend(s2, ClaimRow(0, false), steps, s7);
    steps := Prepend(s1, Enter(0), steps, s7);
    steps := Prepend(Start(0), Arrive(0, fp, 1), steps, s7);
  }

  /** From any state with a free row and an idle replica, a request that arrives there starts a handler at once. */
  lemma FreeRowStarts(s: State, replica: nat, fp: Fingerprint, ttl: int) returns (steps: seq<Step>, s': State)
    requires s.row.None? && replica !in s.inFlight
    ensures Replays(s, steps, s') && s'.clock == s.clock && |s'.requests| == |s.requests| + 1
    ensures s'.requests[..|s.requests|] == s.requests && s'.requests[|s.requests|].phase.Running?
  {
    var i := |s.requests|;
    var s1 := Apply(s, Arrive(replica, fp, ttl));
    var s2 := Apply(s1, Enter(i));
    assert s2.requests[i].phase == Claiming(|s.slots|) && s2.row.None?;
    s' := Apply(s2, ClaimRow(i, false));
    steps := Prepend(s2, ClaimRow(i, false), [], s');
    steps := Prepend(s1, Enter(i), steps, s');
    steps := Prepend(s, Arrive(replica, fp, ttl), steps, s');
  }

  /** And from there by a delete: the outlived run fails and deletes the second one's reservation, long before that
      expires, and a third request starts beside the second. */
  lemma OutlivedRunDeletesItsSuccessor(fp: Fingerprint, other: Fingerprint, s: State)
    requires SideBySide(s, fp, other)
    ensures exists steps: seq<Step>, s' :: Replays(s, steps, s') && |s'.requests| == 3 && s'.clock == 1
              && s'.requests[1].phase.Running? && s'.requests[2].phase.Running?
  {
    var s1 := Apply(s, HandlerPanics(0));
    var s2 := Apply(s1, StoreDelete(0, true));
    assert |s2.requests| == 2 && s2.requests[1] == s.requests[1] && s2.row.None? && s2.inFlight == s.inFlight;
    var steps, s' := FreeRowStarts(s2, 2, other, 100);
    assert s'.requests[1] == s'.requests[..2][1];
    steps := Prepend(s1, StoreDelete(0, true), steps, s');
    steps := Prepend(s, HandlerPanics(0), steps, s');
  }

  /** From any state with a stored response, unexpired, and an idle replica: a request for which the row was reserved is
      answered with that response, whichever run it came from. */
  lemma StoredResponseIsReplayed(s: State, replica: nat, ttl: int) returns (steps: seq<Step>, s': State)
    requires s.row.Some? && s.row.value.response.status > 0 && s.clock < s.row.value.expiresAt
    requires replica !in s.inFlight
    ensures Replays(s, steps, s') && s'.runs == s.runs && |s'.requests| == |s.requests| + 1
    ensures s'.requests[|s.requests|].fp == s.row.value.fp
    ensures s'.replies == s.replies + [Replay(|s.requests|, s.row.value.response, s.rowSource)]
  {
    var i, fp := |s.requests|, s.row.value.fp;
    var s1 := Apply(s, Arrive(replica, fp, ttl));
    var s2 := Apply(s1, Enter(i));
    assert s2.requests[i] == Request(replica, fp, s.clock, ttl, Claiming(|s.slots|)) && s2.row == s.row;
    s' := Apply(s2, ClaimRow(i, false));
    steps := Prepend(s2, ClaimRow(i, false), [], s');
    steps := Prepend(s1, Enter(i), steps, s');
    steps := Prepend(s, Arrive(replica, fp, ttl), steps, s');
  }

  /** The outlived run of one request ends well and completes the reservation of another, whose only run is still in
      progress; a retry of that other request is then answered with the first one's response. */
  lemma OutlivedRunAnswersAnotherRequest(fp: Fingerprint, other: Fingerprint, s: State, b: byte)
    requires SideBySide(s, fp, other)
    ensures exists steps: seq<Step>, s' :: Replays(s, steps, s') && |s'.requests| == 3 && s'.requests[2].fp == other
              && |s'.runs| == 2 && s'.runs[0].fp == fp && s'.runs[1].outcome.InProgress?
              && Replay(2, Response(200, "", [b]), 0) in s'.replies
  {
    var calls := [IdempotencyRecorder.Call.Write([b])];
    assert calls[1..] == [];
    IdempotencyRecorder.RecordedIsWhatTheHandlerWrote(calls);
    assert IdempotencyRecorder.Recorded(calls) == Response(200, "", [b]);
    var s1 := Apply(s, HandlerReturns(0, calls));
    assert s1.requests[0].phase == Completing(0, 0) && s1.runs[0].outcome == Completed(Response(200, "", [b]));
    var s2 := Apply(s1, StoreComplete(0, true));
    assert s2.row == Some(Row(other, Response(200, "", [b]), 101)) && s2.rowSource == 0 && s2.clock == 1;
    assert |s2.requests| == 2 && s2.runs == s1.runs && s2.inFlight == s.inFlight;
    var steps, s' := StoredResponseIsReplayed(s2, 2, 100);
    assert s'.replies[|s2.replies|] == Replay(2, Response(200, "", [b]), 0);
    steps := Prepend(s1, StoreComplete(0, true), steps, s');
    steps := Prepend(s, HandlerReturns(0, calls), steps, s');
  }
}
