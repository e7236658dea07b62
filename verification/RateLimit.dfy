/** What any fixed window that opens at a request and admits at most `quota` requests guarantees. */
module FixedWindow {

  /** Start 0 stands for "no window yet". */
  datatype Win = Win(start: int, used: nat)

  /** Something that happened at `now`; `admitted` when it was a request of the window's client that got through. */
  datatype Event = Event(now: int, admitted: bool)

  predicate Live(w: Win, now: int, len: int) {
    w.start != 0 && now - w.start < len
  }

  /** A live window counts; a window that is not live is left alone (or dropped), or reopened at `now`. */
  predicate WinStep(w: Win, e: Event, w': Win, quota: nat, len: int) {
    if Live(w, e.now, len) then
      w'.start == w.start && w'.used == w.used + (if e.admitted then 1 else 0) && (e.admitted ==> w.used < quota)
    else
      (!e.admitted && !Live(w', e.now, len)) || (w'.start == e.now && w'.used == (if e.admitted then 1 else 0))
  }

  /** A history: windows between events, time going forward. */
  ghost predicate History(events: seq<Event>, wins: seq<Win>, quota: nat, len: int) {
    && |wins| == |events| + 1 && wins[0] == Win(0, 0)
    && (forall i {:trigger events[i]} :: 0 <= i < |events| ==> WinStep(wins[i], events[i], wins[i + 1], quota, len))
    && (forall i, j {:trigger events[i], events[j]} :: 0 <= i < j < |events| ==> events[i].now <= events[j].now)
  }

  /** All of it after the zero time. */
  predicate Late(events: seq<Event>) {
    forall i {:trigger events[i]} :: 0 <= i < |events| ==> 0 < events[i].now
  }

  lemma HistoryPrefix(events: seq<Event>, wins: seq<Win>, quota: nat, len: int, n: nat)
    requires History(events, wins, quota, len) && n <= |events|
    ensures History(events[..n], wins[..n + 1], quota, len)
  {
    var before := events[..n];
    forall i | 0 <= i < n
      ensures WinStep(wins[..n + 1][i], before[i], wins[..n + 1][i + 1], quota, len)
    {
      assert events[i] == before[i];
    }
  }

  /** Admissions at times in [lo, hi). */
  function Count(events: seq<Event>, lo: int, hi: int): nat {
    if events == [] then 0
    else
      var last := events[|events| - 1];
      Count(events[..|events| - 1], lo, hi) + (if last.admitted && lo <= last.now < hi then 1 else 0)
  }

  /** How many admissions of [lo, hi) can have happened by `now`, seen from the current window. */
  ghost predicate Within(n: nat, w: Win, now: int, lo: int, quota: nat, len: int) {
    && n <= 2 * quota
    && if Live(w, now, len) then
         && (w.start + len <= lo ==> n == 0)
         && (w.start <= lo ==> n <= w.used <= quota)
         && (w.start - len < lo ==> n <= quota + w.used)
       else
         && (now <= lo ==> n == 0)
         && (now - len < lo ==> n <= quota)
  }

  lemma WithinStep(n: nat, w: Win, now: int, e: Event, w': Win, lo: int, hi: int, quota: nat, len: int)
    requires Within(n, w, now, lo, quota, len) && WinStep(w, e, w', quota, len)
    requires 0 < quota && 0 < len && hi - lo <= len && now <= e.now && 0 < e.now
    requires Live(w, now, len) ==> w.start <= now && w.used <= quota
    ensures Within(n + (if e.admitted && lo <= e.now < hi then 1 else 0), w', e.now, lo, quota, len)
    ensures Live(w', e.now, len) ==> w'.start <= e.now && w'.used <= quota
  {
  }

  function Now(events: seq<Event>): int {
    if events == [] then 0 else events[|events| - 1].now
  }

  lemma {:induction false} HistoryBound(events: seq<Event>, wins: seq<Win>, quota: nat, len: int, lo: int, hi: int)
    requires History(events, wins, quota, len) && Late(events) && 0 < quota && 0 < len && hi - lo <= len
    ensures Within(Count(events, lo, hi), wins[|events|], Now(events), lo, quota, len)
    ensures Live(wins[|events|], Now(events), len) ==>
          wins[|events|].start <= Now(events) && wins[|events|].used <= quota
    decreases |events|
  {
    if events != [] {
      var n := |events| - 1;
      var before := events[..n];
      HistoryPrefix(events, wins, quota, len, n);
      HistoryBound(before, wins[..n + 1], quota, len, lo, hi);
      assert n > 0 ==> events[n - 1].now <= events[n].now;
      assert WinStep(wins[n], events[n], wins[n + 1], quota, len);
      WithinStep(Count(before, lo, hi), wins[n], Now(before), events[n], wins[n + 1], lo, hi, quota, len);
    }
  }

  lemma HistoryExtends(events: seq<Event>, wins: seq<Win>, quota: nat, len: int, e: Event, w: Win)
    requires History(events, wins, quota, len) && (events != [] ==> Now(events) <= e.now)
    requires WinStep(wins[|events|], e, w, quota, len)
    ensures History(events + [e], wins + [w], quota, len)
  {
    forall i, j | 0 <= i < j < |events + [e]| ensures (events + [e])[i].now <= (events + [e])[j].now {
      if j == |events| && i < j - 1 {
        assert events[i].now <= events[j - 1].now;
      }
    }
  }

  /** After the zero time, no interval of one window length sees more than twice the quota. */
  lemma TwiceTheQuota(events: seq<Event>, wins: seq<Win>, quota: nat, len: int, lo: int)
    requires History(events, wins, quota, len) && Late(events) && 0 < quota && 0 < len
    ensures Count(events, lo, lo + len) <= 2 * quota
  {
    HistoryBound(events, wins, quota, len, lo, lo + len);
  }

  lemma {:induction false} NothingLater(events: seq<Event>, lo: int, hi: int)
    requires forall i {:trigger events[i]} :: 0 <= i < |events| ==> events[i].now < lo
    ensures Count(events, lo, hi) == 0
  {
    if events != [] {
      NothingLater(events[..|events| - 1], lo, hi);
    }
  }

  /** What the current window counts: no less than its own admissions; and where none is open nothing was admitted at
      this moment, the zero time apart. */
  ghost predicate Counted(events: seq<Event>, w: Win, now: int, quota: nat, len: int) {
    if Live(w, now, len) then w.start <= now && Count(events, w.start, w.start + len) <= w.used <= quota
    else now != 0 ==> Count(events, now, now + len) == 0
  }

  lemma CountedStep(events: seq<Event>, w: Win, e: Event, w': Win, quota: nat, len: int)
    requires Counted(events, w, Now(events), quota, len) && WinStep(w, e, w', quota, len) && 0 < quota && 0 < len
    requires if events == [] then w.start == 0 else Now(events) <= e.now
    requires events == [] || Now(events) < e.now ==> Count(events, e.now, e.now + len) == 0
    ensures Counted(events + [e], w', e.now, quota, len)
  {
    assert (events + [e])[..|events|] == events;
  }

  /** With any clock, the zero time included. */
  lemma {:induction false} AlwaysCounted(events: seq<Event>, wins: seq<Win>, quota: nat, len: int)
    requires History(events, wins, quota, len) && 0 < quota && 0 < len
    ensures Counted(events, wins[|events|], Now(events), quota, len)
    decreases |events|
  {
    if events != [] {
      var n := |events| - 1;
      var before, e := events[..n], events[n];
      HistoryPrefix(events, wins, quota, len, n);
      AlwaysCounted(before, wins[..n + 1], quota, len);
      assert WinStep(wins[n], e, wins[n + 1], quota, len) && (n > 0 ==> events[n - 1].now <= e.now);
      if n == 0 || events[n - 1].now < e.now {
        assert forall i {:trigger before[i]} :: 0 <= i < n - 1 ==> events[i].now <= events[n - 1].now;
        NothingLater(before, e.now, e.now + len);
      }
      CountedStep(before, wins[n], e, wins[n + 1], quota, len);
      assert events == before + [e];
    }
  }

  /** A window that was live after the first `k` events admits at most the quota over its whole life. */
  lemma {:induction false} OneQuotaPerWindow(events: seq<Event>, wins: seq<Win>, quota: nat, len: int, k: nat)
    requires History(events, wins, quota, len) && 0 < quota && 0 < len
    requires k <= |events| && Live(wins[k], Now(events[..k]), len)
    ensures Count(events, wins[k].start, wins[k].start + len) <= quota
    ensures || (wins[|events|].start == wins[k].start && Now(events) < wins[k].start + len)
            || wins[k].start + len <= Now(events)
    decreases |events|
  {
    AlwaysCounted(events, wins, quota, len);
    if k == |events| {
      assert events[..k] == events;
    } else {
      var n := |events| - 1;
      var before := events[..n];
      HistoryPrefix(events, wins, quota, len, n);
      assert before[..k] == events[..k];
      OneQuotaPerWindow(before, wins[..n + 1], quota, len, k);
      assert n > 0 ==> events[n - 1].now <= events[n].now;
      assert WinStep(wins[n], events[n], wins[n + 1], quota, len);
    }
  }
}

/** Fixed-window request quotas (internal/api/ratelimit.go). Times are nanoseconds; 0 is Go's zero time. */
module RateLimit {
  import opened Common
  import FixedWindow

  const SECOND := 1_000_000_000
  const HOUR := 3600 * SECOND
  const DAY := 24 * HOUR

  datatype Quotas = Quotas(hourly: nat, daily: nat)

  datatype Entry = Entry(hourStart: int, dayStart: int, hourUsed: int, dayUsed: int)

  const NEW_ENTRY := Entry(0, 0, 0, 0)

  datatype Verdict = Verdict(remaining: int, retryAfter: int, ok: bool)

  predicate QuotaEnabled(q: Quotas) {
    q.hourly > 0 || q.daily > 0
  }

  /** The entry still holds usage that must be enforced. */
  predicate WindowLive(q: Quotas, e: Entry, now: int) {
    || (q.hourly > 0 && e.hourStart != 0 && now - e.hourStart < HOUR)
    || (q.daily > 0 && e.dayStart != 0 && now - e.dayStart < DAY)
  }

  function RollHour(q: Quotas, e: Entry, now: int): Entry {
    if q.hourly > 0 && (e.hourStart == 0 || now - e.hourStart >= HOUR) then e.(hourStart := now, hourUsed := 0) else e
  }

  function RollDay(q: Quotas, e: Entry, now: int): Entry {
    if q.daily > 0 && (e.dayStart == 0 || now - e.dayStart >= DAY) then e.(dayStart := now, dayUsed := 0) else e
  }

  function Refuse(retryAfter: int): Verdict {
    Verdict(0, if retryAfter < 0 then 0 else retryAfter, false)
  }

  function Remaining(q: Quotas, e: Entry): int {
    var hourly := q.hourly - e.hourUsed;
    var r := if q.daily > 0 && (q.hourly <= 0 || q.daily - e.dayUsed < hourly) then q.daily - e.dayUsed else hourly;
    if QuotaEnabled(q) && r < 0 then 0 else r
  }

  /** One request against one client's entry: the verdict and the entry left behind. */
  function CheckEntry(q: Quotas, e: Entry, now: int): (Verdict, Entry) {
    var e1 := RollHour(q, e, now);
    if q.hourly > 0 && e1.hourUsed >= q.hourly then (Refuse(e1.hourStart + HOUR - now), e1)
    else
      var e2 := RollDay(q, e1, now);
      if q.daily > 0 && e2.dayUsed >= q.daily then (Refuse(e2.dayStart + DAY - now), e2)
      else
        var e3 := e2.(hourUsed := e2.hourUsed + 1, dayUsed := e2.dayUsed + 1);
        (Verdict(Remaining(q, e3), 0, true), e3)
  }

  type Table = map<string, Entry>

  function EntryOf(t: Table, key: string): Entry {
    if key in t then t[key] else NEW_ENTRY
  }

  function CheckTable(q: Quotas, t: Table, key: string, now: int): (Verdict, Table) {
    var (v, e) := CheckEntry(q, EntryOf(t, key), now);
    (v, t[key := e])
  }

  function SweepTable(q: Quotas, t: Table, now: int): Table {
    map key | key in t && WindowLive(q, t[key], now) :: t[key]
  }

  class RateLimiter {
    const q: Quotas
    const idleTTL: int
    var buckets: map<string, int>  // last observation of each token bucket
    var quotas: Table

    constructor (q: Quotas, idleTTL: int)
      ensures this.q == q && this.idleTTL == idleTTL && quotas == map[] && buckets == map[]
    {
      this.q, this.idleTTL, buckets, quotas := q, idleTTL, map[], map[];
    }

    method CheckQuota(key: string, now: int) returns (remaining: int, retryAfter: int, ok: bool)
      modifies this`quotas
      ensures (Verdict(remaining, retryAfter, ok), quotas) == CheckTable(q, old(quotas), key, now)
    {
      var e := if key in quotas then quotas[key] else NEW_ENTRY;
      remaining, retryAfter := 0, 0;
      if q.hourly > 0 {
        if e.hourStart == 0 || now - e.hourStart >= HOUR {
          e := e.(hourStart := now, hourUsed := 0);
        }
        if e.hourUsed >= q.hourly {
          quotas := quotas[key := e];
          retryAfter := e.hourStart + HOUR - now;
          if retryAfter < 0 {
            retryAfter := 0;
          }
          return 0, retryAfter, false;
        }
      }
      if q.daily > 0 {
        if e.dayStart == 0 || now - e.dayStart >= DAY {
          e := e.(dayStart := now, dayUsed := 0);
        }
        if e.dayUsed >= q.daily {
          quotas := quotas[key := e];
          retryAfter := e.dayStart + DAY - now;
          if retryAfter < 0 {
            retryAfter := 0;
          }
          return 0, retryAfter, false;
        }
      }
      e := e.(hourUsed := e.hourUsed + 1, dayUsed := e.dayUsed + 1);
      quotas := quotas[key := e];
      remaining := q.hourly - e.hourUsed;
      if q.daily > 0 {
        var dailyRemaining := q.daily - e.dayUsed;
        if q.hourly <= 0 || dailyRemaining < remaining {
          remaining := dailyRemaining;
        }
      }
      if q.hourly > 0 && remaining < 0 {
        remaining := 0;
      }
      if q.daily > 0 && remaining < 0 {
        remaining := 0;
      }
      return remaining, 0, true;
    }

    /** Drops idle buckets, and exactly the quota entries all of whose enforced windows have closed. */
    method EvictIdle(now: int) returns (removed: nat)
      modifies this
      ensures quotas == SweepTable(q, old(quotas), now)
      ensures buckets == map k | k in old(buckets) && old(buckets)[k] >= now - idleTTL :: old(buckets)[k]
      ensures removed == |old(buckets)| - |buckets|
    {
      removed := EvictBuckets(now);
      var todo := quotas.Keys;
      while todo != {}
        modifies this`quotas
        invariant todo <= quotas.Keys
        invariant quotas == map k | k in old(quotas) && (k in todo || WindowLive(q, old(quotas)[k], now)) ::
              old(quotas)[k]
        decreases |todo|
      {
        var k :| k in todo;
        if !WindowLive(q, quotas[k], now) {
          quotas := quotas - {k};
        }
        todo := todo - {k};
      }
    }

    method EvictBuckets(now: int) returns (removed: nat)
      modifies this`buckets
      ensures buckets == map k | k in old(buckets) && old(buckets)[k] >= now - idleTTL :: old(buckets)[k]
      ensures removed == |old(buckets)| - |buckets|
    {
      var cutoff := now - idleTTL;
      removed := 0;
      var todo := buckets.Keys;
      while todo != {}
        invariant todo <= buckets.Keys
        invariant buckets == map k | k in old(buckets) && (k in todo || old(buckets)[k] >= cutoff) :: old(buckets)[k]
        invariant removed == |old(buckets)| - |buckets|
        decreases |todo|
      {
        var k :| k in todo;
        if buckets[k] < cutoff {
          assert (buckets - {k}).Keys == buckets.Keys - {k};
          buckets := buckets - {k};
          removed := removed + 1;
        }
        todo := todo - {k};
      }
    }

    /** A tenant's bucket goes; its spent quota stays. */
    method InvalidateTenant(tenantID: int)
      modifies this`buckets
      ensures buckets == if tenantID <= 0 then old(buckets) else old(buckets) - {"tenant:" + Digits(tenantID)}
    {
      if tenantID <= 0 {
        return;
      }
      buckets := buckets - {"tenant:" + Digits(tenantID)};
    }

    method ClearBuckets()
      modifies this`buckets
      ensures buckets == map[]
    {
      buckets := map[];
    }
  }

  // ----- Sweeping is invisible -----

  datatype Op = Check(key: string, now: int) | Sweep(now: int) | Invalidate(tenantID: int) | Clear

  function RunOp(q: Quotas, t: Table, op: Op): (seq<Verdict>, Table) {
    match op
    case Check(key, now) => var (v, t') := CheckTable(q, t, key, now); ([v], t')
    case Sweep(now) => ([], SweepTable(q, t, now))
    case Invalidate(_) => ([], t)
    case Clear => ([], t)
  }

  /** The table after a run from an empty limiter. */
  function After(q: Quotas, ops: seq<Op>): Table {
    if ops == [] then map[] else RunOp(q, After(q, ops[..|ops| - 1]), ops[|ops| - 1]).1
  }

  /** The verdicts of a run, in order. */
  function Verdicts(q: Quotas, ops: seq<Op>): seq<Verdict> {
    if ops == [] then []
    else
      var before, last := ops[..|ops| - 1], ops[|ops| - 1];
      Verdicts(q, before) + RunOp(q, After(q, before), last).0
  }

  /** The same run with every sweep, invalidation and clear taken out. */
  function ChecksOnly(ops: seq<Op>): seq<Op> {
    if ops == [] then []
    else
      var before, last := ops[..|ops| - 1], ops[|ops| - 1];
      ChecksOnly(before) + (if last.Check? then [last] else [])
  }

  /** The latest clock reading of a run that starts at `clock`. */
  function Latest(clock: int, ops: seq<Op>): int {
    if ops == [] then clock
    else
      var last := ops[|ops| - 1];
      if last.Check? || last.Sweep? then last.now else Latest(clock, ops[..|ops| - 1])
  }

  /** Clock readings do not go back. */
  predicate Ordered(clock: int, ops: seq<Op>) {
    ops == [] ||
    var before, last := ops[..|ops| - 1], ops[|ops| - 1];
    Ordered(clock, before) && (last.Check? || last.Sweep? ==> Latest(clock, before) <= last.now)
  }

  /** Equal as far as an enforced window can see. */
  predicate Agree(q: Quotas, a: Entry, b: Entry) {
    && (q.hourly > 0 ==> a.hourStart == b.hourStart && a.hourUsed == b.hourUsed)
    && (q.daily > 0 ==> a.dayStart == b.dayStart && a.dayUsed == b.dayUsed)
  }

  lemma AgreeingEntriesCheckAlike(q: Quotas, a: Entry, b: Entry, now: int)
    requires QuotaEnabled(q) && Agree(q, a, b)
    ensures CheckEntry(q, a, now).0 == CheckEntry(q, b, now).0
    ensures Agree(q, CheckEntry(q, a, now).1, CheckEntry(q, b, now).1)
  {
  }

  /** An entry with no live window behaves like no entry at all. */
  lemma DeadEntryChecksLikeNew(q: Quotas, e: Entry, now: int)
    requires QuotaEnabled(q) && !WindowLive(q, e, now)
    ensures CheckEntry(q, e, now).0 == CheckEntry(q, NEW_ENTRY, now).0
    ensures Agree(q, CheckEntry(q, e, now).1, CheckEntry(q, NEW_ENTRY, now).1)
  {
  }

  /** The swept table against the unswept one: keys it kept agree, keys it lost have no live window. */
  ghost predicate Simulates(q: Quotas, swept: Table, full: Table, now: int) {
    forall key {:trigger SameTo(q, swept, full, key, now)} :: SameTo(q, swept, full, key, now)
  }

  ghost predicate SameTo(q: Quotas, swept: Table, full: Table, key: string, now: int) {
    if key in swept then key in full && Agree(q, swept[key], full[key])
    else key in full ==> !WindowLive(q, full[key], now)
  }

  lemma SimulatedCheck(q: Quotas, swept: Table, full: Table, clock: int, key: string, now: int)
    requires QuotaEnabled(q) && Simulates(q, swept, full, clock) && clock <= now
    ensures CheckTable(q, swept, key, now).0 == CheckTable(q, full, key, now).0
    ensures Simulates(q, CheckTable(q, swept, key, now).1, CheckTable(q, full, key, now).1, now)
  {
    assert SameTo(q, swept, full, key, clock);
    if key in swept {
      AgreeingEntriesCheckAlike(q, swept[key], full[key], now);
    } else if key in full {
      DeadEntryChecksLikeNew(q, full[key], now);
    }
    forall k ensures SameTo(q, CheckTable(q, swept, key, now).1, CheckTable(q, full, key, now).1, k, now) {
      assert SameTo(q, swept, full, k, clock);
    }
  }

  lemma SimulatedSweep(q: Quotas, swept: Table, full: Table, clock: int, now: int)
    requires Simulates(q, swept, full, clock) && clock <= now
    ensures Simulates(q, SweepTable(q, swept, now), full, now)
  {
    forall k ensures SameTo(q, SweepTable(q, swept, now), full, k, now) {
      assert SameTo(q, swept, full, k, clock);
    }
  }

  lemma OneMore(q: Quotas, ops: seq<Op>, op: Op)
    ensures After(q, ops + [op]) == RunOp(q, After(q, ops), op).1
    ensures Verdicts(q, ops + [op]) == Verdicts(q, ops) + RunOp(q, After(q, ops), op).0
  {
    assert (ops + [op])[..|ops|] == ops;
  }

  /** One operation on both sides; the full table sees checks only. */
  lemma SimulatedOp(q: Quotas, swept: Table, full: Table, clock: int, op: Op)
    requires QuotaEnabled(q) && Simulates(q, swept, full, clock) && (op.Check? || op.Sweep? ==> clock <= op.now)
    ensures var (v, swept') := RunOp(q, swept, op); var now := if op.Check? || op.Sweep? then op.now else clock;
            if op.Check? then Simulates(q, swept', RunOp(q, full, op).1, now) && v == RunOp(q, full, op).0
            else Simulates(q, swept', full, now) && v == []
  {
    match op
    case Check(key, now) => SimulatedCheck(q, swept, full, clock, key, now);
    case Sweep(now) => SimulatedSweep(q, swept, full, clock, now);
    case _ =>
  }

  lemma {:induction false} SimulatedRun(q: Quotas, clock: int, ops: seq<Op>)
    requires QuotaEnabled(q) && Ordered(clock, ops)
    ensures Simulates(q, After(q, ops), After(q, ChecksOnly(ops)), Latest(clock, ops))
    ensures Verdicts(q, ops) == Verdicts(q, ChecksOnly(ops))
  {
    if ops == [] {
      forall key ensures SameTo(q, map[], map[], key, clock) { }
    } else {
      var before, last := ops[..|ops| - 1], ops[|ops| - 1];
      SimulatedRun(q, clock, before);
      SimulatedOp(q, After(q, before), After(q, ChecksOnly(before)), Latest(clock, before), last);
      if last.Check? {
        OneMore(q, ChecksOnly(before), last);
      } else {
        assert Verdicts(q, before) + [] == Verdicts(q, before) && ChecksOnly(before) + [] == ChecksOnly(before);
      }
    }
  }

  /** With a quota enabled and a clock that does not go back, no client can tell a swept limiter from one whose
      table is never swept: every verdict, remaining count and retry delay is the same. */
  lemma SweepsAreInvisible(q: Quotas, clock: int, ops: seq<Op>)
    requires QuotaEnabled(q) && Ordered(clock, ops)
    ensures Verdicts(q, ops) == Verdicts(q, ChecksOnly(ops))
  {
    SimulatedRun(q, clock, ops);
  }

  /** And that takes an enabled quota: with both disabled a sweep between two requests shows. */
  lemma SweepsShowWhenDisabled(now: int, key: string)
    ensures var q := Quotas(0, 0); var ops := [Check(key, now), Sweep(now), Check(key, now)];
            Ordered(now, ops) && Verdicts(q, ops) != Verdicts(q, ChecksOnly(ops))
  {
    var q := Quotas(0, 0);
    var one, two, three := [Check(key, now)], [Check(key, now), Sweep(now)],
      [Check(key, now), Sweep(now), Check(key, now)];
    var checks := [Check(key, now), Check(key, now)];
    assert one[..0] == [] && two[..1] == one && three[..2] == two && checks[..1] == one;
    assert Ordered(now, one) && Ordered(now, two);
    assert After(q, one) == map[key := Entry(0, 0, 1, 1)] && After(q, two) == map[];
    assert Verdicts(q, one) == Verdicts(q, two) == [Verdict(-1, 0, true)];
    assert Verdicts(q, three)[1] == Verdict(-1, 0, true) && Verdicts(q, checks)[1] == Verdict(-2, 0, true);
    assert ChecksOnly(one) == ChecksOnly(two) == one && ChecksOnly(three) == checks;
  }

  // ----- What a quota admits -----

  predicate Admits(q: Quotas, t: Table, op: Op, key: string) {
    op.Check? && op.key == key && CheckTable(q, t, key, op.now).0.ok
  }

  /** Requests of `key` admitted at times in [lo, hi) during a run from an empty limiter. */
  function Admissions(q: Quotas, ops: seq<Op>, key: string, lo: int, hi: int): nat {
    if ops == [] then 0
    else
      var last, before := ops[|ops| - 1], ops[..|ops| - 1];
      var counts := Admits(q, After(q, before), last, key) && lo <= last.now < hi;
      Admissions(q, before, key, lo, hi) + if counts then 1 else 0
  }

  function HourWin(e: Entry): FixedWindow.Win {
    FixedWindow.Win(e.hourStart, if e.hourUsed < 0 then 0 else e.hourUsed)
  }

  function DayWin(e: Entry): FixedWindow.Win {
    FixedWindow.Win(e.dayStart, if e.dayUsed < 0 then 0 else e.dayUsed)
  }

  function WinOf(hour: bool, e: Entry): FixedWindow.Win {
    if hour then HourWin(e) else DayWin(e)
  }

  function QuotaOf(hour: bool, q: Quotas): nat {
    if hour then q.hourly else q.daily
  }

  function LengthOf(hour: bool): int {
    if hour then HOUR else DAY
  }

  predicate NonNegative(e: Entry) {
    e.hourUsed >= 0 && e.dayUsed >= 0
  }

  ghost predicate Sane(t: Table) {
    forall key {:trigger EntryOf(t, key)} :: NonNegative(EntryOf(t, key))
  }

  /** Seen from one client, every operation — checks and sweeps, its own and others' — is a window step. */
  lemma OpIsWinStep(q: Quotas, t: Table, op: Op, key: string, hour: bool, now: int)
    requires Sane(t) && 0 < QuotaOf(hour, q) && ((op.Check? || op.Sweep?) ==> now == op.now)
    ensures Sane(RunOp(q, t, op).1)
    ensures FixedWindow.WinStep(WinOf(hour, EntryOf(t, key)), FixedWindow.Event(now, Admits(q, t, op, key)),
                                WinOf(hour, EntryOf(RunOp(q, t, op).1, key)), QuotaOf(hour, q), LengthOf(hour))
  {
    var t' := RunOp(q, t, op).1;
    assert NonNegative(EntryOf(t, key));
    forall k ensures NonNegative(EntryOf(t', k)) { assert NonNegative(EntryOf(t, k)); }
  }

  function EventsOf(q: Quotas, clock: int, ops: seq<Op>, key: string): seq<FixedWindow.Event> {
    if ops == [] then []
    else
      var last, before := ops[|ops| - 1], ops[..|ops| - 1];
      EventsOf(q, clock, before, key) + [FixedWindow.Event(Latest(clock, ops), Admits(q, After(q, before), last, key))]
  }

  function WinsOf(q: Quotas, ops: seq<Op>, key: string, hour: bool): seq<FixedWindow.Win> {
    (if ops == [] then [] else WinsOf(q, ops[..|ops| - 1], key, hour)) + [WinOf(hour, EntryOf(After(q, ops), key))]
  }

  lemma {:induction false} RunIsHistory(q: Quotas, clock: int, ops: seq<Op>, key: string, hour: bool)
    requires Ordered(clock, ops) && 0 < QuotaOf(hour, q)
    ensures FixedWindow.History(EventsOf(q, clock, ops, key), WinsOf(q, ops, key, hour),
                                QuotaOf(hour, q), LengthOf(hour))
    ensures |EventsOf(q, clock, ops, key)| == |ops| && Sane(After(q, ops)) && clock <= Latest(clock, ops)
    ensures ops != [] ==> FixedWindow.Now(EventsOf(q, clock, ops, key)) == Latest(clock, ops)
    ensures 0 < clock ==> FixedWindow.Late(EventsOf(q, clock, ops, key))
  {
    if ops != [] {
      var n := |ops| - 1;
      var before := ops[..n];
      RunIsHistory(q, clock, before, key, hour);
      OpIsWinStep(q, After(q, before), ops[n], key, hour, Latest(clock, ops));
      Prefixes(q, clock, before, key, hour, n);
      FixedWindow.HistoryExtends(EventsOf(q, clock, before, key), WinsOf(q, before, key, hour),
                                 QuotaOf(hour, q), LengthOf(hour),
                                 FixedWindow.Event(Latest(clock, ops), Admits(q, After(q, before), ops[n], key)),
                                 WinOf(hour, EntryOf(After(q, ops), key)));
    }
  }

  lemma {:induction false} AdmissionsAreCounted(q: Quotas, clock: int, ops: seq<Op>, key: string, lo: int, hi: int)
    ensures Admissions(q, ops, key, lo, hi) == FixedWindow.Count(EventsOf(q, clock, ops, key), lo, hi)
  {
    if ops != [] {
      var events := EventsOf(q, clock, ops, key);
      AdmissionsAreCounted(q, clock, ops[..|ops| - 1], key, lo, hi);
      assert events[..|events| - 1] == EventsOf(q, clock, ops[..|ops| - 1], key);
    }
  }

  /** Over every run with a clock after the zero time: in any hour (or day) a client gets at most twice its quota,
      wherever sweeps, invalidations and other clients' requests fall. */
  lemma AtMostTwiceTheQuota(q: Quotas, clock: int, ops: seq<Op>, key: string, hour: bool, lo: int)
    requires Ordered(clock, ops) && 0 < clock && 0 < QuotaOf(hour, q)
    ensures Admissions(q, ops, key, lo, lo + LengthOf(hour)) <= 2 * QuotaOf(hour, q)
  {
    RunIsHistory(q, clock, ops, key, hour);
    AdmissionsAreCounted(q, clock, ops, key, lo, lo + LengthOf(hour));
    FixedWindow.TwiceTheQuota(EventsOf(q, clock, ops, key), WinsOf(q, ops, key, hour),
                              QuotaOf(hour, q), LengthOf(hour), lo);
  }

  lemma {:induction false} Prefixes(q: Quotas, clock: int, ops: seq<Op>, key: string, hour: bool, k: nat)
    requires k <= |ops|
    ensures |EventsOf(q, clock, ops, key)| == |ops| && |WinsOf(q, ops, key, hour)| == |ops| + 1
    ensures EventsOf(q, clock, ops, key)[..k] == EventsOf(q, clock, ops[..k], key)
    ensures WinsOf(q, ops, key, hour)[k] == WinOf(hour, EntryOf(After(q, ops[..k]), key))
    decreases |ops|
  {
    if k == |ops| {
      assert ops[..k] == ops;
      if ops != [] { Prefixes(q, clock, ops[..|ops| - 1], key, hour, |ops| - 1); }
    } else {
      Prefixes(q, clock, ops[..|ops| - 1], key, hour, k);
      assert ops[..|ops| - 1][..k] == ops[..k];
    }
  }

  /** The events and windows of a run, with the one that is open after the first `k` operations. */
  lemma OpenWindow(q: Quotas, clock: int, ops: seq<Op>, key: string, hour: bool, k: nat)
    requires 0 < k <= |ops|
    ensures var events, wins := EventsOf(q, clock, ops, key), WinsOf(q, ops, key, hour);
            && |events| == |ops| && |wins| == |ops| + 1
            && wins[k] == WinOf(hour, EntryOf(After(q, ops[..k]), key))
            && FixedWindow.Now(events[..k]) == Latest(clock, ops[..k])
  {
    Prefixes(q, clock, ops, key, hour, k);
  }

  lemma WindowBound(events: seq<FixedWindow.Event>, wins: seq<FixedWindow.Win>, quota: nat, len: int, k: nat, now: int,
                    w: FixedWindow.Win)
    requires FixedWindow.History(events, wins, quota, len) && 0 < quota && 0 < len && k <= |events|
    requires wins[k] == w && FixedWindow.Now(events[..k]) == now && FixedWindow.Live(w, now, len)
    ensures FixedWindow.Count(events, w.start, w.start + len) <= quota
  {
    FixedWindow.OneQuotaPerWindow(events, wins, quota, len, k);
  }

  /** Every fixed window that is ever open after some prefix of the run admits at most the quota over its whole life,
      whatever the clock. */
  lemma AtMostTheQuotaPerWindow(q: Quotas, clock: int, ops: seq<Op>, key: string, hour: bool, k: nat)
    requires Ordered(clock, ops) && 0 < QuotaOf(hour, q) && 0 < k <= |ops|
    requires FixedWindow.Live(WinOf(hour, EntryOf(After(q, ops[..k]), key)), Latest(clock, ops[..k]), LengthOf(hour))
    ensures var start := WinOf(hour, EntryOf(After(q, ops[..k]), key)).start;
            Admissions(q, ops, key, start, start + LengthOf(hour)) <= QuotaOf(hour, q)
  {
    RunIsHistory(q, clock, ops, key, hour);
    OpenWindow(q, clock, ops, key, hour, k);
    var w := WinOf(hour, EntryOf(After(q, ops[..k]), key));
    AdmissionsAreCounted(q, clock, ops, key, w.start, w.start + LengthOf(hour));
    WindowBound(EventsOf(q, clock, ops, key), WinsOf(q, ops, key, hour), QuotaOf(hour, q), LengthOf(hour), k,
                Latest(clock, ops[..k]), w);
  }

  /** Checks of one client at the zero time. */
  function AtZero(key: string, n: nat): seq<Op> {
    seq(n, _ => Check(key, 0))
  }

  /** Go's zero time is where that bound stops: a window opened there counts as never opened, so whatever the quotas,
      a clock at it admits any number of requests. */
  lemma {:induction false} ZeroTimeDoesNotBind(q: Quotas, clock: int, key: string, n: nat, lo: int, hi: int)
    requires clock <= 0 && lo <= 0 < hi
    ensures var ops := AtZero(key, n); var e := EntryOf(After(q, ops), key);
            && Ordered(clock, ops) && Latest(clock, ops) <= 0 && Admissions(q, ops, key, lo, hi) == n
            && e.hourStart == e.dayStart == 0
  {
    if n > 0 {
      ZeroTimeDoesNotBind(q, clock, key, n - 1, lo, hi);
      assert AtZero(key, n)[..n - 1] == AtZero(key, n - 1);
    }
  }

  /** The interval of one window length from `lo` on sees at most twice the quota. */
  predicate AtMostTwice(q: Quotas, ops: seq<Op>, key: string, hour: bool, lo: int) {
    Admissions(q, ops, key, lo, lo + LengthOf(hour)) <= 2 * QuotaOf(hour, q)
  }

  /** Exactly when that holds of every interval of every run: when the clock starts after the zero time. */
  lemma TwiceTheQuotaIff(q: Quotas, clock: int, key: string, hour: bool)
    requires 0 < QuotaOf(hour, q)
    ensures (forall ops, lo :: Ordered(clock, ops) ==> AtMostTwice(q, ops, key, hour, lo)) <==> 0 < clock
  {
    if 0 < clock {
      forall ops, lo | Ordered(clock, ops) ensures AtMostTwice(q, ops, key, hour, lo) {
        AtMostTwiceTheQuota(q, clock, ops, key, hour, lo);
      }
    } else {
      var n := 2 * QuotaOf(hour, q) + 1;
      ZeroTimeDoesNotBind(q, clock, key, n, 0, LengthOf(hour));
      assert !AtMostTwice(q, AtZero(key, n), key, hour, 0);
    }
  }

  // ----- The remaining count -----

  /** `k` requests of one client at one time. */
  function Times(now: int, k: nat): seq<int> {
    seq(k, _ => now)
  }

  /** Neither enabled window rolls over at `now`. */
  predicate BothOpen(q: Quotas, e: Entry, now: int) {
    && (q.hourly > 0 ==> e.hourStart != 0 && now - e.hourStart < HOUR)
    && (q.daily > 0 ==> e.dayStart != 0 && now - e.dayStart < DAY)
  }

  /** How many more requests both windows have room for. */
  function Room(q: Quotas, e: Entry): int {
    if q.hourly == 0 then q.daily - e.dayUsed
    else if q.daily == 0 then q.hourly - e.hourUsed
    else if q.hourly - e.hourUsed < q.daily - e.dayUsed then q.hourly - e.hourUsed
    else q.daily - e.dayUsed
  }

  /** Open windows admit as many requests as they have room for, and no more. */
  lemma {:induction false} RoomIsUsedUp(q: Quotas, e: Entry, now: int, k: nat)
    requires QuotaEnabled(q) && BothOpen(q, e, now) && k <= Room(q, e)
    ensures var e' := AfterAsks(q, e, Times(now, k));
            BothOpen(q, e', now) && Room(q, e') == Room(q, e) - k && (CheckEntry(q, e', now).0.ok <==> k < Room(q, e))
  {
    if k > 0 {
      RoomIsUsedUp(q, e, now, k - 1);
      assert Times(now, k)[..k - 1] == Times(now, k - 1);
    } else {
      assert Times(now, 0) == [];
    }
  }

  /** An admitted client is told the truth: as many more requests at that time as the remaining count says are
      admitted, and the next one is refused. */
  lemma RemainingIsExact(q: Quotas, e: Entry, now: int, k: nat)
    requires QuotaEnabled(q) && now != 0 && CheckEntry(q, e, now).0.ok
    ensures var (v, e1) := CheckEntry(q, e, now);
            0 <= v.remaining &&
            (k <= v.remaining ==> (CheckEntry(q, AfterAsks(q, e1, Times(now, k)), now).0.ok <==> k < v.remaining))
  {
    var e1 := CheckEntry(q, e, now).1;
    if k <= Room(q, e1) {
      RoomIsUsedUp(q, e1, now, k);
    }
  }

  /** A client that was never seen gets the smaller of its enabled quotas, and not one more. */
  lemma NewClientGetsItsQuota(q: Quotas, now: int, k: nat)
    requires QuotaEnabled(q) && now != 0
    ensures var quota := if q.hourly == 0 then q.daily else if q.daily == 0 then q.hourly else Least(q.hourly, q.daily);
            k <= quota ==> (CheckEntry(q, AfterAsks(q, NEW_ENTRY, Times(now, k)), now).0.ok <==> k < quota)
  {
    if k > 0 {
      assert Times(now, k) == [now] + Times(now, k - 1);
      var e1 := CheckEntry(q, NEW_ENTRY, now).1;
      AsksJoin(q, NEW_ENTRY, now, Times(now, k - 1));
      if k - 1 <= Room(q, e1) {
        RoomIsUsedUp(q, e1, now, k - 1);
      }
    }
  }

  lemma {:induction false} AsksJoin(q: Quotas, e: Entry, now: int, asks: seq<int>)
    ensures AfterAsks(q, e, [now] + asks) == AfterAsks(q, CheckEntry(q, e, now).1, asks)
  {
    if asks == [] {
      assert [now] + asks == [now] && [now][..0] == [];
    } else {
      AsksJoin(q, e, now, asks[..|asks| - 1]);
      assert ([now] + asks)[..|asks|] == [now] + asks[..|asks| - 1];
    }
  }

  function Least(a: nat, b: nat): nat {
    if a < b then a else b
  }

  // ----- The retry delay -----

  /** The hour window (or the day window) turns a request at `now` away. */
  predicate Refuses(q: Quotas, e: Entry, hour: bool, now: int) {
    if hour then q.hourly > 0 && RollHour(q, e, now).hourUsed >= q.hourly
    else q.daily > 0 && RollDay(q, e, now).dayUsed >= q.daily
  }

  /** A request is refused exactly when one of the windows refuses, and the hour window answers first. */
  lemma RefusedIff(q: Quotas, e: Entry, now: int)
    ensures !CheckEntry(q, e, now).0.ok <==> Refuses(q, e, true, now) || Refuses(q, e, false, now)
  {
  }

  /** The window that refuses is exhausted: opened at `start`, nothing left. */
  predicate Exhausted(q: Quotas, e: Entry, hour: bool, start: int) {
    if hour then q.hourly > 0 && e.hourStart == start && e.hourUsed >= q.hourly
    else q.daily > 0 && e.dayStart == start && e.dayUsed >= q.daily
  }

  /** Asking an exhausted window again before it closes is refused and changes nothing about it. */
  lemma ExhaustedStays(q: Quotas, e: Entry, hour: bool, start: int, now: int)
    requires Exhausted(q, e, hour, start) && start != 0
    ensures Refuses(q, e, hour, now) <==> now < start + LengthOf(hour)
    ensures now < start + LengthOf(hour) ==>
          !CheckEntry(q, e, now).0.ok && Exhausted(q, CheckEntry(q, e, now).1, hour, start)
  {
  }

  /** A refusal reports the time left of the exhausted window. */
  lemma RefusalMeansExhausted(q: Quotas, e: Entry, now: int)
    requires !CheckEntry(q, e, now).0.ok
    ensures var hour := Refuses(q, e, true, now);
            exists start :: start != 0 && Exhausted(q, CheckEntry(q, e, now).1, hour, start) &&
                            now + CheckEntry(q, e, now).0.retryAfter == start + LengthOf(hour) > now
  {
    var e1 := CheckEntry(q, e, now).1;
    var start := if Refuses(q, e, true, now) then e1.hourStart else e1.dayStart;
    assert Exhausted(q, e1, Refuses(q, e, true, now), start);
  }

  /** Asks at nondecreasing times in [now, until). */
  predicate AsksBetween(now: int, asks: seq<int>, until: int) {
    asks == [] ||
    var before, last := asks[..|asks| - 1], asks[|asks| - 1];
    AsksBetween(now, before, until) && (if before == [] then now else before[|before| - 1]) <= last < until
  }

  lemma {:induction false} ExhaustedThroughout(q: Quotas, e: Entry, hour: bool, start: int, now: int, asks: seq<int>)
    requires Exhausted(q, e, hour, start) && start != 0 && AsksBetween(now, asks, start + LengthOf(hour))
    ensures Exhausted(q, AfterAsks(q, e, asks), hour, start)
  {
    if asks != [] {
      ExhaustedThroughout(q, e, hour, start, now, asks[..|asks| - 1]);
      ExhaustedStays(q, AfterAsks(q, e, asks[..|asks| - 1]), hour, start, asks[|asks| - 1]);
    }
  }

  /** The delay told to a refused client is exactly the least wait after which the refusing window stops
      refusing, and it stays exact however often the client asks in between. */
  lemma RetryDelayIsExact(q: Quotas, e: Entry, now: int, asks: seq<int>, at: int)
    requires !CheckEntry(q, e, now).0.ok
    requires AsksBetween(now, asks, now + CheckEntry(q, e, now).0.retryAfter)
    ensures var (v, e1) := CheckEntry(q, e, now);
            var until := now + v.retryAfter;
            && now < until
            && (Refuses(q, AfterAsks(q, e1, asks), Refuses(q, e, true, now), at) <==> at < until)
            && (at < until ==> !CheckEntry(q, AfterAsks(q, e1, asks), at).0.ok)
  {
    RefusalMeansExhausted(q, e, now);
    var hour, e1 := Refuses(q, e, true, now), CheckEntry(q, e, now).1;
    var start :| start != 0 && Exhausted(q, e1, hour, start) &&
      now + CheckEntry(q, e, now).0.retryAfter == start + LengthOf(hour) > now;
    ExhaustedThroughout(q, e1, hour, start, now, asks);
    ExhaustedStays(q, AfterAsks(q, e1, asks), hour, start, at);
  }

  function AfterAsks(q: Quotas, e: Entry, asks: seq<int>): Entry {
    if asks == [] then e else CheckEntry(q, AfterAsks(q, e, asks[..|asks| - 1]), asks[|asks| - 1]).1
  }

  // ----- The header -----

  /** Retry-After as written: whole seconds, rounded down, at least one. */
  function RetryAfterSeconds(retryAfter: nat): nat {
    var secs := retryAfter / SECOND;
    if secs < 1 then 1 else secs
  }

  /** The comment promises rounding up; the header covers the delay exactly when the delay is a whole number of
      seconds or at most one. */
  lemma HeaderCoversDelayIff(retryAfter: nat)
    ensures RetryAfterSeconds(retryAfter) * SECOND >= retryAfter <==> retryAfter % SECOND == 0 || retryAfter <= SECOND
  {
    assert retryAfter == retryAfter / SECOND * SECOND + retryAfter % SECOND;
  }

  function CeilSeconds(d: int): int {
    if d <= 0 then SECOND
    else (d / SECOND + (if d % SECOND != 0 then 1 else 0)) * SECOND
  }

  /** The token-bucket path rounds first, and then the header is the least whole number of seconds that covers it. */
  lemma CeilSecondsIsLeast(d: int, secs: nat)
    requires 0 < d
    ensures RetryAfterSeconds(CeilSeconds(d)) * SECOND >= d
    ensures secs * SECOND >= d ==> RetryAfterSeconds(CeilSeconds(d)) <= secs
  {
    assert d == d / SECOND * SECOND + d % SECOND;
  }
}
