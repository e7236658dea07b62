/** What the background auditor compares, and how it fetches it (internal/audit/audit.go). */
module AuditData {
  const U32 := 0x1_0000_0000
  const MAX_U32 := 0xFFFF_FFFF

  /** A ledger sequence number; where the code computes with 32 bits the wrap-around is written out. */
  type Ledger = nat

  datatype RpcEvent = RpcEvent(ledger: Ledger, id: string)

  /** One row of the store's per-ledger census: a stored ledger and its number of events. */
  datatype CensusRow = CensusRow(ledger: Ledger, count: nat)

  /** IDs the RPC returned for ledger `l`, in order of return. */
  function IdsAt(events: seq<RpcEvent>, l: Ledger): seq<string> {
    if events == [] then []
    else
      var last := events[|events| - 1];
      IdsAt(events[..|events| - 1], l) + (if last.ledger == l then [last.id] else [])
  }

  /** Events the store holds for ledger `l`, by the last census row about it. */
  function StoredAt(census: seq<CensusRow>, l: Ledger): nat {
    if census == [] then 0
    else
      var last := census[|census| - 1];
      if last.ledger == l then last.count else StoredAt(census[..|census| - 1], l)
  }

  /** The census groups by ledger inside the requested range. */
  ghost predicate CensusOf(census: seq<CensusRow>, from: Ledger, to: Ledger) {
    && (forall i {:trigger census[i]} :: 0 <= i < |census| ==> from <= census[i].ledger <= to)
    && (forall i, j {:trigger census[i], census[j]} :: 0 <= i < j < |census| ==> census[i].ledger != census[j].ledger)
  }

  /** The comparison at the heart of the audit: RPC and store agree on how many events ledger `l` has. */
  predicate Matches(l: Ledger, events: seq<RpcEvent>, census: seq<CensusRow>) {
    StoredAt(census, l) == |IdsAt(events, l)|
  }

  ghost predicate AllMatch(from: int, to: int, events: seq<RpcEvent>, census: seq<CensusRow>) {
    forall l: Ledger {:trigger Matches(l, events, census)} :: from <= l <= to ==> Matches(l, events, census)
  }

  /** The first ledger of the range that does not match, or `to + 1`. */
  function FirstDirty(from: Ledger, to: Ledger, events: seq<RpcEvent>, census: seq<CensusRow>): (d: int)
    requires from <= to
    ensures from <= d <= to + 1
    decreases (to - from)
  {
    if !Matches(from, events, census) then from
    else if from == to then to + 1
    else FirstDirty(from + 1, to, events, census)
  }

  lemma {:induction false} FirstDirtyMeans(from: Ledger, to: Ledger, events: seq<RpcEvent>, census: seq<CensusRow>)
    requires from <= to
    ensures var d := FirstDirty(from, to, events, census);
            AllMatch(from, d - 1, events, census) && (d <= to ==> !Matches(d, events, census))
    decreases (to - from)
  {
    if Matches(from, events, census) && from < to {
      FirstDirtyMeans(from + 1, to, events, census);
    }
  }

  /** FirstDirty is determined by the comparison alone. */
  lemma FirstDirtyUnique(from: Ledger, to: Ledger, events: seq<RpcEvent>, census: seq<CensusRow>, d: nat)
    requires from <= to && from <= d <= to + 1
    requires AllMatch(from, d - 1, events, census) && (d <= to ==> !Matches(d, events, census))
    ensures d == FirstDirty(from, to, events, census)
  {
    var e: nat := FirstDirty(from, to, events, census);
    FirstDirtyMeans(from, to, events, census);
    assert d <= to && d < e ==> Matches(d, events, census);
    assert e <= to && e < d ==> Matches(e, events, census);
  }

  lemma {:induction false} StoredAtOneRow(census: seq<CensusRow>, i: nat)
    requires i < |census|
    requires forall j :: 0 <= j < |census| && j != i ==> census[j].ledger != census[i].ledger
    ensures StoredAt(census, census[i].ledger) == census[i].count
    decreases |census|
  {
    if i < |census| - 1 {
      StoredAtOneRow(census[..|census| - 1], i);
    }
  }

  lemma {:induction false} StoredAtNoRow(census: seq<CensusRow>, l: Ledger)
    requires forall i :: 0 <= i < |census| ==> census[i].ledger != l
    ensures StoredAt(census, l) == 0
  {
    if census != [] {
      StoredAtNoRow(census[..|census| - 1], l);
    }
  }
}

/** Paging through getEvents (internal/audit/audit.go, fetchRange). */
module AuditFetch {
  import opened Common
  import opened AuditData

  datatype RpcReply = Page(events: seq<RpcEvent>) | OutOfRange | Failed

  /** The RPC as the auditor sees it: batch number and position after the cursor to reply. */
  type Server = (nat, nat) -> RpcReply

  /** `served` is the ordered answer to one filter batch; pages are consecutive cuts of it, and a page
      shorter than the limit means that nothing up to ledger `to` is left. */
  ghost predicate ServesBatch(server: Server, b: nat, served: seq<RpcEvent>, limit: nat, to: Ledger) {
    && SortedByLedger(served)
    && (forall p: nat {:trigger server(b, p)} ::
         p <= |served| && server(b, p).Page? ==> GoodPage(served, p, server(b, p).events, limit, to))
  }

  ghost predicate SortedByLedger(served: seq<RpcEvent>) {
    forall i, j {:trigger served[i], served[j]} :: 0 <= i < j < |served| ==> served[i].ledger <= served[j].ledger
  }

  ghost predicate GoodPage(served: seq<RpcEvent>, p: nat, page: seq<RpcEvent>, limit: nat, to: Ledger) {
    && p + |page| <= |served| && |page| <= limit
    && page == served[p..p + |page|]
    && (|page| < limit ==> NoneUpTo(served[p + |page|..], to))
  }

  ghost predicate NoneUpTo(events: seq<RpcEvent>, to: Ledger) {
    forall i :: 0 <= i < |events| ==> events[i].ledger > to
  }

  function UpTo(events: seq<RpcEvent>, to: Ledger): seq<RpcEvent> {
    if events == [] then []
    else
      var last := events[|events| - 1];
      UpTo(events[..|events| - 1], to) + (if last.ledger <= to then [last] else [])
  }

  /** The complete answer: per batch, every served event up to `to`, once and in order. */
  function Complete(served: seq<seq<RpcEvent>>, to: Ledger): seq<RpcEvent> {
    if served == [] then []
    else Complete(served[..|served| - 1], to) + UpTo(served[|served| - 1], to)
  }

  lemma {:induction false} UpToAppend(a: seq<RpcEvent>, b: seq<RpcEvent>, to: Ledger)
    ensures UpTo(a + b, to) == UpTo(a, to) + UpTo(b, to)
    decreases |b|
  {
    if b == [] {
      assert a + b == a;
    } else {
      UpToAppend(a, b[..|b| - 1], to);
      assert (a + b)[..|a + b| - 1] == a + b[..|b| - 1];
    }
  }

  lemma {:induction false} UpToNone(b: seq<RpcEvent>, to: Ledger)
    requires NoneUpTo(b, to)
    ensures UpTo(b, to) == []
  {
    if b != [] {
      UpToNone(b[..|b| - 1], to);
    }
  }

  /** Nothing up to `to` is left after position `q`, so the events before it are the whole answer. */
  lemma CutIsEverything(served: seq<RpcEvent>, q: nat, to: Ledger)
    requires q <= |served| && NoneUpTo(served[q..], to)
    ensures UpTo(served[..q], to) == UpTo(served, to)
  {
    UpToAppend(served[..q], served[q..], to);
    UpToNone(served[q..], to);
    assert served[..q] + served[q..] == served;
  }

  lemma CutIsPrefix(served: seq<RpcEvent>, q: nat, to: Ledger)
    requires q <= |served|
    ensures UpTo(served[..q], to) <= UpTo(served, to)
  {
    UpToAppend(served[..q], served[q..], to);
    assert served[..q] + served[q..] == served;
  }

  lemma {:induction false} CompletePrefix(served: seq<seq<RpcEvent>>, n: nat, to: Ledger)
    requires n <= |served|
    ensures Complete(served[..n], to) <= Complete(served, to)
    decreases |served|
  {
    if n == |served| {
      assert served[..n] == served;
    } else {
      CompletePrefix(served[..|served| - 1], n, to);
      assert served[..|served| - 1][..n] == served[..n];
    }
  }

  /** What one page adds to the answer; behind a short page, or one that ends past `to`, there is no more. */
  lemma PageAdds(served: seq<RpcEvent>, p: nat, page: seq<RpcEvent>, limit: nat, to: Ledger)
    requires SortedByLedger(served) && GoodPage(served, p, page, limit, to)
    ensures UpTo(served[..p + |page|], to) == UpTo(served[..p], to) + UpTo(page, to)
    ensures |page| < limit || (page != [] && page[|page| - 1].ledger > to) ==>
              UpTo(served[..p], to) + UpTo(page, to) == UpTo(served, to)
  {
    assert served[..p + |page|] == served[..p] + page;
    UpToAppend(served[..p], page, to);
    if |page| < limit || (page != [] && page[|page| - 1].ledger > to) {
      assert page != [] ==> page[|page| - 1] == served[p + |page| - 1];
      CutIsEverything(served, p + |page|, to);
    }
  }

  /** The page at position `p` is full and ends at or below `to`, so the one behind it is requested. */
  predicate GoesOn(server: Server, b: nat, limit: nat, to: Ledger, p: nat) {
    var reply := server(b, p);
    reply.Page? && 0 < limit <= |reply.events| && reply.events[|reply.events| - 1].ledger <= to
  }

  /** The positions that paging through batch `b` requests. */
  ghost predicate Asked(server: Server, b: nat, limit: nat, to: Ledger, p: nat) {
    || p == 0
    || exists before: nat :: before < p && Asked(server, b, limit, to, before) &&
                             GoesOn(server, b, limit, to, before) && p == before + |server(b, before).events|
  }

  datatype BatchResult = Whole(events: seq<RpcEvent>) | CutShort(events: seq<RpcEvent>) | Broken

  /** Pages through one filter batch. */
  method FetchBatch(server: Server, ghost served: seq<RpcEvent>, b: nat, limit: nat,
                    to: Ledger) returns (r: BatchResult)
    requires limit > 0 && ServesBatch(server, b, served, limit, to)
    ensures r.Whole? ==> r.events == UpTo(served, to)
    ensures r.CutShort? ==> r.events <= UpTo(served, to) &&
                            exists p: nat :: Asked(server, b, limit, to, p) && server(b, p).OutOfRange?
    ensures r.Broken? ==> exists p: nat :: Asked(server, b, limit, to, p) && server(b, p).Failed?
  {
    var out: seq<RpcEvent> := [];
    var cursor: nat := 0;
    while true
      invariant cursor <= |served| && Asked(server, b, limit, to, cursor)
      invariant out == UpTo(served[..cursor], to)
      decreases |served| - cursor
    {
      var reply := server(b, cursor);
      if reply.OutOfRange? {
        CutIsPrefix(served, cursor, to);
        return CutShort(out);
      }
      if reply.Failed? {
        return Broken;
      }
      var page := reply.events;
      PageAdds(served, cursor, page, limit, to);
      var kept := KeepUpTo(page, to);
      out := out + kept;
      if |page| < limit {
        return Whole(out);
      }
      var last := page[|page| - 1];
      if last.ledger > to {
        return Whole(out);
      }
      assert GoesOn(server, b, limit, to, cursor);
      cursor := cursor + |page|;
    }
  }

  function PageLimit(pageLimit: nat): nat {
    if pageLimit == 0 then 1000 else pageLimit
  }

  /** Fetches every batch page by page. Without an out-of-range error the result is the complete answer;
      an out-of-range error is swallowed and leaves a prefix of it. */
  method FetchRange(server: Server, ghost served: seq<seq<RpcEvent>>, batches: nat, pageLimit: nat, to: Ledger)
    returns (r: Option<seq<RpcEvent>>)
    requires |served| == batches
    requires forall b :: 0 <= b < batches ==>
          ServesBatch(server, b, served[b], PageLimit(pageLimit), to)
    ensures r.Some? ==> r.value <= Complete(served, to)
    ensures r.Some? && r.value != Complete(served, to) ==>
              exists b: nat, p: nat :: b < batches && Asked(server, b, PageLimit(pageLimit), to, p) &&
                                       server(b, p).OutOfRange?
    ensures r.None? ==>
              exists b: nat, p: nat :: b < batches && Asked(server, b, PageLimit(pageLimit), to, p) &&
                                       server(b, p).Failed?
  {
    var limit := PageLimit(pageLimit);
    var out: seq<RpcEvent> := [];
    for b := 0 to batches
      invariant out == Complete(served[..b], to)
    {
      assert served[..b + 1][..b] == served[..b];
      var batch := FetchBatch(server, served[b], b, limit, to);
      if batch.Broken? {
        return None;
      }
      out := out + batch.events;
      CompletePrefix(served, b + 1, to);
      if batch.CutShort? {
        return Some(out);
      }
    }
    assert served[..batches] == served;
    return Some(out);
  }

  method KeepUpTo(page: seq<RpcEvent>, to: Ledger) returns (kept: seq<RpcEvent>)
    ensures kept == UpTo(page, to)
  {
    kept := [];
    for i := 0 to |page|
      invariant kept == UpTo(page[..i], to)
    {
      assert page[..i + 1][..i] == page[..i];
      if page[i].ledger <= to {
        kept := kept + [page[i]];
      }
    }
    assert page[..|page|] == page;
  }

  /** The IDs the RPC served for ledger `l` over all filter batches, in order of service. */
  function ServedAt(served: seq<seq<RpcEvent>>, l: Ledger): seq<string> {
    if served == [] then []
    else ServedAt(served[..|served| - 1], l) + IdsAt(served[|served| - 1], l)
  }

  lemma {:induction false} IdsAtAppend(a: seq<RpcEvent>, b: seq<RpcEvent>, l: Ledger)
    ensures IdsAt(a + b, l) == IdsAt(a, l) + IdsAt(b, l)
    decreases |b|
  {
    if b == [] {
      assert a + b == a;
    } else {
      IdsAtAppend(a, b[..|b| - 1], l);
      assert (a + b)[..|a + b| - 1] == a + b[..|b| - 1];
    }
  }

  lemma {:induction false} CompleteKeepsIds(served: seq<seq<RpcEvent>>, to: Ledger, l: Ledger)
    requires l <= to
    ensures IdsAt(Complete(served, to), l) == ServedAt(served, l)
  {
    if served != [] {
      var n := |served| - 1;
      CompleteKeepsIds(served[..n], to, l);
      FetchKeepsIds(served[n], to, l);
      IdsAtAppend(Complete(served[..n], to), UpTo(served[n], to), l);
    }
  }

  /** Fetching and comparing together: on a complete fetch a ledger matches iff the store counts as many events as the
      RPC served for it over all batches. */
  lemma FetchedMatchesIff(served: seq<seq<RpcEvent>>, to: Ledger, census: seq<CensusRow>, l: Ledger)
    requires l <= to
    ensures Matches(l, Complete(served, to), census) <==> StoredAt(census, l) == |ServedAt(served, l)|
  {
    CompleteKeepsIds(served, to, l);
  }

  /** A reader of the fetched list that only asks about ledgers up to `to` cannot tell it from the served one. */
  lemma {:induction false} FetchKeepsIds(events: seq<RpcEvent>, to: Ledger, l: Ledger)
    requires l <= to
    ensures IdsAt(UpTo(events, to), l) == IdsAt(events, l)
  {
    if events != [] {
      var n := |events| - 1;
      FetchKeepsIds(events[..n], to, l);
      var kept := UpTo(events[..n], to);
      if events[n].ledger <= to {
        assert (kept + [events[n]])[..|kept|] == kept;
      } else {
        assert UpTo(events, to) == kept;
      }
    }
  }
}

/** One audit pass (internal/audit/audit.go, PassOnce and everything below it). */
module AuditPass {
  import opened Common
  import opened AuditData

  datatype Options = Options(batchLedgers: nat, lagThreshold: nat, maxRepairAttempts: int, findingMaxLedgers: nat)

  function ApplyDefaults(o: Options): Options {
    Options(if o.batchLedgers == 0 then 100 else o.batchLedgers,
            if o.lagThreshold == 0 then 200 else o.lagThreshold,
            if o.maxRepairAttempts <= 0 then 3 else o.maxRepairAttempts,
            if o.findingMaxLedgers == 0 then 100 else o.findingMaxLedgers)
  }

  predicate Usable(o: Options) {
    0 < o.batchLedgers < U32 && 0 < o.lagThreshold < U32 && 0 < o.maxRepairAttempts && 0 < o.findingMaxLedgers < U32
  }

  /** The ledger range of the next pass, in the code's own 32-bit arithmetic; None when the pass is idle. */
  function Window(verified: int, ingested: int, oldest: nat, o: Options): Option<(nat, nat)> {
    if ingested <= 0 || (ingested - verified) % U32 < o.lagThreshold then None
    else
      var from := (verified % U32 + 1) % U32;
      var to := ingested % U32;
      if from > to then None
      else
        var to := if (to - from + 1) % U32 > o.batchLedgers then (from + o.batchLedgers - 1) % U32 else to;
        if oldest == 0 then Some((from, to))
        else if from <= oldest then None
        else
          var cap := (oldest + o.lagThreshold) % U32;
          if to <= cap then Some((from, to))
          else if cap < from then None
          else Some((from, cap))
  }

  function Least(a: int, b: int): int {
    if a < b then a else b
  }

  /** Exactly when a pass does work, and on which range: from right after the mark to the least of what was ingested,
      the end of a batch and, with an oldest retained ledger, the retention cap. A mark ahead of the ingester makes the
      lag wrap around, and the pass is still idle; a mark on the last 32-bit ledger makes the range start over at ledger
      0. */
  lemma WindowFollowsTheMark(verified: nat, ingested: nat, oldest: nat, o: Options)
    requires Usable(o) && verified < U32 && ingested < U32 && oldest < U32
    ensures var w := Window(verified, ingested, oldest, o);
            && (w.Some? <==>
                if verified == MAX_U32 then 0 < ingested < MAX_U32 && o.lagThreshold <= ingested + 1 && oldest == 0
                else ingested >= verified + o.lagThreshold &&
                     (oldest == 0 || oldest <= verified < (oldest + o.lagThreshold) % U32))
            && (w.Some? ==>
                  && w.value.0 == (if verified == MAX_U32 then 0 else verified + 1)
                  && w.value.0 <= w.value.1
                  && w.value.1 == Least(Least(ingested, w.value.0 + o.batchLedgers - 1),
                                        if oldest == 0 then ingested else (oldest + o.lagThreshold) % U32))
  {
    Truncate(verified);
    Truncate(verified + 1);
    Truncate(ingested);
    Truncate(ingested - verified);
    Truncate(oldest + o.lagThreshold);
    var from := (verified + 1) % U32;
    if from <= ingested {
      Truncate(ingested - from + 1);
      Truncate(from + o.batchLedgers - 1);
    }
  }

  /** Whatever is stored and reported, a chosen range is not empty, starts no later than right behind the mark, and when
      it starts over at 0 the mark is at or past the last 32-bit ledger and the range stops short of it. */
  lemma ChosenWindow(verified: nat, ingested: int, oldest: nat, o: Options)
    requires Usable(o)
    ensures var w := Window(verified, ingested, oldest, o);
            w.Some? ==>
              && w.value.0 <= w.value.1 < U32 && w.value.0 <= verified + 1
              && (w.value.0 == 0 ==> w.value.1 < MAX_U32 <= verified)
  {
    var from, top := (verified % U32 + 1) % U32, ingested % U32;
    Truncate(verified % U32 + 1);
    Truncate(top - from + 1);
    if from <= top && (top - from + 1) % U32 > o.batchLedgers {
      Truncate(from + o.batchLedgers - 1);
    }
    if from == 0 {
      WrappedLag(verified, ingested);
    }
  }

  /** With the mark on the last 32-bit ledger, the lag is one more than the ingested ledger. */
  lemma WrappedLag(verified: nat, ingested: int)
    requires verified % U32 == MAX_U32
    ensures (ingested - verified) % U32 == (ingested % U32 + 1) % U32
  {
    var a, b := ingested / U32, verified / U32;
    assert ingested - verified == (ingested % U32 + 1) + (a - b - 1) * U32;
    AddsWholeTurns(ingested % U32 + 1, a - b - 1);
  }

  lemma {:induction false} AddsWholeTurns(x: int, k: int)
    ensures (x + k * U32) % U32 == x % U32
    decreases if k < 0 then -k else k
  {
    if k > 0 {
      AddsWholeTurns(x, k - 1);
      assert x + k * U32 == (x + (k - 1) * U32) + U32;
    } else if k < 0 {
      AddsWholeTurns(x, k + 1);
      assert x + k * U32 == (x + (k + 1) * U32) - U32;
    }
  }

  /** 32-bit truncation of a value at most one wrap away. */
  lemma Truncate(x: int)
    requires -U32 <= x < 2 * U32
    ensures x % U32 == if x < 0 then x + U32 else if x < U32 then x else x - U32
  {
  }

  /** The range starts right after the mark unless the mark is the last 32-bit ledger, where it restarts at 0. */
  lemma WindowStartsAfterMarkIff(verified: nat, ingested: nat, oldest: nat, o: Options)
    requires Usable(o) && verified < U32 && ingested < U32 && oldest < U32
    requires Window(verified, ingested, oldest, o).Some?
    ensures Window(verified, ingested, oldest, o).value.0 == verified + 1 <==> verified != MAX_U32
  {
    WindowFollowsTheMark(verified, ingested, oldest, o);
  }

  lemma WindowCanWrap()
    ensures Window(MAX_U32, 1, 0, Options(1, 1, 1, 1)) == Some((0, 0))
  {
  }

  // ----- Findings -----

  datatype Status = Open | Repaired | Unverifiable | Unrecoverable

  datatype FindingState = FindingState(from: nat, to: nat, attempts: int, status: Status)

  /** What the world answers to one repair attempt: the re-ingest fails, the re-check fails, or the re-check
      compares a fresh fetch with a fresh census. */
  datatype AttemptReply = ReingestFails(outOfRange: bool) | RecheckFails
    | Recheck(events: seq<RpcEvent>, census: seq<CensusRow>)

  ghost predicate CleanReply(f: FindingState, reply: AttemptReply) {
    reply.Recheck? && AllMatch(f.from, f.to, reply.events, reply.census)
  }

  ghost predicate ReplyOk(f: FindingState, reply: AttemptReply) {
    reply.Recheck? ==> CensusOf(reply.census, f.from, f.to)
  }

  ghost predicate RepliesOk(f: FindingState, world: int -> AttemptReply) {
    forall k {:trigger world(k)} :: ReplyOk(f, world(k))
  }

  ghost function AfterAttempt(f: FindingState, reply: AttemptReply, maxAttempts: int): FindingState {
    var g := f.(attempts := f.attempts + 1);
    if CleanReply(f, reply) then g.(status := Repaired)
    else if reply.ReingestFails? && reply.outOfRange then g.(status := Unverifiable)
    else if g.attempts >= maxAttempts then g.(status := Unrecoverable)
    else g
  }

  /** Repeats attempts until a terminal status; `world(k)` answers attempt number k. */
  ghost function Repair(f: FindingState, world: int -> AttemptReply, maxAttempts: int): FindingState
    decreases maxAttempts - f.attempts
  {
    var g := AfterAttempt(f, world(f.attempts + 1), maxAttempts);
    if g.status != Open || f.attempts + 1 >= maxAttempts then g else Repair(g, world, maxAttempts)
  }

  /** An attempt that leaves the finding open: neither clean nor out of range. */
  ghost predicate Inconclusive(f: FindingState, reply: AttemptReply) {
    !CleanReply(f, reply) && !(reply.ReingestFails? && reply.outOfRange)
  }

  /** Every opened finding ends in exactly one terminal status within the attempt budget, and which one is
      decided by the first conclusive attempt. */
  lemma {:induction false} RepairIsDecisive(f: FindingState, world: int -> AttemptReply, maxAttempts: int)
    requires f.status == Open && f.attempts < maxAttempts
    ensures var g := Repair(f, world, maxAttempts);
            && g.from == f.from && g.to == f.to && g.status != Open
            && f.attempts < g.attempts <= maxAttempts
            && (forall k :: f.attempts < k < g.attempts ==> Inconclusive(f, world(k)))
            && (g.status == Repaired <==> CleanReply(f, world(g.attempts)))
            && (g.status == Unverifiable <==> world(g.attempts).ReingestFails? && world(g.attempts).outOfRange)
            && (g.status == Unrecoverable <==> g.attempts == maxAttempts && Inconclusive(f, world(g.attempts)))
    decreases maxAttempts - f.attempts
  {
    var g := AfterAttempt(f, world(f.attempts + 1), maxAttempts);
    if g.status == Open && f.attempts + 1 < maxAttempts {
      RepairIsDecisive(g, world, maxAttempts);
      assert forall r :: Inconclusive(g, r) <==> Inconclusive(f, r);
    }
  }

  class Finding {
    const from: nat
    const to: nat
    var attempts: int
    var status: Status

    constructor (from: nat, to: nat)
      ensures View() == FindingState(from, to, 0, Open)
    {
      this.from, this.to, attempts, status := from, to, 0, Open;
    }

    function View(): FindingState
      reads this
    {
      FindingState(from, to, attempts, status)
    }
  }

  function ViewOf(finding: Finding?): Option<FindingState>
    reads finding
  {
    if finding == null then None else Some(finding.View())
  }

  /** The persisted mark; the update is one conditional statement in the store. */
  class MarkStore {
    var mark: int

    method SaveAuditStateIfGreater(ledger: int)
      modifies this
      ensures mark == if ledger > old(mark) then ledger else old(mark)
    {
      if ledger > mark {
        mark := ledger;
      }
    }
  }

  function Max(a: int, b: int): int {
    if a < b then b else a
  }

  predicate LedgerMatches(l: nat, rpcByLedger: map<nat, seq<string>>, storedByLedger: map<nat, nat>) {
    var stored := if l in storedByLedger then storedByLedger[l] else 0;
    var rpcIds := if l in rpcByLedger then rpcByLedger[l] else [];
    if |rpcIds| == 0 then stored == 0 else stored == |rpcIds|
  }

  /** The two indexes hold exactly what the fetch and the census say about the range. */
  ghost predicate Indexed(rpc: map<nat, seq<string>>, stored: map<nat, nat>, from: nat, to: nat,
                          events: seq<RpcEvent>, census: seq<CensusRow>)
  {
    && (forall l: nat {:trigger l in rpc} :: l in rpc ==> from <= l <= to && rpc[l] == IdsAt(events, l))
    && (forall l: nat {:trigger IdsAt(events, l)} :: from <= l <= to && l !in rpc ==> IdsAt(events, l) == [])
    && (forall l: nat {:trigger l in stored} :: l in stored ==> from <= l <= to && stored[l] == StoredAt(census, l))
    && (forall l: nat {:trigger StoredAt(census, l)} :: l !in stored ==> StoredAt(census, l) == 0)
  }

  /** Inside the range the indexed comparison is the comparison itself; outside it everything matches. */
  lemma IndexedMatches(rpc: map<nat, seq<string>>, stored: map<nat, nat>, from: nat, to: nat,
                       events: seq<RpcEvent>, census: seq<CensusRow>, l: nat)
    requires Indexed(rpc, stored, from, to, events, census)
    ensures from <= l <= to ==> (LedgerMatches(l, rpc, stored) <==> Matches(l, events, census))
    ensures l < from ==> LedgerMatches(l, rpc, stored)
  {
    assert l !in stored ==> StoredAt(census, l) == 0;
    assert from <= l <= to && l !in rpc ==> IdsAt(events, l) == [];
  }

  lemma IndexedAt(rpc: map<nat, seq<string>>, stored: map<nat, nat>, from: nat, to: nat,
                  events: seq<RpcEvent>, census: seq<CensusRow>, l: nat)
    requires Indexed(rpc, stored, from, to, events, census) && from <= l <= to
    ensures (if l in rpc then rpc[l] else []) == IdsAt(events, l)
    ensures (if l in stored then stored[l] else 0) == StoredAt(census, l)
  {
    assert l !in stored ==> StoredAt(census, l) == 0;
    assert l !in rpc ==> IdsAt(events, l) == [];
  }

  method IndexEvents(events: seq<RpcEvent>, from: nat, to: nat) returns (rpc: map<nat, seq<string>>)
    ensures forall l: nat {:trigger l in rpc} :: l in rpc ==> from <= l <= to && rpc[l] == IdsAt(events, l)
    ensures forall l: nat {:trigger IdsAt(events, l)} :: from <= l <= to && l !in rpc ==> IdsAt(events, l) == []
  {
    rpc := map[];
    for i := 0 to |events|
      invariant forall l: nat {:trigger l in rpc} :: l in rpc ==> from <= l <= to && rpc[l] == IdsAt(events[..i], l)
      invariant forall l: nat {:trigger IdsAt(events[..i], l)} ::
            from <= l <= to && l !in rpc ==> IdsAt(events[..i], l) == []
    {
      var e := events[i];
      assert events[..i + 1][..i] == events[..i];
      if from <= e.ledger <= to {
        var ids := if e.ledger in rpc then rpc[e.ledger] else [];
        assert ids == IdsAt(events[..i], e.ledger);
        rpc := rpc[e.ledger := ids + [e.id]];
      }
      forall l: nat | from <= l <= to && l !in rpc ensures IdsAt(events[..i + 1], l) == [] {
        assert IdsAt(events[..i], l) == [];
      }
    }
    assert events[..|events|] == events;
  }

  method IndexCensus(census: seq<CensusRow>, from: nat, to: nat) returns (stored: map<nat, nat>)
    requires CensusOf(census, from, to)
    ensures forall l: nat {:trigger l in stored} :: l in stored ==> from <= l <= to && stored[l] == StoredAt(census, l)
    ensures forall l: nat {:trigger StoredAt(census, l)} :: l !in stored ==> StoredAt(census, l) == 0
  {
    stored := map[];
    for i := 0 to |census|
      invariant forall l: nat {:trigger l in stored} ::
            l in stored ==> from <= l <= to && stored[l] == StoredAt(census[..i], l)
      invariant forall l: nat {:trigger StoredAt(census[..i], l)} :: l !in stored ==> StoredAt(census[..i], l) == 0
    {
      var c := census[i];
      assert census[..i + 1][..i] == census[..i];
      stored := stored[c.ledger := c.count];
      forall l: nat | l !in stored ensures StoredAt(census[..i + 1], l) == 0 {
        assert StoredAt(census[..i], l) == 0;
      }
    }
    assert census[..|census|] == census;
  }

  method IndexRange(from: nat, to: nat, events: seq<RpcEvent>, census: seq<CensusRow>)
    returns (rpc: map<nat, seq<string>>, stored: map<nat, nat>)
    requires CensusOf(census, from, to)
    ensures Indexed(rpc, stored, from, to, events, census)
  {
    rpc := IndexEvents(events, from, to);
    stored := IndexCensus(census, from, to);
  }

  /** The two loops of the re-check — census rows against the fetch, then fetched ledgers against the census —
      accept exactly the ranges on which every ledger matches. (On a range up to the last 32-bit ledger the ledger loop
      of the source ends only at a mismatch.) */
  method ClusterIsClean(from: nat, to: nat, events: seq<RpcEvent>, census: seq<CensusRow>) returns (clean: bool)
    requires from <= to < U32 && CensusOf(census, from, to)
    requires to == MAX_U32 ==> !AllMatch(from, to, events, census)
    ensures clean <==> AllMatch(from, to, events, census)
  {
    var rpc := IndexEvents(events, from, to);
    for i := 0 to |census|
      invariant forall k :: 0 <= k < i ==> Matches(census[k].ledger, events, census)
    {
      var c := census[i];
      StoredAtOneRow(census, i);
      var n := if c.ledger in rpc then |rpc[c.ledger]| else 0;
      assert c.ledger !in rpc ==> IdsAt(events, c.ledger) == [];
      if n != c.count {
        assert !Matches(c.ledger, events, census);
        return false;
      }
    }
    var l := from;
    while l <= to
      invariant from <= l <= to + 1
      invariant forall m: nat {:trigger Matches(m, events, census)} :: from <= m < l ==> Matches(m, events, census)
    {
      assert l !in rpc ==> IdsAt(events, l) == [];
      var found := HasRow(census, l);
      if !found {
        StoredAtNoRow(census, l);
      }
      if l in rpc && |rpc[l]| != 0 && !found {
        assert !Matches(l, events, census);
        return false;
      }
      assert Matches(l, events, census);
      l := l + 1;
    }
    return true;
  }

  method HasRow(census: seq<CensusRow>, l: nat) returns (found: bool)
    ensures found <==> exists i :: 0 <= i < |census| && census[i].ledger == l
  {
    for i := 0 to |census|
      invariant forall k :: 0 <= k < i ==> census[k].ledger != l
    {
      if census[i].ledger == l {
        return true;
      }
    }
    return false;
  }

  // ----- What a finding reports -----

  /** Returned IDs the store does not have, in order. */
  function Absent(ids: seq<string>, have: seq<string>): seq<string> {
    if ids == [] then []
    else Absent(ids[..|ids| - 1], have) + (if ids[|ids| - 1] in have then [] else [ids[|ids| - 1]])
  }

  /** The IDs listed for one ledger: those the store lacks, where the counts differ. */
  function Shortfall(ids: seq<string>, stored: nat, storedIds: Option<seq<string>>): seq<string> {
    if ids != [] && stored != |ids| && storedIds.Some? then Absent(ids, storedIds.value) else []
  }

  datatype Report = Report(expected: nat, actual: nat, missing: seq<string>)

  /** Expected and actual totals of [from, end), and the missing IDs of its short ledgers. */
  ghost function ReportOf(from: nat, end: nat, events: seq<RpcEvent>, census: seq<CensusRow>,
                          storedIds: nat -> Option<seq<string>>): Report
    requires from <= end
    decreases end
  {
    if from == end then Report(0, 0, [])
    else
      var l := end - 1;
      var r := ReportOf(from, l, events, census, storedIds);
      var ids := IdsAt(events, l);
      Report(r.expected + |ids|, r.actual + StoredAt(census, l),
             r.missing + Shortfall(ids, StoredAt(census, l), storedIds(l)))
  }

  lemma TotalsGrow(from: nat, end: nat, events: seq<RpcEvent>, census: seq<CensusRow>,
                   storedIds: nat -> Option<seq<string>>)
    requires from < end
    ensures var r := ReportOf(from, end - 1, events, census, storedIds);
            var r' := ReportOf(from, end, events, census, storedIds);
            && r'.expected == r.expected + |IdsAt(events, end - 1)|
            && r'.actual == r.actual + StoredAt(census, end - 1)
  {
  }

  /** A range that starts with a mismatch is never empty on both sides, so a mismatch always opens a finding. */
  lemma {:induction false} MismatchIsVisible(from: nat, end: nat, events: seq<RpcEvent>, census: seq<CensusRow>,
                                             storedIds: nat -> Option<seq<string>>)
    requires from < end && !Matches(from, events, census)
    ensures var r := ReportOf(from, end, events, census, storedIds); r.expected + r.actual > 0
    decreases end
  {
    TotalsGrow(from, end, events, census, storedIds);
    if from + 1 < end {
      MismatchIsVisible(from, end - 1, events, census, storedIds);
    }
  }

  method ListAbsent(ids: seq<string>, storedIds: seq<string>) returns (missing: seq<string>)
    ensures missing == Absent(ids, storedIds)
  {
    var have: set<string> := {};
    for i := 0 to |storedIds|
      invariant have == set x | x in storedIds[..i]
    {
      assert storedIds[..i + 1] == storedIds[..i] + [storedIds[i]];
      have := have + {storedIds[i]};
    }
    assert storedIds[..|storedIds|] == storedIds;
    missing := [];
    for i := 0 to |ids|
      invariant missing == Absent(ids[..i], storedIds)
    {
      assert ids[..i + 1][..i] == ids[..i];
      if ids[i] !in have {
        missing := missing + [ids[i]];
      }
    }
    assert ids[..|ids|] == ids;
  }

  /** None when a lookup of stored IDs fails. */
  method Summarize(from: nat, to: nat, rpc: map<nat, seq<string>>, stored: map<nat, nat>,
                   storedIds: nat -> Option<seq<string>>,
                   ghost lo: nat, ghost hi: nat, ghost events: seq<RpcEvent>,
                     ghost census: seq<CensusRow>) returns (r: Option<Report>)
    requires lo <= from <= to <= hi && to < MAX_U32 && Indexed(rpc, stored, lo, hi, events, census)
    ensures r.Some? ==> r.value == ReportOf(from, to + 1, events, census, storedIds)
    ensures (forall l: nat :: storedIds(l).Some?) ==> r.Some?
  {
    var expected: nat, actual: nat, missing: seq<string> := 0, 0, [];
    var l := from;
    while l <= to
      invariant from <= l <= to + 1
      invariant Report(expected, actual, missing) == ReportOf(from, l, events, census, storedIds)
    {
      var ids := if l in rpc then rpc[l] else [];
      var n := if l in stored then stored[l] else 0;
      IndexedAt(rpc, stored, lo, hi, events, census, l);
      expected := expected + |ids|;
      actual := actual + n;
      if |ids| > 0 && n != |ids| {
        var have := storedIds(l);
        if have.None? {
          return None;
        }
        var absent := ListAbsent(ids, have.value);
        missing := missing + absent;
      }
      l := l + 1;
    }
    return Some(Report(expected, actual, missing));
  }

  // ----- The pass -----

  /** Everything the outside world decides during one pass after the fetch and the census. */
  datatype World = World(prefixSaveFails: bool, storedIds: nat -> Option<seq<string>>, recordFails: bool,
                         attempts: int -> AttemptReply, repairSaveFails: bool)

  function MismatchTo(from: nat, to: nat, o: Options): (end: nat)
    requires from <= to && 0 < o.findingMaxLedgers
    ensures from <= end <= to && end - from < o.findingMaxLedgers
    ensures end == to || end - from + 1 == o.findingMaxLedgers
  {
    if to - from + 1 > o.findingMaxLedgers then from + o.findingMaxLedgers - 1 else to
  }

  // The two scans of a range. The first stops before the first mismatch and reports 0 for an empty prefix; the second
  // looks for the mismatch behind what the first reported. On a range that starts at ledger 0 the two meanings of 0
  // coincide, and the second scan does not look at ledger 0 again.

  function VerifiedThrough(from: Ledger, to: Ledger, events: seq<RpcEvent>, census: seq<CensusRow>): nat
    requires from <= to
  {
    var d := FirstDirty(from, to, events, census);
    if d == from then 0 else d - 1
  }

  /** The mismatch the second scan finds, or `to + 1`. */
  function MismatchFrom(from: Ledger, to: Ledger, events: seq<RpcEvent>, census: seq<CensusRow>): nat
    requires from <= to
  {
    var d := FirstDirty(from, to, events, census);
    if d == 0 && to > 0 then FirstDirty(1, to, events, census) else d
  }

  /** The ledger the mark is raised to before any repair; 0 for none. */
  function SavedThrough(from: Ledger, to: Ledger, events: seq<RpcEvent>, census: seq<CensusRow>): nat
    requires from <= to
  {
    var v := VerifiedThrough(from, to, events, census);
    if v < to < MismatchFrom(from, to, events, census) then to else v
  }

  /** The first ledger that the comparison vouches for. */
  function ComparedFrom(from: Ledger, to: Ledger, events: seq<RpcEvent>, census: seq<CensusRow>): nat
    requires from <= to
  {
    if FirstDirty(from, to, events, census) == 0 && to > 0 then 1 else from
  }

  /** What the scans report is clean, the mismatch they report is one, and they meet. */
  lemma ScansMean(from: Ledger, to: Ledger, events: seq<RpcEvent>, census: seq<CensusRow>)
    requires from <= to
    ensures var lo, m, saved := ComparedFrom(from, to, events, census), MismatchFrom(from, to, events, census),
                                SavedThrough(from, to, events, census);
            && from <= lo <= from + 1 && (lo > from ==> lo == 1) && m <= to + 1
            && AllMatch(lo, m - 1, events, census) && (m <= to ==> !Matches(m, events, census))
            && (saved > 0 ==> saved == m - 1)
            && (saved == 0 && from > 0 ==> m == from)
  {
    FirstDirtyMeans(from, to, events, census);
    if FirstDirty(from, to, events, census) == 0 && to > 0 {
      FirstDirtyMeans(1, to, events, census);
    }
  }

  /** `m` is the first ledger from `from` on, ledger 0 apart, that does not match, or `to + 1` when all do. */
  ghost predicate FirstMismatch(from: nat, to: nat, events: seq<RpcEvent>, census: seq<CensusRow>, m: nat) {
    && 0 < m && from <= m <= to + 1 && AllMatch(Max(from, 1), m - 1, events, census)
    && (m <= to ==> !Matches(m, events, census))
  }

  /** The two scans find it, and save right up to it; nothing is saved where it is the first of the range, or where the
      range starts at a mismatching ledger 0. */
  lemma ScansFind(from: Ledger, to: Ledger, events: seq<RpcEvent>, census: seq<CensusRow>, m: nat)
    requires from <= to && FirstMismatch(from, to, events, census, m)
    ensures to > 0 ==> MismatchFrom(from, to, events, census) == m
    ensures m <= to ==> VerifiedThrough(from, to, events, census) < to
    ensures SavedThrough(from, to, events, census) == m - 1 ||
            (SavedThrough(from, to, events, census) == 0 && (m == from || from == 0))
  {
    if from > 0 {
      FirstDirtyUnique(from, to, events, census, m);
    } else if Matches(0, events, census) {
      FirstDirtyUnique(0, to, events, census, m);
    } else if to > 0 {
      FirstDirtyUnique(1, to, events, census, m);
    }
  }

  /** What reconciling a range makes of the mark, in terms of the scans: it ends up over the saved prefix, or over the
      repaired cluster behind it. `found` is the finding that was opened, as it ended. */
  ghost predicate Reconciled(o: Options, from: nat, to: nat, events: seq<RpcEvent>, census: seq<CensusRow>, w: World,
                             before: int, after: int, worked: bool, found: Option<FindingState>)
    requires from <= to && Usable(o)
  {
    var saved, m := SavedThrough(from, to, events, census), MismatchFrom(from, to, events, census);
    var prefix := if saved > 0 && !w.prefixSaveFails then Max(before, saved) else before;
    && (worked <==> saved == 0 || !w.prefixSaveFails)
    && ((worked && VerifiedThrough(from, to, events, census) < to && m <= to && !w.recordFails &&
         forall l: nat :: w.storedIds(l).Some?) ==> found.Some?)
    && (found.None? ==> after == prefix)
    && (found.Some? ==>
          && worked && m <= to && VerifiedThrough(from, to, events, census) < to
          && found.value == Repair(FindingState(m, MismatchTo(m, to, o), 0, Open), w.attempts, o.maxRepairAttempts)
          && after == if found.value.status == Repaired && !w.repairSaveFails
                      then Max(prefix, MismatchTo(m, to, o)) else prefix)
  }

  /** The same from the comparison alone, for a range right behind the mark whose first mismatch is `m`: everything
      before `m` is marked, a finding is opened that starts at `m`, and a repair marks its ledgers too, each unless the
      save, the lookup or the record it takes fails. */
  ghost predicate Outcome(o: Options, from: nat, to: nat, m: nat, w: World, before: int, after: int, worked: bool,
                          found: Option<FindingState>)
    requires m <= to + 1 && Usable(o)
  {
    && (!w.prefixSaveFails ==> worked)
    && (w.prefixSaveFails && 0 < from < m ==> !worked)
    && (worked && m <= to && !w.recordFails && (forall l: nat :: w.storedIds(l).Some?) ==> found.Some?)
    && (found.None? ==> after == if worked then Max(before, m - 1) else before)
    && (found.Some? ==>
          && worked && m <= to
          && found.value == Repair(FindingState(m, MismatchTo(m, to, o), 0, Open), w.attempts, o.maxRepairAttempts)
          && after == Max(before, if found.value.status == Repaired && !w.repairSaveFails then MismatchTo(m, to, o)
                                  else m - 1))
  }

  lemma ReconciledMeans(o: Options, from: nat, to: nat, events: seq<RpcEvent>, census: seq<CensusRow>, w: World,
                        before: int, after: int, worked: bool, found: Option<FindingState>, m: nat)
    requires from <= to && Usable(o) && from - 1 <= before && (from == 0 ==> to <= before)
    requires Reconciled(o, from, to, events, census, w, before, after, worked, found)
    requires FirstMismatch(from, to, events, census, m)
    ensures Outcome(o, from, to, m, w, before, after, worked, found)
  {
    ScansFind(from, to, events, census, m);
  }

  class Auditor {
    const opts: Options
    const store: MarkStore
    var findingsOpened: nat
    var findingsRepaired: nat
    var findingsUnverifiable: nat
    var findingsUnrecoverable: nat

    constructor (opts: Options, store: MarkStore)
      requires Usable(ApplyDefaults(opts))
      ensures this.opts == ApplyDefaults(opts) && this.store == store && Balanced() && findingsOpened == 0
    {
      this.opts, this.store := ApplyDefaults(opts), store;
      findingsOpened, findingsRepaired, findingsUnverifiable, findingsUnrecoverable := 0, 0, 0, 0;
    }

    /** Between passes every finding this auditor opened has exactly one terminal status. */
    predicate Balanced()
      reads this
    {
      findingsOpened == findingsRepaired + findingsUnverifiable + findingsUnrecoverable
    }

    method DoRepairAttempt(f: Finding, reply: AttemptReply, saveFails: bool)
      requires f.status == Open && f.from <= f.to < MAX_U32 && ReplyOk(f.View(), reply)
      modifies f`attempts, f`status, this`findingsRepaired, this`findingsUnverifiable, this`findingsUnrecoverable, store
      ensures f.View() == AfterAttempt(old(f.View()), reply, opts.maxRepairAttempts)
      ensures findingsRepaired == old(findingsRepaired) + (if f.status == Repaired then 1 else 0)
      ensures findingsUnverifiable == old(findingsUnverifiable) + (if f.status == Unverifiable then 1 else 0)
      ensures findingsUnrecoverable == old(findingsUnrecoverable) + (if f.status == Unrecoverable then 1 else 0)
      ensures store.mark == if f.status == Repaired && !saveFails then Max(old(store.mark), f.to) else old(store.mark)
    {
      f.attempts := f.attempts + 1;
      match reply {
        case Recheck(events, census) =>
          var clean := ClusterIsClean(f.from, f.to, events, census);
          if clean {
            f.status := Repaired;
            findingsRepaired := findingsRepaired + 1;
            if !saveFails {
              store.SaveAuditStateIfGreater(f.to);
            }
            return;
          }
        case RecheckFails =>
        case ReingestFails(outOfRange) =>
          if outOfRange {
            f.status := Unverifiable;
            findingsUnverifiable := findingsUnverifiable + 1;
            return;
          }
      }
      if f.attempts >= opts.maxRepairAttempts {
        f.status := Unrecoverable;
        findingsUnrecoverable := findingsUnrecoverable + 1;
      }
    }

    method RepairFinding(f: Finding, world: int -> AttemptReply, saveFails: bool)
      requires f.status == Open && f.attempts < opts.maxRepairAttempts && f.from <= f.to < MAX_U32
      requires RepliesOk(f.View(), world)
      modifies f`attempts, f`status, this`findingsRepaired, this`findingsUnverifiable, this`findingsUnrecoverable, store
      ensures f.View() == Repair(old(f.View()), world, opts.maxRepairAttempts)
      ensures findingsRepaired + findingsUnverifiable + findingsUnrecoverable
            == old(findingsRepaired + findingsUnverifiable + findingsUnrecoverable) + 1
      ensures store.mark == if f.status == Repaired && !saveFails then Max(old(store.mark), f.to) else old(store.mark)
    {
      ghost var start := f.View();
      while true
        invariant f.status == Open && f.attempts < opts.maxRepairAttempts
        invariant Repair(f.View(), world, opts.maxRepairAttempts) == Repair(start, world, opts.maxRepairAttempts)
        invariant findingsRepaired == old(findingsRepaired) && findingsUnverifiable == old(findingsUnverifiable) &&
              findingsUnrecoverable == old(findingsUnrecoverable)
        invariant store.mark == old(store.mark)
        decreases opts.maxRepairAttempts - f.attempts
      {
        assert ReplyOk(start, world(f.attempts + 1));
        DoRepairAttempt(f, world(f.attempts + 1), saveFails);
        if f.status == Repaired || f.status == Unrecoverable || f.status == Unverifiable {
          return;
        }
      }
    }

    /** Opens a finding for a range that starts with a mismatch and sees it through to a terminal status. */
    method HandleMismatch(rpc: map<nat, seq<string>>, stored: map<nat, nat>, from: nat, to: nat, w: World,
                          ghost lo: nat, ghost hi: nat, ghost events: seq<RpcEvent>, ghost census: seq<CensusRow>)
      returns (report: Option<Report>, finding: Finding?)
      requires Balanced() && Usable(opts)
      requires lo <= from <= to <= hi && to < MAX_U32 && Indexed(rpc, stored, lo, hi, events, census)
      requires !Matches(from, events, census)
      requires RepliesOk(FindingState(from, to, 0, Open), w.attempts)
      modifies this`findingsOpened, this`findingsRepaired, this`findingsUnverifiable, this`findingsUnrecoverable, store
      ensures Balanced()
      ensures report.Some? ==> report.value == ReportOf(from, to + 1, events, census, w.storedIds)
      ensures (forall l: nat :: w.storedIds(l).Some?) ==> report.Some?
      ensures finding == null <==> report.None? || w.recordFails
      ensures finding == null ==> store.mark == old(store.mark) && findingsOpened == old(findingsOpened)
      ensures finding != null ==>
                && finding.View() == Repair(FindingState(from, to, 0, Open), w.attempts, opts.maxRepairAttempts)
                && findingsOpened == old(findingsOpened) + 1
                && store.mark == if finding.status == Repaired && !w.repairSaveFails then Max(old(store.mark), to)
                     else old(store.mark)
    {
      finding := null;
      report := Summarize(from, to, rpc, stored, w.storedIds, lo, hi, events, census);
      if report.None? {
        return;
      }
      MismatchIsVisible(from, to + 1, events, census, w.storedIds);
      if report.value.expected == 0 && report.value.actual == 0 {
        assert false;
      }
      if w.recordFails {
        return;
      }
      finding := OpenFinding(from, to, w);
    }

    /** The finding is recorded, counted and repaired. */
    method OpenFinding(from: nat, to: nat, w: World) returns (finding: Finding)
      requires Balanced() && Usable(opts) && from <= to < MAX_U32
      requires RepliesOk(FindingState(from, to, 0, Open), w.attempts)
      modifies this`findingsOpened, this`findingsRepaired, this`findingsUnverifiable, this`findingsUnrecoverable, store
      ensures Balanced() && findingsOpened == old(findingsOpened) + 1
      ensures finding.View() == Repair(FindingState(from, to, 0, Open), w.attempts, opts.maxRepairAttempts)
      ensures store.mark == if finding.status == Repaired && !w.repairSaveFails then Max(old(store.mark), to)
                            else old(store.mark)
    {
      findingsOpened := findingsOpened + 1;
      finding := new Finding(from, to);
      assert RepliesOk(finding.View(), w.attempts);
      RepairFinding(finding, w.attempts, w.repairSaveFails);
    }

    /** Compares the range, moves the mark over its clean prefix, and repairs the first mismatch. The mark ends up
        over the prefix that matched, or over the repaired cluster right behind it, and nowhere else. (The source's
        loops over ledgers end only below the last 32-bit ledger; a range whose scan is clean may reach it.) */
    method ReconcileRange(from: nat, to: nat, events: seq<RpcEvent>, census: seq<CensusRow>, w: World)
      returns (worked: bool, finding: Finding?)
      requires Balanced() && Usable(opts)
      requires from <= to < U32 && CensusOf(census, from, to) && ScansEnd(from, to, events, census)
      requires RepairsAnswered(from, to, events, census, w)
      modifies this`findingsOpened, this`findingsRepaired, this`findingsUnverifiable, this`findingsUnrecoverable, store
      ensures Balanced()
      ensures Reconciled(opts, from, to, events, census, w, old(store.mark), store.mark, worked, ViewOf(finding))
      ensures findingsOpened == old(findingsOpened) + if finding == null then 0 else 1
    {
      finding := null;
      var rpc, stored := IndexRange(from, to, events, census);
      var verifiedThrough := ScanPrefix(from, to, rpc, stored, events, census);
      ScansMean(from, to, events, census);
      if verifiedThrough > 0 {
        if w.prefixSaveFails {
          worked := false;
          return;
        }
        store.SaveAuditStateIfGreater(verifiedThrough);
      }
      worked := true;
      if verifiedThrough >= to {
        return;
      }
      var mismatchFrom := FindMismatch(verifiedThrough + 1, rpc, stored, from, to, events, census);
      if mismatchFrom == 0 {
        if w.prefixSaveFails {
          worked := false;
          return;
        }
        store.SaveAuditStateIfGreater(to);
        return;
      }
      var mismatchTo := MismatchTo(mismatchFrom, to, opts);
      var report;
      report, finding := HandleMismatch(rpc, stored, mismatchFrom, mismatchTo, w, from, to, events, census);
    }

    /** The loops that walk to the end of the range, or of the finding, stay below the last 32-bit ledger. */
    ghost predicate ScansEnd(from: nat, to: nat, events: seq<RpcEvent>, census: seq<CensusRow>)
      requires from <= to && Usable(opts)
    {
      var m := MismatchFrom(from, to, events, census);
      VerifiedThrough(from, to, events, census) < to ==> (if m <= to then MismatchTo(m, to, opts) else to) < MAX_U32
    }

    /** Each re-check of the finding this range opens is given a census of the finding's own ledgers. */
    ghost predicate RepairsAnswered(from: nat, to: nat, events: seq<RpcEvent>, census: seq<CensusRow>, w: World)
      requires from <= to && Usable(opts)
    {
      var m := MismatchFrom(from, to, events, census);
      m <= to ==> RepliesOk(FindingState(m, MismatchTo(m, to, opts), 0, Open), w.attempts)
    }

    /** One pass of one auditor, for any mark and any ingested ledger. The mark moves only over ledgers that matched in
        this pass's comparison or in the re-check that closed its finding as repaired. And it does move: with the
        window's range compared and `m` its first mismatch, everything before `m` is marked, a finding is opened that
        starts at `m`, and a repair marks its ledgers as well, each unless the save, lookup or record it takes fails. */
    method PassOnce(ingested: int, oldest: nat, events: seq<RpcEvent>, census: seq<CensusRow>, w: World)
      returns (worked: bool, finding: Finding?)
      requires Balanced() && Usable(opts) && 0 <= store.mark
      requires var win := Window(store.mark, ingested, oldest, opts);
               win.Some? && win.value.0 <= win.value.1 ==>
                 && CensusOf(census, win.value.0, win.value.1)
                 && (MismatchFrom(win.value.0, win.value.1, events, census) <= win.value.1
                     ==> ScansEnd(win.value.0, win.value.1, events, census))
                 && RepairsAnswered(win.value.0, win.value.1, events, census, w)
      modifies this`findingsOpened, this`findingsRepaired, this`findingsUnverifiable, this`findingsUnrecoverable, store
      ensures Balanced() && old(store.mark) <= store.mark
      ensures worked || finding != null ==> Window(old(store.mark), ingested, oldest, opts).Some?
      ensures forall l: nat {:trigger Matches(l, events, census)} :: old(store.mark) < l <= store.mark ==>
                Matches(l, events, census) ||
                (finding != null && finding.from <= l <= finding.to &&
                  CleanReply(finding.View(), w.attempts(finding.attempts)))
      ensures Window(old(store.mark), ingested, oldest, opts).None? ==>
                !worked && finding == null && store.mark == old(store.mark) && findingsOpened == old(findingsOpened)
      ensures var win := Window(old(store.mark), ingested, oldest, opts);
              win.Some? ==>
                forall m: nat {:trigger FirstMismatch(win.value.0, win.value.1, events, census, m)} ::
                  FirstMismatch(win.value.0, win.value.1, events, census, m) ==>
                    Outcome(opts, win.value.0, win.value.1, m, w, old(store.mark), store.mark, worked, ViewOf(finding))
    {
      var window := Window(store.mark, ingested, oldest, opts);
      if window.None? {
        return false, null;
      }
      ChosenWindow(store.mark, ingested, oldest, opts);
      var from, to := window.value.0, window.value.1;
      ScansMean(from, to, events, census);
      worked, finding := ReconcileRange(from, to, events, census, w);
      forall m: nat | FirstMismatch(from, to, events, census, m)
        ensures Outcome(opts, from, to, m, w, old(store.mark), store.mark, worked, ViewOf(finding))
      {
        ReconciledMeans(opts, from, to, events, census, w, old(store.mark), store.mark, worked, ViewOf(finding), m);
      }
      if finding != null {
        ghost var m := MismatchFrom(from, to, events, census);
        RepairIsDecisive(FindingState(m, MismatchTo(m, to, opts), 0, Open), w.attempts, opts.maxRepairAttempts);
      }
    }

    /** The last ledger of the clean prefix; 0 stands for an empty prefix. */
    method ScanPrefix(from: nat, to: nat, rpc: map<nat, seq<string>>, stored: map<nat, nat>,
                      ghost events: seq<RpcEvent>, ghost census: seq<CensusRow>) returns (verifiedThrough: nat)
      requires from <= to && Indexed(rpc, stored, from, to, events, census)
      ensures verifiedThrough == VerifiedThrough(from, to, events, census)
    {
      verifiedThrough := 0;
      var l: nat := from;
      ghost var d := from;
      while true
        invariant from <= l <= to
        invariant verifiedThrough == if l == from then 0 else l - 1
        invariant AllMatch(from, l - 1, events, census)
        decreases (to - l)
      {
        IndexedMatches(rpc, stored, from, to, events, census, l);
        d := l;
        if LedgerMatches(l, rpc, stored) {
          verifiedThrough := l;
          d := l + 1;
        } else {
          break;
        }
        if l == to {
          break;
        }
        l := l + 1;
      }
      FirstDirtyUnique(from, to, events, census, d);
    }

    /** The second scan; 0 when it finds nothing. It restarts at 1 when the first scan reported 0: ledgers below the
        range are in neither index, so it still finds the first mismatch of a range that starts above 0. */
    method FindMismatch(start: nat, rpc: map<nat, seq<string>>, stored: map<nat, nat>, ghost from: nat, to: nat,
                        ghost events: seq<RpcEvent>, ghost census: seq<CensusRow>) returns (mismatchFrom: nat)
      requires from <= to && start == VerifiedThrough(from, to, events, census) + 1 <= to
      requires MismatchFrom(from, to, events, census) > to ==> to < MAX_U32
      requires Indexed(rpc, stored, from, to, events, census)
      ensures var m := MismatchFrom(from, to, events, census); mismatchFrom == if m <= to then m else 0
    {
      ghost var m := MismatchFrom(from, to, events, census);
      ScansMean(from, to, events, census);
      mismatchFrom := 0;
      var l: nat := start;
      while l <= to
        invariant start <= l <= m && mismatchFrom == 0
      {
        IndexedMatches(rpc, stored, from, to, events, census, l);
        assert ComparedFrom(from, to, events, census) <= l < m ==> Matches(l, events, census);
        if !LedgerMatches(l, rpc, stored) {
          mismatchFrom := l;
          return;
        }
        l := l + 1;
      }
    }
  }
}

/** Any number of auditors sharing one persisted mark (internal/audit/audit.go, PassOnce to advanceHWM), and the chain
    reorganisations that rewrite stored ledgers and lower it (internal/store/reorg.go).

    Every step is one store or RPC interaction; what the RPC and the store answer is arbitrary. `high`, `checks` and
    `rewrites` are history: the highest mark so far, each comparison or re-check that found a range clean, with the
    data it compared, and each rewritten range, with the number of checks made before it. */
module AuditProtocol {
  import opened Common
  import opened AuditData
  import opened AuditPass

  datatype Check = Check(lo: nat, hi: int, events: seq<RpcEvent>, census: seq<CensusRow>)

  datatype Rewrite = Rewrite(from: nat, to: nat, at: nat)

  datatype Phase =
    | Idle
    | Loaded(verified: int)                                                     // audit state read
    | Fetching(from: nat, to: nat)                                              // range chosen
    | Fetched(from: nat, to: nat, events: seq<RpcEvent>)                        // RPC answered
    | Scanned(to: nat, saved: nat, dirty: nat, check: nat)                      // census compared, nothing saved yet
    | Repairing(finding: FindingState)                                          // finding open
    | Rechecked(finding: FindingState, check: nat)                              // finding repaired, mark not saved yet

  datatype Worker = Worker(opts: Options, phase: Phase)

  datatype State = State(mark: int, workers: seq<Worker>, high: int, checks: seq<Check>, rewrites: seq<Rewrite>)

  datatype Step =
    | Load(a: nat)
    | Choose(a: nat, ingested: int, oldest: nat)
    | Fetch(a: nat, events: seq<RpcEvent>)
    | Compare(a: nat, census: seq<CensusRow>)
    | SavePrefix(a: nat, fails: bool)
    | Attempt(a: nat, reply: AttemptReply)
    | SaveRepair(a: nat, fails: bool)
    | GiveUp(a: nat)
    | Reorg(from: nat, to: nat)

  predicate Enabled(s: State, step: Step) {
    if step.Reorg? then 0 < step.from <= step.to
    else
      step.a < |s.workers| &&
      var p := s.workers[step.a].phase;
      match step
      case Load(_) => p.Idle?
      case Choose(_, _, _) => p.Loaded?
      case Fetch(_, _) => p.Fetching?
      case Compare(_, _) => p.Fetched? && p.from <= p.to
      case SavePrefix(_, _) => p.Scanned?
      case Attempt(_, _) => p.Repairing?
      case SaveRepair(_, _) => p.Rechecked?
      case _ => true
  }

  function Move(s: State, a: nat, phase: Phase): State
    requires a < |s.workers|
  {
    s.(workers := s.workers[a := s.workers[a].(phase := phase)])
  }

  /** The store's conditional update. */
  function Save(s: State, ledger: int): State {
    s.(mark := Max(s.mark, ledger), high := Max(s.high, ledger))
  }

  /** One transaction rewrites the ledgers and takes the mark back below them. */
  function DoReorg(s: State, from: nat, to: nat): State {
    s.(mark := if s.mark >= from then Max(from - 1, 0) else s.mark,
       rewrites := s.rewrites + [Rewrite(from, to, |s.checks|)])
  }

  function DoSavePrefix(s: State, a: nat, fails: bool): State
    requires Enabled(s, SavePrefix(a, fails))
  {
    var p, o := s.workers[a].phase, s.workers[a].opts;
    if p.saved > 0 && fails then Move(s, a, Idle)
    else
      var s1 := if p.saved > 0 then Save(s, p.saved) else s;
      if p.saved >= p.to || p.dirty > p.to || o.findingMaxLedgers == 0 then Move(s1, a, Idle)
      else Move(s1, a, Repairing(FindingState(p.dirty, MismatchTo(p.dirty, p.to, o), 0, Open)))
  }

  function DoCompare(s: State, a: nat, census: seq<CensusRow>): State
    requires Enabled(s, Compare(a, census))
  {
    var p := s.workers[a].phase;
    var m := MismatchFrom(p.from, p.to, p.events, census);
    Move(s.(checks := s.checks + [Check(ComparedFrom(p.from, p.to, p.events, census), m - 1, p.events, census)]), a,
         Scanned(p.to, SavedThrough(p.from, p.to, p.events, census), m, |s.checks|))
  }

  ghost function DoAttempt(s: State, a: nat, reply: AttemptReply): State
    requires Enabled(s, Attempt(a, reply))
  {
    var f := s.workers[a].phase.finding;
    var g := AfterAttempt(f, reply, s.workers[a].opts.maxRepairAttempts);
    match g.status
    case Open => Move(s, a, Repairing(g))
    case Repaired =>
      if reply.Recheck? then
        Move(s.(checks := s.checks + [Check(f.from, f.to, reply.events, reply.census)]), a, Rechecked(g, |s.checks|))
      else Move(s, a, Idle)
    case _ => Move(s, a, Idle)
  }

  ghost function Apply(s: State, step: Step): State
    requires Enabled(s, step)
  {
    match step
    case Load(a) => Move(s, a, Loaded(s.mark))
    case Choose(a, ingested, oldest) =>
      (match Window(s.workers[a].phase.verified, ingested, oldest, s.workers[a].opts)
       case None => Move(s, a, Idle)
       case Some(range) => Move(s, a, Fetching(range.0, range.1)))
    case Fetch(a, events) => Move(s, a, Fetched(s.workers[a].phase.from, s.workers[a].phase.to, events))
    case Compare(a, census) => DoCompare(s, a, census)
    case SavePrefix(a, fails) => DoSavePrefix(s, a, fails)
    case Attempt(a, reply) => DoAttempt(s, a, reply)
    case SaveRepair(a, fails) => Move(if fails then s else Save(s, s.workers[a].phase.finding.to), a, Idle)
    case GiveUp(a) => Move(s, a, Idle)
    case Reorg(from, to) => DoReorg(s, from, to)
  }

  // ----- The invariant -----

  ghost predicate Sound(c: Check) {
    AllMatch(c.lo, c.hi, c.events, c.census)
  }

  /** A check on record that starts no later than right behind the highest mark. */
  predicate Adjoins(s: State, c: nat, hi: int) {
    c < |s.checks| && s.checks[c].lo - 1 <= s.high && s.checks[c].hi == hi
  }

  /** A range that starts no later than right behind the highest mark; one that starts over at 0 ends below it. */
  predicate Follows(s: State, from: nat, to: nat) {
    from <= to && from - 1 <= s.high && (from == 0 ==> to <= s.high)
  }

  ghost predicate WorkerInv(s: State, a: nat) {
    a < |s.workers| &&
    var w := s.workers[a];
    && Usable(w.opts)
    && match w.phase
       case Idle => true
       case Loaded(v) => 0 <= v <= s.high
       case Fetching(from, to) => Follows(s, from, to)
       case Fetched(from, to, _) => Follows(s, from, to)
       case Scanned(to, saved, d, c) =>
         Adjoins(s, c, d - 1) && (saved > 0 ==> saved == d - 1) && (saved == 0 && d <= to ==> d - 1 <= s.high)
       case Repairing(f) => f.from - 1 <= s.high && f.status == Open
       case Rechecked(f, c) => Adjoins(s, c, f.to)
  }

  ghost predicate WorkersOk(s: State) {
    forall a {:trigger WorkerInv(s, a)} :: 0 <= a < |s.workers| ==> WorkerInv(s, a)
  }

  ghost predicate ChecksOk(s: State) {
    forall c {:trigger s.checks[c]} :: 0 <= c < |s.checks| ==> Sound(s.checks[c])
  }

  /** Some check on record compared ledger `l` and found it clean. */
  ghost predicate FoundClean(s: State, l: nat) {
    exists c {:trigger s.checks[c]} :: 0 <= c < |s.checks| && s.checks[c].lo <= l <= s.checks[c].hi &&
                                       Matches(l, s.checks[c].events, s.checks[c].census)
  }

  ghost predicate CoveredFrom(s: State, start: int) {
    forall l: nat {:trigger FoundClean(s, l)} :: start < l <= s.high ==> FoundClean(s, l)
  }

  ghost predicate Inv(s: State, start: int) {
    WorkersOk(s) && ChecksOk(s) && 0 <= s.mark <= s.high && start <= s.high && CoveredFrom(s, start)
  }

  lemma FoundCleanStays(s: State, s': State, l: nat)
    requires FoundClean(s, l) && s.checks <= s'.checks
    ensures FoundClean(s', l)
  {
    var c :| 0 <= c < |s.checks| && s.checks[c].lo <= l <= s.checks[c].hi &&
      Matches(l, s.checks[c].events, s.checks[c].census);
    assert s'.checks[c] == s.checks[c];
  }

  /** One step: only a reorganisation lowers the mark, and each ledger that the highest mark newly covers was found
      clean before the step. */
  lemma StepAdvancesOverClean(s: State, step: Step, start: int)
    requires Inv(s, start) && Enabled(s, step)
    ensures var s' := Apply(s, step);
            && (s.mark <= s'.mark || step.Reorg?) && s'.mark <= s'.high && s.high <= s'.high && s.checks <= s'.checks
            && forall l: nat :: s.high < l <= s'.high ==> FoundClean(s, l)
  {
    if step.SavePrefix? || step.SaveRepair? {
      assert WorkerInv(s, step.a);
      var c := s.checks[s.workers[step.a].phase.check];
      forall l: nat | s.high < l <= Apply(s, step).high ensures FoundClean(s, l) {
        assert c.lo <= l <= c.hi && Matches(l, c.events, c.census);
      }
    }
  }

  /** What the other auditors rely on only grows. */
  lemma OthersKeep(s: State, s': State, a: nat)
    requires WorkersOk(s) && a < |s.workers| && s.high <= s'.high && s.checks <= s'.checks
    requires |s'.workers| == |s.workers| && s'.workers == s.workers[a := s'.workers[a]]
    ensures WorkerInv(s', a) ==> WorkersOk(s')
  {
    if WorkerInv(s', a) {
      forall b | 0 <= b < |s'.workers| ensures WorkerInv(s', b) { assert WorkerInv(s, b); }
    }
  }

  lemma StepKeepsWorkers(s: State, step: Step, start: int, s': State)
    requires Inv(s, start) && Enabled(s, step) && s' == Apply(s, step) && !step.Reorg?
    ensures WorkersOk(s') && ChecksOk(s')
  {
    StepAdvancesOverClean(s, step, start);
    OthersKeep(s, s', step.a);
    assert WorkerInv(s, step.a);
    var w := s.workers[step.a];
    if step.Choose? {
      ChosenWindow(w.phase.verified, step.ingested, step.oldest, w.opts);
    } else if step.Compare? {
      ScansMean(w.phase.from, w.phase.to, w.phase.events, step.census);
    }
  }

  lemma StepKeepsInv(s: State, step: Step, start: int)
    requires Inv(s, start) && Enabled(s, step)
    ensures Inv(Apply(s, step), start)
  {
    var s' := Apply(s, step);
    StepAdvancesOverClean(s, step, start);
    if step.Reorg? {
      forall a | 0 <= a < |s'.workers| ensures WorkerInv(s', a) { assert WorkerInv(s, a); }
    } else {
      StepKeepsWorkers(s, step, start, s');
    }
    forall l: nat | start < l <= s'.high ensures FoundClean(s', l) {
      assert l <= s.high ==> FoundClean(s, l);
      FoundCleanStays(s, s', l);
    }
  }

  // ----- Whole runs -----

  ghost predicate IsRun(steps: seq<Step>, states: seq<State>) {
    && |states| == |steps| + 1
    && states[0].checks == [] && states[0].rewrites == [] && 0 <= states[0].mark == states[0].high
    && (forall a {:trigger states[0].workers[a]} :: 0 <= a < |states[0].workers| ==>
          states[0].workers[a].phase.Idle? && Usable(states[0].workers[a].opts))
    && (forall n {:trigger steps[n]} :: 0 <= n < |steps| ==>
          Enabled(states[n], steps[n]) && states[n + 1] == Apply(states[n], steps[n]))
  }

  lemma {:induction false} InvHolds(steps: seq<Step>, states: seq<State>, n: nat)
    requires IsRun(steps, states) && n < |states|
    ensures Inv(states[n], states[0].mark)
  {
    if n == 0 {
      forall a | 0 <= a < |states[0].workers| ensures WorkerInv(states[0], a) {
        assert states[0].workers[a].phase.Idle?;
      }
    } else {
      InvHolds(steps, states, n - 1);
      assert Enabled(states[n - 1], steps[n - 1]);
      StepKeepsInv(states[n - 1], steps[n - 1], states[0].mark);
    }
  }

  /** However auditors interleave, the shared mark goes down only in a reorganisation. */
  lemma {:induction false} MarkNeverDecreases(steps: seq<Step>, states: seq<State>, m: nat, n: nat)
    requires IsRun(steps, states) && m <= n < |states|
    ensures states[m].mark <= states[n].mark || exists k :: m <= k < n && steps[k].Reorg?
    decreases n
  {
    if m < n {
      MarkNeverDecreases(steps, states, m, n - 1);
      InvHolds(steps, states, n - 1);
      assert Enabled(states[n - 1], steps[n - 1]);
      StepAdvancesOverClean(states[n - 1], steps[n - 1], states[0].mark);
    }
  }

  /** Every ledger between the initial and the current mark was found clean, by some auditor's comparison or
      re-check, at an earlier moment of the run, before the mark first reached it. */
  lemma {:induction false} MarkedLedgersWereFoundClean(steps: seq<Step>, states: seq<State>, n: nat, l: nat)
    requires IsRun(steps, states) && n < |states| && states[0].mark < l <= states[n].high
    ensures exists m :: 0 <= m < n && states[m].high < l && FoundClean(states[m], l)
    ensures states[n].mark <= states[n].high
    decreases n
  {
    InvHolds(steps, states, n);
    InvHolds(steps, states, n - 1);
    assert Enabled(states[n - 1], steps[n - 1]);
    StepAdvancesOverClean(states[n - 1], steps[n - 1], states[0].mark);
    if l <= states[n - 1].high {
      MarkedLedgersWereFoundClean(steps, states, n - 1, l);
    }
  }

  // ----- Clean since the last rewrite -----

  predicate Touches(r: Rewrite, l: nat) {
    r.from <= l <= r.to
  }

  /** Check `c` found ledger `l` clean, and `l` has not been rewritten since. */
  ghost predicate Vouches(s: State, c: nat, l: nat) {
    && c < |s.checks| && s.checks[c].lo <= l <= s.checks[c].hi && Matches(l, s.checks[c].events, s.checks[c].census)
    && forall r <- s.rewrites :: Touches(r, l) ==> r.at <= c
  }

  ghost predicate StillClean(s: State, l: nat) {
    exists c: nat :: Vouches(s, c, l)
  }

  /** The check a save relies on; None for steps that save nothing. */
  function Reliance(s: State, step: Step): Option<(nat, int)>
    requires Enabled(s, step)
  {
    match step
    case SavePrefix(a, fails) =>
      var p := s.workers[a].phase;
      if fails || p.saved == 0 then None else Some((p.check, p.saved))
    case SaveRepair(a, fails) =>
      var p := s.workers[a].phase;
      if fails then None else Some((p.check, p.finding.to))
    case _ => None
  }

  /** A save that raises the mark to `ledger` from the mark its auditor started behind, over nothing rewritten since the
      auditor compared it. */
  predicate Current(s: State, c: nat, ledger: int) {
    c < |s.checks| && s.checks[c].lo - 1 <= s.mark &&
    forall r <- s.rewrites :: c < r.at && r.from <= r.to ==> ledger < r.from || r.to <= s.mark
  }

  /** Exactly when a save is backed by its own auditor's check: for each ledger it newly covers, that check still
      vouches iff no reorganisation took the mark below the checked range or rewrote part of what is newly covered. */
  lemma SaveIsBackedIff(s: State, step: Step, start: int)
    requires Inv(s, start) && Enabled(s, step) && Reliance(s, step).Some? && s.mark < Reliance(s, step).value.1
    ensures var (c, ledger) := Reliance(s, step).value;
            (forall l: nat :: s.mark < l <= ledger ==> Vouches(s, c, l)) <==> Current(s, c, ledger)
  {
    assert WorkerInv(s, step.a);
    var (c, ledger) := Reliance(s, step).value;
    if forall l: nat :: s.mark < l <= ledger ==> Vouches(s, c, l) {
      assert Vouches(s, c, s.mark + 1);
      forall r | r in s.rewrites && c < r.at && r.from <= r.to ensures ledger < r.from || r.to <= s.mark {
        var l := if r.from <= s.mark then s.mark + 1 else r.from;
        assert s.mark < l <= ledger ==> Vouches(s, c, l);
      }
    }
  }

  /** Ledger `l` was there from the start and never rewritten, or was found clean after it was last rewritten. */
  ghost predicate Backed(s: State, start: int, l: nat) {
    (l <= start && forall r <- s.rewrites :: !Touches(r, l)) || StillClean(s, l)
  }

  ghost predicate AllBacked(s: State, start: int) {
    forall l: nat {:trigger Backed(s, start, l)} :: 0 < l <= s.mark ==> Backed(s, start, l)
  }

  lemma StepKeepsBacked(s: State, step: Step, start: int, s': State)
    requires Inv(s, start) && Enabled(s, step) && s' == Apply(s, step)
    requires AllBacked(s, start) && CurrentAt(s, step)
    ensures AllBacked(s', start)
  {
    StepAdvancesOverClean(s, step, start);
    if s.mark < s'.mark {
      assert Reliance(s, step).Some? && s'.mark == Reliance(s, step).value.1;
      SaveIsBackedIff(s, step, start);
      var c := Reliance(s, step).value.0;
      forall l: nat | s.mark < l <= s'.mark ensures StillClean(s, l) { assert Vouches(s, c, l); }
    }
    forall l: nat | 0 < l <= s'.mark ensures Backed(s', start, l) {
      assert Backed(s, start, l);
      if StillClean(s, l) {
        var c: nat :| Vouches(s, c, l);
        assert Vouches(s', c, l);
      }
    }
  }

  ghost predicate SavesAreCurrent(steps: seq<Step>, states: seq<State>, n: nat) {
    IsRun(steps, states) && n < |states| &&
    forall k {:trigger steps[k]} :: 0 <= k < n ==> Enabled(states[k], steps[k]) && CurrentAt(states[k], steps[k])
  }

  predicate CurrentAt(s: State, step: Step) {
    Enabled(s, step) &&
    var save := Reliance(s, step);
    save.Some? && s.mark < save.value.1 ==> Current(s, save.value.0, save.value.1)
  }

  /** Over every run whose saves are current, with any number of auditors and any reorganisations in between: every
      ledger up to the mark was below the initial mark and never rewritten, or found clean after its last rewrite. */
  lemma {:induction false} MarkedLedgersAreStillClean(steps: seq<Step>, states: seq<State>, n: nat)
    requires IsRun(steps, states) && n < |states| && SavesAreCurrent(steps, states, n)
    ensures AllBacked(states[n], states[0].mark)
  {
    if n > 0 {
      MarkedLedgersAreStillClean(steps, states, n - 1);
      InvHolds(steps, states, n - 1);
      assert Enabled(states[n - 1], steps[n - 1]);
      StepKeepsBacked(states[n - 1], steps[n - 1], states[0].mark, states[n]);
    }
  }

  // ----- One undisturbed pass -----

  /** The steps, all of auditor `a`, lead from one state to the other. */
  ghost predicate Leads(s: State, a: nat, steps: seq<Step>, s': State)
    decreases |steps|
  {
    if steps == [] then s' == s
    else !steps[0].Reorg? && steps[0].a == a && Enabled(s, steps[0]) && Leads(Apply(s, steps[0]), a, steps[1..], s')
  }

  lemma Prepend(s: State, a: nat, step: Step, rest: seq<Step>, s': State) returns (steps: seq<Step>)
    requires !step.Reorg? && step.a == a && Enabled(s, step) && Leads(Apply(s, step), a, rest, s')
    ensures Leads(s, a, steps, s')
  {
    steps := [step] + rest;
    assert steps[1..] == rest;
  }

  /** An open finding is seen through to its end, and a repaired one raises the mark. */
  lemma {:induction false} RepairRuns(s: State, a: nat, w: World) returns (steps: seq<Step>, s': State)
    requires a < |s.workers| && s.workers[a].phase.Repairing? && Usable(s.workers[a].opts)
    requires var f := s.workers[a].phase.finding; f.status == Open && f.attempts < s.workers[a].opts.maxRepairAttempts
    ensures var f, o := s.workers[a].phase.finding, s.workers[a].opts;
            var g := Repair(f, w.attempts, o.maxRepairAttempts);
            && Leads(s, a, steps, s') && a < |s'.workers| && s'.workers[a] == Worker(o, Idle)
            && s'.mark == if g.status == Repaired && !w.repairSaveFails then Max(s.mark, f.to) else s.mark
    decreases s.workers[a].opts.maxRepairAttempts - s.workers[a].phase.finding.attempts
  {
    var f, o := s.workers[a].phase.finding, s.workers[a].opts;
    var reply := w.attempts(f.attempts + 1);
    var g, s1 := AfterAttempt(f, reply, o.maxRepairAttempts), Apply(s, Attempt(a, reply));
    if g.status == Open {
      steps, s' := RepairRuns(s1, a, w);
    } else if g.status == Repaired {
      s' := Apply(s1, SaveRepair(a, w.repairSaveFails));
      steps := Prepend(s1, a, SaveRepair(a, w.repairSaveFails), [], s');
    } else {
      steps, s' := [], s1;
    }
    steps := Prepend(s, a, Attempt(a, reply), steps, s');
  }

  /** From the comparison on. */
  lemma ComparedRuns(s: State, a: nat, from: nat, to: nat, events: seq<RpcEvent>, census: seq<CensusRow>, w: World)
    returns (steps: seq<Step>, s': State, worked: bool, found: Option<FindingState>)
    requires a < |s.workers| && Usable(s.workers[a].opts) && from <= to && s.checks != []
    requires s.workers[a].phase == Scanned(to, SavedThrough(from, to, events, census),
                                           MismatchFrom(from, to, events, census), |s.checks| - 1)
    ensures Leads(s, a, steps, s') && a < |s'.workers| && s'.workers[a] == Worker(s.workers[a].opts, Idle)
    ensures Reconciled(s.workers[a].opts, from, to, events, census, w, s.mark, s'.mark, worked, found)
  {
    ScansMean(from, to, events, census);
    var o, saved := s.workers[a].opts, SavedThrough(from, to, events, census);
    var m := MismatchFrom(from, to, events, census);
    worked, found := saved == 0 || !w.prefixSaveFails, None;
    var s1 := Apply(s, SavePrefix(a, w.prefixSaveFails));
    if s1.workers[a].phase.Idle? {
      steps, s' := [], s1;
    } else if !w.recordFails && forall l: nat :: w.storedIds(l).Some? {
      steps, s' := RepairRuns(s1, a, w);
      found := Some(Repair(FindingState(m, MismatchTo(m, to, o), 0, Open), w.attempts, o.maxRepairAttempts));
    } else {
      s' := Apply(s1, GiveUp(a));
      steps := Prepend(s1, a, GiveUp(a), [], s');
    }
    steps := Prepend(s, a, SavePrefix(a, w.prefixSaveFails), steps, s');
  }

  /** The protocol does what a pass of a lone auditor does: left alone, an idle auditor whose window is not empty can go
      through its steps to the end, whatever the RPC, the store and the repair answer, and the mark moves as the pass
      moves it. */
  lemma PassInTheProtocol(s: State, a: nat, ingested: int, oldest: nat, events: seq<RpcEvent>, census: seq<CensusRow>,
                          w: World)
    returns (steps: seq<Step>, s': State, worked: bool, found: Option<FindingState>)
    requires a < |s.workers| && s.workers[a].phase.Idle? && Usable(s.workers[a].opts) && 0 <= s.mark
    requires Window(s.mark, ingested, oldest, s.workers[a].opts).Some?
    ensures Leads(s, a, steps, s') && a < |s'.workers| && s'.workers[a] == s.workers[a]
    ensures var (from, to) := Window(s.mark, ingested, oldest, s.workers[a].opts).value;
            from <= to && Reconciled(s.workers[a].opts, from, to, events, census, w, s.mark, s'.mark, worked, found)
  {
    var o := s.workers[a].opts;
    ChosenWindow(s.mark, ingested, oldest, o);
    var (from, to) := Window(s.mark, ingested, oldest, o).value;
    var s1 := Apply(s, Load(a));
    var s2 := Apply(s1, Choose(a, ingested, oldest));
    var s3 := Apply(s2, Fetch(a, events));
    var s4 := Apply(s3, Compare(a, census));
    steps, s', worked, found := ComparedRuns(s4, a, from, to, events, census, w);
    steps := Prepend(s3, a, Compare(a, census), steps, s');
    steps := Prepend(s2, a, Fetch(a, events), steps, s');
    steps := Prepend(s1, a, Choose(a, ingested, oldest), steps, s');
    steps := Prepend(s, a, Load(a), steps, s');
  }

  // ----- A single auditor -----

  /** Where the mark was, at least, when the auditor took up what it is working on. */
  function Base(s: State, p: Phase): int {
    match p
    case Idle => 0
    case Loaded(v) => v
    case Fetching(from, _) => from - 1
    case Fetched(from, _, _) => from - 1
    case Scanned(_, _, _, c) => if c < |s.checks| then s.checks[c].lo - 1 else 0
    case Repairing(f) => f.from - 1
    case Rechecked(_, c) => if c < |s.checks| then s.checks[c].lo - 1 else 0
  }

  /** The auditor's own check is the last one, and its window did not wrap around. */
  predicate OwnCheck(s: State, p: Phase) {
    match p
    case Loaded(v) => v < MAX_U32
    case Fetching(from, _) => 0 < from
    case Fetched(from, _, _) => 0 < from
    case Scanned(to, saved, d, c) =>
      c == |s.checks| - 1 && (saved == 0 && d <= to ==> d == s.checks[c].lo)
    case Rechecked(_, c) => c == |s.checks| - 1
    case _ => true
  }

  /** With one auditor: where a reorganisation has taken the mark below its base, the next ledger is not backed. */
  ghost predicate Overtaken(s: State, start: int) {
    |s.workers| == 1 && 0 <= s.mark &&
    var p := s.workers[0].phase;
    OwnCheck(s, p) && (s.mark < Base(s, p) ==> !Backed(s, start, s.mark + 1))
  }

  /** Neither rewrites nor checks of later ledgers back a ledger. */
  lemma UnbackedStays(s: State, s': State, start: int, l: nat)
    requires !Backed(s, start, l) && s.rewrites <= s'.rewrites && s.checks <= s'.checks
    requires forall c {:trigger s'.checks[c]} :: |s.checks| <= c < |s'.checks| ==> l < s'.checks[c].lo
    ensures !Backed(s', start, l)
  {
    assert forall r <- s.rewrites :: r in s'.rewrites;
    forall k: nat ensures !Vouches(s', k, l) {
      assert !Vouches(s, k, l);
      assert k < |s.checks| ==> s'.checks[k] == s.checks[k];
    }
  }

  /** A reorganisation that takes the mark back leaves the next ledger without backing. */
  lemma ReorgUnbacks(s: State, start: int, from: nat, to: nat)
    requires 0 < from <= to
    ensures !Backed(DoReorg(s, from, to), start, from)
  {
    var s' := DoReorg(s, from, to);
    var r := Rewrite(from, to, |s.checks|);
    assert r in s'.rewrites && Touches(r, from);
    forall k: nat ensures !Vouches(s', k, from) { assert k < |s'.checks| ==> k < r.at; }
  }

  /** A step of the auditor starts over behind a mark that is as high as its new base, or keeps mark and base and adds
      no check of earlier ledgers. */
  ghost predicate StaysBehind(s: State, s': State) {
    && |s.workers| == |s'.workers| == 1 && s'.rewrites == s.rewrites && s.checks <= s'.checks && s.mark <= s'.mark
    && OwnCheck(s', s'.workers[0].phase)
    && (s'.mark < Base(s', s'.workers[0].phase) ==>
          && s'.mark == s.mark < Base(s, s.workers[0].phase)
          && forall c {:trigger s'.checks[c]} :: |s.checks| <= c < |s'.checks| ==> s.mark + 1 < s'.checks[c].lo)
  }

  lemma ChooseStaysBehind(s: State, step: Step, start: int)
    requires Inv(s, start) && Overtaken(s, start) && Enabled(s, step) && step.Choose?
    ensures StaysBehind(s, Apply(s, step))
  {
    assert WorkerInv(s, 0);
    ChosenWindow(s.workers[0].phase.verified, step.ingested, step.oldest, s.workers[0].opts);
  }

  lemma CompareStaysBehind(s: State, step: Step, start: int)
    requires Overtaken(s, start) && Enabled(s, step) && step.Compare?
    ensures StaysBehind(s, Apply(s, step))
  {
    var p := s.workers[0].phase;
    ScansMean(p.from, p.to, p.events, step.census);
  }

  lemma AttemptStaysBehind(s: State, step: Step, start: int)
    requires Overtaken(s, start) && Enabled(s, step) && step.Attempt?
    ensures StaysBehind(s, Apply(s, step))
  {
  }

  lemma OthersStayBehind(s: State, step: Step, start: int)
    requires Inv(s, start) && Overtaken(s, start) && s.mark < MAX_U32 && Enabled(s, step)
    requires step.Load? || step.Fetch? || step.SavePrefix? || step.SaveRepair? || step.GiveUp?
    ensures StaysBehind(s, Apply(s, step))
  {
    assert WorkerInv(s, 0);
  }

  lemma StepStaysBehind(s: State, step: Step, start: int)
    requires Inv(s, start) && Overtaken(s, start) && s.mark < MAX_U32 && Enabled(s, step) && !step.Reorg?
    ensures StaysBehind(s, Apply(s, step))
  {
    if step.Choose? {
      ChooseStaysBehind(s, step, start);
    } else if step.Compare? {
      CompareStaysBehind(s, step, start);
    } else if step.Attempt? {
      AttemptStaysBehind(s, step, start);
    } else {
      OthersStayBehind(s, step, start);
    }
  }

  lemma StepKeepsOvertaken(s: State, step: Step, start: int, s': State)
    requires Inv(s, start) && Overtaken(s, start) && s.mark < MAX_U32 && Enabled(s, step) && s' == Apply(s, step)
    ensures Overtaken(s', start)
  {
    if step.Reorg? && step.from <= s.mark {
      ReorgUnbacks(s, start, step.from, step.to);
    } else if s'.mark < Base(s', s'.workers[0].phase) {
      if !step.Reorg? {
        StepStaysBehind(s, step, start);
      }
      UnbackedStays(s, s', start, s.mark + 1);
    } else if !step.Reorg? {
      StepStaysBehind(s, step, start);
    }
  }

  /** A lone auditor's save that is not current leaves a ledger below the mark without backing. */
  lemma StaleSaveUnbacks(s: State, step: Step, start: int)
    requires Inv(s, start) && Overtaken(s, start) && Enabled(s, step) && !CurrentAt(s, step)
    ensures !AllBacked(Apply(s, step), start)
  {
    var (c, ledger) := Reliance(s, step).value;
    assert WorkerInv(s, 0);
    var l: nat := s.mark + 1;
    if s.checks[c].lo - 1 <= s.mark {
      var r :| r in s.rewrites && c < r.at && r.from <= r.to && r.from <= ledger && s.mark < r.to;
      l := if r.from <= s.mark then s.mark + 1 else r.from;
      assert Touches(r, l);
      assert forall k: nat :: Vouches(s, k, l) ==> r.at <= k;
    }
    UnbackedStays(s, Apply(s, step), start, l);
  }

  lemma {:induction false} OvertakenHolds(steps: seq<Step>, states: seq<State>, n: nat)
    requires IsRun(steps, states) && n < |states| && |states[0].workers| == 1
    requires forall m {:trigger states[m]} :: 0 <= m < |states| ==> states[m].mark < MAX_U32
    ensures Overtaken(states[n], states[0].mark)
  {
    if n == 0 {
      assert states[0].workers[0].phase.Idle?;
    } else {
      OvertakenHolds(steps, states, n - 1);
      InvHolds(steps, states, n - 1);
      assert Enabled(states[n - 1], steps[n - 1]);
      StepKeepsOvertaken(states[n - 1], steps[n - 1], states[0].mark, states[n]);
    }
  }

  /** For one auditor, below the last 32-bit ledger: the mark covers only backed ledgers at all times exactly when every
      save that raises it is current. (With several, another auditor's check may back what a stale save covers.) */
  lemma LoneAuditorIsRightIff(steps: seq<Step>, states: seq<State>)
    requires IsRun(steps, states) && |states[0].workers| == 1
    requires forall m {:trigger states[m]} :: 0 <= m < |states| ==> states[m].mark < MAX_U32
    ensures (forall n {:trigger states[n]} :: 0 <= n < |states| ==> AllBacked(states[n], states[0].mark))
            <==> SavesAreCurrent(steps, states, |steps|)
  {
    if SavesAreCurrent(steps, states, |steps|) {
      forall n | 0 <= n < |states| ensures AllBacked(states[n], states[0].mark) {
        MarkedLedgersAreStillClean(steps, states, n);
      }
    } else {
      var k :| 0 <= k < |steps| && !(Enabled(states[k], steps[k]) && CurrentAt(states[k], steps[k]));
      OvertakenHolds(steps, states, k);
      InvHolds(steps, states, k);
      StaleSaveUnbacks(states[k], steps[k], states[0].mark);
      assert !AllBacked(states[k + 1], states[0].mark);
    }
  }

  /** The auditor has compared ledger 1 and not saved yet. */
  function Compared(o: Options, rewrites: seq<Rewrite>): State {
    State(0, [Worker(o, Scanned(1, 1, 2, 0))], 0, [Check(1, 1, [], [])], rewrites)
  }

  lemma OneAuditorCompares(o: Options)
    requires o == Options(1, 1, 1, 1)
    ensures var s0 := State(0, [Worker(o, Idle)], 0, [], []);
            var s1 := State(0, [Worker(o, Loaded(0))], 0, [], []);
            var s2 := State(0, [Worker(o, Fetching(1, 1))], 0, [], []);
            var s3 := State(0, [Worker(o, Fetched(1, 1, []))], 0, [], []);
            && Apply(s0, Load(0)) == s1 && Apply(s1, Choose(0, 1, 0)) == s2 && Apply(s2, Fetch(0, [])) == s3
            && Apply(s3, Compare(0, [])) == Compared(o, [])
  {
    assert Matches(1, [], []);
    assert FirstDirty(1, 1, [], []) == 2;
    assert Window(0, 1, 0, o) == Some((1, 1));
  }

  lemma AuditorSavesLate(o: Options)
    ensures var s6 := State(1, [Worker(o, Idle)], 1, [Check(1, 1, [], [])], [Rewrite(1, 1, 1)]);
            && Apply(Compared(o, []), Reorg(1, 1)) == Compared(o, [Rewrite(1, 1, 1)])
            && Apply(Compared(o, [Rewrite(1, 1, 1)]), SavePrefix(0, false)) == s6
            && !Backed(s6, 0, 1)
  {
    var r := Rewrite(1, 1, 1);
    assert [] + [r] == [r] && r in [r] && Touches(r, 1);
  }

  /** One auditor, one ledger: it compares ledger 1, a reorganisation rewrites it, and only then the auditor saves. */
  lemma StaleSaveCoversRewrittenLedger()
    ensures exists steps: seq<Step>, states: seq<State> ::
              IsRun(steps, states) && |steps| == 6 && !AllBacked(states[6], states[0].mark)
  {
    var o := Options(1, 1, 1, 1);
    OneAuditorCompares(o);
    AuditorSavesLate(o);
    var s6 := State(1, [Worker(o, Idle)], 1, [Check(1, 1, [], [])], [Rewrite(1, 1, 1)]);
    var steps := [Load(0), Choose(0, 1, 0), Fetch(0, []), Compare(0, []), Reorg(1, 1), SavePrefix(0, false)];
    var states := [State(0, [Worker(o, Idle)], 0, [], []), State(0, [Worker(o, Loaded(0))], 0, [], []),
                   State(0, [Worker(o, Fetching(1, 1))], 0, [], []),
                     State(0, [Worker(o, Fetched(1, 1, []))], 0, [], []),
                   Compared(o, []), Compared(o, [Rewrite(1, 1, 1)]), s6];
    forall n | 0 <= n < |steps|
      ensures Enabled(states[n], steps[n]) && states[n + 1] == Apply(states[n], steps[n])
    {
    }
    assert IsRun(steps, states);
  }
}
