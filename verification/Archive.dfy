/** Names of archived objects (internal/archive/archive.go, objectPrefix). */
module ObjectKeys {
  import opened Common

  function ZeroPad(s: string, width: nat): string
    decreases width - |s|
  {
    if |s| >= width then s else ZeroPad("0" + s, width)
  }

  /** The %07d verb: seven columns, the sign included. */
  function SevenColumns(n: int): string {
    if n < 0 then "-" + ZeroPad(Digits(-n), 6) else ZeroPad(Digits(n), 7)
  }

  function Base(prefix: string): string {
    if prefix != "" then prefix + "/" + "events/schema=1" else "events/schema=1"
  }

  function ObjectPrefix(prefix: string, ledgerStart: int): string {
    Base(prefix) + "/ledger_start=" + SevenColumns(ledgerStart)
  }

  function ManifestKey(prefix: string, ledgerStart: int): string {
    ObjectPrefix(prefix, ledgerStart) + "/manifest.json"
  }

  function DataKey(prefix: string, ledgerStart: int): string {
    ObjectPrefix(prefix, ledgerStart) + "/data.ndjson.gz"
  }

  // ----- The number can be read back, so keys never collide -----

  predicate AllDigits(s: string) {
    forall i | 0 <= i < |s| :: '0' <= s[i] <= '9'
  }

  function Value(s: string): nat
    requires AllDigits(s)
  {
    if s == "" then 0 else 10 * Value(s[..|s| - 1]) + (s[|s| - 1] - '0') as nat
  }

  function ReadBack(s: string): int
    requires s != "" && AllDigits(if s[0] == '-' then s[1..] else s)
  {
    if s[0] == '-' then -(Value(s[1..]) as int) else Value(s) as int
  }

  lemma {:induction false} DigitsHaveTheirValue(n: nat)
    ensures AllDigits(Digits(n)) && Value(Digits(n)) == n
  {
    if n != 0 {
      DigitsHaveTheirValue(n / 10);
      assert Digits(n)[..|Digits(n)| - 1] == Digits(n / 10);
    }
  }

  lemma {:induction false} LeadingZeroIsWorthNothing(s: string)
    requires AllDigits(s)
    ensures AllDigits("0" + s) && Value("0" + s) == Value(s)
  {
    if s == "" {
      assert ("0" + s)[..0] == "";
    } else {
      LeadingZeroIsWorthNothing(s[..|s| - 1]);
      assert ("0" + s)[..|s|] == "0" + s[..|s| - 1];
    }
  }

  lemma {:induction false} PaddingKeepsTheValue(s: string, width: nat)
    requires AllDigits(s)
    ensures AllDigits(ZeroPad(s, width)) && Value(ZeroPad(s, width)) == Value(s) && |ZeroPad(s, width)| >= width
    decreases width - |s|
  {
    if |s| < width {
      LeadingZeroIsWorthNothing(s);
      PaddingKeepsTheValue("0" + s, width);
    }
  }

  lemma ColumnsReadBack(n: int)
    ensures var s := SevenColumns(n); s != "" && AllDigits(if s[0] == '-' then s[1..] else s) && ReadBack(s) == n
  {
    var m: nat := if n < 0 then -n else n;
    DigitsHaveTheirValue(m);
    PaddingKeepsTheValue(Digits(m), if n < 0 then 6 else 7);
    var s := SevenColumns(n);
    if n < 0 {
      assert s[1..] == ZeroPad(Digits(m), 6);
    }
  }

  lemma SameStart(base: string, tail: string, a: int, b: int)
    requires base + SevenColumns(a) + tail == base + SevenColumns(b) + tail
    ensures a == b
  {
    var x, y := SevenColumns(a), SevenColumns(b);
    assert (base + x + tail)[|base|..|base| + |x|] == x;
    assert (base + y + tail)[|base|..|base| + |y|] == y;
    ColumnsReadBack(a);
    ColumnsReadBack(b);
  }

  /** Two objects share a key only if they are the same kind of object for the same first ledger. */
  lemma KeysNeverCollide(prefix: string, a: int, b: int)
    ensures ManifestKey(prefix, a) != DataKey(prefix, b)
    ensures a != b ==> ManifestKey(prefix, a) != ManifestKey(prefix, b) && DataKey(prefix, a) != DataKey(prefix, b)
  {
    var m, d := ManifestKey(prefix, a), DataKey(prefix, b);
    assert m[|m| - 1] == 'n' && d[|d| - 1] == 'z';
    var base := Base(prefix) + "/ledger_start=";
    if ManifestKey(prefix, a) == ManifestKey(prefix, b) {
      SameStart(base, "/manifest.json", a, b);
    }
    if DataKey(prefix, a) == DataKey(prefix, b) {
      SameStart(base, "/data.ndjson.gz", a, b);
    }
  }
}

/** Paging the events table into one list (internal/archive/archive.go, the query loop of ArchiveRange). */
module ArchivePaging {
  import opened Common

  const ARCHIVE_BATCH_SIZE: nat := 500

  datatype Event = Event(id: int, ledger: nat, payload: nat)

  /** One version of the events table, in ID order. */
  type Table = seq<Event>

  predicate Ascending(rows: seq<Event>) {
    forall i, j | 0 <= i < j < |rows| :: rows[i].id < rows[j].id
  }

  /** The store's reading of the bounds: both ends included, and an end that is not positive does not bind. */
  predicate InRange(e: Event, fromLedger: int, toLedger: int) {
    && (fromLedger > 0 ==> e.ledger >= fromLedger)
    && (toLedger > 0 ==> e.ledger <= toLedger)
  }

  predicate Wanted(e: Event, fromLedger: int, toLedger: int, cursor: Option<int>) {
    InRange(e, fromLedger, toLedger) && (cursor.Some? ==> e.id > cursor.value)
  }

  function Select(t: Table, fromLedger: int, toLedger: int, cursor: Option<int>): seq<Event> {
    if t == [] then []
    else
      (if Wanted(t[0], fromLedger, toLedger, cursor) then [t[0]] else []) + Select(t[1..], fromLedger, toLedger, cursor)
  }

  /** One page and the cursor of the next: the store reads one row more than the limit to know whether there is one. */
  function Page(t: Table, fromLedger: int, toLedger: int, cursor: Option<int>): (seq<Event>, Option<int>) {
    var rows := Select(t, fromLedger, toLedger, cursor);
    if |rows| > ARCHIVE_BATCH_SIZE
    then (rows[..ARCHIVE_BATCH_SIZE], Some(rows[ARCHIVE_BATCH_SIZE - 1].id))
    else (rows, None)
  }

  datatype Collected = Lines(events: seq<Event>) | QueryFailed

  /** The k-th page is answered from the k-th entry: the table as it then stands, or a failed query. Running out of
      entries is the caller's context ending. */
  function Collect(answers: seq<Option<Table>>, fromLedger: int, toLedger: int, cursor: Option<int>): Collected {
    if answers == [] || answers[0].None? then QueryFailed
    else
      var (rows, next) := Page(answers[0].value, fromLedger, toLedger, cursor);
      if next.None? then Lines(rows)
      else
        var rest := Collect(answers[1..], fromLedger, toLedger, next);
        if rest.Lines? then Lines(rows + rest.events) else QueryFailed
  }

  /** The answers the loop asks for: up to the page that has no next one, or the failure. */
  function Consumed(answers: seq<Option<Table>>, fromLedger: int, toLedger: int,
                    cursor: Option<int>): seq<Option<Table>> {
    if answers == [] || answers[0].None? then answers[..if answers == [] then 0 else 1]
    else
      var next := Page(answers[0].value, fromLedger, toLedger, cursor).1;
      [answers[0]] + if next.None? then [] else Consumed(answers[1..], fromLedger, toLedger, next)
  }

  /** Answers it does not ask for make no difference. */
  lemma {:induction false} OnlyConsumedMatters(answers: seq<Option<Table>>, fromLedger: int, toLedger: int,
                                               cursor: Option<int>)
    ensures var used := Consumed(answers, fromLedger, toLedger, cursor);
            && used <= answers
            && Collect(used, fromLedger, toLedger, cursor) == Collect(answers, fromLedger, toLedger, cursor)
  {
    if answers != [] && answers[0].Some? {
      var next := Page(answers[0].value, fromLedger, toLedger, cursor).1;
      if next.Some? {
        OnlyConsumedMatters(answers[1..], fromLedger, toLedger, next);
        var rest := Consumed(answers[1..], fromLedger, toLedger, next);
        assert ([answers[0]] + rest)[1..] == rest;
      }
    }
  }

  /** What the archive writer has been given: rows encoded so far, their count, the first and the last ID. */
  datatype Written = Written(rows: seq<Event>, count: nat, firstID: Option<int>, lastID: Option<int>)

  predicate Tallied(w: Written) {
    && w.count == |w.rows|
    && (w.rows != [] ==> w.firstID == Some(w.rows[0].id) && w.lastID == Some(w.rows[|w.rows| - 1].id))
  }

  method WritePage(w: Written, page: seq<Event>) returns (r: Written)
    requires Tallied(w)
    ensures Tallied(r) && r.rows == w.rows + page
  {
    r := w;
    for i := 0 to |page|
      invariant Tallied(r) && r.rows == w.rows + page[..i]
    {
      if r.count == 0 {
        r := r.(firstID := Some(page[i].id));
      }
      r := Written(r.rows + [page[i]], r.count + 1, r.firstID, Some(page[i].id));
    }
  }

  /** The whole listing, when `done` was written before the remaining answers are asked from `cursor`. */
  function Continued(done: seq<Event>, answers: seq<Option<Table>>, fromLedger: int, toLedger: int,
                     cursor: Option<int>): Collected {
    var rest := Collect(answers, fromLedger, toLedger, cursor);
    if rest.Lines? then Lines(done + rest.events) else QueryFailed
  }

  lemma OnePageFurther(done: seq<Event>, answers: seq<Option<Table>>, fromLedger: int, toLedger: int,
                       cursor: Option<int>)
    requires answers != [] && answers[0].Some?
    ensures var (rows, next) := Page(answers[0].value, fromLedger, toLedger, cursor);
            Continued(done, answers, fromLedger, toLedger, cursor)
            == if next.None? then Lines(done + rows)
              else Continued(done + rows, answers[1..], fromLedger, toLedger, next)
  {
    var (rows, next) := Page(answers[0].value, fromLedger, toLedger, cursor);
    var rest := Collect(answers[1..], fromLedger, toLedger, next);
    assert rest.Lines? ==> done + rows + rest.events == done + (rows + rest.events);
  }

  /** The loop: pages until the cursor is empty, counting rows and noting the first and last ID. */
  method CollectEvents(answers: seq<Option<Table>>, fromLedger: int, toLedger: int) returns (ok: bool, w: Written)
    ensures ok <==> Collect(answers, fromLedger, toLedger, None).Lines?
    ensures ok ==> Collect(answers, fromLedger, toLedger, None) == Lines(w.rows) && Tallied(w)
  {
    w := Written([], 0, None, None);
    var cursor: Option<int> := None;
    var k := 0;
    while k < |answers|
      invariant 0 <= k <= |answers| && Tallied(w)
      invariant Collect(answers, fromLedger, toLedger, None)
            == Continued(w.rows, answers[k..], fromLedger, toLedger, cursor)
    {
      if answers[k].None? {
        return false, w;
      }
      assert answers[k..][0] == answers[k] && answers[k..][1..] == answers[k + 1..];
      OnePageFurther(w.rows, answers[k..], fromLedger, toLedger, cursor);
      var (rows, next) := Page(answers[k].value, fromLedger, toLedger, cursor);
      w := WritePage(w, rows);
      if next.None? {
        return true, w;
      }
      cursor, k := next, k + 1;
    }
    ok := false;
  }

  // ----- What a page holds -----

  lemma {:induction false} SelectKeeps(t: Table, fromLedger: int, toLedger: int, cursor: Option<int>, e: Event)
    ensures e in Select(t, fromLedger, toLedger, cursor) <==> e in t && Wanted(e, fromLedger, toLedger, cursor)
  {
    if t != [] {
      SelectKeeps(t[1..], fromLedger, toLedger, cursor, e);
      assert t == [t[0]] + t[1..];
    }
  }

  lemma {:induction false} SelectAscends(t: Table, fromLedger: int, toLedger: int, cursor: Option<int>)
    requires Ascending(t)
    ensures Ascending(Select(t, fromLedger, toLedger, cursor))
  {
    if t != [] {
      SelectAscends(t[1..], fromLedger, toLedger, cursor);
      var tail := Select(t[1..], fromLedger, toLedger, cursor);
      forall e | e in tail ensures e.id > t[0].id { SelectKeeps(t[1..], fromLedger, toLedger, cursor, e); }
      PagesJoin([t[0]], tail);
      assert [] + tail == tail;
    }
  }

  lemma SelectMeans(t: Table, fromLedger: int, toLedger: int, cursor: Option<int>)
    requires Ascending(t)
    ensures var rows := Select(t, fromLedger, toLedger, cursor);
            && Ascending(rows) && forall e :: e in rows <==> e in t && Wanted(e, fromLedger, toLedger, cursor)
  {
    SelectAscends(t, fromLedger, toLedger, cursor);
    forall e
      ensures e in Select(t, fromLedger, toLedger, cursor) <==> e in t && Wanted(e, fromLedger, toLedger, cursor)
    {
      SelectKeeps(t, fromLedger, toLedger, cursor, e);
    }
  }

  /** The answers are versions of one table: each in ID order. */
  predicate Versions(answers: seq<Option<Table>>) {
    forall k | 0 <= k < |answers| :: answers[k].Some? ==> Ascending(answers[k].value)
  }

  predicate SeenIn(answers: seq<Option<Table>>, e: Event) {
    exists k :: 0 <= k < |answers| && answers[k].Some? && e in answers[k].value
  }

  predicate AlwaysIn(answers: seq<Option<Table>>, e: Event) {
    forall k | 0 <= k < |answers| :: answers[k].Some? ==> e in answers[k].value
  }

  predicate AllWanted(rows: seq<Event>, answers: seq<Option<Table>>, fromLedger: int, toLedger: int,
                      cursor: Option<int>) {
    forall e <- rows :: Wanted(e, fromLedger, toLedger, cursor) && SeenIn(answers, e)
  }

  lemma PageIsSound(answers: seq<Option<Table>>, fromLedger: int, toLedger: int, cursor: Option<int>)
    requires Versions(answers) && answers != [] && answers[0].Some?
    ensures var rows := Page(answers[0].value, fromLedger, toLedger, cursor).0;
            Ascending(rows) && AllWanted(rows, answers, fromLedger, toLedger, cursor)
  {
    SelectMeans(answers[0].value, fromLedger, toLedger, cursor);
    var rows := Page(answers[0].value, fromLedger, toLedger, cursor).0;
    forall e | e in rows
      ensures Wanted(e, fromLedger, toLedger, cursor) && SeenIn(answers, e)
    {
      assert e in answers[0].value;
    }
  }

  lemma PagesJoin(page: seq<Event>, rest: seq<Event>)
    requires page != [] && Ascending(page) && Ascending(rest) && forall e <- rest :: e.id > page[|page| - 1].id
    ensures Ascending(page + rest)
  {
    assert forall i | 0 <= i < |rest| :: rest[i] in rest;
  }

  /** However the table changes between pages, no event is listed twice, the list is in ID order, and every line is a
      wanted event of some version. */
  lemma {:induction false} CollectIsSound(answers: seq<Option<Table>>, fromLedger: int, toLedger: int,
                                          cursor: Option<int>)
    requires Versions(answers)
    ensures var c := Collect(answers, fromLedger, toLedger, cursor);
            c.Lines? ==> Ascending(c.events) && AllWanted(c.events, answers, fromLedger, toLedger, cursor)
  {
    var c := Collect(answers, fromLedger, toLedger, cursor);
    if c.Lines? {
      PageIsSound(answers, fromLedger, toLedger, cursor);
      var (rows, next) := Page(answers[0].value, fromLedger, toLedger, cursor);
      if next.Some? {
        CollectIsSound(answers[1..], fromLedger, toLedger, next);
        var rest := Collect(answers[1..], fromLedger, toLedger, next).events;
        PagesJoin(rows, rest);
        assert rows[|rows| - 1] in rows;
        forall e | e in rest
          ensures Wanted(e, fromLedger, toLedger, cursor) && SeenIn(answers, e)
        {
        }
      }
    }
  }

  lemma {:induction false} ListsWhatStays(answers: seq<Option<Table>>, fromLedger: int, toLedger: int,
                                          cursor: Option<int>, e: Event)
    requires Versions(answers) && AlwaysIn(answers, e) && Wanted(e, fromLedger, toLedger, cursor)
    ensures var c := Collect(answers, fromLedger, toLedger, cursor); c.Lines? ==> e in c.events
  {
    var c := Collect(answers, fromLedger, toLedger, cursor);
    if c.Lines? {
      SelectMeans(answers[0].value, fromLedger, toLedger, cursor);
      var all := Select(answers[0].value, fromLedger, toLedger, cursor);
      var (rows, next) := Page(answers[0].value, fromLedger, toLedger, cursor);
      var i :| 0 <= i < |all| && all[i] == e;
      if i < |rows| {
        assert rows[i] == e;
      } else {
        ListsWhatStays(answers[1..], fromLedger, toLedger, next, e);
      }
    }
  }

  /** An event that is in every version the loop queried is never skipped at a page boundary. */
  lemma CollectIsComplete(answers: seq<Option<Table>>, fromLedger: int, toLedger: int, cursor: Option<int>, e: Event)
    requires Versions(answers) && Wanted(e, fromLedger, toLedger, cursor)
    requires AlwaysIn(Consumed(answers, fromLedger, toLedger, cursor), e)
    ensures var c := Collect(answers, fromLedger, toLedger, cursor); c.Lines? ==> e in c.events
  {
    OnlyConsumedMatters(answers, fromLedger, toLedger, cursor);
    ListsWhatStays(Consumed(answers, fromLedger, toLedger, cursor), fromLedger, toLedger, cursor, e);
  }

  lemma SelectedIsLater(t: Table, fromLedger: int, toLedger: int, cursor: Option<int>, j: nat)
    requires Ascending(t) && t != [] && j < |Select(t[1..], fromLedger, toLedger, cursor)|
    ensures !Wanted(t[0], fromLedger, toLedger, Some(Select(t[1..], fromLedger, toLedger, cursor)[j].id))
  {
    SelectMeans(t[1..], fromLedger, toLedger, cursor);
    assert Select(t[1..], fromLedger, toLedger, cursor)[j] in t[1..];
  }

  /** Asking again after the k-th selected row gives the rows that follow it. */
  lemma {:induction false} SelectResumes(t: Table, fromLedger: int, toLedger: int, cursor: Option<int>, k: nat)
    requires Ascending(t) && k < |Select(t, fromLedger, toLedger, cursor)|
    ensures var rows := Select(t, fromLedger, toLedger, cursor);
            Select(t, fromLedger, toLedger, Some(rows[k].id)) == rows[k + 1..]
  {
    var rows, tail := Select(t, fromLedger, toLedger, cursor), Select(t[1..], fromLedger, toLedger, cursor);
    if k == 0 && Wanted(t[0], fromLedger, toLedger, cursor) {
      SelectAbove(t[1..], fromLedger, toLedger, cursor, t[0].id);
      assert rows[1..] == tail;
    } else {
      var j := if Wanted(t[0], fromLedger, toLedger, cursor) then k - 1 else k;
      assert rows[k] == tail[j] && rows[k + 1..] == tail[j + 1..];
      SelectedIsLater(t, fromLedger, toLedger, cursor, j);
      SelectResumes(t[1..], fromLedger, toLedger, cursor, j);
    }
  }

  lemma {:induction false} SelectAbove(t: Table, fromLedger: int, toLedger: int, cursor: Option<int>, id: int)
    requires Ascending(t) && (t != [] ==> id < t[0].id) && (cursor.Some? ==> cursor.value < id)
    ensures Select(t, fromLedger, toLedger, Some(id)) == Select(t, fromLedger, toLedger, cursor)
  {
    if t != [] {
      SelectAbove(t[1..], fromLedger, toLedger, cursor, id);
    }
  }

  function Pages(t: Table, n: nat): seq<Option<Table>> {
    if n == 0 then [] else [Some(t)] + Pages(t, n - 1)
  }

  /** A table that does not change is listed exactly: every matching event once, in ID order. A page that is exactly
      full needs no further one. */
  lemma {:induction false} FixedTableIsListedExactly(t: Table, fromLedger: int, toLedger: int, cursor: Option<int>,
                                                     n: nat)
    requires Ascending(t) && n > 0
    decreases n
    ensures var rows := Select(t, fromLedger, toLedger, cursor);
            Collect(Pages(t, n), fromLedger, toLedger, cursor)
            == if |rows| <= n * ARCHIVE_BATCH_SIZE then Lines(rows) else QueryFailed
  {
    var rows := Select(t, fromLedger, toLedger, cursor);
    assert Pages(t, n)[0] == Some(t) && Pages(t, n)[1..] == Pages(t, n - 1);
    if |rows| > ARCHIVE_BATCH_SIZE {
      SelectResumes(t, fromLedger, toLedger, cursor, ARCHIVE_BATCH_SIZE - 1);
      if n > 1 {
        FixedTableIsListedExactly(t, fromLedger, toLedger, Some(rows[ARCHIVE_BATCH_SIZE - 1].id), n - 1);
      }
      assert rows[..ARCHIVE_BATCH_SIZE] + rows[ARCHIVE_BATCH_SIZE..] == rows;
    }
  }

  // ----- The documented half-open range -----

  /** The rows the documentation promises: from the first ledger on, and below the last. */
  function Documented(t: Table, fromLedger: int, toLedger: int): seq<Event> {
    if t == [] then []
    else (if fromLedger <= t[0].ledger < toLedger then [t[0]] else []) + Documented(t[1..], fromLedger, toLedger)
  }

  /** An event past the documented range that the code lists: on the last ledger, or anywhere when the last ledger is
      not positive. */
  predicate Beyond(e: Event, fromLedger: int, toLedger: int) {
    fromLedger <= e.ledger && (e.ledger == toLedger || toLedger <= 0)
  }

  predicate NoneBeyond(t: Table, fromLedger: int, toLedger: int) {
    forall e <- t :: !Beyond(e, fromLedger, toLedger)
  }

  lemma {:induction false} SelectIsDocumentedIff(t: Table, fromLedger: int, toLedger: int)
    ensures var listed, promised := Select(t, fromLedger, toLedger, None), Documented(t, fromLedger, toLedger);
            |promised| <= |listed| && (listed == promised <==> NoneBeyond(t, fromLedger, toLedger))
  {
    if t != [] {
      SelectIsDocumentedIff(t[1..], fromLedger, toLedger);
      var e, listed, promised :=
        t[0], Select(t[1..], fromLedger, toLedger, None), Documented(t[1..], fromLedger, toLedger);
      assert t == [e] + t[1..];
      assert NoneBeyond(t, fromLedger, toLedger)
        <==> !Beyond(e, fromLedger, toLedger) && NoneBeyond(t[1..], fromLedger, toLedger);
      assert [] + listed == listed && [] + promised == promised;
      assert [e] + listed == [e] + promised <==> listed == promised by {
        assert ([e] + listed)[1..] == listed && ([e] + promised)[1..] == promised;
      }
    }
  }

  /** Exactly when the listing of a fixed table is the documented one: for a positive last ledger, when no event from
      the first ledger on lies on it; for any other, when there is no event from the first ledger on. */
  lemma ListingIsDocumentedIff(t: Table, fromLedger: int, toLedger: int, n: nat)
    requires Ascending(t) && 0 < n && |Select(t, fromLedger, toLedger, None)| <= n * ARCHIVE_BATCH_SIZE
    ensures Collect(Pages(t, n), fromLedger, toLedger, None) == Lines(Documented(t, fromLedger, toLedger))
            <==> forall e <- t :: fromLedger <= e.ledger ==> toLedger > 0 && e.ledger != toLedger
  {
    FixedTableIsListedExactly(t, fromLedger, toLedger, None, n);
    SelectIsDocumentedIff(t, fromLedger, toLedger);
  }

  /** An event on the last ledger is listed. */
  lemma LastLedgerIsListed(e: Event, fromLedger: int)
    requires fromLedger <= e.ledger && 0 < e.ledger
    ensures Collect([Some([e])], fromLedger, e.ledger, None) == Lines([e])
    ensures Documented([e], fromLedger, e.ledger) == []
  {
    assert [e][1..] == [] && Documented([e][1..], fromLedger, e.ledger) == [];
    assert Select([e], fromLedger, e.ledger, None) == [e];
  }
}

/** Archiving ledger ranges to object storage (internal/archive/archive.go, ArchiveRange and IsArchived). */
module Archive {
  import opened Common
  import opened ObjectKeys
  import opened ArchivePaging

  const SCHEMA_VERSION := 1

  /** A stored object, by what it decodes to. */
  datatype Object =
    | Data(lines: seq<Event>)
    | Manifest(schema: int, ledgerStart: int, ledgerEnd: int, rowCount: int)

  type Objects = map<string, Object>

  /** What became of one upload. An upload that was stored without the archiver hearing of it is also what a crash
      right after the upload leaves behind. */
  datatype Upload = Acknowledged | Lost | Unacknowledged

  /** Everything outside the archiver's control during one call. */
  datatype Conditions = Conditions(lagging: bool, statFails: bool, readFails: bool, data: Upload, manifest: Upload)

  const CLEAR := Conditions(false, false, false, Acknowledged, Acknowledged)

  /** `hashed` is the object whose SHA-256 is returned. */
  datatype Outcome = Archived(uri: string, hashed: Object) | NoEvents | Deferred | Failed

  function Put(objects: Objects, key: string, body: Object, upload: Upload): Objects {
    if upload == Lost then objects else objects[key := body]
  }

  function CheckExisting(objects: Objects, prefix: string, fromLedger: int, toLedger: int, c: Conditions): Outcome
    requires ManifestKey(prefix, fromLedger) in objects
  {
    var m, dataKey := objects[ManifestKey(prefix, fromLedger)], DataKey(prefix, fromLedger);
    if c.readFails || !m.Manifest? || m.schema != SCHEMA_VERSION then Failed
    else if m.ledgerStart != fromLedger || m.ledgerEnd != toLedger then Failed
    else if dataKey !in objects then Failed
    else Archived(ObjectPrefix(prefix, fromLedger), objects[dataKey])
  }

  /** Data first, then the manifest that vouches for it. */
  function StoreRows(objects: Objects, uri: string, dataKey: string, manifestKey: string, rows: seq<Event>,
                     manifest: Object, c: Conditions): (Outcome, Objects) {
    var withData := Put(objects, dataKey, Data(rows), c.data);
    if c.data != Acknowledged then (Failed, withData)
    else
      var withManifest := Put(withData, manifestKey, manifest, c.manifest);
      if c.manifest != Acknowledged then (Failed, withManifest) else (Archived(uri, Data(rows)), withManifest)
  }

  /** One call, as a function of what it meets. */
  function ArchiveCall(objects: Objects, prefix: string, call: Call): (Outcome, Objects) {
    if call.c.lagging then (Deferred, objects)
    else if call.c.statFails then (Failed, objects)
    else if ManifestKey(prefix, call.fromLedger) in objects then
      (CheckExisting(objects, prefix, call.fromLedger, call.toLedger, call.c), objects)
    else
      var listed := Collect(call.answers, call.fromLedger, call.toLedger, None);
      if listed.QueryFailed? then (Failed, objects)
      else if listed.events == [] then (NoEvents, objects)
      else
        StoreRows(objects, ObjectPrefix(prefix, call.fromLedger), DataKey(prefix, call.fromLedger),
                  ManifestKey(prefix, call.fromLedger), listed.events,
                  Manifest(SCHEMA_VERSION, call.fromLedger, call.toLedger, |listed.events|), call.c)
  }

  datatype Call = Call(fromLedger: int, toLedger: int, answers: seq<Option<Table>>, c: Conditions)

  /** Whether a compatible manifest covers the range and its data object is there; None is an error. */
  function Covered(objects: Objects, prefix: string, ledgerStart: int, ledgerEnd: int, c: Conditions): Option<bool> {
    var manifestKey := ManifestKey(prefix, ledgerStart);
    if c.statFails then None
    else if manifestKey !in objects then Some(false)
    else
      var m := objects[manifestKey];
      if c.readFails || !m.Manifest? || m.schema != SCHEMA_VERSION then None
      else Some(m.ledgerStart <= ledgerStart && ledgerEnd <= m.ledgerEnd && DataKey(prefix, ledgerStart) in objects)
  }

  class Archiver {
    const prefix: string
    var objects: Objects

    constructor (prefix: string)
      ensures this.prefix == prefix && objects == map[]
    {
      this.prefix, objects := prefix, map[];
    }

    method PutObject(key: string, body: Object, upload: Upload) returns (ok: bool)
      modifies this
      ensures objects == Put(old(objects), key, body, upload) && ok == upload.Acknowledged?
    {
      if upload != Lost {
        objects := objects[key := body];
      }
      ok := upload.Acknowledged?;
    }

    method ArchiveRange(fromLedger: int, toLedger: int, answers: seq<Option<Table>>, c: Conditions) returns (r: Outcome)
      modifies this
      ensures (r, objects) == ArchiveCall(old(objects), prefix, Call(fromLedger, toLedger, answers, c))
    {
      if c.lagging {
        return Deferred;
      }
      var uri := ObjectPrefix(prefix, fromLedger);
      var manifestKey, dataKey := uri + "/manifest.json", uri + "/data.ndjson.gz";
      if c.statFails {
        return Failed;
      }
      if manifestKey in objects {
        var m := objects[manifestKey];
        if c.readFails || !m.Manifest? || m.schema != SCHEMA_VERSION {
          return Failed;
        }
        if m.ledgerStart != fromLedger || m.ledgerEnd != toLedger || dataKey !in objects {
          return Failed;
        }
        return Archived(uri, objects[dataKey]);
      }
      var ok, w := CollectEvents(answers, fromLedger, toLedger);
      if !ok {
        return Failed;
      }
      if w.count == 0 {
        return NoEvents;
      }
      ok := PutObject(dataKey, Data(w.rows), c.data);
      if !ok {
        return Failed;
      }
      ok := PutObject(manifestKey, Manifest(SCHEMA_VERSION, fromLedger, toLedger, w.count), c.manifest);
      if !ok {
        return Failed;
      }
      r := Archived(uri, Data(w.rows));
    }

    method IsArchived(ledgerStart: int, ledgerEnd: int, c: Conditions) returns (r: Option<bool>)
      ensures r == Covered(objects, prefix, ledgerStart, ledgerEnd, c)
    {
      var uri := ObjectPrefix(prefix, ledgerStart);
      var manifestKey := uri + "/manifest.json";
      if c.statFails {
        return None;
      }
      if manifestKey !in objects {
        return Some(false);
      }
      var m := objects[manifestKey];
      if c.readFails || !m.Manifest? || m.schema != SCHEMA_VERSION {
        return None;
      }
      if m.ledgerStart > ledgerStart || m.ledgerEnd < ledgerEnd {
        return Some(false);
      }
      r := Some(uri + "/data.ndjson.gz" in objects);
    }
  }

  // ----- Every sequence of calls, each cut short anywhere -----

  function After(prefix: string, calls: seq<Call>): Objects {
    if calls == [] then map[] else ArchiveCall(After(prefix, calls[..|calls| - 1]), prefix, calls[|calls| - 1]).1
  }

  predicate Visible(objects: Objects, prefix: string, start: int) {
    ManifestKey(prefix, start) in objects
  }

  /** The two objects are what this call listed: a manifest that counts the lines of the data beside it. */
  predicate HoldsUnder(objects: Objects, manifestKey: string, dataKey: string, start: int, call: Call) {
    var listed := Collect(call.answers, start, call.toLedger, None);
    && call.fromLedger == start && listed.Lines? && listed.events != []
    && dataKey in objects && objects[dataKey] == Data(listed.events)
    && manifestKey in objects
    && objects[manifestKey] == Manifest(SCHEMA_VERSION, start, call.toLedger, |listed.events|)
  }

  predicate Holds(objects: Objects, prefix: string, start: int, call: Call) {
    HoldsUnder(objects, ManifestKey(prefix, start), DataKey(prefix, start), start, call)
  }

  predicate SameUnder(a: Objects, b: Objects, key: string) {
    (key in a <==> key in b) && (key in a ==> a[key] == b[key])
  }

  predicate SameAt(a: Objects, b: Objects, prefix: string, start: int) {
    SameUnder(a, b, ManifestKey(prefix, start)) && SameUnder(a, b, DataKey(prefix, start))
  }

  lemma StoreRowsMeans(objects: Objects, uri: string, dataKey: string, manifestKey: string, rows: seq<Event>,
                       manifest: Object, c: Conditions, other: string)
    requires dataKey != manifestKey
    ensures var after := StoreRows(objects, uri, dataKey, manifestKey, rows, manifest, c).1;
            && (other != dataKey && other != manifestKey ==> SameUnder(objects, after, other))
            && (manifestKey !in objects && manifestKey in after
                ==> after[manifestKey] == manifest && dataKey in after && after[dataKey] == Data(rows))
  {
  }

  /** A call for one first ledger leaves the objects of every other alone. */
  lemma OthersAreLeftAlone(objects: Objects, prefix: string, call: Call, start: int)
    requires start != call.fromLedger
    ensures SameAt(objects, ArchiveCall(objects, prefix, call).1, prefix, start)
  {
    KeysNeverCollide(prefix, start, call.fromLedger);
    KeysNeverCollide(prefix, call.fromLedger, start);
    KeysNeverCollide(prefix, call.fromLedger, call.fromLedger);
    var listed := Collect(call.answers, call.fromLedger, call.toLedger, None);
    if listed.Lines? {
      var manifest := Manifest(SCHEMA_VERSION, call.fromLedger, call.toLedger, |listed.events|);
      StoreRowsMeans(objects, ObjectPrefix(prefix, call.fromLedger), DataKey(prefix, call.fromLedger),
                     ManifestKey(prefix, call.fromLedger), listed.events, manifest, call.c, ManifestKey(prefix, start));
      StoreRowsMeans(objects, ObjectPrefix(prefix, call.fromLedger), DataKey(prefix, call.fromLedger),
                     ManifestKey(prefix, call.fromLedger), listed.events, manifest, call.c, DataKey(prefix, start));
    }
  }

  /** A call makes its manifest visible only with its data in place, and a visible archive makes it change nothing. */
  lemma OwnManifestComesLast(objects: Objects, prefix: string, call: Call)
    ensures var after := ArchiveCall(objects, prefix, call).1;
            if Visible(objects, prefix, call.fromLedger) then after == objects
            else Visible(after, prefix, call.fromLedger) ==> Holds(after, prefix, call.fromLedger, call)
  {
    KeysNeverCollide(prefix, call.fromLedger, call.fromLedger);
    var listed := Collect(call.answers, call.fromLedger, call.toLedger, None);
    if listed.Lines? {
      StoreRowsMeans(objects, ObjectPrefix(prefix, call.fromLedger), DataKey(prefix, call.fromLedger),
                     ManifestKey(prefix, call.fromLedger), listed.events,
                     Manifest(SCHEMA_VERSION, call.fromLedger, call.toLedger, |listed.events|), call.c, "");
    }
  }

  lemma CallIsSafe(objects: Objects, prefix: string, call: Call, start: int)
    ensures var after := ArchiveCall(objects, prefix, call).1;
            if Visible(objects, prefix, start) then SameAt(objects, after, prefix, start)
            else Visible(after, prefix, start) ==> Holds(after, prefix, start, call)
  {
    if start == call.fromLedger {
      OwnManifestComesLast(objects, prefix, call);
    } else {
      OthersAreLeftAlone(objects, prefix, call, start);
    }
  }

  /** From the objects before a call to those after it: what was backed stays backed, and what is new is backed by the
      call. */
  lemma BackedAfter(before: Objects, after: Objects, m: string, d: string, calls: seq<Call>, start: int,
                    i: nat) returns (j: nat)
    requires calls != [] && m in after
    requires m in before ==> SameUnder(before, after, m) && SameUnder(before, after, d)
    requires m in before ==> i < |calls| - 1 && HoldsUnder(before, m, d, start, calls[i])
    requires m !in before ==> HoldsUnder(after, m, d, start, calls[|calls| - 1])
    ensures j < |calls| && HoldsUnder(after, m, d, start, calls[j])
  {
    j := if m in before then i else |calls| - 1;
  }

  lemma {:induction false} VisibleIsBacked(prefix: string, calls: seq<Call>, start: int) returns (i: nat)
    requires Visible(After(prefix, calls), prefix, start)
    ensures i < |calls| && Holds(After(prefix, calls), prefix, start, calls[i])
  {
    if calls != [] {
      var earlier := calls[..|calls| - 1];
      var before, after := After(prefix, earlier), After(prefix, calls);
      CallIsSafe(before, prefix, calls[|calls| - 1], start);
      i := 0;
      if Visible(before, prefix, start) {
        i := VisibleIsBacked(prefix, earlier, start);
      }
      i := BackedAfter(before, after, ManifestKey(prefix, start), DataKey(prefix, start), calls, start, i);
    }
  }

  /** Once visible, an archive is never modified. */
  lemma {:induction false} VisibleIsFrozen(prefix: string, calls: seq<Call>, n: nat, start: int)
    requires n <= |calls| && Visible(After(prefix, calls[..n]), prefix, start)
    ensures SameAt(After(prefix, calls[..n]), After(prefix, calls), prefix, start)
  {
    if n == |calls| {
      assert calls[..n] == calls;
    } else {
      var earlier := calls[..|calls| - 1];
      assert earlier[..n] == calls[..n];
      VisibleIsFrozen(prefix, earlier, n, start);
      CallIsSafe(After(prefix, earlier), prefix, calls[|calls| - 1], start);
    }
  }

  /** The table versions that the call queried. */
  function Asked(call: Call): seq<Option<Table>> {
    Consumed(call.answers, call.fromLedger, call.toLedger, None)
  }

  ghost predicate Faithful(call: Call, lines: seq<Event>) {
    && Ascending(lines)
    && AllWanted(lines, Asked(call), call.fromLedger, call.toLedger, None)
    && forall e | InRange(e, call.fromLedger, call.toLedger) && AlwaysIn(Asked(call), e) :: e in lines
  }

  lemma HeldIsFaithful(call: Call)
    requires Versions(call.answers)
    ensures var c := Collect(call.answers, call.fromLedger, call.toLedger, None); c.Lines? ==> Faithful(call, c.events)
  {
    OnlyConsumedMatters(call.answers, call.fromLedger, call.toLedger, None);
    CollectIsSound(Asked(call), call.fromLedger, call.toLedger, None);
    forall e | InRange(e, call.fromLedger, call.toLedger) && AlwaysIn(Asked(call), e)
      ensures var c := Collect(call.answers, call.fromLedger, call.toLedger, None); c.Lines? ==> e in c.events
    {
      CollectIsComplete(call.answers, call.fromLedger, call.toLedger, None, e);
    }
  }

  predicate AllVersions(calls: seq<Call>) {
    forall i | 0 <= i < |calls| :: Versions(calls[i].answers)
  }

  /** Crash consistency. Whatever calls were made and wherever each was cut short, a visible manifest has its data
      beside it, counts its lines, and those lines are the matching events of one call's table, each once and in ID
      order. */
  lemma CrashConsistency(prefix: string, calls: seq<Call>, start: int)
    requires AllVersions(calls) && Visible(After(prefix, calls), prefix, start)
    ensures var objects := After(prefix, calls);
            && DataKey(prefix, start) in objects && objects[DataKey(prefix, start)].Data?
            && objects[ManifestKey(prefix, start)].Manifest?
            && objects[ManifestKey(prefix, start)].rowCount == |objects[DataKey(prefix, start)].lines| > 0
            && exists i | 0 <= i < |calls| ::
                 Holds(objects, prefix, start, calls[i]) && Faithful(calls[i], objects[DataKey(prefix, start)].lines)
  {
    var i := VisibleIsBacked(prefix, calls, start);
    HeldIsFaithful(calls[i]);
  }

  /** A later call for the same first ledger changes nothing, and succeeds, with the archived data's own hash, exactly
      when it asks for the archived last ledger. A different last ledger is refused for ever. */
  lemma RepeatSucceedsIff(prefix: string, calls: seq<Call>, again: Call)
    requires Visible(After(prefix, calls), prefix, again.fromLedger) && again.c == CLEAR
    ensures var objects := After(prefix, calls);
            var (r, after) := ArchiveCall(objects, prefix, again);
            var m := objects[ManifestKey(prefix, again.fromLedger)];
            && after == objects && m.Manifest?
            && (r.Archived? <==> again.toLedger == m.ledgerEnd)
            && (r.Archived? ==>
                  && DataKey(prefix, again.fromLedger) in objects
                  && r.hashed == objects[DataKey(prefix, again.fromLedger)])
  {
    var i := VisibleIsBacked(prefix, calls, again.fromLedger);
  }

  /** Recovery: whatever earlier calls left behind, an undisturbed call over a fixed table replaces it by a complete
      archive. */
  lemma UndisturbedCallCompletes(objects: Objects, prefix: string, t: Table, fromLedger: int, toLedger: int, n: nat)
    requires Ascending(t) && !Visible(objects, prefix, fromLedger)
    requires 0 < |Select(t, fromLedger, toLedger, None)| <= n * ARCHIVE_BATCH_SIZE
    ensures var call := Call(fromLedger, toLedger, Pages(t, n), CLEAR);
            var (r, after) := ArchiveCall(objects, prefix, call);
            && r == Archived(ObjectPrefix(prefix, fromLedger), Data(Select(t, fromLedger, toLedger, None)))
            && Holds(after, prefix, fromLedger, call) && r.hashed == after[DataKey(prefix, fromLedger)]
  {
    FixedTableIsListedExactly(t, fromLedger, toLedger, None, n);
    OwnManifestComesLast(objects, prefix, Call(fromLedger, toLedger, Pages(t, n), CLEAR));
  }

  /** When a range is reported archived, the data object holds every event of the range that was in the table throughout
      the call that archived it. */
  lemma CoveredRangeIsHeld(prefix: string, calls: seq<Call>, ledgerStart: int, ledgerEnd: int, c: Conditions)
    requires AllVersions(calls) && Covered(After(prefix, calls), prefix, ledgerStart, ledgerEnd, c) == Some(true)
    ensures var objects := After(prefix, calls);
            && DataKey(prefix, ledgerStart) in objects && objects[DataKey(prefix, ledgerStart)].Data?
            && exists i | 0 <= i < |calls| ::
                 && Holds(objects, prefix, ledgerStart, calls[i])
                 && HoldsRange(calls[i], objects[DataKey(prefix, ledgerStart)].lines, ledgerStart, ledgerEnd)
  {
    var i := VisibleIsBacked(prefix, calls, ledgerStart);
    HeldIsFaithful(calls[i]);
    assert HoldsRange(calls[i], After(prefix, calls)[DataKey(prefix, ledgerStart)].lines, ledgerStart, ledgerEnd);
  }

  /** After every sequence of calls, and with both objects readable: a range is reported archived exactly when an
      archive with its first ledger is visible and reaches to its last ledger. */
  lemma ReportedIff(prefix: string, calls: seq<Call>, ledgerStart: int, ledgerEnd: int, c: Conditions)
    requires !c.statFails && !c.readFails
    ensures var objects := After(prefix, calls); var key := ManifestKey(prefix, ledgerStart);
            Covered(objects, prefix, ledgerStart, ledgerEnd, c) ==
            Some(key in objects && objects[key].Manifest? && ledgerEnd <= objects[key].ledgerEnd)
  {
    if Visible(After(prefix, calls), prefix, ledgerStart) {
      var i := VisibleIsBacked(prefix, calls, ledgerStart);
    }
  }

  /** A call that reports success has its archive in place: the hash it returns is that of the data object, and the
      range is reported archived from then on, whatever calls follow. */
  lemma ArchivedStaysReported(prefix: string, calls: seq<Call>, n: nat, c: Conditions)
    requires n < |calls| && !c.statFails && !c.readFails
    requires ArchiveCall(After(prefix, calls[..n]), prefix, calls[n]).0.Archived?
    ensures var objects, call := After(prefix, calls), calls[n]; var key := DataKey(prefix, call.fromLedger);
            && Covered(objects, prefix, call.fromLedger, call.toLedger, c) == Some(true)
            && key in objects && objects[key] == ArchiveCall(After(prefix, calls[..n]), prefix, call).0.hashed
  {
    var call, before := calls[n], After(prefix, calls[..n]);
    var after := After(prefix, calls[..n + 1]);
    assert calls[..n + 1][..n] == calls[..n] && after == ArchiveCall(before, prefix, call).1;
    OwnManifestComesLast(before, prefix, call);
    KeysNeverCollide(prefix, call.fromLedger, call.fromLedger);
    assert Visible(after, prefix, call.fromLedger);
    var i := VisibleIsBacked(prefix, calls[..n + 1], call.fromLedger);
    VisibleIsFrozen(prefix, calls, n + 1, call.fromLedger);
  }

  ghost predicate HoldsRange(call: Call, lines: seq<Event>, ledgerStart: int, ledgerEnd: int) {
    forall e: Event | ledgerStart <= e.ledger <= ledgerEnd && AlwaysIn(Asked(call), e) :: e in lines
  }
}
