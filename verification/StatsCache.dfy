/** Cached /stats snapshots (internal/api/stats_cache.go). */
module StatsCache {
  import opened Common

  const MAX_ENTRIES: nat := 64

  type Stats = nat

  datatype Entry = Entry(stats: Stats, cachedAt: int)

  /** `keys` is the eviction queue. Invalidation does not touch it, so it can hold keys without an entry, and a key
      twice. */
  datatype Cache = Cache(ttl: int, keys: seq<string>, entries: map<string, Entry>, byTenant: map<int, set<string>>)

  function Fresh(ttl: int): Cache {
    Cache(ttl, [], map[], map[])
  }

  function Get(c: Cache, fingerprint: string, now: int): Option<Stats> {
    if c.ttl <= 0 || fingerprint !in c.entries || now - c.entries[fingerprint].cachedAt >= c.ttl then None
    else Some(c.entries[fingerprint].stats)
  }

  /** Make room: queue the key and drop the head's snapshot when the queue is over its bound. */
  function Enqueue(c: Cache, fingerprint: string): Cache {
    var keys := c.keys + [fingerprint];
    if |keys| > MAX_ENTRIES then c.(keys := keys[1..], entries := c.entries - {keys[0]}) else c.(keys := keys)
  }

  function Listed(c: Cache, tenantID: int): set<string> {
    if tenantID in c.byTenant then c.byTenant[tenantID] else {}
  }

  function Put(c: Cache, tenantID: int, fingerprint: string, stats: Stats, now: int): Cache {
    if c.ttl <= 0 then c
    else
      var c1 := if fingerprint in c.entries then c else Enqueue(c, fingerprint);
      var c2 := c1.(entries := c1.entries[fingerprint := Entry(stats, now)]);
      if tenantID > 0 then c2.(byTenant := c2.byTenant[tenantID := Listed(c2, tenantID) + {fingerprint}]) else c2
  }

  function InvalidateTenant(c: Cache, tenantID: int): Cache {
    if tenantID <= 0 || tenantID !in c.byTenant then c
    else c.(entries := c.entries - c.byTenant[tenantID], byTenant := c.byTenant - {tenantID})
  }

  function InvalidateScope(c: Cache, fingerprint: string): Cache {
    c.(entries := c.entries - {fingerprint})
  }

  class StatsCache {
    const ttl: int
    var scopedKeys: seq<string>
    var entries: map<string, Entry>
    var byTenant: map<int, set<string>>

    function View(): Cache
      reads this
    {
      Cache(ttl, scopedKeys, entries, byTenant)
    }

    constructor (ttl: int)
      ensures View() == Fresh(ttl)
    {
      this.ttl, scopedKeys, entries, byTenant := ttl, [], map[], map[];
    }

    method GetStats(fingerprint: string, now: int) returns (stats: Stats, ok: bool)
      ensures Get(View(), fingerprint, now) == if ok then Some(stats) else None
    {
      if ttl <= 0 {
        return 0, false;
      }
      if fingerprint !in entries || now - entries[fingerprint].cachedAt >= ttl {
        return 0, false;
      }
      return entries[fingerprint].stats, true;
    }

    method PutForTenant(tenantID: int, fingerprint: string, stats: Stats, now: int)
      modifies this
      ensures View() == Put(old(View()), tenantID, fingerprint, stats, now)
    {
      if ttl <= 0 {
        return;
      }
      if fingerprint !in entries {
        scopedKeys := scopedKeys + [fingerprint];
        if |scopedKeys| > MAX_ENTRIES {
          var evict := scopedKeys[0];
          scopedKeys := scopedKeys[1..];
          entries := entries - {evict};
        }
      }
      entries := entries[fingerprint := Entry(stats, now)];
      if tenantID > 0 {
        var owned := if tenantID in byTenant then byTenant[tenantID] else {};
        byTenant := byTenant[tenantID := owned + {fingerprint}];
      }
    }

    method InvalidateTenantStats(tenantID: int)
      modifies this
      ensures View() == InvalidateTenant(old(View()), tenantID)
    {
      if tenantID <= 0 || tenantID !in byTenant {
        return;
      }
      var owned := byTenant[tenantID];
      var todo := owned;
      while todo != {}
        invariant todo <= owned && byTenant == old(byTenant) && scopedKeys == old(scopedKeys)
        invariant entries == old(entries) - (owned - todo)
      {
        var fingerprint :| fingerprint in todo;
        entries := entries - {fingerprint};
        todo := todo - {fingerprint};
      }
      assert owned - {} == owned;
      byTenant := byTenant - {tenantID};
    }

    method InvalidateScopeStats(fingerprint: string)
      modifies this
      ensures View() == InvalidateScope(old(View()), fingerprint)
    {
      entries := entries - {fingerprint};
    }

    method Clear()
      modifies this
      ensures View() == Fresh(ttl)
    {
      scopedKeys, entries, byTenant := [], map[], map[];
    }
  }

  // ----- Every sequence of operations -----

  datatype Op =
    | PutOp(tenantID: int, fingerprint: string, stats: Stats, now: int)
    | TenantOp(tenantID: int)
    | ScopeOp(fingerprint: string)
    | ClearOp

  function Apply(c: Cache, op: Op): Cache {
    match op
    case PutOp(t, f, s, now) => Put(c, t, f, s, now)
    case TenantOp(t) => InvalidateTenant(c, t)
    case ScopeOp(f) => InvalidateScope(c, f)
    case ClearOp => Fresh(c.ttl)
  }

  function After(ttl: int, ops: seq<Op>): Cache {
    if ops == [] then Fresh(ttl) else Apply(After(ttl, ops[..|ops| - 1]), ops[|ops| - 1])
  }

  predicate Queued(c: Cache) {
    |c.keys| <= MAX_ENTRIES && forall f <- c.entries :: f in c.keys
  }

  lemma PutKeepsQueued(c: Cache, tenantID: int, fingerprint: string, stats: Stats, now: int)
    requires Queued(c)
    ensures Queued(Put(c, tenantID, fingerprint, stats, now))
  {
    var keys := c.keys + [fingerprint];
    assert forall f <- c.keys :: f in keys;
    assert keys[|keys| - 1] == fingerprint;
    assert forall f <- keys :: f == keys[0] || f in keys[1..];
  }

  lemma {:induction false} AlwaysQueued(ttl: int, ops: seq<Op>)
    ensures Queued(After(ttl, ops)) && After(ttl, ops).ttl == ttl
  {
    if ops != [] {
      AlwaysQueued(ttl, ops[..|ops| - 1]);
      var c, op := After(ttl, ops[..|ops| - 1]), ops[|ops| - 1];
      if op.PutOp? {
        PutKeepsQueued(c, op.tenantID, op.fingerprint, op.stats, op.now);
      }
    }
  }

  lemma {:induction false} SubsetOfQueue(s: set<string>, keys: seq<string>)
    requires forall f <- s :: f in keys
    ensures |s| <= |keys|
  {
    if keys == [] {
      assert s == {};
    } else {
      var last := keys[|keys| - 1];
      assert forall f <- s - {last} :: f in keys[..|keys| - 1];
      SubsetOfQueue(s - {last}, keys[..|keys| - 1]);
      assert s <= (s - {last}) + {last};
    }
  }

  /** Stale and repeated queue keys never let the cache outgrow its bound. */
  lemma AtMostMaxEntries(ttl: int, ops: seq<Op>)
    ensures |After(ttl, ops).entries| <= MAX_ENTRIES
  {
    AlwaysQueued(ttl, ops);
    SubsetOfQueue(After(ttl, ops).entries.Keys, After(ttl, ops).keys);
  }

  // ----- Against a plain map that never evicts -----

  /** The tenant has put this fingerprint since the last time it, or everything, was invalidated. */
  predicate Owns(ops: seq<Op>, tenantID: int, fingerprint: string) {
    ops != [] &&
    match ops[|ops| - 1]
    case PutOp(t, f, _, _) => (t == tenantID > 0 && f == fingerprint) || Owns(ops[..|ops| - 1], tenantID, fingerprint)
    case TenantOp(t) => t != tenantID && Owns(ops[..|ops| - 1], tenantID, fingerprint)
    case ScopeOp(_) => Owns(ops[..|ops| - 1], tenantID, fingerprint)
    case ClearOp => false
  }

  function Reference(ops: seq<Op>, fingerprint: string): Option<Entry> {
    if ops == [] then None
    else
      var earlier := ops[..|ops| - 1];
      match ops[|ops| - 1]
      case PutOp(_, f, s, now) => if f == fingerprint then Some(Entry(s, now)) else Reference(earlier, fingerprint)
      case TenantOp(t) => if Owns(earlier, t, fingerprint) then None else Reference(earlier, fingerprint)
      case ScopeOp(f) => if f == fingerprint then None else Reference(earlier, fingerprint)
      case ClearOp => None
  }

  lemma {:induction false} TenantSetsAreExact(ttl: int, ops: seq<Op>, tenantID: int, fingerprint: string)
    requires ttl > 0
    ensures fingerprint in Listed(After(ttl, ops), tenantID) <==> Owns(ops, tenantID, fingerprint)
    ensures tenantID in After(ttl, ops).byTenant ==> tenantID > 0
  {
    AlwaysQueued(ttl, ops);
    if ops != [] {
      TenantSetsAreExact(ttl, ops[..|ops| - 1], tenantID, fingerprint);
      AlwaysQueued(ttl, ops[..|ops| - 1]);
    }
  }

  /** What is cached is what the plain map holds: eviction only ever loses. */
  lemma {:induction false} CachedIsReference(ttl: int, ops: seq<Op>, fingerprint: string)
    ensures var c := After(ttl, ops);
            fingerprint in c.entries ==> Reference(ops, fingerprint) == Some(c.entries[fingerprint])
  {
    if ops != [] {
      var earlier, op := ops[..|ops| - 1], ops[|ops| - 1];
      CachedIsReference(ttl, earlier, fingerprint);
      AlwaysQueued(ttl, earlier);
      if ttl <= 0 {
        NeverCaches(ttl, earlier);
      } else if op.TenantOp? {
        TenantSetsAreExact(ttl, earlier, op.tenantID, fingerprint);
      }
    }
  }

  lemma {:induction false} NeverCaches(ttl: int, ops: seq<Op>)
    requires ttl <= 0
    ensures After(ttl, ops).entries == map[] && After(ttl, ops).ttl == ttl
  {
    if ops != [] {
      NeverCaches(ttl, ops[..|ops| - 1]);
    }
  }

  /** Snapshots put since the last clear. */
  function PutsSinceClear(ops: seq<Op>): nat {
    if ops == [] || ops[|ops| - 1].ClearOp? then 0
    else PutsSinceClear(ops[..|ops| - 1]) + if ops[|ops| - 1].PutOp? then 1 else 0
  }

  /** Until a 65th put since the last clear nothing is evicted, and the cache is the plain map. */
  lemma {:induction false} ExactUntilFull(ttl: int, ops: seq<Op>, fingerprint: string)
    requires ttl > 0 && PutsSinceClear(ops) <= MAX_ENTRIES
    ensures var c := After(ttl, ops);
            && |c.keys| <= PutsSinceClear(ops)
            && Reference(ops, fingerprint) == if fingerprint in c.entries then Some(c.entries[fingerprint]) else None
  {
    AlwaysQueued(ttl, ops);
    if ops != [] && !ops[|ops| - 1].ClearOp? {
      var earlier, op := ops[..|ops| - 1], ops[|ops| - 1];
      ExactUntilFull(ttl, earlier, fingerprint);
      AlwaysQueued(ttl, earlier);
      if op.TenantOp? {
        TenantSetsAreExact(ttl, earlier, op.tenantID, fingerprint);
      }
    }
  }

  /** Operation `op` would put or invalidate the snapshot under `fingerprint` that `tenantID` put. */
  predicate Touches(op: Op, tenantID: int, fingerprint: string) {
    match op
    case PutOp(_, f, _, _) => f == fingerprint
    case TenantOp(t) => t == tenantID > 0
    case ScopeOp(f) => f == fingerprint
    case ClearOp => true
  }

  /** `ops[i]` put this entry and nothing since has put another there or invalidated it. */
  predicate LastPut(ops: seq<Op>, i: nat, fingerprint: string, entry: Entry) {
    && i < |ops| && ops[i].PutOp? && ops[i].fingerprint == fingerprint && Entry(ops[i].stats, ops[i].now) == entry
    && forall j | i < j < |ops| :: !Touches(ops[j], ops[i].tenantID, fingerprint)
  }

  lemma {:induction false} OwnsUntilTouched(ops: seq<Op>, i: nat, fingerprint: string)
    requires i < |ops| && ops[i].PutOp? && ops[i].fingerprint == fingerprint && ops[i].tenantID > 0
    requires forall j | i < j < |ops| :: !Touches(ops[j], ops[i].tenantID, fingerprint)
    ensures Owns(ops, ops[i].tenantID, fingerprint)
  {
    if i < |ops| - 1 {
      OwnsUntilTouched(ops[..|ops| - 1], i, fingerprint);
    }
  }

  lemma {:induction false} ReferenceIsLastPut(ops: seq<Op>, fingerprint: string) returns (i: nat)
    requires Reference(ops, fingerprint).Some?
    ensures LastPut(ops, i, fingerprint, Reference(ops, fingerprint).value)
  {
    var earlier, op := ops[..|ops| - 1], ops[|ops| - 1];
    if op.PutOp? && op.fingerprint == fingerprint {
      i := |ops| - 1;
    } else {
      i := ReferenceIsLastPut(earlier, fingerprint);
      if op.TenantOp? && op.tenantID == ops[i].tenantID > 0 {
        OwnsUntilTouched(earlier, i, fingerprint);
      }
    }
  }

  /** Every hit is the last value put for the fingerprint, younger than the ttl, and not invalidated since. */
  lemma HitsAreCurrent(ttl: int, ops: seq<Op>, fingerprint: string, now: int)
    requires Get(After(ttl, ops), fingerprint, now).Some?
    ensures exists i :: 0 <= i < |ops| && ops[i].PutOp? && now - ttl < ops[i].now
              && LastPut(ops, i, fingerprint, Entry(Get(After(ttl, ops), fingerprint, now).value, ops[i].now))
  {
    AlwaysQueued(ttl, ops);
    CachedIsReference(ttl, ops, fingerprint);
    var i := ReferenceIsLastPut(ops, fingerprint);
  }

  /** What was just put is served until it is as old as the ttl, however full the cache was. */
  lemma PutIsServed(ttl: int, ops: seq<Op>, tenantID: int, fingerprint: string, stats: Stats, at: int, now: int)
    requires ttl > 0
    ensures Get(After(ttl, ops + [PutOp(tenantID, fingerprint, stats, at)]), fingerprint, now) ==
            if now < at + ttl then Some(stats) else None
  {
    var put := PutOp(tenantID, fingerprint, stats, at);
    assert (ops + [put])[..|ops|] == ops;
    AlwaysQueued(ttl, ops);
  }

  /** Until a 65th put since the last clear, a lookup answers exactly as the plain map would. */
  lemma ServedUntilFull(ttl: int, ops: seq<Op>, fingerprint: string, now: int)
    requires ttl > 0 && PutsSinceClear(ops) <= MAX_ENTRIES
    ensures var entry := Reference(ops, fingerprint);
            Get(After(ttl, ops), fingerprint, now) ==
            if entry.Some? && now < entry.value.cachedAt + ttl then Some(entry.value.stats) else None
  {
    AlwaysQueued(ttl, ops);
    ExactUntilFull(ttl, ops, fingerprint);
  }
}
