/** The tenant credential cache and its secondary indexes (internal/api/auth_cache.go). */
module AuthCache {
  import opened Common
  import opened Scopes

  datatype ApiKey = ApiKey(id: int, prefix: string)

  datatype Tenant = Tenant(id: int, enabled: bool, wildcard: bool)

  datatype TenantEntry = TenantEntry(key: ApiKey, digest: Bytes, tenant: Tenant, scope: Scope, cachedAt: int)

  datatype SingleEntry = SingleEntry(key: ApiKey, cachedAt: int)

  /** The five maps and the freshness window. */
  datatype Cache = Cache(
    ttl: int,
    tenantByPrefix: map<string, TenantEntry>,
    prefixesByTenant: map<int, set<string>>,
    prefixByTenantKeyID: map<int, string>,
    singleByPrefix: map<string, SingleEntry>,
    prefixBySingleKeyID: map<int, string>)

  function Empty(ttl: int): Cache {
    Cache(ttl, map[], map[], map[], map[], map[])
  }

  function PrefixesOf(c: Cache, tenantID: int): set<string> {
    if tenantID in c.prefixesByTenant then c.prefixesByTenant[tenantID] else {}
  }

  /** Drops one prefix from all three tenant maps, and the tenant's set when it becomes empty. */
  function DeleteTenantPrefix(c: Cache, prefix: string, tenantID: int, keyID: int): Cache {
    var left := PrefixesOf(c, tenantID) - {prefix};
    c.(tenantByPrefix := c.tenantByPrefix - {prefix},
       prefixByTenantKeyID := c.prefixByTenantKeyID - {keyID},
       prefixesByTenant := if tenantID !in c.prefixesByTenant then c.prefixesByTenant
                           else if left == {} then c.prefixesByTenant - {tenantID}
                             else c.prefixesByTenant[tenantID := left])
  }

  function GetTenant(c: Cache, prefix: string, now: int): (Option<TenantEntry>, Cache) {
    if c.ttl <= 0 || prefix !in c.tenantByPrefix then (None, c)
    else
      var e := c.tenantByPrefix[prefix];
      if now - e.cachedAt >= c.ttl then (None, DeleteTenantPrefix(c, prefix, e.tenant.id, e.key.id)) else (Some(e), c)
  }

  function PutTenant(c: Cache, e: TenantEntry): Cache {
    if c.ttl <= 0 then c
    else
      c.(tenantByPrefix := c.tenantByPrefix[e.key.prefix := e],
         prefixesByTenant := c.prefixesByTenant[e.tenant.id := PrefixesOf(c, e.tenant.id) + {e.key.prefix}],
         prefixByTenantKeyID := c.prefixByTenantKeyID[e.key.id := e.key.prefix])
  }

  function KeyIDsOf(entries: map<string, TenantEntry>, prefixes: set<string>): set<int> {
    set p | p in prefixes && p in entries :: entries[p].key.id
  }

  function DropTenant(c: Cache, tenantID: int): Cache {
    if tenantID !in c.prefixesByTenant then c
    else
      var gone := set p | p in c.prefixesByTenant[tenantID] && p in c.tenantByPrefix;
      c.(tenantByPrefix := c.tenantByPrefix - gone,
         prefixByTenantKeyID := c.prefixByTenantKeyID - KeyIDsOf(c.tenantByPrefix, gone),
         prefixesByTenant := c.prefixesByTenant - {tenantID})
  }

  function DropKey(c: Cache, keyID: int): Cache {
    var c1 := if keyID !in c.prefixByTenantKeyID then c
              else
                var prefix := c.prefixByTenantKeyID[keyID];
                if prefix in c.tenantByPrefix
                  then DeleteTenantPrefix(c, prefix, c.tenantByPrefix[prefix].tenant.id, keyID)
                else c.(prefixByTenantKeyID := c.prefixByTenantKeyID - {keyID});
    if keyID !in c1.prefixBySingleKeyID then c1
    else
      c1.(singleByPrefix := c1.singleByPrefix - {c1.prefixBySingleKeyID[keyID]},
          prefixBySingleKeyID := c1.prefixBySingleKeyID - {keyID})
  }

  function GetSingle(c: Cache, prefix: string, now: int): (Option<SingleEntry>, Cache) {
    if c.ttl <= 0 || prefix !in c.singleByPrefix then (None, c)
    else
      var e := c.singleByPrefix[prefix];
      if now - e.cachedAt >= c.ttl then
        (None, c.(singleByPrefix := c.singleByPrefix - {prefix},
                  prefixBySingleKeyID := c.prefixBySingleKeyID - {e.key.id}))
      else (Some(e), c)
  }

  function PutSingle(c: Cache, e: SingleEntry): Cache {
    if c.ttl <= 0 then c
    else
      c.(singleByPrefix := c.singleByPrefix[e.key.prefix := e],
         prefixBySingleKeyID := c.prefixBySingleKeyID[e.key.id := e.key.prefix])
  }

  class AuthCache {
    var ttl: int
    var tenantByPrefix: map<string, TenantEntry>
    var prefixesByTenant: map<int, set<string>>
    var prefixByTenantKeyID: map<int, string>
    var singleByPrefix: map<string, SingleEntry>
    var prefixBySingleKeyID: map<int, string>

    function View(): Cache
      reads this
    {
      Cache(ttl, tenantByPrefix, prefixesByTenant, prefixByTenantKeyID, singleByPrefix, prefixBySingleKeyID)
    }

    constructor (ttl: int)
      ensures View() == Empty(ttl)
    {
      this.ttl := ttl;
      tenantByPrefix, prefixesByTenant, prefixByTenantKeyID, singleByPrefix, prefixBySingleKeyID :=
        map[], map[], map[], map[], map[];
    }

    method SetTTL(ttl: int)
      modifies this
      ensures View() == if ttl <= 0 then Empty(ttl) else old(View()).(ttl := ttl)
    {
      this.ttl := ttl;
      if ttl <= 0 {
        Reset();
      }
    }

    method Reset()
      modifies this
      ensures View() == Empty(old(ttl))
    {
      tenantByPrefix, prefixesByTenant, prefixByTenantKeyID, singleByPrefix, prefixBySingleKeyID :=
        map[], map[], map[], map[], map[];
    }

    method GetTenantAuth(prefix: string, now: int) returns (r: Option<TenantEntry>)
      modifies this
      ensures (r, View()) == GetTenant(old(View()), prefix, now)
    {
      if ttl <= 0 {
        return None;
      }
      if prefix !in tenantByPrefix {
        return None;
      }
      var entry := tenantByPrefix[prefix];
      if now - entry.cachedAt >= ttl {
        DeleteTenantPrefixLocked(prefix, entry.tenant.id, entry.key.id);
        return None;
      }
      return Some(entry);
    }

    method PutTenantAuth(key: ApiKey, digest: Bytes, tenant: Tenant, scope: Scope, now: int)
      modifies this
      ensures View() == PutTenant(old(View()), TenantEntry(key, digest, tenant, scope, now))
    {
      if ttl <= 0 {
        return;
      }
      tenantByPrefix := tenantByPrefix[key.prefix := TenantEntry(key, digest, tenant, scope, now)];
      var pset := if tenant.id in prefixesByTenant then prefixesByTenant[tenant.id] else {};
      prefixesByTenant := prefixesByTenant[tenant.id := pset + {key.prefix}];
      prefixByTenantKeyID := prefixByTenantKeyID[key.id := key.prefix];
    }

    method GetAPIKey(prefix: string, now: int) returns (r: Option<SingleEntry>)
      modifies this
      ensures (r, View()) == GetSingle(old(View()), prefix, now)
    {
      if ttl <= 0 || prefix !in singleByPrefix {
        return None;
      }
      var entry := singleByPrefix[prefix];
      if now - entry.cachedAt >= ttl {
        singleByPrefix := singleByPrefix - {prefix};
        prefixBySingleKeyID := prefixBySingleKeyID - {entry.key.id};
        return None;
      }
      return Some(entry);
    }

    method PutAPIKey(key: ApiKey, now: int)
      modifies this
      ensures View() == PutSingle(old(View()), SingleEntry(key, now))
    {
      if ttl <= 0 {
        return;
      }
      singleByPrefix := singleByPrefix[key.prefix := SingleEntry(key, now)];
      prefixBySingleKeyID := prefixBySingleKeyID[key.id := key.prefix];
    }

    method InvalidateTenant(tenantID: int)
      modifies this
      ensures View() == DropTenant(old(View()), tenantID)
    {
      if tenantID !in prefixesByTenant {
        return;
      }
      var todo := prefixesByTenant[tenantID];
      ghost var gone: set<string> := {};
      while todo != {}
        modifies this`tenantByPrefix, this`prefixByTenantKeyID
        invariant todo <= prefixesByTenant[tenantID]
        invariant gone == set p | p in prefixesByTenant[tenantID] && p in old(tenantByPrefix) && p !in todo
        invariant tenantByPrefix == old(tenantByPrefix) - gone
        invariant prefixByTenantKeyID == old(prefixByTenantKeyID) - KeyIDsOf(old(tenantByPrefix), gone)
        decreases |todo|
      {
        var prefix :| prefix in todo;
        todo := todo - {prefix};
        if prefix in tenantByPrefix {
          assert KeyIDsOf(old(tenantByPrefix), gone + {prefix})
            == KeyIDsOf(old(tenantByPrefix), gone) + {tenantByPrefix[prefix].key.id};
          prefixByTenantKeyID := prefixByTenantKeyID - {tenantByPrefix[prefix].key.id};
          tenantByPrefix := tenantByPrefix - {prefix};
          gone := gone + {prefix};
        }
      }
      prefixesByTenant := prefixesByTenant - {tenantID};
    }

    method InvalidateAPIKey(keyID: int)
      modifies this
      ensures View() == DropKey(old(View()), keyID)
    {
      if keyID in prefixByTenantKeyID {
        var prefix := prefixByTenantKeyID[keyID];
        if prefix in tenantByPrefix {
          DeleteTenantPrefixLocked(prefix, tenantByPrefix[prefix].tenant.id, keyID);
        } else {
          prefixByTenantKeyID := prefixByTenantKeyID - {keyID};
        }
      }
      if keyID in prefixBySingleKeyID {
        singleByPrefix := singleByPrefix - {prefixBySingleKeyID[keyID]};
        prefixBySingleKeyID := prefixBySingleKeyID - {keyID};
      }
    }

    method Clear()
      modifies this
      ensures View() == Empty(old(ttl))
    {
      Reset();
    }

    method DeleteTenantPrefixLocked(prefix: string, tenantID: int, keyID: int)
      modifies this
      ensures View() == DeleteTenantPrefix(old(View()), prefix, tenantID, keyID)
    {
      tenantByPrefix := tenantByPrefix - {prefix};
      prefixByTenantKeyID := prefixByTenantKeyID - {keyID};
      if tenantID in prefixesByTenant {
        var pset := prefixesByTenant[tenantID] - {prefix};
        prefixesByTenant := prefixesByTenant[tenantID := pset];
        if |pset| == 0 {
          assert prefixesByTenant - {tenantID} == old(prefixesByTenant) - {tenantID};
          prefixesByTenant := prefixesByTenant - {tenantID};
        }
      }
    }
  }

  // ----- The indexes, over every sequence of operations -----

  datatype Op =
    | Get(prefix: string, now: int)
    | Put(entry: TenantEntry)
    | GetKey(prefix: string, now: int)
    | PutKey(single: SingleEntry)
    | InvalidateTenant(tenantID: int)
    | InvalidateKey(keyID: int)
    | ClearAll
    | NewTTL(ttl: int)

  function RunOp(c: Cache, op: Op): Cache {
    match op
    case Get(prefix, now) => GetTenant(c, prefix, now).1
    case Put(entry) => PutTenant(c, entry)
    case GetKey(prefix, now) => GetSingle(c, prefix, now).1
    case PutKey(single) => PutSingle(c, single)
    case InvalidateTenant(tenantID) => DropTenant(c, tenantID)
    case InvalidateKey(keyID) => DropKey(c, keyID)
    case ClearAll => Empty(c.ttl)
    case NewTTL(ttl) => if ttl <= 0 then Empty(ttl) else c.(ttl := ttl)
  }

  function RunAll(ttl: int, ops: seq<Op>): Cache {
    if ops == [] then Empty(ttl) else RunOp(RunAll(ttl, ops[..|ops| - 1]), ops[|ops| - 1])
  }

  /** Every cached entry is listed under its own tenant, under its own prefix. */
  ghost predicate Listed(c: Cache) {
    forall p {:trigger c.tenantByPrefix[p]} :: p in c.tenantByPrefix ==>
      c.tenantByPrefix[p].key.prefix == p && p in PrefixesOf(c, c.tenantByPrefix[p].tenant.id)
  }

  lemma OpKeepsListed(c: Cache, op: Op)
    requires Listed(c)
    ensures Listed(RunOp(c, op))
  {
  }

  lemma {:induction false} AlwaysListed(ttl: int, ops: seq<Op>)
    ensures Listed(RunAll(ttl, ops))
  {
    if ops != [] {
      AlwaysListed(ttl, ops[..|ops| - 1]);
      OpKeepsListed(RunAll(ttl, ops[..|ops| - 1]), ops[|ops| - 1]);
    }
  }

  /** After any sequence of operations, invalidating a tenant leaves none of its entries behind. */
  lemma InvalidatedTenantIsGone(ttl: int, ops: seq<Op>, tenantID: int, p: string)
    ensures var c := DropTenant(RunAll(ttl, ops), tenantID);
            p in c.tenantByPrefix ==> c.tenantByPrefix[p].tenant.id != tenantID
  {
    AlwaysListed(ttl, ops);
  }

  /** The registry behind the cache: a prefix names one key and one tenant, and a key has one prefix. */
  datatype Registry = Registry(keyOf: string -> int, tenantOf: string -> int)

  ghost predicate OneToOne(r: Registry) {
    forall p, q {:trigger r.keyOf(p), r.keyOf(q)} :: r.keyOf(p) == r.keyOf(q) ==> p == q
  }

  predicate Conforms(r: Registry, op: Op) {
    op.Put? ==> op.entry.key.id == r.keyOf(op.entry.key.prefix) && op.entry.tenant.id == r.tenantOf(op.entry.key.prefix)
  }

  ghost predicate AllConform(r: Registry, ops: seq<Op>) {
    forall i {:trigger ops[i]} :: 0 <= i < |ops| ==> Conforms(r, ops[i])
  }

  /** A cached prefix has its registered key and tenant, and the key index leads back to it. */
  ghost predicate EntryOk(r: Registry, c: Cache, p: string) {
    p in c.tenantByPrefix ==>
      && c.tenantByPrefix[p].key == ApiKey(r.keyOf(p), p) && c.tenantByPrefix[p].tenant.id == r.tenantOf(p)
      && r.keyOf(p) in c.prefixByTenantKeyID && c.prefixByTenantKeyID[r.keyOf(p)] == p
  }

  /** A tenant lists exactly its cached prefixes. */
  ghost predicate ListOk(r: Registry, c: Cache, t: int, p: string) {
    p in PrefixesOf(c, t) <==> p in c.tenantByPrefix && r.tenantOf(p) == t
  }

  /** The key index names cached prefixes only. */
  ghost predicate KeyOk(r: Registry, c: Cache, k: int) {
    k in c.prefixByTenantKeyID ==>
      c.prefixByTenantKeyID[k] in c.tenantByPrefix && r.keyOf(c.prefixByTenantKeyID[k]) == k
  }

  /** The two indexes are exactly the inverses of the entry map, and no tenant has an empty list. */
  ghost predicate Inverse(r: Registry, c: Cache) {
    && (forall p {:trigger EntryOk(r, c, p)} :: EntryOk(r, c, p))
    && (forall t, p {:trigger ListOk(r, c, t, p)} :: ListOk(r, c, t, p))
    && (forall k {:trigger KeyOk(r, c, k)} :: KeyOk(r, c, k))
    && (forall t {:trigger c.prefixesByTenant[t]} :: t in c.prefixesByTenant ==> c.prefixesByTenant[t] != {})
  }

  lemma PutKeepsInverse(r: Registry, c: Cache, e: TenantEntry)
    requires OneToOne(r) && Inverse(r, c) && Conforms(r, Put(e))
    ensures Inverse(r, PutTenant(c, e))
  {
    var d := PutTenant(c, e);
    forall p ensures EntryOk(r, d, p) { assert EntryOk(r, c, p); }
    forall t, p ensures ListOk(r, d, t, p) { assert ListOk(r, c, t, p); }
    forall k ensures KeyOk(r, d, k) { assert KeyOk(r, c, k); }
  }

  lemma DeleteKeepsInverse(r: Registry, c: Cache, q: string)
    requires OneToOne(r) && Inverse(r, c) && q in c.tenantByPrefix
    ensures Inverse(r, DeleteTenantPrefix(c, q, r.tenantOf(q), r.keyOf(q)))
  {
    var d := DeleteTenantPrefix(c, q, r.tenantOf(q), r.keyOf(q));
    assert EntryOk(r, c, q) && ListOk(r, c, r.tenantOf(q), q);
    forall p ensures EntryOk(r, d, p) { assert EntryOk(r, c, p); }
    forall t, p ensures ListOk(r, d, t, p) { assert ListOk(r, c, t, p); }
    forall k ensures KeyOk(r, d, k) { assert KeyOk(r, c, k); }
  }

  /** With the indexes inverse to the entries, invalidation is exact: the tenant's entries go, all others stay as they
      are. */
  lemma DropTenantIsExact(r: Registry, c: Cache, tenantID: int)
    requires OneToOne(r) && Inverse(r, c)
    ensures Inverse(r, DropTenant(c, tenantID))
    ensures DropTenant(c, tenantID).tenantByPrefix ==
            map p | p in c.tenantByPrefix && c.tenantByPrefix[p].tenant.id != tenantID :: c.tenantByPrefix[p]
  {
    var d := DropTenant(c, tenantID);
    forall p ensures p in d.tenantByPrefix <==> p in c.tenantByPrefix && r.tenantOf(p) != tenantID {
      assert ListOk(r, c, tenantID, p);
    }
    forall p ensures p in c.tenantByPrefix ==> c.tenantByPrefix[p].tenant.id == r.tenantOf(p) {
      assert EntryOk(r, c, p);
    }
    forall p ensures EntryOk(r, d, p) {
      assert EntryOk(r, c, p);
      assert forall g :: g in PrefixesOf(c, tenantID) && g in c.tenantByPrefix ==>
        EntryOk(r, c, g) && ListOk(r, c, tenantID, g);
    }
    forall t, p ensures ListOk(r, d, t, p) { assert ListOk(r, c, t, p); }
    forall k ensures KeyOk(r, d, k) { DropTenantKeys(r, c, tenantID, k); }
  }

  lemma DropTenantKeys(r: Registry, c: Cache, tenantID: int, k: int)
    requires OneToOne(r) && Inverse(r, c)
    ensures KeyOk(r, DropTenant(c, tenantID), k)
  {
    assert KeyOk(r, c, k);
    if k in c.prefixByTenantKeyID {
      var p := c.prefixByTenantKeyID[k];
      assert EntryOk(r, c, p);
      if tenantID in c.prefixesByTenant && p in c.prefixesByTenant[tenantID] {
        assert k in KeyIDsOf(c.tenantByPrefix, set q | q in c.prefixesByTenant[tenantID] && q in c.tenantByPrefix);
      }
    }
  }

  /** ... and revoking a key removes exactly that key's entry. */
  lemma DropKeyIsExact(r: Registry, c: Cache, keyID: int)
    requires OneToOne(r) && Inverse(r, c)
    ensures Inverse(r, DropKey(c, keyID))
    ensures DropKey(c, keyID).tenantByPrefix ==
            map p | p in c.tenantByPrefix && c.tenantByPrefix[p].key.id != keyID :: c.tenantByPrefix[p]
  {
    forall p ensures p in c.tenantByPrefix ==>
      c.tenantByPrefix[p].key.id == r.keyOf(p) && c.prefixByTenantKeyID.Keys >= {r.keyOf(p)} {
      assert EntryOk(r, c, p);
    }
    if keyID in c.prefixByTenantKeyID {
      var q := c.prefixByTenantKeyID[keyID];
      assert KeyOk(r, c, keyID) && EntryOk(r, c, q);
      DeleteKeepsInverse(r, c, q);
      SinglesDoNotMatter(r, DeleteTenantPrefix(c, q, r.tenantOf(q), keyID), DropKey(c, keyID));
    } else {
      SinglesDoNotMatter(r, c, DropKey(c, keyID));
    }
  }

  lemma SinglesDoNotMatter(r: Registry, c: Cache, d: Cache)
    requires Inverse(r, c)
    requires d.tenantByPrefix == c.tenantByPrefix && d.prefixesByTenant == c.prefixesByTenant
    requires d.prefixByTenantKeyID == c.prefixByTenantKeyID
    ensures Inverse(r, d)
  {
    forall p ensures EntryOk(r, d, p) { assert EntryOk(r, c, p); }
    forall t, p ensures ListOk(r, d, t, p) { assert ListOk(r, c, t, p); }
    forall k ensures KeyOk(r, d, k) { assert KeyOk(r, c, k); }
  }

  lemma EmptyIsInverse(r: Registry, ttl: int)
    ensures Inverse(r, Empty(ttl))
  {
    var c := Empty(ttl);
    forall p ensures EntryOk(r, c, p) { }
    forall t, p ensures ListOk(r, c, t, p) { }
    forall k ensures KeyOk(r, c, k) { }
  }

  lemma {:induction false} AlwaysInverse(r: Registry, ttl: int, ops: seq<Op>)
    requires OneToOne(r) && AllConform(r, ops)
    ensures Inverse(r, RunAll(ttl, ops))
  {
    if ops == [] {
      EmptyIsInverse(r, ttl);
    } else {
      var before, last := ops[..|ops| - 1], ops[|ops| - 1];
      forall i | 0 <= i < |before| ensures Conforms(r, before[i]) { assert Conforms(r, ops[i]); }
      AlwaysInverse(r, ttl, before);
      var c := RunAll(ttl, before);
      match last {
        case Put(e) => PutKeepsInverse(r, c, e);
        case Get(p, now) =>
          assert EntryOk(r, c, p);
          if p in c.tenantByPrefix { DeleteKeepsInverse(r, c, p); }
        case InvalidateTenant(t) => DropTenantIsExact(r, c, t);
        case InvalidateKey(k) => DropKeyIsExact(r, c, k);
        case GetKey(p, now) => SinglesDoNotMatter(r, c, RunOp(c, last));
        case PutKey(single) => SinglesDoNotMatter(r, c, RunOp(c, last));
        case ClearAll => EmptyIsInverse(r, c.ttl);
        case NewTTL(new_ttl) =>
          if new_ttl <= 0 { EmptyIsInverse(r, new_ttl); } else { SinglesDoNotMatter(r, c, RunOp(c, last)); }
      }
    }
  }

  /** Over every run whose puts agree with such a registry, invalidating a tenant removes its entries and no others. */
  lemma InvalidationIsExact(r: Registry, ttl: int, ops: seq<Op>, tenantID: int)
    requires OneToOne(r) && AllConform(r, ops)
    ensures var c := RunAll(ttl, ops);
            DropTenant(c, tenantID).tenantByPrefix ==
            map p | p in c.tenantByPrefix && c.tenantByPrefix[p].tenant.id != tenantID :: c.tenantByPrefix[p]
  {
    AlwaysInverse(r, ttl, ops);
    DropTenantIsExact(r, RunAll(ttl, ops), tenantID);
  }

  // ----- What is served, against a plain map -----

  /** The time to live in force after the operations. */
  function TTLAfter(ttl: int, ops: seq<Op>): int {
    if ops == [] then ttl
    else if ops[|ops| - 1].NewTTL? then ops[|ops| - 1].ttl
    else TTLAfter(ttl, ops[..|ops| - 1])
  }

  /** The tenant entries a plain map would hold: the last put of each prefix, unless its tenant or key was invalidated
      since, everything was cleared or switched off, or a lookup found it expired. */
  ghost function Expected(ttl: int, ops: seq<Op>): map<string, TenantEntry> {
    if ops == [] then map[]
    else
      var before, last := ops[..|ops| - 1], ops[|ops| - 1];
      var m, live := Expected(ttl, before), TTLAfter(ttl, before);
      match last
      case Put(e) => if live > 0 then m[e.key.prefix := e] else m
      case Get(p, now) => if live > 0 && p in m && now - m[p].cachedAt >= live then m - {p} else m
      case InvalidateTenant(t) => map p | p in m && m[p].tenant.id != t :: m[p]
      case InvalidateKey(k) => map p | p in m && m[p].key.id != k :: m[p]
      case ClearAll => map[]
      case NewTTL(t) => if t <= 0 then map[] else m
      case _ => m
  }

  /** The same for single keys. */
  ghost function ExpectedSingles(ttl: int, ops: seq<Op>): map<string, SingleEntry> {
    if ops == [] then map[]
    else
      var before := ops[..|ops| - 1];
      NextSingles(ExpectedSingles(ttl, before), ops[|ops| - 1], TTLAfter(ttl, before))
  }

  ghost function NextSingles(m: map<string, SingleEntry>, op: Op, live: int): map<string, SingleEntry> {
    match op
    case PutKey(e) => if live > 0 then m[e.key.prefix := e] else m
    case GetKey(p, now) => if live > 0 && p in m && now - m[p].cachedAt >= live then m - {p} else m
    case InvalidateKey(k) => map p | p in m && m[p].key.id != k :: m[p]
    case ClearAll => map[]
    case NewTTL(t) => if t <= 0 then map[] else m
    case _ => m
  }

  lemma {:induction false} TTLIsSet(ttl: int, ops: seq<Op>)
    ensures RunAll(ttl, ops).ttl == TTLAfter(ttl, ops)
  {
    if ops != [] {
      TTLIsSet(ttl, ops[..|ops| - 1]);
    }
  }

  /** Over every run whose puts agree with a registry: the tenant entries are exactly those of the plain map, so with
      the three indexes nothing is lost, and nothing revoked is kept. */
  lemma {:induction false} CachedIsExpected(r: Registry, ttl: int, ops: seq<Op>)
    requires OneToOne(r) && AllConform(r, ops)
    ensures RunAll(ttl, ops).tenantByPrefix == Expected(ttl, ops)
  {
    if ops != [] {
      var before, last := ops[..|ops| - 1], ops[|ops| - 1];
      forall i | 0 <= i < |before| ensures Conforms(r, before[i]) { assert Conforms(r, ops[i]); }
      CachedIsExpected(r, ttl, before);
      AlwaysInverse(r, ttl, before);
      TTLIsSet(ttl, before);
      var c := RunAll(ttl, before);
      match last {
        case InvalidateTenant(t) => DropTenantIsExact(r, c, t);
        case InvalidateKey(k) => DropKeyIsExact(r, c, k);
        case _ =>
      }
    }
  }

  /** A single key's prefix determines its ID, and the other way round. */
  ghost predicate OneKeyEach(keyOf: string -> int, ops: seq<Op>) {
    && (forall p, q {:trigger keyOf(p), keyOf(q)} :: keyOf(p) == keyOf(q) ==> p == q)
    && (forall i {:trigger ops[i]} :: 0 <= i < |ops| && ops[i].PutKey? ==>
          ops[i].single.key.id == keyOf(ops[i].single.key.prefix))
  }

  /** The index of single keys is exactly the inverse of the entries. */
  ghost predicate SinglesInverse(keyOf: string -> int, c: Cache) {
    && (forall p {:trigger c.singleByPrefix[p]} :: p in c.singleByPrefix ==>
          c.singleByPrefix[p].key == ApiKey(keyOf(p), p) && keyOf(p) in c.prefixBySingleKeyID)
    && (forall k {:trigger c.prefixBySingleKeyID[k]} :: k in c.prefixBySingleKeyID ==>
          c.prefixBySingleKeyID[k] in c.singleByPrefix && keyOf(c.prefixBySingleKeyID[k]) == k)
  }

  /** Revoking a key touches one single entry, whatever it does to the tenant maps. */
  lemma DropKeyAlsoDrops(c: Cache, keyID: int)
    ensures var d := DropKey(c, keyID);
            if keyID !in c.prefixBySingleKeyID
            then d.singleByPrefix == c.singleByPrefix && d.prefixBySingleKeyID == c.prefixBySingleKeyID
            else && d.singleByPrefix == c.singleByPrefix - {c.prefixBySingleKeyID[keyID]}
                 && d.prefixBySingleKeyID == c.prefixBySingleKeyID - {keyID}
  {
  }

  lemma DropKeyDropsSingle(keyOf: string -> int, c: Cache, keyID: int)
    requires SinglesInverse(keyOf, c) && OneKeyEach(keyOf, [])
    ensures SinglesInverse(keyOf, DropKey(c, keyID))
    ensures DropKey(c, keyID).singleByPrefix ==
            map p | p in c.singleByPrefix && c.singleByPrefix[p].key.id != keyID :: c.singleByPrefix[p]
  {
    var d := DropKey(c, keyID);
    DropKeyAlsoDrops(c, keyID);
    forall p ensures p in d.singleByPrefix <==> p in c.singleByPrefix && c.singleByPrefix[p].key.id != keyID {
      assert p in c.singleByPrefix ==> c.singleByPrefix[p].key == ApiKey(keyOf(p), p);
    }
  }

  lemma PutOnSingles(keyOf: string -> int, c: Cache, e: SingleEntry)
    requires SinglesInverse(keyOf, c) && OneKeyEach(keyOf, []) && e.key.id == keyOf(e.key.prefix)
    ensures SinglesInverse(keyOf, PutSingle(c, e))
  {
    var d, q := PutSingle(c, e), e.key.prefix;
    forall p | p in d.singleByPrefix
      ensures d.singleByPrefix[p].key == ApiKey(keyOf(p), p) && keyOf(p) in d.prefixBySingleKeyID
    {
      assert p != q ==> c.singleByPrefix[p].key == ApiKey(keyOf(p), p);
    }
    forall k | k in d.prefixBySingleKeyID
      ensures d.prefixBySingleKeyID[k] in d.singleByPrefix && keyOf(d.prefixBySingleKeyID[k]) == k
    {
      assert k != keyOf(q) ==> c.prefixBySingleKeyID[k] in c.singleByPrefix;
    }
  }

  lemma GetOnSingles(keyOf: string -> int, c: Cache, prefix: string, now: int)
    requires SinglesInverse(keyOf, c) && OneKeyEach(keyOf, [])
    ensures SinglesInverse(keyOf, GetSingle(c, prefix, now).1)
  {
    var d := GetSingle(c, prefix, now).1;
    forall p | p in d.singleByPrefix
      ensures d.singleByPrefix[p].key == ApiKey(keyOf(p), p) && keyOf(p) in d.prefixBySingleKeyID
    {
      assert c.singleByPrefix[p].key == ApiKey(keyOf(p), p);
      assert prefix in c.singleByPrefix ==> c.singleByPrefix[prefix].key == ApiKey(keyOf(prefix), prefix);
    }
    forall k | k in d.prefixBySingleKeyID
      ensures d.prefixBySingleKeyID[k] in d.singleByPrefix && keyOf(d.prefixBySingleKeyID[k]) == k
    {
      assert c.prefixBySingleKeyID[k] in c.singleByPrefix && keyOf(c.prefixBySingleKeyID[k]) == k;
    }
  }

  /** The other operations keep the single entries, or drop them all. */
  lemma OtherOpOnSingles(c: Cache, op: Op)
    requires !op.PutKey? && !op.GetKey? && !op.InvalidateKey?
    ensures var d := RunOp(c, op);
            if op.ClearAll? || (op.NewTTL? && op.ttl <= 0)
            then d.singleByPrefix == map[] && d.prefixBySingleKeyID == map[]
            else d.singleByPrefix == c.singleByPrefix && d.prefixBySingleKeyID == c.prefixBySingleKeyID
  {
  }

  lemma OpOnSingles(keyOf: string -> int, c: Cache, op: Op)
    requires SinglesInverse(keyOf, c) && OneKeyEach(keyOf, []) && !op.InvalidateKey?
    requires op.PutKey? ==> op.single.key.id == keyOf(op.single.key.prefix)
    ensures SinglesInverse(keyOf, RunOp(c, op))
    ensures RunOp(c, op).singleByPrefix == NextSingles(c.singleByPrefix, op, c.ttl)
  {
    match op
    case PutKey(e) => PutOnSingles(keyOf, c, e);
    case GetKey(prefix, now) => GetOnSingles(keyOf, c, prefix, now);
    case _ => OtherOpOnSingles(c, op);
  }

  /** Over every run in which single keys have one prefix each: the single entries are exactly those of the plain map,
      so a revoked key is gone. */
  lemma {:induction false} SinglesAreExpected(keyOf: string -> int, ttl: int, ops: seq<Op>)
    requires OneKeyEach(keyOf, ops)
    ensures RunAll(ttl, ops).singleByPrefix == ExpectedSingles(ttl, ops) && SinglesInverse(keyOf, RunAll(ttl, ops))
  {
    if ops != [] {
      var before, last := ops[..|ops| - 1], ops[|ops| - 1];
      forall i | 0 <= i < |before| && before[i].PutKey?
        ensures before[i].single.key.id == keyOf(before[i].single.key.prefix) { assert before[i] == ops[i]; }
      SinglesAreExpected(keyOf, ttl, before);
      TTLIsSet(ttl, before);
      if last.InvalidateKey? {
        DropKeyDropsSingle(keyOf, RunAll(ttl, before), last.keyID);
      } else {
        OpOnSingles(keyOf, RunAll(ttl, before), last);
      }
    }
  }

  /** In any state: a lookup serves the cached entry exactly while caching is on and the entry is younger than the
      time to live, and one that has expired is not there for the next lookup either. */
  lemma ServedIff(c: Cache, prefix: string, now: int)
    ensures var (tenant, c1) := GetTenant(c, prefix, now); var (single, c2) := GetSingle(c, prefix, now);
            && (tenant.Some? <==>
                0 < c.ttl && prefix in c.tenantByPrefix && now < c.tenantByPrefix[prefix].cachedAt + c.ttl)
            && (tenant.Some? ==> tenant.value == c.tenantByPrefix[prefix] && c1 == c)
            && (tenant.None? && 0 < c.ttl ==> prefix !in c1.tenantByPrefix)
            && (single.Some? <==>
                0 < c.ttl && prefix in c.singleByPrefix && now < c.singleByPrefix[prefix].cachedAt + c.ttl)
            && (single.Some? ==> single.value == c.singleByPrefix[prefix] && c2 == c)
            && (single.None? && 0 < c.ttl ==> prefix !in c2.singleByPrefix)
  {
  }

  /** In any state, other tenants are left alone exactly when no prefix still listed under the tenant is cached for
      another. */
  lemma OthersUntouchedIff(c: Cache, tenantID: int)
    requires Listed(c)
    ensures (forall p <- c.tenantByPrefix ::
               c.tenantByPrefix[p].tenant.id != tenantID ==> p in DropTenant(c, tenantID).tenantByPrefix)
            <==> (forall p <- c.tenantByPrefix ::
                    p in PrefixesOf(c, tenantID) ==> c.tenantByPrefix[p].tenant.id == tenantID)
  {
    var d := DropTenant(c, tenantID);
    assert forall p :: p in d.tenantByPrefix <==> p in c.tenantByPrefix && p !in PrefixesOf(c, tenantID);
  }

  /** A prefix that moved to another tenant is such a state: invalidating the old tenant evicts the new one's entry. */
  lemma ReusedPrefixIsEvicted(e1: TenantEntry, e2: TenantEntry)
    requires e1.key.prefix == e2.key.prefix && e1.tenant.id != e2.tenant.id
    ensures e2.key.prefix !in DropTenant(PutTenant(PutTenant(Empty(1), e1), e2), e1.tenant.id).tenantByPrefix
  {
  }
}

/** The request path that fills the cache, against a store that changes under it (internal/api/auth.go).

    `history` records every moment: a clock value and the store contents at that time. */
module AuthFlow {
  import opened Common
  import opened Scopes
  import opened AuthCache

  datatype KeyRow = KeyRow(keyID: int, digest: Bytes, tenant: Tenant)

  datatype Store = Store(keys: map<string, KeyRow>, grants: map<int, seq<string>>)

  function ScopeFor(store: Store, tenant: Tenant): Scope {
    if tenant.wildcard then Wildcard
    else Contracts(if tenant.id in store.grants then store.grants[tenant.id] else [])
  }

  datatype Moment = Moment(time: int, store: Store)

  datatype Phase =
    | Started                                  // clock read
    | Missed                                   // cache miss, store not read yet
    | KeyRead(row: KeyRow)                     // first store read done
    | ScopeRead(row: KeyRow, scope: Scope)     // second store read done, not cached yet
    | Answered(reply: Option<TenantEntry>)     // Some: served from the cache

  datatype Request = Request(prefix: string, now: int, phase: Phase)

  datatype State = State(history: seq<Moment>, cache: Cache, requests: seq<Request>)

  datatype Step =
    | Advance(moment: Moment)                  // time passes, the store may change
    | Invalidate(op: Op)                       // an invalidation, a clear, a TTL change
    | Start(prefix: string)
    | LookUp(i: nat)
    | ReadKey(i: nat)
    | Reject(i: nat)                           // wrong secret, disabled tenant, store error
    | ReadScope(i: nat)
    | Fill(i: nat)

  function Current(s: State): Moment
    requires s.history != []
  {
    s.history[|s.history| - 1]
  }

  predicate Enabled(s: State, step: Step) {
    s.history != [] &&
    match step
    case Advance(m) => Current(s).time <= m.time
    case Invalidate(op) => op.InvalidateTenant? || op.InvalidateKey? || op.ClearAll? || op.NewTTL?
    case Start(_) => true
    case LookUp(i) => i < |s.requests| && s.requests[i].phase.Started?
    case ReadKey(i) => i < |s.requests| && s.requests[i].phase.Missed?
    case Reject(i) => i < |s.requests| && (s.requests[i].phase.KeyRead? || s.requests[i].phase.Missed?)
    case ReadScope(i) => i < |s.requests| && s.requests[i].phase.KeyRead?
    case Fill(i) => i < |s.requests| && s.requests[i].phase.ScopeRead?
  }

  function Move(s: State, i: nat, phase: Phase): State
    requires i < |s.requests|
  {
    s.(requests := s.requests[i := s.requests[i].(phase := phase)])
  }

  /** What the request puts in the cache: all it read, under the clock reading it started with. */
  function FilledEntry(q: Request): TenantEntry
    requires q.phase.ScopeRead?
  {
    var row := q.phase.row;
    TenantEntry(ApiKey(row.keyID, q.prefix), row.digest, row.tenant, q.phase.scope, q.now)
  }

  function Apply(s: State, step: Step): State
    requires Enabled(s, step)
  {
    match step
    case Advance(m) => s.(history := s.history + [m])
    case Invalidate(op) => s.(cache := RunOp(s.cache, op))
    case Start(prefix) => s.(requests := s.requests + [Request(prefix, Current(s).time, Started)])
    case LookUp(i) =>
      var (hit, cache) := GetTenant(s.cache, s.requests[i].prefix, s.requests[i].now);
      Move(s.(cache := cache), i, if hit.Some? then Answered(hit) else Missed)
    case ReadKey(i) =>
      var keys := Current(s).store.keys;
      Move(s, i, if s.requests[i].prefix in keys then KeyRead(keys[s.requests[i].prefix]) else Answered(None))
    case Reject(i) => Move(s, i, Answered(None))
    case ReadScope(i) =>
      var row := s.requests[i].phase.row;
      Move(s, i, ScopeRead(row, ScopeFor(Current(s).store, row.tenant)))
    case Fill(i) =>
      Move(s.(cache := PutTenant(s.cache, FilledEntry(s.requests[i]))), i, Answered(None))
  }

  /** The store held this key row at some moment no earlier than `since`. */
  ghost predicate HeldKey(history: seq<Moment>, since: int, prefix: string, row: KeyRow) {
    exists m {:trigger history[m]} :: 0 <= m < |history| && since <= history[m].time &&
                                      prefix in history[m].store.keys && history[m].store.keys[prefix] == row
  }

  ghost predicate HeldScope(history: seq<Moment>, since: int, tenant: Tenant, scope: Scope) {
    exists m {:trigger history[m]} ::
      0 <= m < |history| && since <= history[m].time && ScopeFor(history[m].store, tenant) == scope
  }

  /** What an entry says was in the store no earlier than its stamp. */
  ghost predicate Backed(history: seq<Moment>, e: TenantEntry) {
    && HeldKey(history, e.cachedAt, e.key.prefix, KeyRow(e.key.id, e.digest, e.tenant))
    && HeldScope(history, e.cachedAt, e.tenant, e.scope)
  }

  ghost predicate EntriesBacked(history: seq<Moment>, c: Cache) {
    forall p {:trigger c.tenantByPrefix[p]} ::
      p in c.tenantByPrefix ==> c.tenantByPrefix[p].key.prefix == p && Backed(history, c.tenantByPrefix[p])
  }

  ghost predicate RequestInv(history: seq<Moment>, q: Request) {
    && history != [] && q.now <= history[|history| - 1].time
    && match q.phase
       case KeyRead(row) => HeldKey(history, q.now, q.prefix, row)
       case ScopeRead(row, scope) =>
         HeldKey(history, q.now, q.prefix, row) && HeldScope(history, q.now, row.tenant, scope)
       case _ => true
  }

  ghost predicate RequestsOk(s: State) {
    forall i {:trigger RequestInv(s.history, s.requests[i])} ::
      0 <= i < |s.requests| ==> RequestInv(s.history, s.requests[i])
  }

  ghost predicate Inv(s: State) {
    EntriesBacked(s.history, s.cache) && RequestsOk(s)
  }

  lemma AdvanceKeepsInv(s: State, m: Moment)
    requires Inv(s) && Enabled(s, Advance(m))
    ensures Inv(Apply(s, Advance(m)))
  {
    var h := s.history + [m];
    assert forall k :: 0 <= k < |s.history| ==> h[k] == s.history[k];
    forall p | p in s.cache.tenantByPrefix ensures Backed(h, s.cache.tenantByPrefix[p]) {
      assert Backed(s.history, s.cache.tenantByPrefix[p]);
    }
    forall i | 0 <= i < |s.requests| ensures RequestInv(h, s.requests[i]) {
      assert RequestInv(s.history, s.requests[i]);
    }
  }

  /** No operation but a put adds an entry or changes one. */
  lemma OnlyPutsAdd(c: Cache, op: Op, d: Cache)
    requires !op.Put? && d == RunOp(c, op)
    ensures forall p :: p in d.tenantByPrefix ==> p in c.tenantByPrefix && d.tenantByPrefix[p] == c.tenantByPrefix[p]
  {
  }

  /** A step that leaves the history alone: entries only shrink or gain a backed one, one request moves. */
  lemma QuietStepKeepsInv(s: State, s': State)
    requires Inv(s) && s'.history == s.history && EntriesBacked(s.history, s'.cache)
    requires forall i {:trigger s'.requests[i]} :: 0 <= i < |s'.requests| ==>
               (i < |s.requests| && s'.requests[i] == s.requests[i]) || RequestInv(s.history, s'.requests[i])
    ensures Inv(s')
  {
    forall i | 0 <= i < |s'.requests| ensures RequestInv(s'.history, s'.requests[i]) {
      assert i < |s.requests| ==> RequestInv(s.history, s.requests[i]);
    }
  }

  /** Both store reads happen after the clock was read, so what they return is held at or after the stamp. */
  lemma ReadKeepsInv(s: State, step: Step)
    requires Inv(s) && Enabled(s, step) && (step.ReadKey? || step.ReadScope? || step.Reject?)
    ensures Inv(Apply(s, step))
  {
    assert RequestInv(s.history, s.requests[step.i]);
    assert Current(s) == s.history[|s.history| - 1];
    QuietStepKeepsInv(s, Apply(s, step));
  }

  lemma FillKeepsInv(s: State, i: nat)
    requires Inv(s) && Enabled(s, Fill(i))
    ensures Inv(Apply(s, Fill(i)))
  {
    assert RequestInv(s.history, s.requests[i]);
    QuietStepKeepsInv(s, Apply(s, Fill(i)));
  }

  lemma StepKeepsInv(s: State, step: Step)
    requires Inv(s) && Enabled(s, step)
    ensures Inv(Apply(s, step))
  {
    match step
    case Advance(m) => AdvanceKeepsInv(s, m);
    case Invalidate(op) =>
      OnlyPutsAdd(s.cache, op, Apply(s, step).cache);
      QuietStepKeepsInv(s, Apply(s, step));
    case Start(_) => QuietStepKeepsInv(s, Apply(s, step));
    case LookUp(i) =>
      OnlyPutsAdd(s.cache, Get(s.requests[i].prefix, s.requests[i].now), Apply(s, step).cache);
      assert RequestInv(s.history, s.requests[i]);
      QuietStepKeepsInv(s, Apply(s, step));
    case Fill(i) => FillKeepsInv(s, i);
    case _ => ReadKeepsInv(s, step);
  }

  ghost predicate IsRun(steps: seq<Step>, states: seq<State>) {
    && |states| == |steps| + 1
    && |states[0].history| == 1 && states[0].requests == [] && states[0].cache == Empty(states[0].cache.ttl)
    && (forall n {:trigger steps[n]} ::
         0 <= n < |steps| ==> Enabled(states[n], steps[n]) && states[n + 1] == Apply(states[n], steps[n]))
  }

  lemma {:induction false} InvHolds(steps: seq<Step>, states: seq<State>, n: nat)
    requires IsRun(steps, states) && n < |states|
    ensures Inv(states[n])
  {
    if n > 0 {
      InvHolds(steps, states, n - 1);
      assert Enabled(states[n - 1], steps[n - 1]);
      StepKeepsInv(states[n - 1], steps[n - 1]);
    }
  }

  /** In every run: requests are what came in, in order, each with the clock at its start. */
  lemma {:induction false} RequestsAreAsAsked(steps: seq<Step>, states: seq<State>, n: nat, i: nat)
    requires IsRun(steps, states) && n < |states| && i < |states[n].requests|
    ensures exists m :: 0 <= m < n && |states[m].requests| == i && states[m].history != [] &&
                        steps[m] == Start(states[n].requests[i].prefix) &&
                        states[n].requests[i].now == Current(states[m]).time
  {
    assert Enabled(states[n - 1], steps[n - 1]);
    if i < |states[n - 1].requests| {
      RequestsAreAsAsked(steps, states, n - 1, i);
    }
  }

  /** Bounded staleness: in every interleaving of requests, store writes and invalidations, a cache hit for a request
      that read its clock at t returns a digest, key and tenant — and a scope — that the store held at some moment
      later than t minus the TTL, up to the lookup. */
  lemma HitsAreBoundedStale(steps: seq<Step>, states: seq<State>, n: nat, i: nat)
    requires IsRun(steps, states) && n < |steps| && steps[n] == LookUp(i)
    requires i < |states[n].requests| && i < |states[n + 1].requests|
    requires states[n + 1].requests[i].phase.Answered? && states[n + 1].requests[i].phase.reply.Some?
    ensures var e := states[n + 1].requests[i].phase.reply.value;
            var q, history, ttl := states[n].requests[i], states[n].history, states[n].cache.ttl;
            && e.key.prefix == q.prefix
            && (exists m :: 0 <= m < |history| && q.now - ttl < history[m].time && q.prefix in history[m].store.keys &&
                            history[m].store.keys[q.prefix] == KeyRow(e.key.id, e.digest, e.tenant))
            && (exists m :: 0 <= m < |history| && q.now - ttl < history[m].time &&
                 ScopeFor(history[m].store, e.tenant) == e.scope)
  {
    InvHolds(steps, states, n);
    assert Enabled(states[n], steps[n]);
    var s, e := states[n], states[n + 1].requests[i].phase.reply.value;
    assert e == s.cache.tenantByPrefix[s.requests[i].prefix] && Backed(s.history, e);
  }

  // ----- When an invalidation is final -----

  /** The store held this row, or this scope, at moment number `since` or later. */
  ghost predicate HeldKeyFrom(history: seq<Moment>, since: nat, prefix: string, row: KeyRow) {
    exists m {:trigger history[m]} ::
      since <= m < |history| && prefix in history[m].store.keys && history[m].store.keys[prefix] == row
  }

  ghost predicate HeldScopeFrom(history: seq<Moment>, since: nat, tenant: Tenant, scope: Scope) {
    exists m {:trigger history[m]} :: since <= m < |history| && ScopeFor(history[m].store, tenant) == scope
  }

  ghost predicate BackedFrom(history: seq<Moment>, since: nat, e: TenantEntry) {
    && HeldKeyFrom(history, since, e.key.prefix, KeyRow(e.key.id, e.digest, e.tenant))
    && HeldScopeFrom(history, since, e.tenant, e.scope)
  }

  /** Every cached entry of the tenant says what the store held at moment number `since` or later. */
  ghost predicate CachedFrom(s: State, tenantID: int, since: nat) {
    forall p {:trigger s.cache.tenantByPrefix[p]} ::
      p in s.cache.tenantByPrefix && s.cache.tenantByPrefix[p].tenant.id == tenantID ==>
      BackedFrom(s.history, since, s.cache.tenantByPrefix[p])
  }

  /** What a request of the tenant has read and not cached yet was in the store at that moment or later. */
  ghost predicate ReadFrom(history: seq<Moment>, q: Request, tenantID: int, since: nat) {
    match q.phase
    case KeyRead(row) => row.tenant.id == tenantID ==> HeldKeyFrom(history, since, q.prefix, row)
    case ScopeRead(row, scope) =>
      row.tenant.id == tenantID ==>
        HeldKeyFrom(history, since, q.prefix, row) && HeldScopeFrom(history, since, row.tenant, scope)
    case _ => true
  }

  ghost predicate PendingFrom(s: State, tenantID: int, since: nat) {
    forall i {:trigger s.requests[i]} :: 0 <= i < |s.requests| ==> ReadFrom(s.history, s.requests[i], tenantID, since)
  }

  ghost predicate FreshFrom(s: State, tenantID: int, since: nat) {
    since < |s.history| && CachedFrom(s, tenantID, since) && PendingFrom(s, tenantID, since)
  }

  lemma LongerHistoryKeeps(history: seq<Moment>, m: Moment, since: nat, e: TenantEntry, q: Request, tenantID: int)
    ensures BackedFrom(history, since, e) ==> BackedFrom(history + [m], since, e)
    ensures ReadFrom(history, q, tenantID, since) ==> ReadFrom(history + [m], q, tenantID, since)
  {
    assert forall k :: 0 <= k < |history| ==> (history + [m])[k] == history[k];
  }

  lemma AdvanceKeepsFresh(s: State, m: Moment, tenantID: int, since: nat)
    requires FreshFrom(s, tenantID, since) && Enabled(s, Advance(m))
    ensures FreshFrom(Apply(s, Advance(m)), tenantID, since)
  {
    var s' := Apply(s, Advance(m));
    var someEntry := TenantEntry(ApiKey(0, ""), [], Tenant(0, true, true), Wildcard, 0);
    forall p | p in s'.cache.tenantByPrefix && s'.cache.tenantByPrefix[p].tenant.id == tenantID
      ensures BackedFrom(s'.history, since, s'.cache.tenantByPrefix[p])
    {
      LongerHistoryKeeps(s.history, m, since, s.cache.tenantByPrefix[p], Request("", 0, Started), tenantID);
    }
    forall i | 0 <= i < |s'.requests| ensures ReadFrom(s'.history, s'.requests[i], tenantID, since) {
      LongerHistoryKeeps(s.history, m, since, someEntry, s.requests[i], tenantID);
    }
  }

  /** Only fills add entries, and they add what was read. */
  lemma StepKeepsFresh(s: State, step: Step, tenantID: int, since: nat)
    requires FreshFrom(s, tenantID, since) && Enabled(s, step)
    ensures FreshFrom(Apply(s, step), tenantID, since)
  {
    match step
    case Advance(m) => AdvanceKeepsFresh(s, m, tenantID, since);
    case Invalidate(op) => OnlyPutsAdd(s.cache, op, Apply(s, step).cache);
    case LookUp(i) => OnlyPutsAdd(s.cache, Get(s.requests[i].prefix, s.requests[i].now), Apply(s, step).cache);
    case Fill(i) => assert ReadFrom(s.history, s.requests[i], tenantID, since);
    case ReadKey(i) => assert Current(s) == s.history[|s.history| - 1];
    case ReadScope(i) =>
      assert Current(s) == s.history[|s.history| - 1] && ReadFrom(s.history, s.requests[i], tenantID, since);
    case _ =>
  }

  ghost predicate Reaches(s: State, steps: seq<Step>, s': State)
    decreases |steps|
  {
    if steps == [] then s' == s else Enabled(s, steps[0]) && Reaches(Apply(s, steps[0]), steps[1..], s')
  }

  lemma {:induction false} FreshStaysFresh(s: State, steps: seq<Step>, s': State, tenantID: int, since: nat)
    requires FreshFrom(s, tenantID, since) && Reaches(s, steps, s')
    ensures FreshFrom(s', tenantID, since)
    decreases |steps|
  {
    if steps != [] {
      StepKeepsFresh(s, steps[0], tenantID, since);
      FreshStaysFresh(Apply(s, steps[0]), steps[1..], s', tenantID, since);
    }
  }

  function Invalidated(s: State, tenantID: int): State
    requires s.history != []
  {
    Apply(s, Invalidate(InvalidateTenant(tenantID)))
  }

  lemma OutdatedFill(s: State, tenantID: int, i: nat) returns (steps: seq<Step>, s': State)
    requires s.history != [] && i < |s.requests| && s.requests[i].phase.ScopeRead?
    requires !ReadFrom(s.history, s.requests[i], tenantID, |s.history| - 1)
    ensures Reaches(s, steps, s') && !CachedFrom(s', tenantID, |s.history| - 1)
  {
    var s1 := Apply(s, Invalidate(NewTTL(1)));
    s' := Apply(s1, Fill(i));
    var prefix := s.requests[i].prefix;
    assert prefix in s'.cache.tenantByPrefix && s'.history == s.history;
    assert !BackedFrom(s.history, |s.history| - 1, s'.cache.tenantByPrefix[prefix]);
    steps := [Invalidate(NewTTL(1)), Fill(i)];
    assert steps[1..] == [Fill(i)] && steps[1..][1..] == [];
    assert Reaches(s1, steps[1..], s');
  }

  /** A request that read something the store no longer has: its fill puts that in the cache. */
  lemma OutdatedFillIsCached(s: State, tenantID: int, i: nat) returns (steps: seq<Step>, s': State)
    requires s.history != [] && i < |s.requests| && !ReadFrom(s.history, s.requests[i], tenantID, |s.history| - 1)
    ensures Reaches(s, steps, s') && !CachedFrom(s', tenantID, |s.history| - 1)
  {
    if s.requests[i].phase.ScopeRead? {
      steps, s' := OutdatedFill(s, tenantID, i);
    } else {
      var rest;
      rest, s' := OutdatedFill(Apply(s, ReadScope(i)), tenantID, i);
      steps := [ReadScope(i)] + rest;
      assert steps[1..] == rest;
    }
  }

  /** Whatever happens from here, no entry of the tenant says what the store held only before moment number `since`. */
  ghost predicate Final(s: State, tenantID: int, since: nat) {
    forall steps, s' {:trigger Reaches(s, steps, s')} :: Reaches(s, steps, s') ==> CachedFrom(s', tenantID, since)
  }

  /** Exactly when invalidating a tenant is final, so that whatever happens next no entry of the tenant ever says what
      the store held only before: when no request is between its key read and its fill with a key row or a scope that
      the store has since changed. */
  lemma InvalidationIsFinalIff(s: State, tenantID: int)
    requires s.history != [] && Listed(s.cache)
    ensures Final(Invalidated(s, tenantID), tenantID, |s.history| - 1) <==> PendingFrom(s, tenantID, |s.history| - 1)
  {
    var s1, since := Invalidated(s, tenantID), |s.history| - 1;
    assert CachedFrom(s1, tenantID, since);
    if PendingFrom(s, tenantID, since) {
      forall steps, s' | Reaches(s1, steps, s') ensures CachedFrom(s', tenantID, since) {
        FreshStaysFresh(s1, steps, s', tenantID, since);
      }
    } else {
      var i :| 0 <= i < |s.requests| && !ReadFrom(s.history, s.requests[i], tenantID, since);
      var steps, s' := OutdatedFillIsCached(s1, tenantID, i);
      assert Final(s1, tenantID, since) ==> CachedFrom(s', tenantID, since);
    }
  }

  /** The loss can be seen: a fill that was under way when its tenant was invalidated is served to the next request, as
      long as its stamp is younger than the ttl. */
  lemma LostInvalidationIsServed(s: State, i: nat, tenantID: int)
    requires s.history != [] && s.cache.ttl > 0 && i < |s.requests| && s.requests[i].phase.ScopeRead?
    requires Current(s).time - s.requests[i].now < s.cache.ttl
    ensures var q, s1 := s.requests[i], Invalidated(s, tenantID);
            var s2 := Apply(s1, Fill(i));
            var s3 := Apply(s2, Start(q.prefix));
            var s4 := Apply(s3, LookUp(|s.requests|));
            && |s4.requests| == |s.requests| + 1
            && s4.requests[|s.requests|].phase == Answered(Some(FilledEntry(q)))
  {
  }

  /** In every run each cached entry is listed under its own tenant, so the condition applies at every state. */
  lemma {:induction false} AlwaysListedInRuns(steps: seq<Step>, states: seq<State>, n: nat)
    requires IsRun(steps, states) && n < |states|
    ensures Listed(states[n].cache) && states[n].history != []
  {
    if n > 0 {
      AlwaysListedInRuns(steps, states, n - 1);
      var s, step := states[n - 1], steps[n - 1];
      assert Enabled(s, step);
      match step
      case Invalidate(op) => OpKeepsListed(s.cache, op);
      case LookUp(i) => OpKeepsListed(s.cache, Get(s.requests[i].prefix, s.requests[i].now));
      case Fill(i) => OpKeepsListed(s.cache, Put(FilledEntry(s.requests[i])));
      case _ =>
    }
  }
}
