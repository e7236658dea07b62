/** The reservation table behind write-endpoint idempotency (internal/store/idempotency.go). */
module IdempotencyStore {
  import opened Common

  const DEFAULT_SWEEP_BATCH_SIZE := 500

  /** What identifies a request: two requests are "the same" exactly when these three agree. */
  datatype Fingerprint = Fingerprint(requestHash: string, httpMethod: string, path: string)

  /** Status 0 stands for "no response yet". */
  datatype Response = Response(status: nat, contentType: string, body: Bytes)

  const NO_RESPONSE := Response(0, "", [])

  datatype Row = Row(fp: Fingerprint, response: Response, expiresAt: int)

  datatype RowKey = RowKey(tenant: string, key: string)

  datatype ClaimOutcome = Started | Replayed(existing: Row) | InFlight | Mismatch

  function Lookup(records: map<RowKey, Row>, k: RowKey): Option<Row> {
    if k in records then Some(records[k]) else None
  }

  predicate Expired(row: Row, now: int) {
    row.expiresAt <= now
  }

  /** A claim as one atomic transaction on the row of one key: the outcome and the row left behind. */
  function Claim(row: Option<Row>, fp: Fingerprint, expiresAt: int, now: int): (ClaimOutcome, Option<Row>) {
    if row.None? || Expired(row.value, now) then (Started, Some(Row(fp, NO_RESPONSE, expiresAt)))
    else if row.value.fp != fp then (Mismatch, row)
    else if row.value.response.status == 0 then (InFlight, row)
    else (Replayed(row.value), row)
  }

  function Complete(row: Option<Row>, response: Response): Option<Row> {
    if row.None? then None else Some(row.value.(response := response))
  }

  /** Reads hide an expired row. */
  function Get(row: Option<Row>, now: int): Option<Row> {
    if row.Some? && !Expired(row.value, now) then row else None
  }

  class MemoryIdempotencyStore {
    var records: map<RowKey, Row>

    constructor ()
      ensures records == map[]
    {
      records := map[];
    }

    method ClaimIdempotencyKey(k: RowKey, fp: Fingerprint, expiresAt: int, now: int) returns (outcome: ClaimOutcome)
      modifies this
      ensures (outcome, Lookup(records, k)) == Claim(old(Lookup(records, k)), fp, expiresAt, now)
      ensures records - {k} == old(records) - {k}
    {
      if k in records {
        var existing := records[k];
        if existing.expiresAt <= now {
          records := records - {k};
        } else {
          if existing.fp != fp {
            return Mismatch;
          }
          if existing.response.status == 0 {
            return InFlight;
          }
          return Replayed(existing);
        }
      }
      records := records[k := Row(fp, NO_RESPONSE, expiresAt)];
      return Started;
    }

    method CompleteIdempotencyKey(k: RowKey, response: Response) returns (found: bool)
      modifies this
      ensures found == (k in old(records))
      ensures Lookup(records, k) == Complete(old(Lookup(records, k)), response)
      ensures records - {k} == old(records) - {k}
    {
      found := k in records;
      if found {
        records := records[k := records[k].(response := response)];
      }
    }

    method DeleteIdempotencyKey(k: RowKey)
      modifies this
      ensures records == old(records) - {k}
    {
      records := records - {k};
    }

    method GetIdempotencyKey(k: RowKey, now: int) returns (r: Option<Row>)
      ensures r == Get(Lookup(records, k), now)
    {
      if k !in records || records[k].expiresAt <= now {
        return None;
      }
      return Some(records[k]);
    }

    /** A sweep removes expired rows only, at most `limit` of them, and stops short only at the limit. */
    method DeleteExpiredIdempotencyKeys(now: int, limit: int) returns (deleted: nat)
      modifies this
      ensures records == old(records) - (old(records.Keys) - records.Keys)
      ensures forall k :: k in old(records) && k !in records ==> Expired(old(records)[k], now)
      ensures deleted == |old(records.Keys) - records.Keys|
      ensures var bound := if limit <= 0 then DEFAULT_SWEEP_BATCH_SIZE else limit;
              deleted <= bound &&
              (deleted < bound ==> forall k :: k in records ==> !Expired(records[k], now))
    {
      var bound := if limit <= 0 then DEFAULT_SWEEP_BATCH_SIZE else limit;
      var todo := records.Keys;
      ghost var before, gone: set<RowKey> := records, {};
      deleted := 0;
      while todo != {}
        invariant Swept(before, gone, records, now) && NoneExpired(records, todo, now)
        invariant todo <= records.Keys && deleted == |gone| && deleted < bound
        decreases |todo|
      {
        var k :| k in todo;
        todo := todo - {k};
        if records[k].expiresAt <= now {
          records := records - {k};
          gone := gone + {k};
          deleted := deleted + 1;
          if deleted >= bound {
            break;
          }
        }
      }
      assert gone == before.Keys - records.Keys;
    }
  }

  /** `gone` is what was removed, all of it expired. */
  ghost predicate Swept(before: map<RowKey, Row>, gone: set<RowKey>, after: map<RowKey, Row>, now: int) {
    gone <= before.Keys && after == before - gone && forall k <- gone :: Expired(before[k], now)
  }

  ghost predicate NoneExpired(records: map<RowKey, Row>, unseen: set<RowKey>, now: int) {
    forall k :: k in records && k !in unseen ==> !Expired(records[k], now)
  }
}
