/** The ceiling on decompressed request bodies (internal/api/compress.go, boundedDecompressedReader). A body whose
    decompressor cannot be set up behaves as a stream that is broken before its first byte. */
module BoundedReader {
  import opened Common

  const DEFAULT_MAX := 0x40_0000

  datatype ReadError = NoError | EndOfFile | LimitExceeded | Broken

  /** The decompressor's answer to one read: how many bytes it produced, and its error. */
  datatype Inner = Inner(n: nat, err: ReadError)

  /** `pos` bytes were handed out; `fired` counts calls of the rejection hook. */
  datatype Reader = Reader(maxBytes: int, pos: int, rejected: bool, fired: nat)

  function Limit(maxBytes: int): int {
    if maxBytes <= 0 then DEFAULT_MAX else maxBytes
  }

  function Fresh(maxBytes: int): Reader {
    Reader(Limit(maxBytes), 0, false, 0)
  }

  function Fire(r: Reader): Reader {
    if r.rejected then r else r.(rejected := true, fired := r.fired + 1)
  }

  /** How much the decompressor is asked for when the caller offers a buffer of `size`. */
  function Asked(r: Reader, size: nat): int {
    var remaining := r.maxBytes + 1 - r.pos;
    if size > remaining then remaining else size
  }

  /** One Read: bytes handed out, error, new state. */
  function Read(r: Reader, size: nat, inner: Inner): (nat, ReadError, Reader) {
    if r.maxBytes + 1 - r.pos <= 0 then (0, LimitExceeded, Fire(r))
    else
      var r1 := r.(pos := r.pos + inner.n);
      if r1.pos > r1.maxBytes then (inner.n, LimitExceeded, Fire(r1)) else (inner.n, inner.err, r1)
  }

  /** The decompressor produces consecutive pieces of `data`, no more than asked, and reports its end only there. */
  predicate Honest(r: Reader, data: Bytes, size: nat, inner: Inner) {
    && (0 < Asked(r, size) ==> inner.n <= Asked(r, size)) && (Asked(r, size) <= 0 ==> inner.n == 0)
    && r.pos + inner.n <= |data| && inner.err != LimitExceeded
    && (inner.err == EndOfFile ==> r.pos + inner.n == |data|)
  }

  class BoundedDecompressedReader {
    const maxBytes: int
    ghost const data: Bytes   // what the request body decompresses to
    var readSoFar: int
    var rejected: bool
    var fired: nat

    function View(): Reader
      reads this
    {
      Reader(maxBytes, readSoFar, rejected, fired)
    }

    constructor (maxBytes: int, ghost data: Bytes)
      ensures View() == Fresh(maxBytes) && this.data == data
    {
      this.maxBytes, this.data := if maxBytes <= 0 then DEFAULT_MAX else maxBytes, data;
      readSoFar, rejected, fired := 0, false, 0;
    }

    /** `produce` is the decompressor: from a position and the room offered to what it returns. */
    method ReadInto(size: nat, produce: (int, int) -> Inner) returns (n: nat, err: ReadError, ghost inner: Inner)
      requires 0 <= readSoFar <= |data|
      requires forall room :: 0 <= room <= size ==> var i := produce(readSoFar, room);
                 i.n <= room && readSoFar + i.n <= |data| && i.err != LimitExceeded &&
                   (i.err == EndOfFile ==> readSoFar + i.n == |data|)
      modifies this
      ensures Honest(old(View()), data, size, inner)
      ensures (n, err, View()) == Read(old(View()), size, inner)
    {
      var remaining := (maxBytes + 1) - readSoFar;
      inner := Inner(0, NoError);
      if remaining <= 0 {
        FireRejected();
        return 0, LimitExceeded, inner;
      }
      var room := size;
      if room > remaining {
        room := remaining;
      }
      var reply := produce(readSoFar, room);
      inner := reply;
      n := reply.n;
      readSoFar := readSoFar + n;
      if readSoFar > maxBytes {
        FireRejected();
        return n, LimitExceeded, inner;
      }
      return n, reply.err, inner;
    }

    method FireRejected()
      modifies this
      ensures View() == Fire(old(View()))
    {
      if !rejected {
        rejected := true;
        fired := fired + 1;
      }
    }
  }

  // ----- Every sequence of reads -----

  datatype Call = Call(size: nat, inner: Inner)

  function After(maxBytes: int, calls: seq<Call>): Reader {
    if calls == [] then Fresh(maxBytes)
    else
      var last := calls[|calls| - 1];
      Read(After(maxBytes, calls[..|calls| - 1]), last.size, last.inner).2
  }

  /** The bytes the caller got, piece by piece. */
  function HandedOut(maxBytes: int, data: Bytes, calls: seq<Call>): Bytes
    requires AllHonest(maxBytes, data, calls)
  {
    if calls == [] then []
    else
      var before, last := calls[..|calls| - 1], calls[|calls| - 1];
      var r := After(maxBytes, before);
      Bounded(maxBytes, data, before);
      HandedOut(maxBytes, data, before) + data[r.pos..r.pos + Read(r, last.size, last.inner).0]
  }

  predicate AllHonest(maxBytes: int, data: Bytes, calls: seq<Call>) {
    calls == [] ||
    var before, last := calls[..|calls| - 1], calls[|calls| - 1];
    AllHonest(maxBytes, data, before) && Honest(After(maxBytes, before), data, last.size, last.inner)
  }

  function ErrorOf(maxBytes: int, calls: seq<Call>): ReadError
    requires calls != []
  {
    var last := calls[|calls| - 1];
    Read(After(maxBytes, calls[..|calls| - 1]), last.size, last.inner).1
  }

  /** At most one byte more than the limit is ever produced, and the hook fires once, exactly when that byte was
      seen. */
  lemma {:induction false} Bounded(maxBytes: int, data: Bytes, calls: seq<Call>)
    requires AllHonest(maxBytes, data, calls)
    ensures var r := After(maxBytes, calls);
            && r.maxBytes == Limit(maxBytes) && 0 <= r.pos <= |data| && r.pos <= Limit(maxBytes) + 1
            && r.fired == (if r.rejected then 1 else 0) && (r.rejected <==> r.pos > Limit(maxBytes))
  {
    if calls != [] {
      Bounded(maxBytes, data, calls[..|calls| - 1]);
    }
  }

  /** Whatever the buffer sizes and the decompressor's chunking: the caller holds a prefix of the body of at most one
      byte over the limit, and the hook has fired at most once. */
  lemma {:induction false} OutputIsABoundedPrefix(maxBytes: int, data: Bytes, calls: seq<Call>)
    requires AllHonest(maxBytes, data, calls)
    ensures var r := After(maxBytes, calls);
            && 0 <= r.pos <= |data| && HandedOut(maxBytes, data, calls) == data[..r.pos]
            && |HandedOut(maxBytes, data, calls)| <= Limit(maxBytes) + 1 && r.fired <= 1
  {
    Bounded(maxBytes, data, calls);
    if calls != [] {
      var before, last := calls[..|calls| - 1], calls[|calls| - 1];
      OutputIsABoundedPrefix(maxBytes, data, before);
      var r, n := After(maxBytes, before), Read(After(maxBytes, before), last.size, last.inner).0;
      assert After(maxBytes, calls).pos == r.pos + n;
      assert data[..r.pos] + data[r.pos..r.pos + n] == data[..r.pos + n];
    }
  }

  /** A read that reports the end has delivered the whole body, and the body is within the limit; a read that reports
      the limit has a longer body. So a body within the limit read to its end arrives whole and is never rejected, and
      a longer one read to its end yields the limit error. */
  lemma EndMeansWhole(maxBytes: int, data: Bytes, calls: seq<Call>)
    requires AllHonest(maxBytes, data, calls) && calls != []
    ensures ErrorOf(maxBytes, calls) == EndOfFile ==>
          |data| <= Limit(maxBytes) && HandedOut(maxBytes, data, calls) == data
    ensures ErrorOf(maxBytes, calls) == LimitExceeded ==> |data| > Limit(maxBytes) && After(maxBytes, calls).fired == 1
    ensures |data| > Limit(maxBytes) && After(maxBytes, calls).pos == Limit(maxBytes) + 1 ==>
          ErrorOf(maxBytes, calls) == LimitExceeded
  {
    Bounded(maxBytes, data, calls);
    Bounded(maxBytes, data, calls[..|calls| - 1]);
    OutputIsABoundedPrefix(maxBytes, data, calls);
  }

  /** Below the limit the reader only passes on: as many bytes as the decompressor gave, and its error or end. So a
      body within the limit is read as if there were no limit. */
  lemma BelowTheLimitNothingChanges(maxBytes: int, data: Bytes, calls: seq<Call>)
    requires AllHonest(maxBytes, data, calls) && calls != []
    ensures var before, last := calls[..|calls| - 1], calls[|calls| - 1];
            && |HandedOut(maxBytes, data, calls)| == |HandedOut(maxBytes, data, before)| + last.inner.n
            && ErrorOf(maxBytes, calls) ==
               (if |HandedOut(maxBytes, data, calls)| > Limit(maxBytes) then LimitExceeded else last.inner.err)
            && (|data| <= Limit(maxBytes) ==> ErrorOf(maxBytes, calls) == last.inner.err)
  {
    Bounded(maxBytes, data, calls);
    Bounded(maxBytes, data, calls[..|calls| - 1]);
    OutputIsABoundedPrefix(maxBytes, data, calls);
    OutputIsABoundedPrefix(maxBytes, data, calls[..|calls| - 1]);
  }

  /** Every read so far returned no error, offered room, and the decompressor never stalled. */
  predicate ReadingOn(maxBytes: int, calls: seq<Call>) {
    calls == [] ||
    var last := calls[|calls| - 1];
    && ReadingOn(maxBytes, calls[..|calls| - 1])
    && last.size > 0 && (last.inner.n > 0 || last.inner.err != NoError)
    && ErrorOf(maxBytes, calls) == NoError
  }

  /** A caller that reads on while there is no error is told to stop: after at most the limit's number of reads, the
      next one reports the end, the limit or a broken stream. */
  lemma {:induction false} ReadingToTheEndStops(maxBytes: int, data: Bytes, calls: seq<Call>)
    requires AllHonest(maxBytes, data, calls) && ReadingOn(maxBytes, calls)
    ensures |calls| <= After(maxBytes, calls).pos <= Limit(maxBytes)
  {
    if calls != [] {
      Bounded(maxBytes, data, calls[..|calls| - 1]);
      ReadingToTheEndStops(maxBytes, data, calls[..|calls| - 1]);
    }
  }
}
