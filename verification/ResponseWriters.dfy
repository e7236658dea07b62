/** The string operations that header values go through. */
module Text {
  /** White space as unicode.IsSpace has it. */
  predicate Space(c: char) {
    var n := c as int;
    || 0x09 <= n <= 0x0D || n == 0x20 || n == 0x85 || n == 0xA0 || n == 0x1680 || 0x2000 <= n <= 0x200A
    || n == 0x2028 || n == 0x2029 || n == 0x202F || n == 0x205F || n == 0x3000
  }

  function TrimLeft(s: string): string {
    if s != "" && Space(s[0]) then TrimLeft(s[1..]) else s
  }

  function TrimRight(s: string): string {
    if s != "" && Space(s[|s| - 1]) then TrimRight(s[..|s| - 1]) else s
  }

  function TrimSpace(s: string): string {
    TrimRight(TrimLeft(s))
  }

  predicate Blank(s: string) {
    forall i :: 0 <= i < |s| ==> Space(s[i])
  }

  lemma {:induction false} TrimLeftMeans(s: string) returns (pad: string)
    ensures s == pad + TrimLeft(s) && Blank(pad) && (TrimLeft(s) == "" || !Space(TrimLeft(s)[0]))
  {
    if s != "" && Space(s[0]) {
      pad := TrimLeftMeans(s[1..]);
      pad := [s[0]] + pad;
    } else {
      pad := "";
    }
  }

  lemma {:induction false} TrimRightMeans(s: string) returns (pad: string)
    ensures s == TrimRight(s) + pad && Blank(pad) && (TrimRight(s) == "" || !Space(TrimRight(s)[|TrimRight(s)| - 1]))
  {
    if s != "" && Space(s[|s| - 1]) {
      pad := TrimRightMeans(s[..|s| - 1]);
      pad := pad + [s[|s| - 1]];
    } else {
      pad := "";
    }
  }

  /** Trimming takes white space off both ends, all of it and nothing else. */
  lemma TrimSpaceMeans(s: string) returns (left: string, right: string)
    ensures var t := TrimSpace(s);
            && s == left + t + right && Blank(left) && Blank(right)
            && (t == "" || (!Space(t[0]) && !Space(t[|t| - 1])))
  {
    left := TrimLeftMeans(s);
    right := TrimRightMeans(TrimLeft(s));
    assert TrimSpace(s) != "" ==> TrimSpace(s)[0] == TrimLeft(s)[0];
  }

  /** What comes before the first separator, or all of it: strings.Cut. */
  function Before(s: string, separator: char): string {
    if s == "" || s[0] == separator then "" else [s[0]] + Before(s[1..], separator)
  }

  /** Lower case, as far as it reaches ASCII: besides A to Z, the dotted capital I and the Kelvin sign do. */
  function Lower(s: string): string {
    if s == "" then ""
    else
      var n := s[0] as int;
      [if 'A' <= s[0] <= 'Z' then (n + 32) as char else if n == 0x130 then 'i' else if n == 0x212A then 'k' else s[0]]
      + Lower(s[1..])
  }
}

/** What a handler, or a middleware, can do to the response writer beneath it, and what that means on its own. */
module Http {
  import opened Common

  /** The header names the writers look at, and any other. */
  datatype HeaderName = ContentType | ContentEncoding | ContentLength | ETag | Other(name: string)

  type Header = map<HeaderName, string>

  /** Header().Get: absent reads as empty. */
  function Get(h: Header, name: HeaderName): string {
    if name in h then h[name] else ""
  }

  datatype Op = SetHeader(name: HeaderName, value: string) | DelHeader(name: HeaderName) | WriteHeader(code: nat)
    | Write(data: Bytes) | Flush

  /** Codes are real status codes; the server refuses others. */
  predicate ValidOps(ops: seq<Op>) {
    ops == [] || (ValidOps(ops[..|ops| - 1]) && (ops[|ops| - 1].WriteHeader? ==> ops[|ops| - 1].code > 0))
  }

  function HeaderAfter(h: Header, op: Op): Header {
    match op
    case SetHeader(name, value) => h[name := value]
    case DelHeader(name) => h - {name}
    case _ => h
  }

  /** The header map after the calls. */
  function HeaderOf(header: Header, ops: seq<Op>): Header {
    if ops == [] then header else HeaderAfter(HeaderOf(header, ops[..|ops| - 1]), ops[|ops| - 1])
  }

  /** Every byte written, in order. */
  function BodyOf(ops: seq<Op>): Bytes {
    if ops == [] then []
    else
      var last := ops[|ops| - 1];
      BodyOf(ops[..|ops| - 1]) + (if last.Write? then last.data else [])
  }

  /** The first committing call decides the status; None before it. */
  function StatusOf(ops: seq<Op>): Option<nat> {
    if ops == [] then None
    else
      var before, last := StatusOf(ops[..|ops| - 1]), ops[|ops| - 1];
      if before.Some? then before
      else if last.WriteHeader? then Some(last.code)
      else if last.Write? || last.Flush? then Some(200)
      else None
  }

  /** The header map that goes out with the status: as it was at the first committing call. */
  function HeaderAtStatus(header: Header, ops: seq<Op>): Header {
    if ops == [] then header
    else
      var before, last := ops[..|ops| - 1], ops[|ops| - 1];
      if StatusOf(before).Some? then HeaderAtStatus(header, before)
      else if last.WriteHeader? || last.Write? || last.Flush? then HeaderOf(header, before)
      else HeaderOf(header, ops)
  }

  /** The status a bare writer would send. */
  function BareStatus(ops: seq<Op>): nat {
    if StatusOf(ops).Some? then StatusOf(ops).value else 200
  }

  /** A WriteHeader, if any, is the first committing call; so there is at most one. */
  predicate HeaderFirst(ops: seq<Op>) {
    ops == [] ||
    var before, last := ops[..|ops| - 1], ops[|ops| - 1];
    HeaderFirst(before) && (last.WriteHeader? ==> StatusOf(before).None?)
  }

  function HeaderCalls(ops: seq<Op>): nat {
    if ops == [] then 0
    else HeaderCalls(ops[..|ops| - 1]) + (if ops[|ops| - 1].WriteHeader? then 1 else 0)
  }

  lemma {:induction false} NoStatusMeansNoBody(ops: seq<Op>)
    ensures StatusOf(ops).None? ==> BodyOf(ops) == [] && HeaderCalls(ops) == 0
  {
    if ops != [] {
      NoStatusMeansNoBody(ops[..|ops| - 1]);
    }
  }
}

/** Deferred response compression (internal/api/compress.go, compressWriter). */
module Compress {
  import opened Common
  import opened Http
  import opened Text

  /** What the request's Accept-Encoding is negotiated to. */
  datatype Coding = Gzip | Deflate

  function Name(c: Coding): string {
    if c.Gzip? then "gzip" else "deflate"
  }

  /** The wire below the writer. The encoder is a stream whose decoder returns what went in, so an encoded chunk is
      recorded by its encoder and the bytes it carries. */
  datatype Wire = StatusLine(code: nat, header: Header) | Plain(data: Bytes) | Encoded(coding: Coding, data: Bytes)
    | Trailer | Flushed

  /** The bytes that went into all chunks, in order. */
  function Carried(log: seq<Wire>): Bytes {
    if log == [] then []
    else
      var last := log[|log| - 1];
      Carried(log[..|log| - 1]) + (if last.Plain? || last.Encoded? then last.data else [])
  }

  /** What a client makes of the wire: it knows the encoding from the header alone, and undoes it. The result is what
      is left to undo, and the bytes: an encoded stream that the header names leaves nothing; bytes that were sent plain
      are still under whatever encoding the header names; and where chunks and header disagree, or the trailer is
      missing, nothing can be read. */
  ghost function ClientGets(log: seq<Wire>): Option<(string, Bytes)> {
    if log == [] || !log[0].StatusLine? then None
    else
      var named := Get(log[0].header, ContentEncoding);
      if forall i {:trigger log[i]} :: 0 < i < |log| ==> log[i].Plain? || log[i].Flushed?
      then Some((named, Carried(log)))
      else if log[|log| - 1].Trailer? && forall i {:trigger log[i]} :: 0 < i < |log| - 1 ==>
                (log[i].Encoded? && Name(log[i].coding) == named) || log[i].Flushed? then Some(("", Carried(log)))
      else None
  }

  const COMPRESS_MIN_SIZE := 1400

  const COMPRESSIBLE_TYPES := {
    "application/json", "application/javascript", "application/xml", "image/svg+xml",
    "text/css", "text/csv", "text/html", "text/plain", "text/xml" }

  function Weaken(etag: string): string {
    if etag == "" || "W/" <= etag then etag else "W/" + etag
  }

  /** Which Content-Type values are worth encoding. */
  type MediaTypes = string -> bool

  /** The source's list: the media type before any parameters, in any letter case. */
  predicate Compressible(contentType: string) {
    Lower(TrimSpace(Before(contentType, ';'))) in COMPRESSIBLE_TYPES
  }

  datatype Writer = Writer(encoding: Coding, minSize: nat, worth: MediaTypes, status: nat, wrote: bool, decided: bool,
                           buf: Bytes, compressing: bool, header: Header, log: seq<Wire>)

  function Fresh(encoding: Coding, minSize: nat, worth: MediaTypes, header: Header): Writer {
    Writer(encoding, minSize, worth, 0, false, false, [], false, header, [])
  }

  predicate ShouldCompress(w: Writer) {
    && Get(w.header, ContentEncoding) == "" && w.status != 204 && w.status != 304
    && w.worth(Get(w.header, ContentType))
  }

  function FlushHeader(w: Writer): Writer {
    if w.wrote then w
    else
      var status := if w.status == 0 then 200 else w.status;
      w.(wrote := true, status := status, log := w.log + [StatusLine(status, w.header)])
  }

  function Chunk(data: Bytes, encoded: bool, coding: Coding): Wire {
    if encoded then Encoded(coding, data) else Plain(data)
  }

  function Put(w: Writer, data: Bytes): Writer {
    w.(log := w.log + [Chunk(data, w.compressing, w.encoding)])
  }

  function WeakenHeader(h: Header): Header {
    if Get(h, ETag) == Weaken(Get(h, ETag)) then h else h[ETag := Weaken(Get(h, ETag))]
  }

  /** Commit, once, to compressing or not, and let the held bytes go. */
  function Decide(w: Writer, big: bool): Writer {
    var w0 := w.(decided := true);
    var w1 := if big && ShouldCompress(w0)
              then w0.(compressing := true,
                       header := WeakenHeader(w0.header[ContentEncoding := Name(w0.encoding)] - {ContentLength}))
              else w0;
    var w2 := FlushHeader(w1);
    if |w2.buf| > 0 then Put(w2.(buf := []), w2.buf) else w2
  }

  function Step(w: Writer, op: Op): Writer {
    match op
    case SetHeader(_, _) => w.(header := HeaderAfter(w.header, op))
    case DelHeader(_) => w.(header := HeaderAfter(w.header, op))
    case WriteHeader(code) => var w1 := w.(status := code); if w1.decided then FlushHeader(w1) else w1
    case Write(data) =>
      if w.decided then Put(w, data)
      else
        var w1 := w.(buf := w.buf + data);
        if |w1.buf| >= w1.minSize then Decide(w1, true) else w1
    case Flush =>
      var w1 := if w.decided then w else Decide(w, false);
      w1.(log := w1.log + [Flushed])
  }

  function Close(w: Writer): Writer {
    var w1 := if w.decided then w else Decide(w, false);
    FlushHeader(if w1.compressing then w1.(log := w1.log + [Trailer]) else w1)
  }

  function Run(w: Writer, ops: seq<Op>): Writer {
    if ops == [] then w else Step(Run(w, ops[..|ops| - 1]), ops[|ops| - 1])
  }

  class CompressWriter {
    const encoding: Coding
    const minSize: nat
    const worth: MediaTypes
    var status: nat
    var wrote: bool
    var decided: bool
    var buf: Bytes
    var compressing: bool   // the encoder is set
    var header: Header
    var log: seq<Wire>    // what went to the wrapped writer

    function View(): Writer
      reads this
    {
      Writer(encoding, minSize, worth, status, wrote, decided, buf, compressing, header, log)
    }

    constructor (encoding: Coding, minSize: int, header: Header)
      ensures View() == Fresh(encoding, if minSize <= 0 then COMPRESS_MIN_SIZE else minSize, Compressible, header)
    {
      this.encoding, this.minSize := encoding, if minSize <= 0 then COMPRESS_MIN_SIZE else minSize;
      this.worth := Compressible;
      status, wrote, decided, buf, compressing, log := 0, false, false, [], false, [];
      this.header := header;
    }

    method WriteHeader(code: nat)
      modifies this
      ensures View() == Step(old(View()), Op.WriteHeader(code))
    {
      status := code;
      if decided {
        SendHeader();
      }
    }

    method SendHeader()
      modifies this
      ensures View() == FlushHeader(old(View()))
    {
      if wrote {
        return;
      }
      wrote := true;
      if status == 0 {
        status := 200;
      }
      log := log + [StatusLine(status, header)];
    }

    method Write(data: Bytes) returns (n: nat)
      modifies this
      ensures View() == Step(old(View()), Op.Write(data)) && n == |data|
    {
      n := |data|;
      if decided {
        Forward(data);
        return;
      }
      buf := buf + data;
      if |buf| >= minSize {
        DecideNow(true);
      }
    }

    method DecideNow(big: bool)
      modifies this
      ensures View() == Decide(old(View()), big)
    {
      decided := true;
      if big && ShouldCompress(View()) {
        header := header[ContentEncoding := Name(encoding)];
        header := header - {ContentLength};
        var etag := Get(header, ETag);
        if etag != "" && !("W/" <= etag) {
          header := header[ETag := "W/" + etag];
        }
        compressing := true;
      }
      SendHeader();
      if |buf| > 0 {
        var held := buf;
        buf := [];
        Forward(held);
      }
    }

    method Forward(data: Bytes)
      modifies this
      ensures View() == Put(old(View()), data)
    {
      if compressing {
        log := log + [Encoded(encoding, data)];
      } else {
        log := log + [Plain(data)];
      }
    }

    method Flush()
      modifies this
      ensures View() == Step(old(View()), Op.Flush)
    {
      if !decided {
        DecideNow(false);
      }
      log := log + [Flushed];
    }

    method Finish()
      modifies this
      ensures View() == Close(old(View()))
    {
      if !decided {
        DecideNow(false);
      }
      if compressing {
        log := log + [Trailer];
      }
      SendHeader();
    }
  }

  // ----- Every call sequence -----

  /** The log opens with the one status line, and every chunk after it has the one chosen encoding. */
  ghost predicate WellFormed(log: seq<Wire>, code: nat, header: Header, encoded: bool, coding: Coding) {
    && |log| > 0 && log[0] == StatusLine(code, header)
    && forall i {:trigger log[i]} :: 0 < i < |log| ==> Fits(log[i], encoded, coding)
  }

  /** An item behind the status line, the trailer apart. */
  predicate Fits(x: Wire, encoded: bool, coding: Coding) {
    x.Flushed? || (x.Plain? && !encoded) || (x.Encoded? && encoded && x.coding == coding)
  }

  /** The calls force the decision: a flush, or a write that reaches minSize. */
  predicate Decides(ops: seq<Op>, minSize: nat) {
    ops != [] &&
    var before, last := ops[..|ops| - 1], ops[|ops| - 1];
    Decides(before, minSize) || last.Flush? || (last.Write? && |BodyOf(ops)| >= minSize)
  }

  /** The last status set before the decision; 0 for none. */
  function HeldStatus(ops: seq<Op>, minSize: nat): nat {
    if ops == [] then 0
    else
      var before, last := ops[..|ops| - 1], ops[|ops| - 1];
      if last.WriteHeader? && !Decides(before, minSize) then last.code else HeldStatus(before, minSize)
  }

  function Or200(status: nat): nat {
    if status == 0 then 200 else status
  }

  /** The header map as it was at the decision. */
  function HeldHeader(header: Header, ops: seq<Op>, minSize: nat): Header {
    if ops == [] then header
    else
      var before := ops[..|ops| - 1];
      var held := HeldHeader(header, before, minSize);
      if Decides(before, minSize) then held else HeaderAfter(held, ops[|ops| - 1])
  }

  /** The decision was made by a write that reached minSize. */
  predicate BySize(ops: seq<Op>, minSize: nat) {
    ops != [] &&
    var before, last := ops[..|ops| - 1], ops[|ops| - 1];
    if Decides(before, minSize) then BySize(before, minSize) else last.Write? && |BodyOf(ops)| >= minSize
  }

  /** The first `k` calls flush nothing and write at least minSize bytes. */
  predicate Reaches(ops: seq<Op>, minSize: nat, k: nat) {
    k <= |ops| && Flush !in ops[..k] && |BodyOf(ops[..k])| >= minSize
  }

  lemma {:induction false} BySizeMeans(ops: seq<Op>, minSize: nat)
    requires 0 < minSize
    ensures BySize(ops, minSize) <==> exists k: nat :: Reaches(ops, minSize, k)
    ensures !Decides(ops, minSize) ==> Flush !in ops && |BodyOf(ops)| < minSize
  {
    if ops == [] {
      assert forall k: nat :: k <= |ops| ==> ops[..k] == [];
    } else {
      var n := |ops| - 1;
      var before := ops[..n];
      BySizeMeans(before, minSize);
      assert ops == before + [ops[n]] && ops[..|ops|] == ops;
      forall k: nat | k <= n ensures Reaches(ops, minSize, k) <==> Reaches(before, minSize, k) {
        assert before[..k] == ops[..k];
      }
      if Decides(before, minSize) {
        if Reaches(ops, minSize, |ops|) {
          UnflushedReachedEarlier(before, minSize);
        }
      } else if BySize(ops, minSize) {
        assert Reaches(ops, minSize, |ops|);
      }
    }
  }

  /** A decision without a flush was made by size. */
  lemma {:induction false} UnflushedReachedEarlier(ops: seq<Op>, minSize: nat)
    requires Decides(ops, minSize) && Flush !in ops
    ensures BySize(ops, minSize)
  {
    var before, last := ops[..|ops| - 1], ops[|ops| - 1];
    assert last in ops;
    if Decides(before, minSize) {
      UnflushedReachedEarlier(before, minSize);
    }
  }

  /** Whether a response with this status and header at the decision is encoded. */
  predicate Encodes(worth: MediaTypes, bySize: bool, status: nat, header: Header) {
    bySize && Get(header, ContentEncoding) == "" && status != 204 && status != 304 && worth(Get(header, ContentType))
  }

  /** What the calls so far amount to. */
  datatype Heard = Heard(decides: bool, bySize: bool, status: nat, header: Header, body: Bytes)

  function HeardOf(header: Header, ops: seq<Op>, minSize: nat): Heard {
    Heard(Decides(ops, minSize), BySize(ops, minSize), HeldStatus(ops, minSize), HeldHeader(header, ops, minSize),
          BodyOf(ops))
  }

  /** One call more. */
  function Hear(h: Heard, op: Op, minSize: nat): Heard {
    var body := h.body + if op.Write? then op.data else [];
    if h.decides then h.(body := body)
    else
      var bySize := op.Write? && |body| >= minSize;
      Heard(op.Flush? || bySize, bySize, if op.WriteHeader? then op.code else h.status, HeaderAfter(h.header, op), body)
  }

  /** The header that goes out. */
  function SentHeader(w: Writer, h: Heard): Header {
    if Encodes(w.worth, h.bySize, h.status, h.header)
    then WeakenHeader(h.header[ContentEncoding := Name(w.encoding)] - {ContentLength}) else h.header
  }

  /** What the writer holds and has sent, after calls that amount to `h`. */
  ghost predicate Tells(w: Writer, h: Heard) {
    && w.decided == h.decides
    && if h.decides then
         && w.wrote && w.buf == [] && Carried(w.log) == h.body
         && w.compressing == Encodes(w.worth, h.bySize, h.status, h.header)
         && WellFormed(w.log, Or200(h.status), SentHeader(w, h), w.compressing, w.encoding)
       else
         && !w.wrote && !w.compressing && w.log == [] && w.buf == h.body && |w.buf| < w.minSize
         && w.status == h.status && w.header == h.header && !h.bySize
  }

  ghost predicate SameSettings(w: Writer, w': Writer) {
    w'.encoding == w.encoding && w'.minSize == w.minSize && w'.worth == w.worth
  }

  /** The last code set after the first committing call and before the decision, if any. */
  function LateCode(ops: seq<Op>, minSize: nat): Option<nat> {
    if ops == [] then None
    else
      var before, last := ops[..|ops| - 1], ops[|ops| - 1];
      if last.WriteHeader? && StatusOf(before).Some? && !Decides(before, minSize) then Some(last.code)
        else LateCode(before, minSize)
  }

  lemma {:induction false} HeldStatusIs(ops: seq<Op>, minSize: nat)
    requires ValidOps(ops)
    ensures LateCode(ops, minSize).Some? ==> LateCode(ops, minSize).value == HeldStatus(ops, minSize) > 0
    ensures LateCode(ops, minSize).None? ==> Or200(HeldStatus(ops, minSize)) == BareStatus(ops)
    ensures Decides(ops, minSize) ==> StatusOf(ops).Some?
    ensures StatusOf(ops).None? ==> HeldStatus(ops, minSize) == 0 && LateCode(ops, minSize).None?
  {
    if ops != [] {
      HeldStatusIs(ops[..|ops| - 1], minSize);
    }
  }

  /** What a decision sends: the status line, and everything held in one chunk. */
  function Opening(code: nat, header: Header, held: Bytes, encoded: bool, coding: Coding): seq<Wire> {
    [StatusLine(code, header)] + if |held| > 0 then [Chunk(held, encoded, coding)] else []
  }

  lemma OpeningIsWellFormed(code: nat, header: Header, held: Bytes, encoded: bool, coding: Coding)
    ensures var log := Opening(code, header, held, encoded, coding);
            Carried(log) == held && WellFormed(log, code, header, encoded, coding)
  {
    var log := Opening(code, header, held, encoded, coding);
    assert log[..1] == [StatusLine(code, header)] && log[..1][..0] == [];
    assert Carried(log[..1]) == [];
  }

  /** One more item behind the status line. */
  lemma LogExtends(log: seq<Wire>, code: nat, header: Header, encoded: bool, coding: Coding, x: Wire)
    requires WellFormed(log, code, header, encoded, coding) && Fits(x, encoded, coding)
    ensures WellFormed(log + [x], code, header, encoded, coding)
    ensures Carried(log + [x]) == Carried(log) + if x.Plain? || x.Encoded? then x.data else []
  {
    assert (log + [x])[..|log|] == log;
  }

  /** What is sent on with nothing sent before. */
  lemma SendsOpening(w: Writer)
    requires !w.wrote && w.log == []
    ensures var w2 := FlushHeader(w); var d := if |w2.buf| > 0 then Put(w2.(buf := []), w2.buf) else w2;
            && d.wrote && d.buf == [] && d.decided == w.decided && d.compressing == w.compressing && SameSettings(w, d)
            && d.log == Opening(Or200(w.status), w.header, w.buf, w.compressing, w.encoding)
  {
    var line := StatusLine(Or200(w.status), w.header);
    assert [] + [line] == [line];
    assert w.buf == [] ==> [line] + [] == [line];
  }

  /** Deciding lets the whole held body go, behind the status line. */
  lemma DecideTells(w: Writer, bySize: bool)
    requires !w.wrote && !w.compressing && w.log == []
    ensures Tells(Decide(w, bySize), Heard(true, bySize, w.status, w.header, w.buf))
    ensures SameSettings(w, Decide(w, bySize))
  {
    var h := Heard(true, bySize, w.status, w.header, w.buf);
    var encoded := Encodes(w.worth, bySize, w.status, w.header);
    var w1 := w.(decided := true, compressing := encoded, header := SentHeader(w, h));
    SendsOpening(w1);
    OpeningIsWellFormed(Or200(w.status), w1.header, w.buf, encoded, w.encoding);
  }

  /** Sending one more item keeps the account. */
  lemma SendTells(w: Writer, x: Wire, h: Heard)
    requires Tells(w, h) && h.decides && Fits(x, w.compressing, w.encoding)
    ensures Tells(w.(log := w.log + [x]), h.(body := h.body + if x == Flushed then [] else x.data))
  {
    LogExtends(w.log, Or200(h.status), SentHeader(w, h), w.compressing, w.encoding, x);
  }

  lemma StepTells(w: Writer, op: Op, h: Heard)
    requires Tells(w, h)
    ensures Tells(Step(w, op), Hear(h, op, w.minSize)) && SameSettings(w, Step(w, op))
  {
    assert h.body + [] == h.body;
    if op.Write? {
      if h.decides {
        SendTells(w, Chunk(op.data, w.compressing, w.encoding), h);
      } else if |h.body + op.data| >= w.minSize {
        DecideTells(w.(buf := h.body + op.data), true);
      }
    } else if op.Flush? {
      if h.decides {
        SendTells(w, Flushed, h);
      } else {
        DecideTells(w, false);
        SendTells(Decide(w, false), Flushed, Heard(true, false, h.status, h.header, h.body));
      }
    }
  }

  /** Calls heard one by one. */
  lemma HeardStepwise(header: Header, ops: seq<Op>, minSize: nat)
    requires ops != []
    ensures var before, last := ops[..|ops| - 1], ops[|ops| - 1];
            HeardOf(header, ops, minSize) == Hear(HeardOf(header, before, minSize), last, minSize)
  {
  }

  lemma {:induction false} RunKeepsInv(w: Writer, ops: seq<Op>)
    requires w == Fresh(w.encoding, w.minSize, w.worth, w.header) && 0 < w.minSize
    ensures Tells(Run(w, ops), HeardOf(w.header, ops, w.minSize)) && SameSettings(w, Run(w, ops))
  {
    if ops != [] {
      var before := ops[..|ops| - 1];
      RunKeepsInv(w, before);
      StepTells(Run(w, before), ops[|ops| - 1], HeardOf(w.header, before, w.minSize));
      HeardStepwise(w.header, ops, w.minSize);
    }
  }

  /** The state after the calls and Close. */
  function Finished(encoding: Coding, minSize: nat, worth: MediaTypes, header: Header, ops: seq<Op>): Writer {
    Close(Run(Fresh(encoding, minSize, worth, header), ops))
  }

  /** A log that ends as it began, or with the trailer of its encoder. */
  ghost predicate Ended(log: seq<Wire>, code: nat, header: Header, encoded: bool, coding: Coding) {
    if encoded then |log| > 1 && log[|log| - 1] == Trailer && WellFormed(log[..|log| - 1], code, header, true, coding)
    else WellFormed(log, code, header, false, coding)
  }

  lemma FinishedEnds(encoding: Coding, minSize: nat, worth: MediaTypes, header: Header, ops: seq<Op>)
    requires 0 < minSize
    ensures var w, h := Finished(encoding, minSize, worth, header, ops), HeardOf(header, ops, minSize);
            && w.compressing == Encodes(worth, h.bySize, h.status, h.header)
            && Ended(w.log, Or200(h.status), SentHeader(w, h), w.compressing, encoding)
            && Carried(w.log) == BodyOf(ops) && SameSettings(Fresh(encoding, minSize, worth, header), w)
  {
    var v := Run(Fresh(encoding, minSize, worth, header), ops);
    RunKeepsInv(Fresh(encoding, minSize, worth, header), ops);
    if !v.decided {
      DecideTells(v, false);
    } else if v.compressing {
      assert (v.log + [Trailer])[..|v.log|] == v.log;
    }
  }

  /** A client that goes by the header can read such a log, if the header names the encoder that was used. */
  lemma EndedIsReadable(log: seq<Wire>, code: nat, header: Header, encoded: bool, coding: Coding)
    requires Ended(log, code, header, encoded, coding) && (encoded ==> Get(header, ContentEncoding) == Name(coding))
    ensures ClientGets(log) == Some((if encoded then "" else Get(header, ContentEncoding), Carried(log)))
  {
    if encoded {
      var n := |log| - 1;
      forall i | 0 < i < n ensures Fits(log[i], encoded, coding) && !log[i].Plain? { assert log[i] == log[..n][i]; }
      assert log[0] == log[..n][0];
    }
  }

  predicate SendsStatus(log: seq<Wire>, code: nat) {
    log != [] && log[0].StatusLine? && log[0].code == code
  }

  /** For every sequence of calls: a client that goes by the header gets the concatenation of the writes, under the
      encoding the handler itself had set by the decision, as from a bare writer; and the one status line, which goes
      out first, carries the last status set before the decision. */
  lemma CompressionIsTransparent(encoding: Coding, minSize: nat, worth: MediaTypes, header: Header, ops: seq<Op>)
    requires 0 < minSize
    ensures var w, held := Finished(encoding, minSize, worth, header, ops), HeldHeader(header, ops, minSize);
            && ClientGets(w.log) == Some((Get(held, ContentEncoding), BodyOf(ops)))
            && SendsStatus(w.log, Or200(HeldStatus(ops, minSize)))
            && forall i {:trigger w.log[i]} :: 0 < i < |w.log| ==> !w.log[i].StatusLine?
  {
    var w, h := Finished(encoding, minSize, worth, header, ops), HeardOf(header, ops, minSize);
    FinishedEnds(encoding, minSize, worth, header, ops);
    EndedIsReadable(w.log, Or200(h.status), SentHeader(w, h), w.compressing, encoding);
    forall i | 0 < i < |w.log| ensures !w.log[i].StatusLine? {
      assert w.compressing && i < |w.log| - 1 ==> w.log[i] == w.log[..|w.log| - 1][i];
    }
    assert w.compressing ==> w.log[0] == w.log[..|w.log| - 1][0];
  }

  /** Which responses are encoded: those of which at least minSize bytes were written before any flush, whose handler
      has set no encoding of its own by then, whose status is neither 204 nor 304 and whose media type is worth it. An
      encoded response names its encoding, has no length, and a weak tag; all else in the header is the handler's, and a
      response that is not encoded carries the handler's header as it was. */
  lemma HeadersAreRight(encoding: Coding, minSize: nat, worth: MediaTypes, header: Header, ops: seq<Op>)
    requires 0 < minSize
    ensures var w, held := Finished(encoding, minSize, worth, header, ops), HeldHeader(header, ops, minSize);
            var encoded := && (exists k: nat :: Reaches(ops, minSize, k)) && Get(held, ContentEncoding) == ""
                           && HeldStatus(ops, minSize) !in {204, 304} && worth(Get(held, ContentType));
            && w.log != [] && w.log[0].StatusLine?
            && var sent := w.log[0].header;
               if !encoded then sent == held && Trailer !in w.log
               else && Get(sent, ContentEncoding) == Name(encoding) && ContentLength !in sent && Trailer in w.log
                    && Get(sent, ETag) == Weaken(Get(held, ETag))
                    && sent - {ContentEncoding, ContentLength, ETag} == held - {ContentEncoding, ContentLength, ETag}
  {
    var w, h := Finished(encoding, minSize, worth, header, ops), HeardOf(header, ops, minSize);
    FinishedEnds(encoding, minSize, worth, header, ops);
    BySizeMeans(ops, minSize);
    if w.compressing {
      assert w.log[0] == w.log[..|w.log| - 1][0] && w.log[|w.log| - 1] == Trailer;
      WeakenHeaderMeans(h.header, encoding);
    }
  }

  lemma WeakenHeaderMeans(held: Header, encoding: Coding)
    ensures var sent := WeakenHeader(held[ContentEncoding := Name(encoding)] - {ContentLength});
            && Get(sent, ContentEncoding) == Name(encoding) && ContentLength !in sent
            && Get(sent, ETag) == Weaken(Get(held, ETag))
            && sent - {ContentEncoding, ContentLength, ETag} == held - {ContentEncoding, ContentLength, ETag}
  {
  }

  /** While undecided, less than minSize bytes are held and nothing has been sent. */
  lemma HeldBytesAreBounded(encoding: Coding, minSize: nat, worth: MediaTypes, header: Header, ops: seq<Op>)
    requires 0 < minSize
    ensures var w := Run(Fresh(encoding, minSize, worth, header), ops);
            |w.buf| < minSize && (!w.decided ==> w.log == [] && w.buf == BodyOf(ops))
  {
    RunKeepsInv(Fresh(encoding, minSize, worth, header), ops);
  }

  /** After a flush nothing is held: everything written so far has gone out, and the flush behind it. */
  lemma FlushHoldsNothing(encoding: Coding, minSize: nat, worth: MediaTypes, header: Header, ops: seq<Op>)
    requires 0 < minSize
    ensures var w := Run(Fresh(encoding, minSize, worth, header), ops + [Flush]);
            w.buf == [] && Carried(w.log) == BodyOf(ops) && w.log != [] && w.log[|w.log| - 1] == Flushed
  {
    RunKeepsInv(Fresh(encoding, minSize, worth, header), ops + [Flush]);
    assert (ops + [Flush])[..|ops|] == ops;
  }

  /** Exactly when the status line is the one a bare writer would send: when no code was set between the first
      committing call and the decision, or the last one set there is the same. */
  lemma StatusIsTheHandlersIff(encoding: Coding, minSize: nat, worth: MediaTypes, header: Header, ops: seq<Op>)
    requires 0 < minSize && ValidOps(ops)
    ensures SendsStatus(Finished(encoding, minSize, worth, header, ops).log, BareStatus(ops))
            <==> LateCode(ops, minSize).None? || LateCode(ops, minSize).value == BareStatus(ops)
  {
    CompressionIsTransparent(encoding, minSize, worth, header, ops);
    HeldStatusIs(ops, minSize);
  }

  /** In particular for handlers that set the status first, or not at all. */
  lemma {:induction false} HeaderFirstIsNeverLate(ops: seq<Op>, minSize: nat)
    requires HeaderFirst(ops)
    ensures LateCode(ops, minSize).None?
  {
    if ops != [] {
      HeaderFirstIsNeverLate(ops[..|ops| - 1], minSize);
    }
  }

  lemma StatusIsTheHandlers(encoding: Coding, minSize: nat, worth: MediaTypes, header: Header, ops: seq<Op>)
    requires 0 < minSize && HeaderFirst(ops) && ValidOps(ops)
    ensures SendsStatus(Finished(encoding, minSize, worth, header, ops).log, BareStatus(ops))
  {
    HeaderFirstIsNeverLate(ops, minSize);
    StatusIsTheHandlersIff(encoding, minSize, worth, header, ops);
  }

  /** The other case: a status set after a held byte wins, where a bare writer would ignore it. */
  lemma LateHeaderWins(encoding: Coding, worth: MediaTypes, header: Header, b: byte)
    ensures var ops := [Write([b]), WriteHeader(404)];
            && StatusOf(ops) == Some(200)
            && SendsStatus(Finished(encoding, COMPRESS_MIN_SIZE, worth, header, ops).log, 404)
  {
    var ops := [Op.Write([b]), Op.WriteHeader(404)];
    var one := [Op.Write([b])];
    assert ops[..1] == one && one[..0] == [];
    assert BodyOf(one[..0]) == [] && StatusOf(one[..0]) == None;
    assert BodyOf(one) == [b] && StatusOf(one) == Some(200);
    assert !Decides(one[..0], COMPRESS_MIN_SIZE) && !Decides(one, COMPRESS_MIN_SIZE);
    assert HeldStatus(ops, COMPRESS_MIN_SIZE) == 404;
    CompressionIsTransparent(encoding, COMPRESS_MIN_SIZE, worth, header, ops);
  }
}

/** Entity tags and If-None-Match (internal/api/handlers.go, ifNoneMatch). */
module EntityTags {
  import opened Text
  import Compress

  /** strings.Split(s, ","). */
  function SplitCommas(s: string): seq<string> {
    if s == "" then [""]
    else
      var rest := SplitCommas(s[1..]);
      if s[0] == ',' then [""] + rest
      else if rest == [] then [[s[0]]] else [[s[0]] + rest[0]] + rest[1..]
  }

  function TrimWeak(t: string): string {
    if "W/" <= t then t[2..] else t
  }

  method IfNoneMatch(raw: string, etag: string) returns (r: bool)
    ensures r == Matches(raw, etag)
  {
    if raw == "" || etag == "" {
      return false;
    }
    if TrimSpace(raw) == "*" {
      return true;
    }
    var parts := SplitCommas(raw);
    for i := 0 to |parts|
      invariant forall k :: 0 <= k < i ==> TrimWeak(TrimSpace(parts[k])) != etag
    {
      if TrimWeak(TrimSpace(parts[i])) == etag {
        return true;
      }
    }
    return false;
  }

  /** Any tag, or one of the listed tags by weak comparison (section 8.8.3.2 of RFC 9110). */
  predicate Matches(raw: string, etag: string) {
    raw != "" && etag != "" &&
    (TrimSpace(raw) == "*" || exists i ::
      0 <= i < |SplitCommas(raw)| && TrimWeak(TrimSpace(SplitCommas(raw)[i])) == etag)
  }

  /** A single tag: no comma, no surrounding space, not the wildcard. */
  predicate Single(t: string) {
    t != "" && t != "*" && ',' !in t && !Space(t[0]) && !Space(t[|t| - 1])
  }

  lemma {:induction false} SplitSingle(t: string)
    requires ',' !in t
    ensures SplitCommas(t) == [t]
  {
    if t != "" {
      SplitSingle(t[1..]);
      assert t == [t[0]] + t[1..];
    }
  }

  /** For a single tag the comparison is with that tag. */
  lemma SingleMatchesIff(raw: string, etag: string)
    requires Single(raw) && etag != ""
    ensures Matches(raw, etag) <==> TrimWeak(raw) == etag
  {
    SplitSingle(raw);
    assert TrimSpace(raw) == raw;
    assert SplitCommas(raw)[0] == raw;
  }

  /** Weakening a tag makes it weak, unless there is none, and names the same tag. */
  lemma WeakenMeans(etag: string)
    ensures var weak := Compress.Weaken(etag);
            && (etag == "" <==> weak == "") && (etag != "" ==> "W/" <= weak)
            && (weak == etag || (weak[2..] == etag && !("W/" <= etag)))
  {
  }

  /** strings.Join(parts, ","). */
  function Join(parts: seq<string>): string
    requires parts != []
  {
    if |parts| == 1 then parts[0] else parts[0] + "," + Join(parts[1..])
  }

  /** Splitting a header undoes joining its parts: no part is lost, merged or reordered. */
  lemma {:induction false} SplitUndoesJoin(parts: seq<string>)
    requires parts != [] && forall i {:trigger parts[i]} :: 0 <= i < |parts| ==> ',' !in parts[i]
    ensures SplitCommas(Join(parts)) == parts
    decreases |parts|, |parts[0]|
  {
    var s, first := Join(parts), parts[0];
    if first != "" {
      var shorter := parts[0 := first[1..]];
      SplitUndoesJoin(shorter);
      assert first[0] in first && s[1..] == Join(shorter) && [first[0]] + first[1..] == first;
      assert SplitCommas(s) == [[s[0]] + shorter[0]] + shorter[1..];
    } else if |parts| > 1 {
      SplitUndoesJoin(parts[1..]);
      assert s[1..] == Join(parts[1..]);
    }
  }

  lemma {:induction false} SplitParts(s: string)
    ensures SplitCommas(s) != [] && (forall i {:trigger SplitCommas(s)[i]} :: 0 <= i < |SplitCommas(s)| ==>
              ',' !in SplitCommas(s)[i])
    ensures Join(SplitCommas(s)) == s
  {
    if s != "" {
      SplitParts(s[1..]);
      var rest := SplitCommas(s[1..]);
      if s[0] == ',' {
        assert ([""] + rest)[1..] == rest;
      } else {
        var parts := [[s[0]] + rest[0]] + rest[1..];
        assert parts[1..] == rest[1..];
        assert s == [s[0]] + s[1..];
      }
    }
  }

  /** A client that echoes the tag it got — weakened by compression or not — matches exactly when the tag the server
      compares with is a strong one. (By section 13.1.2 of RFC 9110 a weak one should match as well.) */
  lemma EchoMatchesIff(etag: string)
    requires Single(etag)
    ensures Matches(Compress.Weaken(etag), etag) <==> !("W/" <= etag)
  {
    var echo := Compress.Weaken(etag);
    assert Single(echo) by {
      if !("W/" <= etag) {
        assert echo[0] == 'W' && echo[|echo| - 1] == etag[|etag| - 1] && |echo| > 2;
      }
    }
    SingleMatchesIff(echo, etag);
    if !("W/" <= etag) {
      assert "W/" <= echo && echo[2..] == etag;
    } else {
      assert |TrimWeak(echo)| < |etag|;
    }
  }
}

/** Validators computed from the response body (internal/api/conditional.go). */
module Conditional {
  import opened Common
  import opened Http
  import EntityTags
  import Compress

  const MAX_BODY := 0x80_0000

  /** Hexadecimal digest of a body, as an uninterpreted function. */
  type Digest = Bytes -> string

  function TagOf(digest: Digest, body: Bytes): string {
    "\"" + digest(body) + "\""
  }

  /** `out` is what reaches the wrapped writer, header changes included: the header map is shared. */
  datatype Writer = Writer(status: nat, buf: Bytes, passthrough: bool, committed: bool, header: Header, out: seq<Op>)

  function Fresh(header: Header): Writer {
    Writer(0, [], false, false, header, [])
  }

  function Emit(w: Writer, op: Op): Writer {
    w.(out := w.out + [op], header := HeaderAfter(w.header, op))
  }

  function Commit(w: Writer): Writer {
    if w.committed then w
    else
      var w1 := Emit(w.(committed := true), WriteHeader(if w.status == 0 then 200 else w.status));
      if |w1.buf| > 0 then Emit(w1.(buf := []), Write(w1.buf)) else w1
  }

  function DoWriteHeader(w: Writer, code: nat): Writer {
    if w.passthrough then
      if w.committed then w else Emit(w.(committed := true), WriteHeader(code))
    else if w.status != 0 then w
    else
      var w1 := w.(status := code);
      if code != 200 || Get(w.header, ETag) != "" then w1.(passthrough := true) else w1
  }

  function DoWrite(w: Writer, data: Bytes): Writer {
    if w.passthrough then Emit(Commit(w), Write(data))
    else
      var w1 := if w.status == 0 then DoWriteHeader(w, 200) else w;
      if w1.passthrough then Emit(Commit(w1), Write(data))
      else if |w1.buf| + |data| > MAX_BODY then Emit(Commit(w1.(passthrough := true)), Write(data))
      else w1.(buf := w1.buf + data)
  }

  function Step(w: Writer, op: Op): Writer {
    match op
    case SetHeader(_, _) => Emit(w, op)
    case DelHeader(_) => Emit(w, op)
    case WriteHeader(code) => DoWriteHeader(w, code)
    case Write(data) => DoWrite(w, data)
    case Flush => Emit(Commit(w.(passthrough := true)), Flush)
  }

  function Run(w: Writer, ops: seq<Op>): Writer {
    if ops == [] then w else Step(Run(w, ops[..|ops| - 1]), ops[|ops| - 1])
  }

  function NotModified(w: Writer): Writer {
    var w1 := Emit(Emit(w, DelHeader(ContentLength)), DelHeader(ContentType));
    Emit(Emit(w1, DelHeader(ContentEncoding)), WriteHeader(304))
  }

  function Finish(w: Writer, head: bool, ifNoneMatch: string, digest: Digest): Writer {
    if w.passthrough then Commit(w)
    else
      var etag := TagOf(digest, w.buf);
      var w1 := Emit(w, SetHeader(ETag, etag));
      if EntityTags.Matches(ifNoneMatch, etag) then NotModified(w1)
      else
        var w2 := Emit(w1, WriteHeader(if w.status == 0 then 200 else w.status));
        if head then w2 else Emit(w2, Write(w.buf))
  }

  class ConditionalWriter {
    var status: nat
    var buf: Bytes
    var passthrough: bool
    var committed: bool
    var header: Header
    var out: seq<Op>

    function View(): Writer
      reads this
    {
      Writer(status, buf, passthrough, committed, header, out)
    }

    constructor (header: Header)
      ensures View() == Fresh(header)
    {
      status, buf, passthrough, committed, out := 0, [], false, false, [];
      this.header := header;
    }

    method Underlying(op: Op)
      modifies this
      ensures View() == Emit(old(View()), op)
    {
      header := HeaderAfter(header, op);
      out := out + [op];
    }

    method WriteHeader(code: nat)
      modifies this
      ensures View() == DoWriteHeader(old(View()), code)
    {
      if passthrough {
        if !committed {
          committed := true;
          Underlying(Op.WriteHeader(code));
        }
        return;
      }
      if status != 0 {
        return;
      }
      status := code;
      if code != 200 || Get(header, ETag) != "" {
        passthrough := true;
      }
    }

    method Write(data: Bytes)
      modifies this
      ensures View() == DoWrite(old(View()), data)
    {
      if passthrough {
        CommitNow();
        Underlying(Op.Write(data));
        return;
      }
      if status == 0 {
        WriteHeader(200);
        if passthrough {
          CommitNow();
          Underlying(Op.Write(data));
          return;
        }
      }
      if |buf| + |data| > MAX_BODY {
        passthrough := true;
        CommitNow();
        Underlying(Op.Write(data));
        return;
      }
      buf := buf + data;
    }

    method Flush()
      modifies this
      ensures View() == Step(old(View()), Op.Flush)
    {
      if !passthrough {
        passthrough := true;
      }
      CommitNow();
      Underlying(Op.Flush);
    }

    method CommitNow()
      modifies this
      ensures View() == Commit(old(View()))
    {
      if committed {
        return;
      }
      committed := true;
      var code := status;
      if code == 0 {
        code := 200;
      }
      Underlying(Op.WriteHeader(code));
      if |buf| > 0 {
        var held := buf;
        buf := [];
        Underlying(Op.Write(held));
      }
    }

    method FinishResponse(head: bool, ifNoneMatch: string, digest: Digest)
      modifies this
      ensures View() == Finish(old(View()), head, ifNoneMatch, digest)
    {
      if passthrough {
        CommitNow();
        return;
      }
      var code := status;
      if code == 0 {
        code := 200;
      }
      var body := buf;
      var etag := TagOf(digest, body);
      Underlying(Op.SetHeader(ETag, etag));
      var matches := EntityTags.IfNoneMatch(ifNoneMatch, etag);
      if matches {
        Underlying(Op.DelHeader(ContentLength));
        Underlying(Op.DelHeader(ContentType));
        Underlying(Op.DelHeader(ContentEncoding));
        Underlying(Op.WriteHeader(304));
        return;
      }
      Underlying(Op.WriteHeader(code));
      if !head {
        Underlying(Op.Write(body));
      }
    }
  }

  // ----- Every call sequence -----

  /** The first status was one the middleware does not hold (not 200, or tagged by the handler), and nothing that sends
      it has followed. */
  function Unsent(header: Header, ops: seq<Op>): Option<nat> {
    if ops == [] then None
    else
      var before, last := ops[..|ops| - 1], ops[|ops| - 1];
      match last
      case WriteHeader(code) =>
        if StatusOf(before).None? && (code != 200 || Get(HeaderOf(header, before), ETag) != "") then Some(code)
          else None
      case Write(_) => None
      case Flush => None
      case _ => Unsent(header, before)
  }

  /** A second status call with another code came while the first was unsent. */
  predicate Replaced(header: Header, ops: seq<Op>) {
    ops != [] &&
    var before, last := ops[..|ops| - 1], ops[|ops| - 1];
    || Replaced(header, before)
    || (last.WriteHeader? && Unsent(header, before).Some? && Unsent(header, before).value != last.code)
  }

  /** Held and forwarded bytes together are the body; a committed response has one header, first, and its status is that
      of the handler's first committing call unless that was replaced. */
  ghost predicate Inv(header: Header, w: Writer, ops: seq<Op>) {
    && |w.buf| <= MAX_BODY && w.header == HeaderOf(header, ops)
    && BodyOf(w.out) + w.buf == BodyOf(ops)
    && Tidy(w.out)
    && (w.passthrough ==> w.buf == [])
    && if w.committed then
         && w.passthrough && StatusOf(ops).Some? && StatusOf(w.out).Some? && Unsent(header, ops).None?
         && (StatusOf(w.out) == StatusOf(ops) <==> !Replaced(header, ops))
       else
         && StatusOf(w.out).None? && !Replaced(header, ops)
         && (if w.status == 0 then StatusOf(ops).None? && !w.passthrough else StatusOf(ops) == Some(w.status))
         && (!w.passthrough && w.status != 0 ==> w.status == 200)
         && Unsent(header, ops) == if w.passthrough then Some(w.status) else None
  }

  /** The calls sent on are in order: real codes, the header first. */
  predicate Tidy(out: seq<Op>) {
    HeaderFirst(out) && ValidOps(out)
  }

  lemma EmitMeans(out: seq<Op>, op: Op)
    requires Tidy(out) && (op.WriteHeader? ==> StatusOf(out).None? && op.code > 0)
    ensures Tidy(out + [op])
    ensures BodyOf(out + [op]) == BodyOf(out) + (if op.Write? then op.data else [])
    ensures StatusOf(out + [op]) == if StatusOf(out).Some? then StatusOf(out)
                                    else if op.WriteHeader? then Some(op.code)
                                    else if op.Write? || op.Flush? then Some(200) else None
  {
    assert (out + [op])[..|out|] == out;
  }

  /** Committing sends the header and everything held. */
  lemma CommitMeans(w: Writer)
    requires Tidy(w.out) && !w.committed && StatusOf(w.out).None?
    ensures var c := Commit(w);
            && c.committed && c.buf == [] && c.passthrough == w.passthrough && Tidy(c.out)
            && BodyOf(c.out) == BodyOf(w.out) + w.buf
            && StatusOf(c.out) == Some(if w.status == 0 then 200 else w.status)
  {
    var op := Op.WriteHeader(if w.status == 0 then 200 else w.status);
    EmitMeans(w.out, op);
    EmitMeans(w.out + [op], Write(w.buf));
    assert Commit(w).out == w.out + [op] + (if |w.buf| > 0 then [Write(w.buf)] else []);
    assert w.out + [op] + [] == w.out + [op];
  }

  lemma HeaderOpKeepsInv(header: Header, w: Writer, ops: seq<Op>, op: Op)
    requires Inv(header, w, ops) && (op.SetHeader? || op.DelHeader?)
    ensures Inv(header, Step(w, op), ops + [op])
  {
    assert (ops + [op])[..|ops|] == ops;
    EmitMeans(w.out, op);
  }

  lemma WriteHeaderKeepsInv(header: Header, w: Writer, ops: seq<Op>, code: nat)
    requires Inv(header, w, ops) && code > 0
    ensures Inv(header, Step(w, WriteHeader(code)), ops + [WriteHeader(code)])
  {
    var op := Op.WriteHeader(code);
    assert (ops + [op])[..|ops|] == ops;
    NoStatusMeansNoBody(ops);
    if w.passthrough && !w.committed {
      EmitMeans(w.out, op);
    }
  }

  /** What a passthrough write or flush starts from: nothing sent and a status to send, or a committed response. */
  ghost predicate Sendable(header: Header, w: Writer, ops: seq<Op>) {
    && w.passthrough && Tidy(w.out) && BodyOf(w.out) + w.buf == BodyOf(ops) && w.header == HeaderOf(header, ops)
    && if w.committed then w.buf == [] && Sent(header, w, ops)
       else StatusOf(w.out).None? && !Replaced(header, ops) && BareStatus(ops) == if w.status == 0 then 200
         else w.status
  }

  /** The status that went out is the handler's first unless that was replaced. */
  ghost predicate Sent(header: Header, w: Writer, ops: seq<Op>) {
    StatusOf(w.out).Some? && (StatusOf(w.out) == Some(BareStatus(ops)) <==> !Replaced(header, ops))
  }

  lemma CommitSends(header: Header, w: Writer, ops: seq<Op>)
    requires Sendable(header, w, ops)
    ensures Sendable(header, Commit(w), ops) && Commit(w).committed
  {
    if !w.committed {
      CommitMeans(w);
    }
  }

  /** A write or flush of a committed response. */
  lemma SentKeepsInv(header: Header, w: Writer, ops: seq<Op>, op: Op)
    requires Sendable(header, w, ops) && w.committed && (op.Write? || op.Flush?)
    ensures Inv(header, Emit(w, op), ops + [op])
  {
    assert (ops + [op])[..|ops|] == ops;
    EmitMeans(w.out, op);
  }

  /** A passthrough write: whatever is held goes out first, then the data. */
  lemma ForwardKeepsInv(header: Header, w: Writer, ops: seq<Op>, op: Op)
    requires Sendable(header, w, ops) && (op.Write? || op.Flush?)
    ensures Inv(header, Emit(Commit(w), op), ops + [op])
  {
    CommitSends(header, w, ops);
    SentKeepsInv(header, Commit(w), ops, op);
  }

  /** A write that is held. */
  lemma HoldKeepsInv(header: Header, w: Writer, ops: seq<Op>, data: Bytes)
    requires Inv(header, w, ops) && !w.passthrough && |w.buf| + |data| <= MAX_BODY
    requires w.status == 0 ==> Get(w.header, ETag) == ""
    ensures Inv(header, w.(status := 200, buf := w.buf + data), ops + [Write(data)])
  {
    assert (ops + [Op.Write(data)])[..|ops|] == ops;
  }

  lemma {:induction false} RunKeepsInv(header: Header, ops: seq<Op>)
    requires ValidOps(ops)
    ensures Inv(header, Run(Fresh(header), ops), ops)
  {
    if ops != [] {
      var before, last := ops[..|ops| - 1], ops[|ops| - 1];
      assert ops == before + [last];
      RunKeepsInv(header, before);
      var w := Run(Fresh(header), before);
      match last {
        case WriteHeader(code) => WriteHeaderKeepsInv(header, w, before, code);
        case Write(data) =>
          var w1 := if !w.passthrough && w.status == 0 then DoWriteHeader(w, 200) else w;
          if w1.passthrough {
            ForwardKeepsInv(header, w1, before, last);
          } else if |w1.buf| + |data| > MAX_BODY {
            ForwardKeepsInv(header, w1.(passthrough := true), before, last);
          } else {
            HoldKeepsInv(header, w, before, data);
          }
        case Flush => ForwardKeepsInv(header, w.(passthrough := true), before, Flush);
        case _ => HeaderOpKeepsInv(header, w, before, last);
      }
    }
  }

  /** At no time are more than 8 MiB held, whatever the handler calls. */
  lemma {:induction false} HeldBytesAreBounded(header: Header, ops: seq<Op>)
    ensures |Run(Fresh(header), ops).buf| <= MAX_BODY
  {
    if ops != [] {
      HeldBytesAreBounded(header, ops[..|ops| - 1]);
    }
  }

  /** After a flush nothing is held: status and body so far have been sent on, and the flush behind them. */
  lemma FlushHoldsNothing(header: Header, ops: seq<Op>)
    requires ValidOps(ops)
    ensures var w := Run(Fresh(header), ops + [Flush]);
            && w.buf == [] && BodyOf(w.out) == BodyOf(ops) && StatusOf(w.out).Some?
            && w.out != [] && w.out[|w.out| - 1] == Flush
  {
    var all, w := ops + [Op.Flush], Run(Fresh(header), ops);
    assert all[..|ops|] == ops && all[|ops|] == Flush;
    assert Run(Fresh(header), all) == Step(w, Flush) == Emit(Commit(w.(passthrough := true)), Flush);
    RunKeepsInv(header, ops);
    CommitSends(header, w.(passthrough := true), ops);
    FlushEmits(header, Commit(w.(passthrough := true)), ops);
  }

  lemma FlushEmits(header: Header, c: Writer, ops: seq<Op>)
    requires Sendable(header, c, ops) && c.committed
    ensures var w := Emit(c, Flush);
            && w.buf == [] && BodyOf(w.out) == BodyOf(ops) && StatusOf(w.out).Some?
            && w.out != [] && w.out[|w.out| - 1] == Flush
  {
    EmitMeans(c.out, Flush);
  }

  /** The calls that reach the wrapped writer for a whole request. */
  function Delivered(header: Header, ops: seq<Op>, head: bool, ifNoneMatch: string, digest: Digest): seq<Op> {
    Finish(Run(Fresh(header), ops), head, ifNoneMatch, digest).out
  }

  /** The handler's own tag at the moment its status was settled, by a status call or a first byte. */
  function SettledTag(header: Header, ops: seq<Op>): string {
    if ops == [] then ""
    else
      var before, last := ops[..|ops| - 1], ops[|ops| - 1];
      if StatusOf(before).None? && (last.WriteHeader? || last.Write?) then Get(HeaderOf(header, before), ETag)
      else SettledTag(header, before)
  }

  /** The response is the middleware's to validate: a 200 of at most 8 MiB, never flushed and without a tag of the
      handler's when its status was settled. */
  predicate Validated(header: Header, ops: seq<Op>) {
    && Flush !in ops && (StatusOf(ops).None? || StatusOf(ops) == Some(200)) && SettledTag(header, ops) == ""
    && |BodyOf(ops)| <= MAX_BODY
  }

  /** A call lets go of the response: a flush, a status call or first byte that settles another status than 200 or finds
      a tag, or a write past the limit. */
  predicate LetsGo(op: Op, settled: bool, tag: string, held: nat) {
    match op
    case Flush => true
    case WriteHeader(code) => !settled && (code != 200 || tag != "")
    case Write(data) => (!settled && tag != "") || held + |data| > MAX_BODY
    case _ => false
  }

  lemma StepLetsGo(w: Writer, op: Op)
    requires op.WriteHeader? ==> op.code > 0
    ensures Step(w, op).passthrough <==> w.passthrough || LetsGo(op, w.status != 0, Get(w.header, ETag), |w.buf|)
  {
  }

  lemma ValidatedUntil(header: Header, before: seq<Op>, last: Op)
    ensures Validated(header, before + [last]) <==>
            Validated(header, before) &&
            !LetsGo(last, StatusOf(before).Some?, Get(HeaderOf(header, before), ETag), |BodyOf(before)|)
  {
    var ops := before + [last];
    assert ops[..|ops| - 1] == before;
    assert Flush in ops <==> Flush in before || last == Flush;
    NoStatusMeansNoTag(header, before);
  }

  lemma {:induction false} NoStatusMeansNoTag(header: Header, ops: seq<Op>)
    ensures StatusOf(ops).None? ==> SettledTag(header, ops) == ""
  {
    if ops != [] {
      NoStatusMeansNoTag(header, ops[..|ops| - 1]);
    }
  }

  /** What is held so far is the whole response so far. */
  lemma HeldSoFar(header: Header, w: Writer, ops: seq<Op>)
    requires Inv(header, w, ops) && !w.passthrough
    ensures w.buf == BodyOf(ops) && w.header == HeaderOf(header, ops) && (w.status == 0 <==> StatusOf(ops).None?)
    ensures !Replaced(header, ops)
  {
    NoStatusMeansNoBody(w.out);
  }

  /** Exactly these are still held when the handler returns. */
  lemma {:induction false} HeldToTheEndIff(header: Header, ops: seq<Op>)
    requires ValidOps(ops)
    ensures !Run(Fresh(header), ops).passthrough <==> Validated(header, ops)
    ensures Validated(header, ops) ==> !Replaced(header, ops)
  {
    var w := Run(Fresh(header), ops);
    RunKeepsInv(header, ops);
    if ops != [] {
      var before, last := ops[..|ops| - 1], ops[|ops| - 1];
      assert ops == before + [last];
      HeldToTheEndIff(header, before);
      RunKeepsInv(header, before);
      var v := Run(Fresh(header), before);
      StepLetsGo(v, last);
      ValidatedUntil(header, before, last);
      if !v.passthrough {
        HeldSoFar(header, v, before);
      }
    }
    if !w.passthrough {
      HeldSoFar(header, w, ops);
    }
  }

  /** The middleware answers in the handler's place: the response is its to validate, and If-None-Match matches its
      tag. */
  predicate AnswersItself(header: Header, ops: seq<Op>, ifNoneMatch: string, digest: Digest) {
    Validated(header, ops) && EntityTags.Matches(ifNoneMatch, TagOf(digest, BodyOf(ops)))
  }

  lemma NotModifiedIsEmpty(w: Writer, etag: string)
    requires Tidy(w.out) && StatusOf(w.out).None?
    ensures var out := NotModified(Emit(w, SetHeader(ETag, etag))).out;
            Tidy(out) && StatusOf(out) == Some(304) && BodyOf(out) == BodyOf(w.out)
  {
    var o1 := w.out + [SetHeader(ETag, etag)];
    var o2 := o1 + [DelHeader(ContentLength)];
    var o3 := o2 + [DelHeader(ContentType)];
    EmitMeans(w.out, SetHeader(ETag, etag));
    EmitMeans(o1, DelHeader(ContentLength));
    EmitMeans(o2, DelHeader(ContentType));
    EmitMeans(o3, DelHeader(ContentEncoding));
    EmitMeans(o3 + [DelHeader(ContentEncoding)], WriteHeader(304));
  }

  lemma FinishMeans(header: Header, w: Writer, ops: seq<Op>, ifNoneMatch: string, digest: Digest)
    requires Inv(header, w, ops)
    ensures var out := Finish(w, false, ifNoneMatch, digest).out;
            var own := !w.passthrough && EntityTags.Matches(ifNoneMatch, TagOf(digest, BodyOf(ops)));
            && Tidy(out)
            && (own ==> StatusOf(out) == Some(304) && BodyOf(out) == [])
            && (!own ==> BodyOf(out) == BodyOf(ops) &&
                         (StatusOf(out) == Some(BareStatus(ops)) <==> !Replaced(header, ops)))
  {
    if w.passthrough {
      if !w.committed {
        CommitMeans(w);
      }
    } else {
      NoStatusMeansNoBody(w.out);
      assert w.buf == BodyOf(ops);
      var etag := TagOf(digest, w.buf);
      NotModifiedIsEmpty(w, etag);
      var o1 := w.out + [SetHeader(ETag, etag)];
      var op := Op.WriteHeader(if w.status == 0 then 200 else w.status);
      EmitMeans(w.out, SetHeader(ETag, etag));
      EmitMeans(o1, op);
      EmitMeans(o1 + [op], Write(w.buf));
    }
  }

  /** For every GET handler: the client gets the whole body in order, or an empty 304, and the middleware's 304
      exactly when the response is an unflushed 200 of at most 8 MiB without a tag of its own and If-None-Match matches
      the tag of its body. The full body comes under the handler's first status exactly when no second status call
      replaced that one while it was unsent. */
  lemma FullBodyOrNotModified(header: Header, ops: seq<Op>, ifNoneMatch: string, digest: Digest)
    requires ValidOps(ops)
    ensures var out := Delivered(header, ops, false, ifNoneMatch, digest);
            && Tidy(out)
            && if AnswersItself(header, ops, ifNoneMatch, digest) then StatusOf(out) == Some(304) && BodyOf(out) == []
               else && BodyOf(out) == BodyOf(ops)
                    && (StatusOf(out) == Some(BareStatus(ops)) <==> !Replaced(header, ops))
  {
    RunKeepsInv(header, ops);
    HeldToTheEndIff(header, ops);
    FinishMeans(header, Run(Fresh(header), ops), ops, ifNoneMatch, digest);
  }

  /** One status call, or none, is never replaced. */
  lemma {:induction false} OneHeaderIsKept(header: Header, ops: seq<Op>)
    requires HeaderCalls(ops) <= 1
    ensures !Replaced(header, ops) && (HeaderCalls(ops) == 0 ==> Unsent(header, ops).None?)
  {
    if ops != [] {
      OneHeaderIsKept(header, ops[..|ops| - 1]);
    }
  }

  /** A second status call before anything is sent replaces the first, where a bare writer would keep the first. */
  lemma SecondHeaderWins(header: Header, digest: Digest)
    ensures var ops := [WriteHeader(404), WriteHeader(500)];
            StatusOf(ops) == Some(404) && Delivered(header, ops, false, "", digest) == [WriteHeader(500)]
  {
    var ops, one := [Op.WriteHeader(404), Op.WriteHeader(500)], [Op.WriteHeader(404)];
    assert ops[..1] == one && one[..0] == [];
    assert StatusOf(one) == Some(404);
    assert Run(Fresh(header), one) == Fresh(header).(status := 404, passthrough := true);
  }

  /** One call more, as far as headers go. */
  lemma HeadersNext(header: Header, out: seq<Op>, op: Op)
    ensures HeaderOf(header, out + [op]) == HeaderAfter(HeaderOf(header, out), op)
    ensures StatusOf(out).None? && op.WriteHeader? ==> HeaderAtStatus(header, out + [op]) == HeaderOf(header, out)
    ensures StatusOf(out).Some? ==> HeaderAtStatus(header, out + [op]) == HeaderAtStatus(header, out)
  {
    assert (out + [op])[..|out|] == out;
  }

  /** What is sent for a held response, as a list of calls. */
  lemma FinishSends(w: Writer, head: bool, ifNoneMatch: string, digest: Digest)
    requires !w.passthrough
    ensures var etag := TagOf(digest, w.buf); var out := Finish(w, head, ifNoneMatch, digest).out;
            var tagged := w.out + [SetHeader(ETag, etag)];
            if EntityTags.Matches(ifNoneMatch, etag) then
              out == tagged + [DelHeader(ContentLength)] + [DelHeader(ContentType)] + [DelHeader(ContentEncoding)]
                       + [WriteHeader(304)]
            else
              out == tagged + [WriteHeader(if w.status == 0 then 200 else w.status)] +
                     if head then [] else [Write(w.buf)]
  {
  }

  lemma TaggedHeader(header: Header, out: seq<Op>, etag: string, code: nat, data: Bytes)
    requires StatusOf(out).None?
    ensures var tagged := out + [SetHeader(ETag, etag)];
            && StatusOf(tagged).None? && HeaderOf(header, tagged) == HeaderOf(header, out)[ETag := etag]
            && HeaderAtStatus(header, tagged + [WriteHeader(code)]) == HeaderOf(header, tagged)
            && HeaderAtStatus(header, tagged + [WriteHeader(code)] + [Write(data)]) == HeaderOf(header, tagged)
  {
    var tagged := out + [SetHeader(ETag, etag)];
    HeadersNext(header, out, SetHeader(ETag, etag));
    assert tagged[..|out|] == out;
    HeadersNext(header, tagged, WriteHeader(code));
    assert (tagged + [WriteHeader(code)])[..|tagged|] == tagged;
    HeadersNext(header, tagged + [WriteHeader(code)], Write(data));
  }

  lemma NotModifiedHeader(header: Header, tagged: seq<Op>)
    requires StatusOf(tagged).None?
    ensures var out := tagged + [DelHeader(ContentLength)] + [DelHeader(ContentType)] + [DelHeader(ContentEncoding)];
            && StatusOf(out).None?
            && HeaderAtStatus(header, out + [WriteHeader(304)]) ==
               HeaderOf(header, tagged) - {ContentLength, ContentType, ContentEncoding}
  {
    var o1 := tagged + [DelHeader(ContentLength)];
    var o2 := o1 + [DelHeader(ContentType)];
    var o3 := o2 + [DelHeader(ContentEncoding)];
    HeadersNext(header, tagged, DelHeader(ContentLength));
    HeadersNext(header, o1, DelHeader(ContentType));
    HeadersNext(header, o2, DelHeader(ContentEncoding));
    assert o1[..|tagged|] == tagged && o2[..|o1|] == o1 && o3[..|o2|] == o2;
    HeadersNext(header, o3, WriteHeader(304));
  }

  /** The header of a response the middleware validates is the handler's, with the tag of the whole body; a 304 leaves
      out what describes a body. So the tag a client echoes is the one it was sent. For GET and HEAD alike. */
  lemma TagIsSent(header: Header, ops: seq<Op>, head: bool, ifNoneMatch: string, digest: Digest)
    requires ValidOps(ops) && Validated(header, ops)
    ensures var etag := TagOf(digest, BodyOf(ops));
            var sent := HeaderAtStatus(header, Delivered(header, ops, head, ifNoneMatch, digest));
            var tagged := HeaderOf(header, ops)[ETag := etag];
            sent == if EntityTags.Matches(ifNoneMatch, etag) then tagged - {ContentLength, ContentType, ContentEncoding}
                    else tagged
  {
    var w := Run(Fresh(header), ops);
    RunKeepsInv(header, ops);
    HeldToTheEndIff(header, ops);
    HeldSoFar(header, w, ops);
    OutKeepsHeader(header, ops);
    var etag := TagOf(digest, w.buf);
    FinishSends(w, head, ifNoneMatch, digest);
    TaggedHeader(header, w.out, etag, if w.status == 0 then 200 else w.status, w.buf);
    NotModifiedHeader(header, w.out + [SetHeader(ETag, etag)]);
    var line := w.out + [SetHeader(ETag, etag)] + [WriteHeader(if w.status == 0 then 200 else w.status)];
    assert line + [] == line;
  }

  /** The wrapped writer has seen every header change. */
  ghost predicate InStep(header: Header, w: Writer) {
    HeaderOf(header, w.out) == w.header
  }

  lemma EmitKeepsHeader(header: Header, w: Writer, op: Op)
    requires InStep(header, w)
    ensures InStep(header, Emit(w, op))
  {
    HeadersNext(header, w.out, op);
  }

  lemma CommitKeepsHeader(header: Header, w: Writer)
    requires InStep(header, w)
    ensures InStep(header, Commit(w))
  {
    if !w.committed {
      var op := Op.WriteHeader(if w.status == 0 then 200 else w.status);
      var w1 := Emit(w.(committed := true), op);
      assert InStep(header, w.(committed := true));
      EmitKeepsHeader(header, w.(committed := true), op);
      if |w.buf| > 0 {
        assert InStep(header, w1.(buf := []));
        EmitKeepsHeader(header, w1.(buf := []), Write(w1.buf));
      }
    }
  }

  /** Whatever is held goes out first. */
  lemma ForwardKeepsHeader(header: Header, w: Writer, op: Op)
    requires InStep(header, w)
    ensures InStep(header, Emit(Commit(w), op))
  {
    CommitKeepsHeader(header, w);
    EmitKeepsHeader(header, Commit(w), op);
  }

  lemma DoWriteHeaderKeepsHeader(header: Header, w: Writer, code: nat)
    requires InStep(header, w)
    ensures InStep(header, DoWriteHeader(w, code))
  {
    if w.passthrough && !w.committed {
      assert InStep(header, w.(committed := true));
      EmitKeepsHeader(header, w.(committed := true), WriteHeader(code));
    }
  }

  lemma StepKeepsHeader(header: Header, w: Writer, op: Op)
    requires InStep(header, w)
    ensures InStep(header, Step(w, op))
  {
    match op
    case WriteHeader(code) => DoWriteHeaderKeepsHeader(header, w, code);
    case Write(data) =>
      var w1 := if !w.passthrough && w.status == 0 then DoWriteHeader(w, 200) else w;
      DoWriteHeaderKeepsHeader(header, w, 200);
      if w1.passthrough {
        ForwardKeepsHeader(header, w1, op);
      } else if |w1.buf| + |data| > MAX_BODY {
        assert InStep(header, w1.(passthrough := true));
        ForwardKeepsHeader(header, w1.(passthrough := true), op);
      }
    case Flush =>
      assert InStep(header, w.(passthrough := true));
      ForwardKeepsHeader(header, w.(passthrough := true), op);
    case _ => EmitKeepsHeader(header, w, op);
  }

  lemma {:induction false} OutKeepsHeader(header: Header, ops: seq<Op>)
    ensures InStep(header, Run(Fresh(header), ops))
  {
    if ops != [] {
      OutKeepsHeader(header, ops[..|ops| - 1]);
      StepKeepsHeader(header, Run(Fresh(header), ops[..|ops| - 1]), ops[|ops| - 1]);
    }
  }

  /** What a held response sends, with and without its body. */
  lemma HeldSends(w: Writer, ifNoneMatch: string, digest: Digest)
    requires !w.passthrough && Tidy(w.out) && StatusOf(w.out).None?
    ensures var get, head := Finish(w, false, ifNoneMatch, digest).out, Finish(w, true, ifNoneMatch, digest).out;
            StatusOf(head) == StatusOf(get) && BodyOf(head) == BodyOf(w.out)
  {
    var etag := TagOf(digest, w.buf);
    NotModifiedIsEmpty(w, etag);
    var tagged, line := w.out + [SetHeader(ETag, etag)], Op.WriteHeader(if w.status == 0 then 200 else w.status);
    EmitMeans(w.out, SetHeader(ETag, etag));
    EmitMeans(tagged, line);
    EmitMeans(tagged + [line], Write(w.buf));
  }

  /** A HEAD request gets the status and header of the GET, and no body that the middleware held. */
  lemma HeadIsGetWithoutBody(header: Header, ops: seq<Op>, ifNoneMatch: string, digest: Digest)
    requires ValidOps(ops)
    ensures var get := Delivered(header, ops, false, ifNoneMatch, digest);
            var head := Delivered(header, ops, true, ifNoneMatch, digest);
            && StatusOf(head) == StatusOf(get) && HeaderAtStatus(header, head) == HeaderAtStatus(header, get)
            && if Validated(header, ops) then BodyOf(head) == [] else head == get
  {
    var w := Run(Fresh(header), ops);
    RunKeepsInv(header, ops);
    HeldToTheEndIff(header, ops);
    if !w.passthrough {
      NoStatusMeansNoBody(w.out);
      HeldSends(w, ifNoneMatch, digest);
      TagIsSent(header, ops, true, ifNoneMatch, digest);
      TagIsSent(header, ops, false, ifNoneMatch, digest);
    }
  }

  // ----- Both writers together -----

  /** Compression around validation: for every GET handler, what the client decodes is the handler's whole body, under
      its first status unless that was replaced, or nothing under a 304 that If-None-Match asked for. */
  lemma EndToEnd(header: Header, ops: seq<Op>, ifNoneMatch: string, digest: Digest, encoding: Compress.Coding,
                 minSize: nat, worth: Compress.MediaTypes)
    requires ValidOps(ops) && 0 < minSize
    ensures var out := Delivered(header, ops, false, ifNoneMatch, digest);
            var log := Compress.Finished(encoding, minSize, worth, header, out).log;
            var coding := Get(Compress.HeldHeader(header, out, minSize), ContentEncoding);
            if AnswersItself(header, ops, ifNoneMatch, digest)
            then Compress.SendsStatus(log, 304) && Compress.ClientGets(log) == Some((coding, []))
            else && Compress.ClientGets(log) == Some((coding, BodyOf(ops)))
                 && (Compress.SendsStatus(log, BareStatus(ops)) <==> !Replaced(header, ops))
  {
    var out := Delivered(header, ops, false, ifNoneMatch, digest);
    FullBodyOrNotModified(header, ops, ifNoneMatch, digest);
    Compress.CompressionIsTransparent(encoding, minSize, worth, header, out);
    Compress.StatusIsTheHandlers(encoding, minSize, worth, header, out);
    RunKeepsInv(header, ops);
    StatusIsSent(header, ops, ifNoneMatch, digest);
  }

  /** A whole request always sends a status. */
  lemma StatusIsSent(header: Header, ops: seq<Op>, ifNoneMatch: string, digest: Digest)
    requires ValidOps(ops)
    ensures StatusOf(Delivered(header, ops, false, ifNoneMatch, digest)).Some?
  {
    RunKeepsInv(header, ops);
    var w := Run(Fresh(header), ops);
    FinishMeans(header, w, ops, ifNoneMatch, digest);
    if w.passthrough && !w.committed {
      CommitMeans(w);
    }
  }

  /** A client that got the full body and sends its tag back, as sent or weakened by compression, gets the 304 as long
      as the body is the same. */
  lemma EchoedTagIsNotModified(header: Header, ops: seq<Op>, digest: Digest, weakened: bool)
    requires ValidOps(ops) && Validated(header, ops)
    requires ',' !in digest(BodyOf(ops))
    ensures var tag := TagOf(digest, BodyOf(ops));
            var out := Delivered(header, ops, false, if weakened then Compress.Weaken(tag) else tag, digest);
            StatusOf(out) == Some(304) && BodyOf(out) == []
  {
    var tag := TagOf(digest, BodyOf(ops));
    assert tag[0] == '"' && tag[|tag| - 1] == '"';
    EntityTags.EchoMatchesIff(tag);
    EntityTags.SingleMatchesIff(tag, tag);
    FullBodyOrNotModified(header, ops, if weakened then Compress.Weaken(tag) else tag, digest);
  }
}
