/** Lengths as digit strings, and chunked messages decoded by the one-byte step. */
module HttpMessages {
  import opened Bytes
  import opened Numbers
  import opened Wrappers
  import opened HttpBody
  import opened HttpExecute

  // ---------- Content-Length ----------

  predicate IsDigitByte(ch: Byte) { 48 <= ch <= 57 }

  predicate AllDigitBytes(ds: seq<Byte>) {
    forall i :: 0 <= i < |ds| ==> IsDigitByte(ds[i])
  }

  function DecimalValue(ds: seq<Byte>): nat
    requires AllDigitBytes(ds)
  {
    assert ds != [] ==> IsDigitByte(ds[|ds| - 1]);
    if ds == [] then 0 else DecimalValue(ds[..|ds| - 1]) * 10 + (ds[|ds| - 1] - 48)
  }

  /** The greatest length the conservative overflow test lets through. */
  const MAX_CONTENT_LENGTH := 18446744073709551609

  function DigitRun(value: seq<Byte>): (k: nat)
    ensures k <= |value| && AllDigitBytes(value[..k])
    ensures k < |value| ==> !IsDigitByte(value[k])
  {
    if value == [] || !IsDigitByte(value[0]) then 0
    else
      var k := 1 + DigitRun(value[1..]);
      assert value[..k] == [value[0]] + value[1..][..k - 1];
      k
  }

  lemma FirstDigits(value: seq<Byte>, k: nat)
    requires 0 < k <= |value| && AllDigitBytes(value[..k])
    ensures IsDigitByte(value[0]) && AllDigitBytes(value[1..][..k - 1])
  {
    var t := value[1..][..k - 1];
    assert value[..k] == [value[0]] + t;
    forall i | 0 <= i < |t| ensures IsDigitByte(t[i]) { assert value[..k][i + 1] == t[i]; }
  }

  lemma {:induction false} DigitRunIs(value: seq<Byte>, k: nat)
    requires k <= |value| && AllDigitBytes(value[..k]) && (k < |value| ==> !IsDigitByte(value[k]))
    ensures DigitRun(value) == k
    decreases |value|
  {
    if k > 0 {
      FirstDigits(value, k);
      DigitRunIs(value[1..], k - 1);
    }
  }

  lemma {:induction false} DigitRunReaches(value: seq<Byte>, i: nat)
    requires i <= |value| && AllDigitBytes(value[..i])
    ensures i <= DigitRun(value)
    decreases |value|
  {
    if i > 0 {
      FirstDigits(value, i);
      DigitRunReaches(value[1..], i - 1);
    }
  }

  lemma {:induction false} DecimalValueGrows(ds: seq<Byte>, i: nat)
    requires i <= |ds| && AllDigitBytes(ds)
    ensures AllDigitBytes(ds[..i]) && DecimalValue(ds[..i]) <= DecimalValue(ds)
    decreases |ds|
  {
    if i == |ds| {
      assert ds[..i] == ds;
    } else {
      DecimalValueGrows(ds[..|ds| - 1], i);
      assert ds[..|ds| - 1][..i] == ds[..i];
    }
  }

  /** A Content-Length value: digits, then nothing but spaces, and not above the limit. */
  ghost function LengthOf(value: seq<Byte>): Option<nat> {
    var k := DigitRun(value);
    if k > 0 && (forall i :: k <= i < |value| ==> value[i] == 32) && DecimalValue(value[..k]) <= MAX_CONTENT_LENGTH
    then Some(DecimalValue(value[..k])) else None
  }

  /** Once the value read so far and one more digit are too much, so is the whole. */
  lemma TooLong(value: seq<Byte>, i: nat)
    requires i < |value| && AllDigitBytes(value[..i]) && IsDigitByte(value[i])
    requires (ULLONG_MAX - 10) / 10 < DecimalValue(value[..i])
    ensures LengthOf(value) == None
  {
    var ds, k := value[..i + 1], DigitRun(value);
    assert ds[..|ds| - 1] == value[..i];
    DigitRunReaches(value, i + 1);
    DecimalValueGrows(value[..k], i + 1);
    assert value[..k][..i + 1] == ds;
  }

  /** The h_content_length_num and h_content_length_ws cases over a whole header value: None is
      HPE_INVALID_CONTENT_LENGTH. Digit strings of any length come out as the number they denote, and are
      accepted exactly when that number is at most the limit, so neither the uint64 wrap nor the "no
      length" sentinel can come out. */
  method ContentLength(value: seq<Byte>) returns (r: Option<nat>)
    ensures r == LengthOf(value)
    ensures r.Some? ==> r.value < ULLONG_MAX
  {
    hide LengthOf;
    if value == [] || !IsDigitByte(value[0]) {
      LengthIs(value, 0);
      return None;
    }
    var length: nat := value[0] - 48;
    var inSpaces := false;
    var i := 1;
    ghost var k := 1;
    assert value[..1] == [value[0]] && DecimalValue([]) == 0 && [value[0]][..0] == [];
    while i < |value|
      invariant 1 <= k <= i <= |value| && (k < i <==> inSpaces)
      invariant AllDigitBytes(value[..k]) && forall j :: k <= j < i ==> value[j] == 32
      invariant length == DecimalValue(value[..k]) <= MAX_CONTENT_LENGTH
    {
      var ch := value[i];
      if inSpaces {
        if ch != 32 {
          LengthIs(value, k);
          return None;
        }
      } else if ch == 32 {
        inSpaces := true;
      } else {
        if !IsDigitByte(ch) {
          LengthIs(value, k);
          return None;
        }
        if (ULLONG_MAX - 10) / 10 < length {
          TooLong(value, i);
          return None;
        }
        length := AppendDigit(length, 10, ch - 48);
        OneMoreDigit(value, i);
        k := i + 1;
      }
      i := i + 1;
    }
    LengthIs(value, k);
    r := Some(length);
  }

  lemma OneMoreDigit(value: seq<Byte>, i: nat)
    requires i < |value| && AllDigitBytes(value[..i]) && IsDigitByte(value[i])
    ensures AllDigitBytes(value[..i + 1])
    ensures DecimalValue(value[..i + 1]) == DecimalValue(value[..i]) * 10 + (value[i] - 48)
  {
    assert value[..i + 1][..i] == value[..i];
  }

  lemma LengthIs(value: seq<Byte>, k: nat)
    requires k <= |value| && AllDigitBytes(value[..k]) && (k < |value| ==> !IsDigitByte(value[k]))
    ensures LengthOf(value) ==
      if k > 0 && (forall i :: k <= i < |value| ==> value[i] == 32) && DecimalValue(value[..k]) <= MAX_CONTENT_LENGTH
      then Some(DecimalValue(value[..k])) else None
  {
    DigitRunIs(value, k);
  }

  // ---------- chunk sizes ----------

  predicate IsHex(ch: Byte) { Unhex(ch) != -1 }

  const LOWER := "0123456789abcdef"
  const UPPER := "0123456789ABCDEF"

  /** The hex digits and what they stand for. */
  lemma HexDigits(ch: Byte)
    ensures IsHex(ch) <==> ch as char in LOWER || ch as char in UPPER
    ensures forall v :: 0 <= v < 16 ==> Unhex(LOWER[v] as int) == v && Unhex(UPPER[v] as int) == v
  {
    if 48 <= ch <= 57 {
      assert LOWER[ch - 48] == ch as char;
    } else if 97 <= ch <= 102 {
      assert LOWER[ch - 87] == ch as char;
    } else if 65 <= ch <= 70 {
      assert UPPER[ch - 55] == ch as char;
    }
  }

  predicate AllHex(ds: seq<Byte>) {
    forall i :: 0 <= i < |ds| ==> IsHex(ds[i])
  }

  /** The number that hex digits after a number `n` denote. */
  function HexFrom(n: nat, ds: seq<Byte>): (v: nat)
    requires AllHex(ds)
    ensures v >= n
    decreases |ds|
  {
    assert ds != [] ==> IsHex(ds[0]);
    if ds == [] then n else HexFrom(n * 16 + Unhex(ds[0]), ds[1..])
  }

  /** The greatest chunk size the conservative overflow test lets through: 2^64 - 17. */
  const MAX_CHUNK_SIZE := TWO_64 - 17

  lemma Composes(p: Parser, a: seq<Byte>, q: Parser, es: seq<Event>, b: seq<Byte>)
    requires Valid(p) && Run(p, a) == Result(q, es, |a|, Next)
    ensures Valid(q) && Run(p, a + b) == Then(es, |a|, Run(q, b))
  {
    RunAppend(p, a, b);
  }

  lemma OneByte(p: Parser, ch: Byte)
    requires Valid(p)
    ensures Step(p, ch).exit == Next ==> Run(p, [ch]) == Result(Step(p, ch).p, Step(p, ch).events, 1, Next)
    ensures Step(p, ch).exit == Upgraded ==> Run(p, [ch]) == Result(Step(p, ch).p, Step(p, ch).events, 1, Upgraded)
    ensures Step(p, ch).exit == Failed ==> Run(p, [ch]) == Result(Step(p, ch).p, Step(p, ch).events, 0, Failed)
    ensures Step(p, ch).exit == Left ==> Run(p, [ch]) == Result(Step(p, ch).p, Step(p, ch).events, 0, Left)
  {
    StepKeepsValid(p, ch);
    hide Step, Valid;
    var o := Step(p, ch);
    if o.exit == Next {
      assert Run(o.p, []) == Result(o.p, [], 0, Next);
      assert [ch][1..] == [] && o.events + [] == o.events;
    }
  }

  lemma HexStep(p: Parser, ch: Byte)
    requires Valid(p) && p.state.ChunkSize? && p.nread < MAX_HEADER_SIZE && IsHex(ch)
    ensures Step(p, ch) ==
      if p.contentLength * 16 + Unhex(ch) <= MAX_CHUNK_SIZE
      then Outcome(p.(nread := p.nread + 1, contentLength := p.contentLength * 16 + Unhex(ch)), [], Next)
      else Outcome(p.(nread := p.nread + 1, errno := InvalidContentLength), [], Failed)
  {
    if !((ULLONG_MAX - 16) / 16 < p.contentLength) { HexGuard(p.contentLength, Unhex(ch)); }
  }

  lemma HexFromUnfolds(n: nat, ds: seq<Byte>)
    requires AllHex(ds) && ds != []
    ensures IsHex(ds[0]) && AllHex(ds[1..]) && Unhex(ds[0]) >= 0 && n * 16 + Unhex(ds[0]) >= n
    ensures HexFrom(n, ds) == HexFrom(n * 16 + Unhex(ds[0]), ds[1..])
  {}

  /** What a run over hex digits that denote v, with the digits before them, comes to. */
  predicate HexOutcome(p: Parser, k: nat, v: nat, r: Result) {
    if v <= MAX_CHUNK_SIZE then r == Result(p.(nread := p.nread + k, contentLength := v), [], k, Next)
    else r.exit == Failed && r.p.errno == InvalidContentLength
  }

  lemma HexResult(p: Parser, q: Parser, k: nat, v: nat, r: Result)
    requires q == p.(nread := p.nread + 1, contentLength := q.contentLength) && HexOutcome(q, k, v, r)
    ensures HexOutcome(p, k + 1, v, Then([], 1, r))
  {
    NoEvents(r.events);
  }

  lemma HexFails(p: Parser, ds: seq<Byte>, v: nat)
    requires Valid(p) && ds != [] && p.state.ChunkSize? && p.nread < MAX_HEADER_SIZE && IsHex(ds[0])
    requires MAX_CHUNK_SIZE < p.contentLength * 16 + Unhex(ds[0]) <= v
    ensures HexOutcome(p, |ds|, v, Run(p, ds))
  {
    hide Step, Run, IsHex, Unhex, Valid;
    HexStep(p, ds[0]);
    RunFails(p, ds);
  }

  lemma HexNext(p: Parser, ds: seq<Byte>)
    requires Valid(p) && p.state.ChunkSize? && p.nread < MAX_HEADER_SIZE
    requires ds != [] && IsHex(ds[0]) && Unhex(ds[0]) >= 0
    requires p.contentLength * 16 + Unhex(ds[0]) <= MAX_CHUNK_SIZE
    ensures var q := p.(nread := p.nread + 1, contentLength := p.contentLength * 16 + Unhex(ds[0]));
      Valid(q) && Run(p, ds) == Then([], 1, Run(q, ds[1..]))
  {
    hide Step, Run, IsHex, Unhex, Valid, Then;
    HexStep(p, ds[0]);
    RunNext(p, ds);
  }

  lemma RunFails(p: Parser, data: seq<Byte>)
    requires Valid(p) && data != [] && Step(p, data[0]).exit == Failed
    ensures Run(p, data) == Result(Step(p, data[0]).p, Step(p, data[0]).events, 0, Failed)
  {}

  lemma HexNothing(p: Parser, ds: seq<Byte>)
    requires Valid(p) && ds == [] && p.contentLength <= MAX_CHUNK_SIZE && AllHex(ds)
    ensures HexOutcome(p, |ds|, HexFrom(p.contentLength, ds), Run(p, ds))
  {
    hide Valid;
  }

  lemma {:induction false} HexRuns(p: Parser, ds: seq<Byte>)
    requires Valid(p) && p.state.ChunkSize? && AllHex(ds)
    requires p.nread + |ds| <= MAX_HEADER_SIZE && p.contentLength <= MAX_CHUNK_SIZE
    ensures HexOutcome(p, |ds|, HexFrom(p.contentLength, ds), Run(p, ds))
    decreases |ds|
  {
    hide Step, Valid, IsHex, Run, Unhex, HexFrom, AllHex, Then, HexOutcome;
    if ds != [] {
      HexFromUnfolds(p.contentLength, ds);
      var n := p.contentLength * 16 + Unhex(ds[0]);
      if n <= MAX_CHUNK_SIZE {
        var q := p.(nread := p.nread + 1, contentLength := n);
        HexNext(p, ds);
        HexRuns(q, ds[1..]);
        HexResult(p, q, |ds| - 1, HexFrom(n, ds[1..]), Run(q, ds[1..]));
      } else {
        HexFails(p, ds, HexFrom(n, ds[1..]));
      }
    } else {
      HexNothing(p, ds);
    }
  }

  /** Hex digits of any length leave content_length at the number they denote, and are refused exactly
      when it is above the limit. */
  lemma HexRun(p: Parser, ds: seq<Byte>)
    requires Valid(p) && p.state.ChunkSize? && AllHex(ds)
    requires p.nread + |ds| <= MAX_HEADER_SIZE && p.contentLength <= MAX_CHUNK_SIZE
    ensures var v := HexFrom(p.contentLength, ds);
      if v <= MAX_CHUNK_SIZE then Run(p, ds) == Result(p.(nread := p.nread + |ds|, contentLength := v), [], |ds|, Next)
      else Run(p, ds).exit == Failed && Run(p, ds).p.errno == InvalidContentLength
  {
    hide Run, Valid, AllHex, HexFrom;
    HexRuns(p, ds);
  }

  // ---------- chunked messages ----------

  /** A chunk: its size in hex, an extension, its data. */
  datatype Chunk = Chunk(size: seq<Byte>, ext: seq<Byte>, data: seq<Byte>)

  /** Section 4.1 of RFC 7230: 1*HEXDIG and an optional extension, on a line the header limit admits. */
  ghost predicate SizeLineOk(size: seq<Byte>, ext: seq<Byte>) {
    && size != [] && AllHex(size)
    && (ext == [] || ext[0] == 59 || ext[0] == 32) && CR !in ext
    && |size| + |ext| + 2 <= MAX_HEADER_SIZE
  }

  ghost predicate ChunkOk(c: Chunk) {
    SizeLineOk(c.size, c.ext) && HexFrom(0, c.size) == |c.data|
  }

  function SizeLine(size: seq<Byte>, ext: seq<Byte>): seq<Byte> {
    size + ext + [CR, LF]
  }

  function EncodeChunk(c: Chunk): seq<Byte> {
    SizeLine(c.size, c.ext) + c.data + [CR, LF]
  }

  function EncodeChunks(cs: seq<Chunk>): seq<Byte> {
    if cs == [] then [] else EncodeChunk(cs[0]) + EncodeChunks(cs[1..])
  }

  lemma {:induction false} ExtRun(p: Parser, ext: seq<Byte>)
    requires Valid(p) && p.state.ChunkParameters? && CR !in ext && p.nread + |ext| <= MAX_HEADER_SIZE
    ensures Run(p, ext) == Result(p.(nread := p.nread + |ext|), [], |ext|, Next)
    decreases |ext|
  {
    if ext != [] {
      StepKeepsValid(p, ext[0]);
      ExtRun(Step(p, ext[0]).p, ext[1..]);
    }
  }

  lemma FirstDigit(p: Parser, ch: Byte)
    requires Valid(p) && p.state.ChunkSizeStart? && IsHex(ch)
    ensures Step(p, ch) == Outcome(p.(state := ChunkSize, nread := 1, contentLength := Unhex(ch)), [], Next)
  {}

  lemma DigitsRun(p: Parser, size: seq<Byte>)
    requires Valid(p) && p.state.ChunkSizeStart? && size != [] && AllHex(size) && |size| <= MAX_HEADER_SIZE
    requires HexFrom(0, size) <= MAX_CHUNK_SIZE
    ensures Run(p, size) == Result(p.(state := ChunkSize, nread := |size|, contentLength := HexFrom(0, size)), [],
        |size|, Next)
  {
    HexFromUnfolds(0, size);
    FirstDigit(p, size[0]);
    StepKeepsValid(p, size[0]);
    RunNext(p, size);
    hide Run, Step;
    var p1 := Step(p, size[0]).p;
    HexRun(p1, size[1..]);
  }

  /** Size digits and extension, up to the CR: the parser is in one of the two states that take it. */
  lemma SizeRun(p: Parser, size: seq<Byte>, ext: seq<Byte>) returns (q: Parser)
    requires Valid(p) && p.state.ChunkSizeStart? && SizeLineOk(size, ext) && HexFrom(0, size) <= MAX_CHUNK_SIZE
    ensures q == p.(state := q.state, nread := |size| + |ext|, contentLength := HexFrom(0, size))
    ensures (q.state.ChunkSize? || q.state.ChunkParameters?)
    ensures Run(p, size + ext) == Result(q, [], |size| + |ext|, Next)
  {
    q := p.(state := ChunkSize, nread := |size|, contentLength := HexFrom(0, size));
    DigitsRun(p, size);
    hide Run, Step;
    if ext == [] {
      assert size + ext == size;
    } else {
      assert ext[0] in ext;
      var q1 := q.(state := ChunkParameters, nread := |size| + 1);
      ParametersStart(q, ext[0]);
      ExtRun(q1, ext[1..]);
      Composes(p, size, q, [], ext);
      q := q1.(nread := |size| + |ext|);
    }
  }

  lemma ParametersStart(p: Parser, ch: Byte)
    requires Valid(p) && p.state.ChunkSize? && p.nread < MAX_HEADER_SIZE && (ch == 59 || ch == 32)
    ensures Valid(p.(state := ChunkParameters, nread := p.nread + 1))
    ensures Step(p, ch) == Outcome(p.(state := ChunkParameters, nread := p.nread + 1), [], Next)
  {}

  /** The parser after the size line of a chunk of `n` bytes; zero announces the end. */
  function AfterSizeLine(p: Parser, n: nat): Parser {
    if n == 0 then p.(nread := 0, contentLength := 0, flags := p.flags.(trailing := true), state := HeaderFieldStart)
    else p.(nread := 0, contentLength := n, state := ChunkData)
  }

  lemma LineEndSteps(p: Parser)
    requires Valid(p) && (p.state.ChunkSize? || p.state.ChunkParameters?) && p.nread + 2 <= MAX_HEADER_SIZE
    ensures var p1 := p.(state := ChunkSizeAlmostDone, nread := p.nread + 1);
      && Step(p, CR) == Outcome(p1, [], Next)
      && Valid(p1) && Step(p1, LF) == Outcome(AfterSizeLine(p, p.contentLength), [ChunkHeader], Next)
  {
    hide EndOfHeaders, AfterHeaders, CompleteMessage, TakeBody, AppendDigit;
  }

  lemma LineEnd(p: Parser)
    requires Valid(p) && (p.state.ChunkSize? || p.state.ChunkParameters?) && p.nread + 2 <= MAX_HEADER_SIZE
    ensures Run(p, [CR, LF]) == Result(AfterSizeLine(p, p.contentLength), [ChunkHeader], 2, Next)
  {
    var p1 := p.(state := ChunkSizeAlmostDone, nread := p.nread + 1);
    hide Run, Step, Valid, AfterSizeLine;
    LineEndSteps(p);
    OneByte(p, CR);
    OneByte(p1, LF);
    Composes(p, [CR], p1, [], [LF]);
    assert [CR] + [LF] == [CR, LF] && [] + [ChunkHeader] == [ChunkHeader];
  }

  lemma SizeLineRun(p: Parser, size: seq<Byte>, ext: seq<Byte>)
    requires Valid(p) && p.state.ChunkSizeStart? && SizeLineOk(size, ext) && HexFrom(0, size) <= MAX_CHUNK_SIZE
    ensures Run(p, SizeLine(size, ext))
         == Result(AfterSizeLine(p, HexFrom(0, size)), [ChunkHeader], |SizeLine(size, ext)|, Next)
  {
    var q := SizeRun(p, size, ext);
    hide Run;
    LineEnd(q);
    Composes(p, size + ext, q, [], [CR, LF]);
    assert [] + [ChunkHeader] == [ChunkHeader];
  }

  /** The CR LF behind a chunk's data. */
  lemma DataEnd(p: Parser)
    requires Valid(p) && p.state.ChunkDataAlmostDone?
    ensures Run(p, [CR, LF]) == Result(p.(state := ChunkSizeStart, nread := 0), [ChunkComplete], 2, Next)
  {
    var p1 := p.(state := ChunkDataDone);
    assert Step(p, CR) == Outcome(p1, [], Next);
    StepKeepsValid(p, CR);
    OneByte(p, CR);
    OneByte(p1, LF);
    Composes(p, [CR], p1, [], [LF]);
    assert [CR] + [LF] == [CR, LF] && [] + [ChunkComplete] == [ChunkComplete];
  }

  /** A whole non-empty chunk: header, its bytes, complete, and ready for the next. */
  lemma ChunkRuns(p: Parser, c: Chunk)
    requires Valid(p) && p.state.ChunkSizeStart? && ChunkOk(c) && 0 < |c.data| <= MAX_CHUNK_SIZE
    ensures Run(p, EncodeChunk(c))
         == Result(p.(contentLength := 0), [ChunkHeader] + Singles(c.data) + [ChunkComplete], |EncodeChunk(c)|, Next)
  {
    var line, es := SizeLine(c.size, c.ext), [ChunkHeader] + Singles(c.data);
    SizeLineRun(p, c.size, c.ext);
    var p1 := AfterSizeLine(p, |c.data|);
    Composes(p, line, p1, [ChunkHeader], c.data);
    ChunkRun(p1, c.data);
    var p2 := p1.(contentLength := 0, state := ChunkDataAlmostDone);
    assert c.data[..|c.data|] == c.data;
    RunNothing(p2, c.data[|c.data|..]);
    NoEvents(Singles(c.data));
    hide Run, Singles;
    assert Run(p, line + c.data) == Result(p2, es, |line + c.data|, Next);
    DataEnd(p2);
    Composes(p, line + c.data, p2, es, [CR, LF]);
  }

  lemma RunNothing(p: Parser, data: seq<Byte>)
    requires Valid(p) && data == []
    ensures Run(p, data) == Result(p, [], 0, Next)
  {}

  /** The callbacks for a list of chunks. */
  function ChunkEvents(cs: seq<Chunk>): seq<Event> {
    if cs == [] then [] else [ChunkHeader] + Singles(cs[0].data) + [ChunkComplete] + ChunkEvents(cs[1..])
  }

  lemma {:induction false} ChunksRun(p: Parser, cs: seq<Chunk>)
    requires Valid(p) && p.state.ChunkSizeStart?
    requires forall c :: c in cs ==> ChunkOk(c) && 0 < |c.data| <= MAX_CHUNK_SIZE
    ensures Run(p, EncodeChunks(cs))
         == Result(if cs == [] then p else p.(contentLength := 0), ChunkEvents(cs), |EncodeChunks(cs)|, Next)
    decreases |cs|
  {
    if cs == [] {
      RunNothing(p, EncodeChunks(cs));
    } else {
      hide Run, EncodeChunk, Singles;
      assert cs[0] in cs;
      ChunkRuns(p, cs[0]);
      var q := p.(contentLength := 0);
      ChunksRun(q, cs[1..]);
      Composes(p, EncodeChunk(cs[0]), q, [ChunkHeader] + Singles(cs[0].data) + [ChunkComplete], EncodeChunks(cs[1..]));
    }
  }

  /** The empty trailer section behind the last chunk: CR LF. */
  lemma TrailerRun(p: Parser)
    requires Valid(p) && p.state.HeaderFieldStart? && p.flags.trailing && p.nread == 0
    ensures var q := p.(state := HeadersAlmostDone, nread := 2);
      Run(p, [CR, LF]) == Result(q.(state := NewMessage(q)), [ChunkComplete, MessageComplete], 2,
          if p.upgrade then Upgraded else Next)
  {
    var p1 := p.(state := HeadersAlmostDone, nread := 1);
    assert Step(p, CR) == Outcome(p1, [], Next);
    StepKeepsValid(p, CR);
    OneByte(p, CR);
    OneByte(p1, LF);
    Composes(p, [CR], p1, [], [LF]);
    assert [CR] + [LF] == [CR, LF];
    assert [] + Step(p1, LF).events == [ChunkComplete, MessageComplete];
  }

  /** The connection goes on behind the message: HTTP/1.1 unless it is closed, others if it is kept. */
  predicate StaysOpen(p: Parser) {
    if p.major == 0 || p.minor == 0 then p.flags.keepAlive else !p.flags.close
  }

  /** Where the parser stands behind a message that can tell its own end. */
  function Behind(p: Parser): State {
    if !StaysOpen(p) then Dead else if p.isRequest then StartReq else StartRes
  }

  /** A chunked body: any non-empty chunks, the zero chunk, empty trailers. */
  function EncodeBody(cs: seq<Chunk>, zero: seq<Byte>, ext: seq<Byte>): seq<Byte> {
    EncodeChunks(cs) + SizeLine(zero, ext) + [CR, LF]
  }

  lemma LeavesBehind(q: Parser, p: Parser)
    requires q.flags.chunked && q.isRequest == p.isRequest && q.major == p.major && q.minor == p.minor
    requires q.flags.close == p.flags.close && q.flags.keepAlive == p.flags.keepAlive
    ensures NewMessage(q) == Behind(p)
  {}

  /** Decoding the chunked encoding of any list of non-empty blocks, with any hex spelling of the sizes
      and any extensions, makes exactly these callbacks and leaves the parser at the next message. */
  lemma ChunkedDecodes(p: Parser, cs: seq<Chunk>, zero: seq<Byte>, ext: seq<Byte>)
    requires Valid(p) && p.state.ChunkSizeStart?
    requires forall c :: c in cs ==> ChunkOk(c) && 0 < |c.data| <= MAX_CHUNK_SIZE
    requires SizeLineOk(zero, ext) && HexFrom(0, zero) == 0
    ensures var r := Run(p, EncodeBody(cs, zero, ext));
      && r.events == ChunkEvents(cs) + [ChunkHeader, ChunkComplete, MessageComplete]
      && r.consumed == |EncodeBody(cs, zero, ext)| && r.exit == (if p.upgrade then Upgraded else Next)
      && r.p.state == Behind(p) && r.p.errno == HpeOk
  {
    ChunksRun(p, cs);
    var q := Run(p, EncodeChunks(cs)).p;
    var last := SizeLine(zero, ext) + [CR, LF];
    hide Run, EncodeChunks, SizeLine, ChunkEvents, NewMessage, ChunkOk;
    LastChunk(q, zero, ext);
    hide SizeLineOk, Valid;
    Composes(p, EncodeChunks(cs), q, ChunkEvents(cs), last);
    assert EncodeChunks(cs) + SizeLine(zero, ext) + [CR, LF] == EncodeChunks(cs) + last;
  }

  /** The chunk of size zero and the end of the trailers. */
  lemma LastChunk(q: Parser, zero: seq<Byte>, ext: seq<Byte>)
    requires Valid(q) && q.state.ChunkSizeStart? && SizeLineOk(zero, ext) && HexFrom(0, zero) == 0
    ensures var r := Run(q, SizeLine(zero, ext) + [CR, LF]);
      && r.events == [ChunkHeader, ChunkComplete, MessageComplete] && r.consumed == |SizeLine(zero, ext)| + 2
      && r.exit == (if q.upgrade then Upgraded else Next) && r.p.state == Behind(q) && r.p.errno == HpeOk
  {
    SizeLineRun(q, zero, ext);
    var q1 := AfterSizeLine(q, 0);
    TrailerRun(q1);
    LeavesBehind(q1.(state := HeadersAlmostDone, nread := 2), q);
    hide Run, SizeLine, NewMessage, SizeLineOk;
    Composes(q, SizeLine(zero, ext), q1, [ChunkHeader], [CR, LF]);
    assert [ChunkHeader] + [ChunkComplete, MessageComplete] == [ChunkHeader, ChunkComplete, MessageComplete];
  }

  /** Where the framing of a chunk is broken the parser stops, in front of the byte and without a callback:
      no digit at the start of a size, something else than a digit, an extension or the end of the line behind
      one, and no CR LF where one has to be. A chunk's data may be any bytes. */
  lemma BrokenChunk(p: Parser, ch: Byte)
    requires Valid(p) && (ParsingHeader(p.state) ==> p.nread < MAX_HEADER_SIZE)
    requires || (p.state.ChunkSizeStart? && !IsHex(ch))
             || (p.state.ChunkSize? && !IsHex(ch) && ch != CR && ch != 59 && ch != 32)
             || (p.state.ChunkSizeAlmostDone? && ch != LF)
             || (p.state.ChunkDataAlmostDone? && ch != CR) || (p.state.ChunkDataDone? && ch != LF)
    ensures var r := Run(p, [ch]);
      && r.exit == Failed && r.consumed == 0 && r.events == []
      && r.p.errno == if p.state.ChunkSizeStart? || p.state.ChunkSize? then InvalidChunkSize else Strict
  {
    var e := if p.state.ChunkSizeStart? || p.state.ChunkSize? then InvalidChunkSize else Strict;
    BrokenStep(p, ch, e);
    hide Step, Valid, IsHex, Run;
    OneByte(p, ch);
  }

  lemma BrokenStep(p: Parser, ch: Byte, e: Errno)
    requires Valid(p) && (ParsingHeader(p.state) ==> p.nread < MAX_HEADER_SIZE)
    requires || (p.state.ChunkSizeStart? && !IsHex(ch) && e == InvalidChunkSize)
             || (p.state.ChunkSize? && !IsHex(ch) && ch != CR && ch != 59 && ch != 32 && e == InvalidChunkSize)
             || (p.state.ChunkSizeAlmostDone? && ch != LF && e == Strict)
             || (p.state.ChunkDataAlmostDone? && ch != CR && e == Strict)
             || (p.state.ChunkDataDone? && ch != LF && e == Strict)
    ensures Step(p, ch) == Fail(Counted(p), e)
  {
    hide EndOfHeaders, AfterHeaders, CompleteMessage, TakeBody, AppendDigit, Unhex;
  }

  // ---------- what those callbacks amount to ----------

  function BodyBytes(es: seq<Event>): seq<Byte> {
    if es == [] then [] else (if es[0].Body? then es[0].bytes else []) + BodyBytes(es[1..])
  }

  function Count(es: seq<Event>, e: Event): nat {
    if es == [] then 0 else (if es[0] == e then 1 else 0) + Count(es[1..], e)
  }

  function Content(cs: seq<Chunk>): seq<Byte> {
    if cs == [] then [] else cs[0].data + Content(cs[1..])
  }

  lemma {:induction false} EventsAppend(a: seq<Event>, b: seq<Event>, e: Event)
    ensures BodyBytes(a + b) == BodyBytes(a) + BodyBytes(b)
    ensures Count(a + b, e) == Count(a, e) + Count(b, e)
    decreases |a|
  {
    if a == [] {
      assert a + b == b;
    } else {
      EventsAppend(a[1..], b, e);
      assert (a + b)[0] == a[0] && (a + b)[1..] == a[1..] + b;
    }
  }

  lemma {:induction false} SinglesAmount(bytes: seq<Byte>, e: Event)
    requires !e.Body?
    ensures BodyBytes(Singles(bytes)) == bytes && Count(Singles(bytes), e) == 0
    decreases |bytes|
  {
    if bytes != [] {
      SinglesAmount(bytes[1..], e);
      assert Singles(bytes)[1..] == Singles(bytes[1..]);
    }
  }

  /** The body bytes handed out are the concatenation of the blocks; there is one chunk_header and one
      chunk_complete a block and one of each for the zero chunk, and message_complete comes once, last. */
  lemma {:induction false} ChunkEventsAmount(cs: seq<Chunk>, e: Event)
    requires e == ChunkHeader || e == ChunkComplete
    ensures BodyBytes(ChunkEvents(cs)) == Content(cs)
    ensures Count(ChunkEvents(cs), e) == |cs| && Count(ChunkEvents(cs), MessageComplete) == 0
    decreases |cs|
  {
    if cs != [] {
      ChunkEventsAmount(cs[1..], e);
      var a, b := [ChunkHeader] + Singles(cs[0].data), [ChunkComplete];
      SinglesAmount(cs[0].data, e);
      SinglesAmount(cs[0].data, MessageComplete);
      OneEvent(ChunkHeader, e);
      OneEvent(ChunkComplete, e);
      OneEvent(ChunkHeader, MessageComplete);
      OneEvent(ChunkComplete, MessageComplete);
      hide Singles, BodyBytes, Count;
      EventsAppend([ChunkHeader], Singles(cs[0].data), e);
      EventsAppend([ChunkHeader], Singles(cs[0].data), MessageComplete);
      EventsAppend(a, b, e);
      EventsAppend(a, b, MessageComplete);
      EventsAppend(a + b, ChunkEvents(cs[1..]), e);
      EventsAppend(a + b, ChunkEvents(cs[1..]), MessageComplete);
    }
  }

  lemma OneEvent(e: Event, f: Event)
    ensures Count([e], f) == if e == f then 1 else 0
    ensures BodyBytes([e]) == if e.Body? then e.bytes else []
  {
    assert [e][1..] == [];
  }
}
