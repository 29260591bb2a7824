/** http_parser_execute from the end of the headers on, one byte at a time (strict mode, callbacks return 0). */
module HttpBody {
  import opened Bytes
  import opened Numbers

  const CR: Byte := 13
  const LF: Byte := 10
  const ULLONG_MAX := TWO_64 - 1
  const MAX_HEADER_SIZE := 80 * 1024

  /** `Dead` and the `Start` states belong to the next message; leaving them, or reading a trailer
      field, hands over to the header code, which is not part of this model. */
  datatype State =
    | Dead | StartReq | StartRes
    | HeaderFieldStart | HeadersAlmostDone | HeadersDone
    | ChunkSizeStart | ChunkSize | ChunkParameters | ChunkSizeAlmostDone
    | ChunkData | ChunkDataAlmostDone | ChunkDataDone
    | BodyIdentity | BodyIdentityEof | MessageDone

  datatype Errno =
    | HpeOk | InvalidEofState | HeaderOverflow | ClosedConnection | InvalidContentLength
    | UnexpectedContentLength | InvalidChunkSize | Strict

  datatype Flags = Flags(chunked: bool, keepAlive: bool, close: bool, connectionUpgrade: bool,
                         trailing: bool, upgrade: bool, skipBody: bool, contentLength: bool)

  datatype Parser = Parser(state: State, flags: Flags, contentLength: nat, nread: nat, errno: Errno,
                           upgrade: bool, isRequest: bool, isConnect: bool, status: nat, major: nat, minor: nat)

  datatype Event = Body(bytes: seq<Byte>) | HeadersComplete | ChunkHeader | ChunkComplete | MessageComplete

  /** PARSING_HEADER: the states whose bytes are counted against the header size. */
  predicate ParsingHeader(s: State) {
    !s.ChunkData? && !s.ChunkDataAlmostDone? && !s.ChunkDataDone? && !s.BodyIdentity? && !s.BodyIdentityEof?
        && !s.MessageDone?
  }

  /** http_message_needs_eof */
  predicate NeedsEof(p: Parser) {
    && !p.isRequest
    && p.status / 100 != 1 && p.status != 204 && p.status != 304 && !p.flags.skipBody
    && !p.flags.chunked && p.contentLength == ULLONG_MAX
  }

  /** http_should_keep_alive */
  predicate ShouldKeepAlive(p: Parser) {
    && (if p.major > 0 && p.minor > 0 then !p.flags.close else p.flags.keepAlive)
    && !NeedsEof(p)
  }

  /** NEW_MESSAGE in strict mode. */
  function NewMessage(p: Parser): (s: State)
    ensures s.Dead? || s.StartReq? || s.StartRes?
  {
    if !ShouldKeepAlive(p) then Dead else if p.isRequest then StartReq else StartRes
  }

  function Unhex(ch: Byte): int {
    if 48 <= ch <= 57 then ch - 48
    else if 65 <= ch <= 70 then ch - 55
    else if 97 <= ch <= 102 then ch - 87
    else -1
  }

  /** `t = n * base + digit` in uint64 arithmetic. */
  function AppendDigit(n: nat, base: nat, digit: nat): (t: nat)
    ensures n * base + digit < TWO_64 ==> t == n * base + digit
  {
    (n * base + digit) % TWO_64
  }

  /** The guard before a hex digit keeps the size off the wrap and off the no-length sentinel. */
  lemma HexGuard(n: nat, digit: nat)
    requires !((ULLONG_MAX - 16) / 16 < n) && digit < 16
    ensures AppendDigit(n, 16, digit) == n * 16 + digit < ULLONG_MAX - 15
  {}

  /** How the switch ends: on to the next byte, out after this byte because the rest is another
      protocol, an error at this byte, or this byte is for the header code. */
  datatype Exit = Next | Upgraded | Failed | Left

  datatype Outcome = Outcome(p: Parser, events: seq<Event>, exit: Exit)

  function Fail(p: Parser, e: Errno): Outcome {
    Outcome(p.(errno := e), [], Failed)
  }

  function Go(p: Parser, s: State): Outcome {
    Outcome(p.(state := s), [], Next)
  }

  /** s_message_done */
  function CompleteMessage(p: Parser): Outcome {
    Outcome(p.(state := NewMessage(p)), [MessageComplete], if p.upgrade then Upgraded else Next)
  }

  /** s_headers_done */
  function AfterHeaders(p: Parser, ch: Byte): Outcome {
    if ch != LF then Fail(p, Strict)
    else
      var q := p.(nread := 0);
      var hasBody := q.flags.chunked || (q.contentLength > 0 && q.contentLength != ULLONG_MAX);
      if q.upgrade && (q.isConnect || q.flags.skipBody || !hasBody) then
        Outcome(q.(state := NewMessage(q)), [MessageComplete], Upgraded)
      else if q.flags.skipBody then Outcome(q.(state := NewMessage(q)), [MessageComplete], Next)
      else if q.flags.chunked then Go(q, ChunkSizeStart)
      else if q.contentLength == 0 then Outcome(q.(state := NewMessage(q)), [MessageComplete], Next)
      else if q.contentLength != ULLONG_MAX then Go(q, BodyIdentity)
      else if !NeedsEof(q) then Outcome(q.(state := NewMessage(q)), [MessageComplete], Next)
      else Go(q, BodyIdentityEof)
  }

  /** s_headers_almost_done; both its ways on reexecute the same byte. */
  function EndOfHeaders(p: Parser, ch: Byte): Outcome {
    if ch != LF then Fail(p, Strict)
    else if p.flags.trailing then
      var o := CompleteMessage(p);
      o.(events := [ChunkComplete] + o.events)
    else if p.flags.chunked && p.flags.contentLength then Fail(p, UnexpectedContentLength)
    else
      var up := if p.flags.upgrade && p.flags.connectionUpgrade then p.isRequest || p.status == 101 else p.isConnect;
      var o := AfterHeaders(p.(state := HeadersDone, upgrade := up), ch);
      o.(events := [HeadersComplete] + o.events)
  }

  /** The switch, for every state but the three that take body bytes. */
  function Switch(p: Parser, ch: Byte): Outcome
    requires !p.state.ChunkData? && !p.state.BodyIdentity? && !p.state.BodyIdentityEof?
  {
    match p.state
    case Dead => if ch == CR || ch == LF then Go(p, Dead) else Fail(p, ClosedConnection)
    case StartReq => if ch == CR || ch == LF then Go(p, StartReq) else Outcome(p, [], Left)
    case StartRes => if ch == CR || ch == LF then Go(p, StartRes) else Outcome(p, [], Left)
    case HeaderFieldStart =>
      if ch == CR then Go(p, HeadersAlmostDone)
      else if ch == LF then EndOfHeaders(p.(state := HeadersAlmostDone), ch)
      else Outcome(p, [], Left)
    case HeadersAlmostDone => EndOfHeaders(p, ch)
    case HeadersDone => AfterHeaders(p, ch)
    case ChunkSizeStart =>
      if Unhex(ch) == -1 then Fail(p, InvalidChunkSize) else Go(p.(contentLength := Unhex(ch)), ChunkSize)
    case ChunkSize =>
      if ch == CR then Go(p, ChunkSizeAlmostDone)
      else if Unhex(ch) == -1 then
        if ch == 59 || ch == 32 then Go(p, ChunkParameters) else Fail(p, InvalidChunkSize)
      else if (ULLONG_MAX - 16) / 16 < p.contentLength then Fail(p, InvalidContentLength)
      else Go(p.(contentLength := AppendDigit(p.contentLength, 16, Unhex(ch))), ChunkSize)
    case ChunkParameters => Go(p, if ch == CR then ChunkSizeAlmostDone else ChunkParameters)
    case ChunkSizeAlmostDone =>
      if ch != LF then Fail(p, Strict)
      else
        var q := p.(nread := 0);
        Outcome(if q.contentLength == 0 then q.(flags := q.flags.(trailing := true), state := HeaderFieldStart)
                else q.(state := ChunkData),
                [ChunkHeader], Next)
    case ChunkDataAlmostDone => if ch != CR then Fail(p, Strict) else Go(p, ChunkDataDone)
    case ChunkDataDone =>
      if ch != LF then Fail(p, Strict) else Outcome(p.(nread := 0, state := ChunkSizeStart), [ChunkComplete], Next)
    case MessageDone => CompleteMessage(p)
  }

  /** One body byte. The last byte of an identity body also completes the message. */
  function TakeBody(p: Parser, ch: Byte): Outcome
    requires p.state.BodyIdentityEof? || ((p.state.ChunkData? || p.state.BodyIdentity?) && p.contentLength > 0)
  {
    if p.state.BodyIdentityEof? then Outcome(p, [Body([ch])], Next)
    else
      var q := p.(contentLength := p.contentLength - 1);
      if q.contentLength > 0 then Outcome(q, [Body([ch])], Next)
      else if p.state.ChunkData? then Outcome(q.(state := ChunkDataAlmostDone), [Body([ch])], Next)
      else
        var o := CompleteMessage(q.(state := MessageDone));
        o.(events := [Body([ch])] + o.events)
  }

  /** What the parser's assertions demand in each state, and what makes them hold. */
  predicate Valid(p: Parser) {
    && p.contentLength <= ULLONG_MAX
    && p.nread <= MAX_HEADER_SIZE
    && p.errno == HpeOk
    && (p.state.BodyIdentity? || p.state.ChunkData? ==> 0 < p.contentLength < ULLONG_MAX)
    && (p.state in {ChunkSizeStart, ChunkSize, ChunkParameters, ChunkSizeAlmostDone, ChunkData, ChunkDataAlmostDone,
        ChunkDataDone}
        ==> p.flags.chunked)
    && (p.state in {ChunkSize, ChunkParameters, ChunkSizeAlmostDone} ==> p.contentLength < ULLONG_MAX - 15)
    && (p.state.ChunkSizeStart? ==> p.nread == 0)
    && (p.state.ChunkDataAlmostDone? ==> p.contentLength == 0)
  }

  /** COUNT_HEADER_SIZE(1) */
  function Counted(p: Parser): Parser {
    if ParsingHeader(p.state) then p.(nread := p.nread + 1) else p
  }

  /** One byte of the main loop. A byte left to the header code is not counted here. */
  function Step(p: Parser, ch: Byte): Outcome
    requires Valid(p)
  {
    var q := Counted(p);
    if q.nread > MAX_HEADER_SIZE then Fail(q, HeaderOverflow)
    else if p.state.ChunkData? || p.state.BodyIdentity? || p.state.BodyIdentityEof? then TakeBody(q, ch)
    else
      var o := Switch(q, ch);
      if o.exit == Left then o.(p := p) else o
  }

  /** What a well-behaved end of a step is. */
  predicate Sound(o: Outcome) {
    (o.exit == Failed <==> o.p.errno != HpeOk) && (o.exit != Failed ==> Valid(o.p))
  }

  predicate Basic(p: Parser) {
    p.contentLength <= ULLONG_MAX && p.nread <= MAX_HEADER_SIZE && p.errno == HpeOk
  }

  lemma CompleteMessageSound(p: Parser)
    requires Basic(p)
    ensures Sound(CompleteMessage(p))
  {}

  lemma AfterHeadersSound(p: Parser, ch: Byte)
    requires Basic(p)
    ensures Sound(AfterHeaders(p, ch))
  {}

  lemma EndOfHeadersSound(p: Parser, ch: Byte)
    requires Basic(p)
    ensures Sound(EndOfHeaders(p, ch))
  {
    hide AfterHeaders, Sound, NewMessage;
    CompleteMessageSound(p);
    var up := if p.flags.upgrade && p.flags.connectionUpgrade then p.isRequest || p.status == 101 else p.isConnect;
    AfterHeadersSound(p.(state := HeadersDone, upgrade := up), ch);
    assert Sound(Fail(p, Strict)) && Sound(Fail(p, UnexpectedContentLength)) by { FailSound(p); }
    SoundWithEvents(CompleteMessage(p), [ChunkComplete]);
    SoundWithEvents(AfterHeaders(p.(state := HeadersDone, upgrade := up), ch), [HeadersComplete]);
  }

  lemma FailSound(p: Parser)
    ensures forall e :: e != HpeOk ==> Sound(Fail(p, e))
  {}

  lemma SoundWithEvents(o: Outcome, es: seq<Event>)
    requires Sound(o)
    ensures Sound(o.(events := es + o.events))
  {}

  predicate ChunkState(s: State) {
    s.ChunkSizeStart? || s.ChunkSize? || s.ChunkParameters? || s.ChunkSizeAlmostDone? || s.ChunkDataAlmostDone?
        || s.ChunkDataDone?
  }

  lemma ChunkSound(p: Parser, ch: Byte)
    requires Valid(p) && ChunkState(p.state) && Counted(p).nread <= MAX_HEADER_SIZE
    ensures Sound(Switch(Counted(p), ch))
  {
    hide EndOfHeaders, AfterHeaders, CompleteMessage, AppendDigit;
    if p.state.ChunkSize? && Unhex(ch) != -1 && !((ULLONG_MAX - 16) / 16 < p.contentLength) {
      HexGuard(p.contentLength, Unhex(ch));
    }
  }

  lemma OtherSound(p: Parser, ch: Byte)
    requires Valid(p) && !ChunkState(p.state) && !p.state.ChunkData? && !p.state.BodyIdentity?
    requires !p.state.BodyIdentityEof?
    requires Counted(p).nread <= MAX_HEADER_SIZE
    ensures Switch(Counted(p), ch).exit == Left || Sound(Switch(Counted(p), ch))
  {
    hide EndOfHeaders, AfterHeaders, CompleteMessage;
    var q := Counted(p);
    EndOfHeadersSound(q, ch);
    EndOfHeadersSound(q.(state := HeadersAlmostDone), ch);
    AfterHeadersSound(q, ch);
    CompleteMessageSound(q);
  }

  lemma BodySound(p: Parser, ch: Byte)
    requires Valid(p) && (p.state.ChunkData? || p.state.BodyIdentity? || p.state.BodyIdentityEof?)
    ensures Sound(TakeBody(p, ch))
  {
    hide CompleteMessage;
    if p.state.BodyIdentity? {
      var r := p.(contentLength := p.contentLength - 1, state := MessageDone);
      CompleteMessageSound(r);
      SoundWithEvents(CompleteMessage(r), [Body([ch])]);
    }
  }

  /** Every step that goes on keeps the assertions of the next state true: the overflow guards keep
      content_length off both the uint64 wrap and the no-length sentinel. */
  lemma StepKeepsValid(p: Parser, ch: Byte)
    requires Valid(p)
    ensures Sound(Step(p, ch))
    ensures p.state.ChunkSizeStart? ==> Counted(p).nread == 1
  {
    hide Switch, TakeBody;
    if Counted(p).nread <= MAX_HEADER_SIZE {
      if p.state.ChunkData? || p.state.BodyIdentity? || p.state.BodyIdentityEof? {
        BodySound(p, ch);
      } else if ChunkState(p.state) {
        ChunkSound(p, ch);
      } else {
        OtherSound(p, ch);
      }
    }
  }

  // ---------- runs ----------

  /** State, callbacks, bytes consumed and how the call ended. */
  datatype Result = Result(p: Parser, events: seq<Event>, consumed: nat, exit: Exit)

  function Then(events: seq<Event>, n: nat, r: Result): Result {
    Result(r.p, events + r.events, n + r.consumed, r.exit)
  }

  function Run(p: Parser, data: seq<Byte>): (r: Result)
    requires Valid(p)
    ensures r.consumed <= |data|
    ensures r.exit != Failed ==> Valid(r.p)
    ensures r.exit == Next ==> r.consumed == |data|
    decreases |data|
  {
    if data == [] then Result(p, [], 0, Next)
    else
      var o := Step(p, data[0]);
      StepKeepsValid(p, data[0]);
      match o.exit
      case Next => Then(o.events, 1, Run(o.p, data[1..]))
      case Upgraded => Result(o.p, o.events, 1, Upgraded)
      case _ => Result(o.p, o.events, 0, o.exit)
  }

  lemma {:induction false} RunAppend(p: Parser, a: seq<Byte>, b: seq<Byte>)
    requires Valid(p)
    ensures var r := Run(p, a); Run(p, a + b) == if r.exit == Next then Then(r.events, r.consumed, Run(r.p, b)) else r
    decreases |a|
  {
    if a == [] {
      assert a + b == b;
      assert [] + Run(p, b).events == Run(p, b).events;
    } else {
      var o := Step(p, a[0]);
      StepKeepsValid(p, a[0]);
      assert (a + b)[0] == a[0] && (a + b)[1..] == a[1..] + b;
      if o.exit == Next {
        RunAppend(o.p, a[1..], b);
        var r := Run(o.p, a[1..]);
        if r.exit == Next {
          assert o.events + (r.events + Run(r.p, b).events) == o.events + r.events + Run(r.p, b).events;
        }
      }
    }
  }
}
