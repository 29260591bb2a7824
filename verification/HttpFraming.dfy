/** How the end of the headers frames the body: by its length, in chunks, up to the end of file, or not at all. */
module HttpFraming {
  import opened Bytes
  import opened HttpBody
  import opened HttpExecute
  import opened HttpMessages

  /** In front of the LF that ends the headers of a message, which is within the header limit. */
  predicate AtHeadersEnd(p: Parser) {
    Valid(p) && p.state.HeadersAlmostDone? && !p.flags.trailing && p.nread < MAX_HEADER_SIZE
  }

  /** Whether another protocol follows the message: asked for by both headers (a response has to be a 101),
      or by the method CONNECT. */
  predicate Upgrades(p: Parser) {
    if p.flags.upgrade && p.flags.connectionUpgrade then p.isRequest || p.status == 101 else p.isConnect
  }

  /** A response for which nothing says where its body ends. */
  predicate EndsAtEof(p: Parser) {
    && !p.isRequest && !p.flags.skipBody && !p.flags.chunked && p.contentLength == ULLONG_MAX
    && !(100 <= p.status < 200) && p.status != 204 && p.status != 304
  }

  /** What an LF does there: nothing is said of the body yet but how it is framed. */
  lemma LineFeed(p: Parser)
    requires AtHeadersEnd(p) && !(p.flags.chunked && p.flags.contentLength)
    ensures var o := Step(p, LF); var q := p.(nread := 0, upgrade := Upgrades(p), state := o.p.state);
      && o.p == q
      && (if p.flags.skipBody || (Upgrades(p) && p.isConnect)
              || (!p.flags.chunked && (p.contentLength == 0
                  || (p.contentLength == ULLONG_MAX && (Upgrades(p) || !EndsAtEof(p)))))
          then && o.events == [HeadersComplete, MessageComplete] && o.exit == (if Upgrades(p) then Upgraded else Next)
               && q.state == (if EndsAtEof(p) then Dead else Behind(p))
          else && o.events == [HeadersComplete] && o.exit == Next
               && q.state == (if p.flags.chunked then ChunkSizeStart
                              else if p.contentLength == ULLONG_MAX then BodyIdentityEof else BodyIdentity))
  {}

  lemma LineFeedRun(p: Parser, data: seq<Byte>)
    requires AtHeadersEnd(p) && Step(p, LF).exit == Next
    ensures var o := Step(p, LF);
      Valid(o.p) && Run(p, [LF] + data) == Then(o.events, 1, Run(o.p, data))
  {
    assert ([LF] + data)[1..] == data;
    hide Step, Valid;
    StepKeepsValid(p, LF);
    RunNext(p, [LF] + data);
  }

  /** The message has a length and is neither chunked nor without a body: behind the headers come exactly
      that many body bytes and one message_complete, and with fewer bytes there is none. */
  lemma LengthMessage(p: Parser, data: seq<Byte>)
    requires AtHeadersEnd(p) && !p.flags.chunked && !p.flags.skipBody && !(Upgrades(p) && p.isConnect)
    requires 0 < p.contentLength < ULLONG_MAX && |data| <= p.contentLength
    ensures var r := Run(p, [LF] + data);
      if |data| < p.contentLength
      then r == Result(p.(nread := 0, upgrade := Upgrades(p), state := BodyIdentity,
                          contentLength := p.contentLength - |data|),
                       [HeadersComplete] + Singles(data), |data| + 1, Next)
      else r == Result(p.(nread := 0, upgrade := Upgrades(p), state := Behind(p), contentLength := 0),
                       [HeadersComplete] + Singles(data) + [MessageComplete], |data| + 1,
                       if Upgrades(p) then Upgraded else Next)
  {
    LineFeed(p);
    LineFeedRun(p, data);
    var q := Step(p, LF).p;
    hide Step, Valid;
    if |data| < p.contentLength {
      IdentityGoesOn(q, data);
    } else {
      IdentityEnds(q, data);
      Associates([HeadersComplete], Singles(data), [MessageComplete]);
    }
  }

  lemma IdentityGoesOn(q: Parser, data: seq<Byte>)
    requires Valid(q) && q.state.BodyIdentity? && |data| < q.contentLength
    ensures Run(q, data) == Result(q.(contentLength := q.contentLength - |data|), Singles(data), |data|, Next)
  {
    hide Singles, Run, Valid;
    BodyRun(q, data, |data|);
    assert data[..|data|] == data;
    RunNothing(Fed(q, |data|), data[|data|..]);
    NoEvents(Singles(data));
  }

  lemma IdentityEnds(q: Parser, data: seq<Byte>)
    requires Valid(q) && q.state.BodyIdentity? && |data| == q.contentLength
    ensures Run(q, data) == Result(q.(contentLength := 0, state := Behind(q)), Singles(data) + [MessageComplete],
        |data|,
        if q.upgrade then Upgraded else Next)
  {
    hide Singles, Run;
    IdentityRun(q, data);
    var d := q.(contentLength := 0, state := MessageDone);
    CompletesOnce(d);
    assert NewMessage(d) == Behind(q);
    assert data[..|data|] == data;
    RunNothing(CompleteMessage(d).p, data[|data|..]);
    NoEvents(Singles(data) + [MessageComplete]);
  }

  /** A chunked message is decoded as its chunks, whatever content_length holds. */
  lemma ChunkedMessage(p: Parser, cs: seq<Chunk>, zero: seq<Byte>, ext: seq<Byte>)
    requires AtHeadersEnd(p) && p.flags.chunked && !p.flags.contentLength && !p.flags.skipBody
    requires !(Upgrades(p) && p.isConnect)
    requires forall c :: c in cs ==> ChunkOk(c) && 0 < |c.data| <= MAX_CHUNK_SIZE
    requires SizeLineOk(zero, ext) && HexFrom(0, zero) == 0
    ensures var r := Run(p, [LF] + EncodeBody(cs, zero, ext));
      && r.events == [HeadersComplete] + ChunkEvents(cs) + [ChunkHeader, ChunkComplete, MessageComplete]
      && r.consumed == 1 + |EncodeBody(cs, zero, ext)| && r.exit == (if Upgrades(p) then Upgraded else Next)
      && r.p.state == Behind(p) && r.p.errno == HpeOk
  {
    LineFeed(p);
    LineFeedRun(p, EncodeBody(cs, zero, ext));
    hide Step, Valid, Run, EncodeBody, ChunkOk;
    ChunkedDecodes(Step(p, LF).p, cs, zero, ext);
    Associates([HeadersComplete], ChunkEvents(cs), [ChunkHeader, ChunkComplete, MessageComplete]);
  }

  /** The message has no body: it is to be skipped, its length is 0, nothing is said of one and it is a
      request or a response that has none, or another protocol follows at once. It completes with its headers. */
  lemma EmptyMessage(p: Parser)
    requires AtHeadersEnd(p) && !(p.flags.chunked && p.flags.contentLength)
    requires p.flags.skipBody || (Upgrades(p) && p.isConnect)
      || (!p.flags.chunked && (p.contentLength == 0
          || (p.contentLength == ULLONG_MAX && (Upgrades(p) || !EndsAtEof(p)))))
    ensures Run(p, [LF]) == Result(p.(nread := 0, upgrade := Upgrades(p), state := if EndsAtEof(p) then Dead
        else Behind(p)),
        [HeadersComplete, MessageComplete], 1, if Upgrades(p) then Upgraded else Next)
  {
    LineFeed(p);
    hide Step, Valid;
    OneByte(p, LF);
  }

  /** Only a response that needs the end of file to end takes all bytes as body. */
  lemma EofMessage(p: Parser, data: seq<Byte>)
    requires AtHeadersEnd(p) && EndsAtEof(p) && !Upgrades(p)
    ensures Run(p, [LF] + data) == Result(p.(nread := 0, upgrade := false, state := BodyIdentityEof),
        [HeadersComplete] + Singles(data), |data| + 1, Next)
  {
    LineFeed(p);
    LineFeedRun(p, data);
    var q := Step(p, LF).p;
    hide Step, Run, Singles;
    BodyRun(q, data, |data|);
    assert data[..|data|] == data;
    RunNothing(q, data[|data|..]);
    NoEvents(Singles(data));
  }

  /** Both framings at once are refused, and so is anything but an LF; nothing is called then. */
  lemma RefusedHeaders(p: Parser, ch: Byte)
    requires AtHeadersEnd(p) && (ch != LF || (p.flags.chunked && p.flags.contentLength))
    ensures var r := Run(p, [ch]);
      && r.exit == Failed && r.consumed == 0 && r.events == []
      && r.p.errno == if ch != LF then Strict else UnexpectedContentLength
  {
    OneByte(p, ch);
  }

  /** A bare LF ends the headers like CR LF. */
  lemma BareLineFeed(p: Parser)
    requires Valid(p) && p.state.HeaderFieldStart? && !p.flags.trailing && p.nread + 2 <= MAX_HEADER_SIZE
    requires !(p.flags.chunked && p.flags.contentLength)
    ensures var r := Run(p, [CR, LF]); Run(p, [LF]) == r.(consumed := 1) && r.consumed == 2
  {
    var q := p.(state := HeadersAlmostDone, nread := p.nread + 1);
    BareSteps(p);
    hide Step, Valid;
    OneByte(p, CR);
    OneByte(p, LF);
    OneByte(q, LF);
    Composes(p, [CR], q, [], [LF]);
    assert [CR] + [LF] == [CR, LF];
    assert [] + Run(q, [LF]).events == Run(q, [LF]).events;
  }

  lemma BareSteps(p: Parser)
    requires Valid(p) && p.state.HeaderFieldStart? && !p.flags.trailing && p.nread + 2 <= MAX_HEADER_SIZE
    requires !(p.flags.chunked && p.flags.contentLength)
    ensures var q := p.(state := HeadersAlmostDone, nread := p.nread + 1);
      && Step(p, CR) == Outcome(q, [], Next) && Valid(q)
      && Step(p, LF) == Step(q, LF) && (Step(q, LF).exit == Next || Step(q, LF).exit == Upgraded)
  {
    hide NewMessage, NeedsEof, TakeBody, AppendDigit, Unhex;
  }

  /** Between messages CR and LF are skipped. Anything else belongs to the next message, and is an error when the
      connection is not to go on. */
  lemma BetweenMessages(p: Parser, ch: Byte)
    requires Valid(p) && (p.state.Dead? || p.state.StartReq? || p.state.StartRes?) && p.nread < MAX_HEADER_SIZE
    ensures Run(p, [ch]) ==
      if ch == 13 || ch == 10 then Result(p.(nread := p.nread + 1), [], 1, Next)
      else if p.state.Dead? then Result(p.(nread := p.nread + 1, errno := ClosedConnection), [], 0, Failed)
      else Result(p, [], 0, Left)
  {
    BetweenStep(p, ch);
    hide Step, Valid;
    OneByte(p, ch);
  }

  lemma BetweenStep(p: Parser, ch: Byte)
    requires Valid(p) && (p.state.Dead? || p.state.StartReq? || p.state.StartRes?) && p.nread < MAX_HEADER_SIZE
    ensures Step(p, ch) ==
      if ch == 13 || ch == 10 then Outcome(p.(nread := p.nread + 1), [], Next)
      else if p.state.Dead? then Outcome(p.(nread := p.nread + 1, errno := ClosedConnection), [], Failed)
      else Outcome(p, [], Left)
  {
    hide EndOfHeaders, AfterHeaders, CompleteMessage, TakeBody, AppendDigit, Unhex;
  }

  /** The header limit is 80 KiB: the parser takes as many bytes as it leaves room for, here of a chunk extension,
      and stops in front of the next. */
  lemma {:induction false} HeaderLimit(p: Parser, ext: seq<Byte>)
    requires Valid(p) && p.state.ChunkParameters? && CR !in ext
    ensures var r := Run(p, ext);
      if p.nread + |ext| <= 81920 then r == Result(p.(nread := p.nread + |ext|), [], |ext|, Next)
      else r.exit == Failed && r.p.errno == HeaderOverflow && r.consumed == 81920 - p.nread && r.events == []
    decreases |ext|
  {
    if ext != [] {
      var q := p.(nread := p.nread + 1);
      ExtensionStep(p, ext[0]);
      hide Step, Run;
      if p.nread < 81920 {
        RunNext(p, ext);
        HeaderLimit(q, ext[1..]);
        hide Valid;
        assert [] + Run(q, ext[1..]).events == Run(q, ext[1..]).events;
      } else {
        hide Valid;
        RunFails(p, ext);
      }
    } else {
      RunNothing(p, ext);
    }
  }

  lemma ExtensionStep(p: Parser, ch: Byte)
    requires Valid(p) && p.state.ChunkParameters? && ch != CR
    ensures Step(p, ch) ==
      if p.nread < 81920 then Outcome(p.(nread := p.nread + 1), [], Next)
      else Outcome(p.(nread := p.nread + 1, errno := HeaderOverflow), [], Failed)
  {
    hide EndOfHeaders, AfterHeaders, CompleteMessage, TakeBody, AppendDigit, Unhex;
  }
}
