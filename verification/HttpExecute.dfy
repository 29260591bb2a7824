/** The main loop of http_parser_execute with its body mark and bulk skips, against the one-byte step. */
module HttpExecute {
  import opened Bytes
  import opened HttpBody

  /** Body callbacks cut into single bytes. */
  function Singles(bytes: seq<Byte>): (es: seq<Event>)
    ensures |es| == |bytes| && forall i :: 0 <= i < |bytes| ==> es[i] == Body([bytes[i]])
  {
    seq(|bytes|, i requires 0 <= i < |bytes| => Body([bytes[i]]))
  }

  /** The log with every body callback cut into single bytes: what a log says up to how the body was cut. */
  function Flatten(log: seq<Event>): seq<Event> {
    if log == [] then []
    else (if log[0].Body? then Singles(log[0].bytes) else [log[0]]) + Flatten(log[1..])
  }

  lemma {:induction false} FlattenAppend(a: seq<Event>, b: seq<Event>)
    ensures Flatten(a + b) == Flatten(a) + Flatten(b)
  {
    if a == [] {
      assert a + b == b;
    } else {
      FlattenAppend(a[1..], b);
      assert (a + b)[1..] == a[1..] + b && (a + b)[0] == a[0];
    }
  }

  lemma FlattenOne(e: Event)
    ensures Flatten([e]) == if e.Body? then Singles(e.bytes) else [e]
  {
    assert [e][1..] == [];
  }

  lemma SinglesAppend(a: seq<Byte>, b: seq<Byte>)
    ensures Singles(a + b) == Singles(a) + Singles(b)
  {}

  lemma RunNext(p: Parser, data: seq<Byte>)
    requires Valid(p) && data != []
    ensures var o := Step(p, data[0]);
      o.exit == Next ==> Valid(o.p) && Run(p, data) == Then(o.events, 1, Run(o.p, data[1..]))
  {
    StepKeepsValid(p, data[0]);
  }

  predicate BodyState(s: State) {
    s.ChunkData? || s.BodyIdentity? || s.BodyIdentityEof?
  }

  /** The parser after `k` body bytes that do not finish the body. */
  function Fed(p: Parser, k: nat): Parser
    requires p.state.BodyIdentityEof? || k <= p.contentLength
  {
    if p.state.BodyIdentityEof? then p else p.(contentLength := p.contentLength - k)
  }

  predicate Unfinished(p: Parser, k: nat) {
    BodyState(p.state) && (p.state.BodyIdentityEof? || k < p.contentLength)
  }

  lemma StepInBody(p: Parser, ch: Byte)
    requires Valid(p) && Unfinished(p, 1)
    ensures Step(p, ch) == Outcome(Fed(p, 1), [Body([ch])], Next)
  {}

  lemma FedTwice(p: Parser, k: nat)
    requires 0 < k && Unfinished(p, k)
    ensures Unfinished(p, 1) && Unfinished(Fed(p, 1), k - 1) && Fed(Fed(p, 1), k - 1) == Fed(p, k)
  {}

  /** A run over body bytes that do not finish the body is a plain copy of them. */
  lemma {:induction false} BodyRun(p: Parser, data: seq<Byte>, k: nat)
    requires Valid(p) && k <= |data| && Unfinished(p, k)
    ensures Valid(Fed(p, k)) && Run(p, data) == Then(Singles(data[..k]), k, Run(Fed(p, k), data[k..]))
    decreases k
  {
    if k == 0 {
      assert data[0..] == data && Singles(data[..0]) == [];
      assert [] + Run(p, data).events == Run(p, data).events;
    } else {
      hide Run, Step, Singles;
      RunNext(p, data);
      StepInBody(p, data[0]);
      FedTwice(p, k);
      hide Valid, Fed, Unfinished;
      BodyRun(Fed(p, 1), data[1..], k - 1);
      assert data[1..][k - 1..] == data[k..];
      CopyOne(data, k, Run(Fed(p, k), data[k..]));
    }
  }

  lemma CopyOne(data: seq<Byte>, k: nat, r: Result)
    requires 0 < k <= |data|
    ensures Then([Body([data[0]])], 1, Then(Singles(data[1..][..k - 1]), k - 1, r)) == Then(Singles(data[..k]), k, r)
  {
    assert data[..k] == [data[0]] + data[1..][..k - 1];
    SinglesAppend([data[0]], data[1..][..k - 1]);
    assert Singles([data[0]]) == [Body([data[0]])];
    assert [Body([data[0]])] + (Singles(data[1..][..k - 1]) + r.events) == Singles(data[..k]) + r.events;
  }

  lemma ThenThen(a: seq<Event>, n: nat, b: seq<Event>, m: nat, r: Result)
    ensures Then(a, n, Then(b, m, r)) == Then(a + b, n + m, r)
  {
    assert a + (b + r.events) == a + b + r.events;
  }

  /** Taking the last body byte of a chunk. */
  lemma ChunkRun(p: Parser, data: seq<Byte>)
    requires Valid(p) && p.state.ChunkData? && p.contentLength <= |data|
    ensures var k := p.contentLength; var q := p.(contentLength := 0, state := ChunkDataAlmostDone);
      Valid(q) && Run(p, data) == Then(Singles(data[..k]), k, Run(q, data[k..]))
  {
    var k := p.contentLength;
    BodyRun(p, data, k - 1);
    var last := Fed(p, k - 1);
    RunNext(last, data[k - 1..]);
    assert data[k - 1..][1..] == data[k..];
    LastOne(data, k);
    ThenThen(Singles(data[..k - 1]), k - 1, [Body([data[k - 1]])], 1,
        Run(last.(contentLength := 0, state := ChunkDataAlmostDone), data[k..]));
  }

  lemma LastOne(data: seq<Byte>, k: nat)
    requires 0 < k <= |data|
    ensures Singles(data[..k - 1]) + [Body([data[k - 1]])] == Singles(data[..k])
  {
    assert data[..k] == data[..k - 1] + [data[k - 1]];
    SinglesAppend(data[..k - 1], [data[k - 1]]);
  }

  lemma StepLastIdentity(p: Parser, ch: Byte)
    requires Valid(p) && p.state.BodyIdentity? && p.contentLength == 1
    ensures var o := CompleteMessage(p.(contentLength := 0, state := MessageDone));
      Valid(o.p) && o.exit in {Next, Upgraded} && Step(p, ch) == o.(events := [Body([ch])] + o.events)
  {
    CompleteMessageSound(p.(contentLength := 0, state := MessageDone));
  }

  lemma Associates<T>(a: seq<T>, b: seq<T>, c: seq<T>)
    ensures a + (b + c) == a + b + c
  {}

  lemma RunUpgraded(p: Parser, data: seq<Byte>)
    requires Valid(p) && data != [] && Step(p, data[0]).exit == Upgraded
    ensures Run(p, data) == Result(Step(p, data[0]).p, Step(p, data[0]).events, 1, Upgraded)
  {}

  /** Taking the last byte of an identity body, which completes the message. */
  lemma IdentityRun(p: Parser, data: seq<Byte>)
    requires Valid(p) && p.state.BodyIdentity? && p.contentLength <= |data|
    ensures var k := p.contentLength; var o := CompleteMessage(p.(contentLength := 0, state := MessageDone));
      Valid(o.p) && Run(p, data) ==
        if o.exit == Next then Then(Singles(data[..k]) + o.events, k, Run(o.p, data[k..]))
        else Result(o.p, Singles(data[..k]) + o.events, k, Upgraded)
  {
    var k := p.contentLength;
    assert k > 0;
    hide Step, Run, CompleteMessage, Singles, Valid;
    BodyRun(p, data, k - 1);
    var last := Fed(p, k - 1);
    var rest := data[k - 1..];
    var e := [Body([rest[0]])];
    StepLastIdentity(last, rest[0]);
    LastOne(data, k);
    assert rest[1..] == data[k..];
    var o := CompleteMessage(p.(contentLength := 0, state := MessageDone));
    Associates(Singles(data[..k - 1]), e, o.events);
    if o.exit == Next {
      RunNext(last, rest);
      ThenThen(Singles(data[..k - 1]), k - 1, e + o.events, 1, Run(o.p, data[k..]));
    } else {
      RunUpgraded(last, rest);
    }
  }

  /** A byte outside a body. */
  lemma SwitchRun(p: Parser, data: seq<Byte>)
    requires Valid(p) && data != [] && !BodyState(p.state) && Counted(p).nread <= MAX_HEADER_SIZE
    ensures var o := Switch(Counted(p), data[0]);
      && (o.exit == Next ==> Valid(o.p) && Run(p, data) == Then(o.events, 1, Run(o.p, data[1..])))
      && (o.exit == Upgraded ==> Valid(o.p) && Run(p, data) == Result(o.p, o.events, 1, Upgraded))
      && (o.exit == Failed ==> o.p.errno != HpeOk && Run(p, data) == Result(o.p, o.events, 0, Failed))
      && (o.exit == Left ==> Run(p, data) == Result(p, o.events, 0, Left))
  {
    StepKeepsValid(p, data[0]);
    hide Switch;
    RunNext(p, data);
  }

  /** Callbacks only flatten to single bytes when they are body callbacks. */
  predicate Flat(es: seq<Event>) {
    forall e :: e in es && e.Body? ==> |e.bytes| == 1
  }

  lemma {:induction false} FlattenFlat(es: seq<Event>)
    requires Flat(es)
    ensures Flatten(es) == es
    decreases |es|
  {
    if es != [] {
      assert es[0] in es;
      FlattenFlat(es[1..]);
      if es[0].Body? { assert es[0].bytes == [es[0].bytes[0]]; }
      assert es == [es[0]] + es[1..];
    }
  }

  /** Notify callbacks only, and none on an error. */
  predicate Notices(o: Outcome) {
    (forall e :: e in o.events ==> !e.Body?) && (o.exit == Failed ==> o.events == [])
  }

  lemma HeadersNotice(p: Parser, ch: Byte)
    ensures Notices(EndOfHeaders(p, ch)) && Notices(AfterHeaders(p, ch)) && Notices(CompleteMessage(p))
  {
    hide NewMessage, NeedsEof;
  }

  lemma SwitchNotices(p: Parser, ch: Byte)
    requires !BodyState(p.state)
    ensures Notices(Switch(p, ch))
  {
    hide EndOfHeaders, AfterHeaders, CompleteMessage, Unhex, AppendDigit;
    match p.state {
      case HeaderFieldStart => HeadersNotice(p.(state := HeadersAlmostDone), ch);
      case HeadersAlmostDone => HeadersNotice(p, ch);
      case HeadersDone => HeadersNotice(p, ch);
      case MessageDone => HeadersNotice(p, ch);
      case _ =>
    }
  }

  predicate BehindChunk(o: Outcome) { o.p.state.ChunkDataAlmostDone? }

  lemma HeadersEndElsewhere(p: Parser, ch: Byte)
    requires !p.state.ChunkDataAlmostDone?
    ensures !BehindChunk(EndOfHeaders(p, ch)) && !BehindChunk(AfterHeaders(p, ch)) && !BehindChunk(CompleteMessage(p))
  {
    hide ShouldKeepAlive, NeedsEof;
  }

  /** The switch stays in that state only to fail, and never enters it. */
  lemma SwitchElsewhere(p: Parser, ch: Byte)
    requires !BodyState(p.state)
    ensures Switch(p, ch).exit == Failed ==>
      (Switch(p, ch).p.state.ChunkDataAlmostDone? <==> p.state.ChunkDataAlmostDone?)
    ensures Switch(p, ch).exit == Next ==> !Switch(p, ch).p.state.ChunkDataAlmostDone?
  {
    hide EndOfHeaders, AfterHeaders, CompleteMessage, Unhex, AppendDigit;
    match p.state {
      case ChunkDataAlmostDone =>
      case HeaderFieldStart => HeadersEndElsewhere(p.(state := HeadersAlmostDone), ch);
      case HeadersAlmostDone => HeadersEndElsewhere(p, ch);
      case HeadersDone => HeadersEndElsewhere(p, ch);
      case MessageDone => HeadersEndElsewhere(p, ch);
      case _ =>
    }
  }

  class HttpParser {
    var ps: Parser
    /** The callbacks made so far. */
    var log: seq<Event>

    constructor (p: Parser)
      ensures ps == p && log == []
    {
      ps := p;
      log := [];
    }

    /** The call with len == 0 that reports end of file. */
    method ExecuteEof() returns (n: nat)
      requires Valid(ps)
      modifies this
      ensures ps.state == old(ps.state)
      ensures old(ps.state).BodyIdentityEof? ==> n == 0 && ps == old(ps) && log == old(log) + [MessageComplete]
      ensures old(ps.state) in {Dead, StartReq, StartRes} ==> n == 0 && ps == old(ps) && log == old(log)
      ensures !old(ps.state).BodyIdentityEof? && old(ps.state) !in {Dead, StartReq, StartRes} ==>
        n == 1 && ps == old(ps).(errno := InvalidEofState) && log == old(log)
    {
      if ps.state.BodyIdentityEof? {
        log := log + [MessageComplete];
        return 0;
      }
      if ps.state.Dead? || ps.state.StartReq? || ps.state.StartRes? { return 0; }
      ps := ps.(errno := InvalidEofState);
      return 1;
    }

    /** CALLBACK_DATA(body) */
    method FlushBody(mark: int, data: seq<Byte>, end: nat) returns (mark': int)
      requires mark <= end <= |data|
      modifies this`log
      ensures mark' == -1
      ensures Flatten(log) == Flatten(old(log)) + Singles(Pending(mark, data, end))
    {
      if mark >= 0 {
        FlattenAppend(log, [Body(data[mark..end])]);
        FlattenOne(Body(data[mark..end]));
        log := log + [Body(data[mark..end])];
      } else {
        assert Singles([]) == [];
      }
      mark' := -1;
    }

    /** Run the notify callbacks of one pass through the switch. */
    method Notify(es: seq<Event>)
      requires forall e :: e in es ==> !e.Body?
      modifies this`log
      ensures Flatten(log) == Flatten(old(log)) + es
    {
      FlattenAppend(log, es);
      FlattenFlat(es);
      log := log + es;
    }

    /** s_body_identity, s_body_identity_eof and s_chunk_data: take as much of the body as there is, and
        finish the message in the same pass when the length is used up. */
    method BodyPass(ghost p0: Parser, ghost log0: seq<Event>, data: seq<Byte>, p: nat, mark: int,
            ghost seen: seq<Event>)
      returns (p': nat, mark': int, exit: Exit, ghost seen': seq<Event>)
      requires Progress(p0, log0, data, ps, log, mark, p, seen) && p < |data| && BodyState(ps.state)
      modifies this
      ensures exit == Next || exit == Upgraded
      ensures exit == Next ==> p < p' && Progress(p0, log0, data, ps, log, mark', p', seen')
      ensures exit == Upgraded ==> Finished(p0, log0, data, ps, log, [], Result(ps, seen', p', Upgraded))
    {
      hide Run, Step, CompleteMessage, Flatten, Singles, NewMessage, Then;
      mark' := if mark < 0 then p else mark;
      var toRead := if ps.state.BodyIdentityEof? || ps.contentLength >= |data| - p then |data| - p
          else ps.contentLength;
      p' := p + toRead;
      seen' := seen + Singles(data[p..p']);
      PendingGrows(mark, data, p, p', log, log0, seen);
      ghost var q := ps;
      assert data[p..][..toRead] == data[p..p'] && data[p..][toRead..] == data[p'..];
      if ps.state.BodyIdentityEof? || ps.contentLength > toRead {
        BodyRun(ps, data[p..], toRead);
        ps := Fed(ps, toRead);
        Resumes(p0, data, q, p, seen, Singles(data[p..p']), toRead, ps);
        exit := Next;
      } else if ps.state.ChunkData? {
        ChunkRun(ps, data[p..]);
        ps := ps.(contentLength := 0, state := ChunkDataAlmostDone);
        Resumes(p0, data, q, p, seen, Singles(data[p..p']), toRead, ps);
        exit := Next;
      } else {
        IdentityRun(ps, data[p..]);
        mark' := FlushBody(mark', data, p');
        var o := CompleteMessage(ps.(contentLength := 0, state := MessageDone));
        CompletesOnce(ps.(contentLength := 0, state := MessageDone));
        Resumes'(p0, data, q, p, seen, Singles(data[p..p']) + o.events, toRead, o);
        Associates(Flatten(log0), seen + Singles(data[p..p']), o.events);
        Associates(seen, Singles(data[p..p']), o.events);
        NothingPending(data, p');
        Notify(o.events);
        ps := o.p;
        exit := o.exit;
        seen' := seen + (Singles(data[p..p']) + o.events);
      }
    }

    /** Any other state: count the byte, go through the switch, make its callbacks. On an error the
        marked body bytes, if any, are not handed out. */
    method SwitchPass(ghost p0: Parser, ghost log0: seq<Event>, data: seq<Byte>, p: nat, mark: int,
            ghost seen: seq<Event>)
      returns (mark': int, exit: Exit, ghost seen': seq<Event>, ghost lost: seq<Byte>)
      requires Progress(p0, log0, data, ps, log, mark, p, seen) && p < |data| && !BodyState(ps.state)
      modifies this
      ensures exit == Next ==> Progress(p0, log0, data, ps, log, mark', p + 1, seen')
      ensures exit == Upgraded ==> Finished(p0, log0, data, ps, log, [], Result(ps, seen', p + 1, Upgraded))
      ensures exit == Failed || exit == Left ==> Finished(p0, log0, data, ps, log, lost, Result(ps, seen', p, exit))
      ensures exit == Left ==> lost == []
    {
      hide Run, Step, Switch, Flatten, Singles, Then;
      ghost var q := ps;
      lost := Pending(mark, data, p);
      seen' := seen;
      mark' := mark;
      Associates(Flatten(log0), seen, []);
      NoEvents(seen);
      var counted := Counted(ps);
      if counted.nread > MAX_HEADER_SIZE {
        Overflows(p0, data, ps, p, seen);
        ps := counted.(errno := HeaderOverflow);
        exit := Failed;
        return;
      }
      SwitchRun(ps, data[p..]);
      SwitchNotices(counted, data[p]);
      SwitchElsewhere(counted, data[p]);
      MarkedSwitch(counted, data[p]);
      var o := Switch(counted, data[p]);
      exit := o.exit;
      Continues(p0, data, q, p, seen, o);
      if o.exit == Failed {
        ps := o.p;
      } else if o.exit != Left {
        mark' := FlushBody(mark, data, p);
        Notify(o.events);
        NothingPending(data, p + 1);
        Associates(Flatten(log0), seen, o.events);
        seen' := seen + o.events;
        ps := o.p;
      }
    }

    /** http_parser_execute on a non-empty buffer, with n the bytes consumed. `exit` says how the call
        ended, `lost` which body bytes it had seen but not handed out: there are such bytes exactly when it
        failed at the byte behind a chunk's data of which it had itself taken the end. */
    method Execute(data: seq<Byte>) returns (n: nat, exit: Exit, ghost lost: seq<Byte>)
      requires Valid(ps) && data != []
      modifies this
      ensures Finished(old(ps), old(log), data, ps, log, lost, Run(old(ps), data))
      ensures n == Run(old(ps), data).consumed && exit == Run(old(ps), data).exit
      ensures lost != [] <==> exit == Failed && ps.state.ChunkDataAlmostDone? && n > 0
    {
      hide Run, Flatten, Singles, Valid;
      ghost var p0, log0 := ps, log;
      ghost var seen: seq<Event> := [];
      var p: nat, mark: int := 0, -1;
      Starts(ps, data, log);
      lost := [];
      exit := Next;
      while p < |data|
        invariant exit == Next && lost == [] && Progress(p0, log0, data, ps, log, mark, p, seen)
      {
        if BodyState(ps.state) {
          p, mark, exit, seen := BodyPass(p0, log0, data, p, mark, seen);
          if exit != Next { return p, exit, []; }
        } else {
          mark, exit, seen, lost := SwitchPass(p0, log0, data, p, mark, seen);
          if exit == Upgraded { return p + 1, exit, []; }
          if exit != Next { return p, exit, lost; }
          p := p + 1;
          lost := [];
        }
      }
      mark := FlushBody(mark, data, |data|);
      RunsOut(p0, data, ps, seen);
      NothingPending(data, |data|);
      n := |data|;
    }

    /** The whole entry point: a parser in error does nothing, an empty buffer reports end of file, and any
        other is parsed, its callbacks made but for the body bytes that are lost. */
    method Call(data: seq<Byte>) returns (n: nat, ghost lost: seq<Byte>)
      requires Valid(ps) || ps.errno != HpeOk
      modifies this
      ensures old(ps).errno != HpeOk ==> n == 0 && ps == old(ps) && log == old(log)
      ensures old(ps).errno == HpeOk && data != [] ==> n == Run(old(ps), data).consumed && ps == Run(old(ps), data).p
      ensures old(ps).errno == HpeOk && data != [] ==>
        Flatten(log) + Singles(lost) == Flatten(old(log)) + Run(old(ps), data).events
      ensures lost != [] ==> data != []
      ensures old(ps).errno == HpeOk && data != [] ==> (lost != [] <==> FailsBehindChunk(Run(old(ps), data)))
      ensures old(ps).errno == HpeOk && data == [] ==>
        if old(ps).state.BodyIdentityEof? then n == 0 && ps == old(ps) && log == old(log) + [MessageComplete]
        else if old(ps).state in {Dead, StartReq, StartRes} then n == 0 && ps == old(ps) && log == old(log)
        else n == 1 && ps == old(ps).(errno := InvalidEofState) && log == old(log)
    {
      n, lost := 0, [];
      if ps.errno == HpeOk {
        if data == [] {
          n := ExecuteEof();
        } else {
          var exit: Exit;
          n, exit, lost := Execute(data);
        }
      }
    }

    /** What a caller does with a message that arrives in pieces, up to the first piece that ends otherwise
        than by running out of bytes. */
    method ExecuteAll(frags: seq<seq<Byte>>) returns (n: nat, exit: Exit, ghost lost: seq<Byte>)
      requires Valid(ps) && forall f :: f in frags ==> f != []
      modifies this
      ensures var r := Run(old(ps), Join(frags));
        && ps == r.p && n == r.consumed && exit == r.exit
        && Flatten(log) + Singles(lost) == Flatten(old(log)) + r.events
        && (exit != Failed ==> lost == [])
    {
      hide Run, Flatten, Singles, Valid;
      ghost var p0, log0, es := ps, log, [];
      n, exit, lost := 0, Next, [];
      var i := 0;
      JoinStarts(frags, ps, log);
      while i < |frags|
        invariant 0 <= i <= |frags| && exit == Next && lost == [] && Valid(ps)
        invariant Run(p0, Join(frags)) == Then(es, n, Run(ps, Join(frags[i..])))
        invariant Flatten(log) == Flatten(log0) + es
      {
        ghost var q, rest := ps, Join(frags[i + 1..]);
        JoinNext(frags, i);
        RunAppend(q, frags[i], rest);
        assert frags[i] in frags;
        var k: nat;
        k, exit, lost := Execute(frags[i]);
        ghost var r := Run(q, frags[i]);
        Associates(Flatten(log0), es, r.events);
        n := n + k;
        if exit != Next {
          NothingLost(Flatten(log), lost);
          return;
        }
        NothingLost(Flatten(log), lost);
        ThenThen(es, n - k, r.events, k, Run(ps, rest));
        es := es + r.events;
        i := i + 1;
      }
      JoinEnds(frags, i, ps);
      NothingLost(Flatten(log), lost);
      NoEvents(es);
    }
  }

  lemma NoEvents(es: seq<Event>)
    ensures es + [] == es
  {}

  lemma NothingLost(es: seq<Event>, lost: seq<Byte>)
    ensures lost == [] ==> es + Singles(lost) == es
  {}

  lemma Starts(p0: Parser, data: seq<Byte>, log: seq<Event>)
    requires Valid(p0)
    ensures Progress(p0, log, data, p0, log, -1, 0, [])
  {
    assert data[0..] == data;
    assert [] + Run(p0, data).events == Run(p0, data).events;
    NothingPending(data, 0);
  }

  lemma RunsOut(p0: Parser, data: seq<Byte>, ps: Parser, seen: seq<Event>)
    requires Valid(p0) && Valid(ps) && Run(p0, data) == Then(seen, |data|, Run(ps, data[|data|..]))
    ensures Run(p0, data) == Result(ps, seen, |data|, Next)
  {
    NoEvents(seen);
  }

  lemma Overflows(p0: Parser, data: seq<Byte>, q: Parser, p: nat, seen: seq<Event>)
    requires Valid(p0) && Valid(q) && p < |data| && Run(p0, data) == Then(seen, p, Run(q, data[p..]))
    requires Counted(q).nread > MAX_HEADER_SIZE
    ensures Run(p0, data) == Result(Counted(q).(errno := HeaderOverflow), seen, p, Failed)
  {
    NoEvents(seen);
  }

  lemma Continues(p0: Parser, data: seq<Byte>, q: Parser, p: nat, seen: seq<Event>, o: Outcome)
    requires Valid(p0) && Valid(q) && p < |data| && Run(p0, data) == Then(seen, p, Run(q, data[p..]))
    requires o.exit == Next ==> Valid(o.p) && Run(q, data[p..]) == Then(o.events, 1, Run(o.p, data[p..][1..]))
    requires o.exit == Upgraded ==> Run(q, data[p..]) == Result(o.p, o.events, 1, Upgraded)
    requires o.exit == Failed ==> Run(q, data[p..]) == Result(o.p, [], 0, Failed)
    requires o.exit == Left ==> Run(q, data[p..]) == Result(q, [], 0, Left)
    ensures o.exit == Next ==> Run(p0, data) == Then(seen + o.events, p + 1, Run(o.p, data[p + 1..]))
    ensures o.exit == Upgraded ==> Run(p0, data) == Result(o.p, seen + o.events, p + 1, Upgraded)
    ensures o.exit == Failed ==> Run(p0, data) == Result(o.p, seen, p, Failed)
    ensures o.exit == Left ==> Run(p0, data) == Result(q, seen, p, Left)
  {
    hide Run;
    NoEvents(seen);
    if o.exit == Next { Resumes(p0, data, q, p, seen, o.events, 1, o.p); }
  }

  /** Body bytes are marked outside a body state only before the byte after a chunk's data, and the
      switch then flushes them. */
  lemma MarkedSwitch(p: Parser, ch: Byte)
    requires !BodyState(p.state)
    ensures Switch(p, ch).exit == Left ==> Switch(p, ch).events == [] && !p.state.ChunkDataAlmostDone?
    ensures p.state.ChunkDataAlmostDone? ==> Switch(p, ch).events == []
  {}

  // ---------- fragments ----------

  function Join(frags: seq<seq<Byte>>): seq<Byte> {
    if frags == [] then [] else frags[0] + Join(frags[1..])
  }

  lemma JoinStarts(frags: seq<seq<Byte>>, p: Parser, log: seq<Event>)
    requires Valid(p)
    ensures Run(p, Join(frags)) == Then([], 0, Run(p, Join(frags[0..])))
    ensures Flatten(log) == Flatten(log) + []
  {
    assert frags[0..] == frags;
    assert [] + Run(p, Join(frags)).events == Run(p, Join(frags)).events;
  }

  lemma JoinNext(frags: seq<seq<Byte>>, i: nat)
    requires i < |frags|
    ensures Join(frags[i..]) == frags[i] + Join(frags[i + 1..])
  {
    assert frags[i..][0] == frags[i] && frags[i..][1..] == frags[i + 1..];
  }

  lemma JoinEnds(frags: seq<seq<Byte>>, i: nat, p: Parser)
    requires i == |frags| && Valid(p)
    ensures Run(p, Join(frags[i..])) == Result(p, [], 0, Next)
  {}

  /** The call so far is a prefix of the one-byte run: same parser, and the callbacks made plus the
      body bytes still marked flatten to the run's callbacks. */
  ghost predicate Progress(p0: Parser, log0: seq<Event>, data: seq<Byte>, ps: Parser, log: seq<Event>, mark: int,
          p: nat, seen: seq<Event>) {
    && Valid(p0) && Valid(ps) && p <= |data| && mark <= p
    && (mark >= 0 ==> BodyState(ps.state) || ps.state.ChunkDataAlmostDone?)
    && (ps.state.ChunkDataAlmostDone? && p > 0 ==> 0 <= mark < p)
    && Run(p0, data) == Then(seen, p, Run(ps, data[p..]))
    && Flatten(log) + Singles(Pending(mark, data, p)) == Flatten(log0) + seen
  }

  /** The call ended as the one-byte run did, but for lost body bytes. */
  ghost predicate Finished(p0: Parser, log0: seq<Event>, data: seq<Byte>, ps: Parser, log: seq<Event>,
          lost: seq<Byte>, r: Result) {
    && Valid(p0) && Run(p0, data) == r && r.p == ps
    && (lost != [] <==> FailsBehindChunk(r))
    && Flatten(log) + Singles(lost) == Flatten(log0) + r.events
  }

  /** The run fails at the byte behind a chunk's data, and has taken the end of that data itself. */
  predicate FailsBehindChunk(r: Result) {
    r.exit == Failed && r.p.state.ChunkDataAlmostDone? && r.consumed > 0
  }

  lemma PendingGrows(mark: int, data: seq<Byte>, p: nat, p': nat, log: seq<Event>, log0: seq<Event>, seen: seq<Event>)
    requires mark <= p <= p' <= |data|
    requires Flatten(log) + Singles(Pending(mark, data, p)) == Flatten(log0) + seen
    ensures Flatten(log) + Singles(Pending(if mark < 0 then p else mark, data, p'))
        == Flatten(log0) + (seen + Singles(data[p..p']))
  {
    var m := if mark < 0 then p else mark;
    assert Pending(m, data, p') == Pending(mark, data, p) + data[p..p'];
    SinglesAppend(Pending(mark, data, p), data[p..p']);
    Associates(Flatten(log), Singles(Pending(mark, data, p)), Singles(data[p..p']));
    Associates(Flatten(log0), seen, Singles(data[p..p']));
  }

  lemma CompletesOnce(p: Parser)
    ensures CompleteMessage(p).events == [MessageComplete]
    ensures CompleteMessage(p).exit == if p.upgrade then Upgraded else Next
    ensures !BodyState(CompleteMessage(p).p.state) && !CompleteMessage(p).p.state.ChunkDataAlmostDone?
  {}

  lemma NothingPending(data: seq<Byte>, p: nat)
    requires p <= |data|
    ensures Singles(Pending(-1, data, p)) == []
    ensures forall es: seq<Event> :: es + [] == es
  {}

  lemma Resumes'(p0: Parser, data: seq<Byte>, q: Parser, p: nat, seen: seq<Event>, es: seq<Event>, k: nat, o: Outcome)
    requires Valid(p0) && Valid(q) && Valid(o.p) && p + k <= |data|
    requires Run(p0, data) == Then(seen, p, Run(q, data[p..]))
    requires Run(q, data[p..]) == if o.exit == Next then Then(es, k, Run(o.p, data[p..][k..]))
        else Result(o.p, es, k, Upgraded)
    ensures o.exit == Next ==> Run(p0, data) == Then(seen + es, p + k, Run(o.p, data[p + k..]))
    ensures o.exit != Next ==> Run(p0, data) == Result(o.p, seen + es, p + k, Upgraded)
  {
    hide Run;
    if o.exit == Next { Resumes(p0, data, q, p, seen, es, k, o.p); }
  }

  lemma Resumes(p0: Parser, data: seq<Byte>, q: Parser, p: nat, seen: seq<Event>, es: seq<Event>, k: nat, ps: Parser)
    requires Valid(p0) && Valid(q) && Valid(ps) && p + k <= |data|
    requires Run(p0, data) == Then(seen, p, Run(q, data[p..]))
    requires Run(q, data[p..]) == Then(es, k, Run(ps, data[p..][k..]))
    ensures Run(p0, data) == Then(seen + es, p + k, Run(ps, data[p + k..]))
  {
    hide Run;
    assert data[p..][k..] == data[p + k..];
    ThenThen(seen, p, es, k, Run(ps, data[p + k..]));
  }

  /** The body bytes seen but not handed out yet. */
  function Pending(mark: int, data: seq<Byte>, p: nat): seq<Byte>
    requires mark <= p <= |data|
  {
    if mark < 0 then [] else data[mark..p]
  }
}
