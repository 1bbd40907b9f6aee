/** The parser does not depend on how the bytes arrive: neither on where a read
    ends, for one request, nor for a stream of pipelined requests. */
module HttpChunking {
  import opened Runs
  import opened HttpContext

  /** Bytes that one read delivered, and when. */
  datatype Chunk = Chunk(bytes: string, time: int)

  /** The caller stops parsing at an error or a complete request. */
  predicate Done(p: Parsed)
  {
    !p.verdict.Accepted? || p.ctx.state.GotAll?
  }

  /** Append a chunk to the buffer and parse, unless parsing has stopped. */
  function Feed(p: Parsed, c: Chunk): Parsed
  {
    if Done(p) then p.(rest := p.rest + c.bytes) else Parse(p.ctx, p.rest + c.bytes, c.time)
  }

  function FeedAll(p: Parsed, chunks: seq<Chunk>): Parsed
    decreases |chunks|
  {
    if chunks == [] then p else FeedAll(Feed(p, chunks[0]), chunks[1..])
  }

  function Joined(chunks: seq<Chunk>): string
  {
    if chunks == [] then "" else chunks[0].bytes + Joined(chunks[1..])
  }

  function Untimed(r: Request): Request
  {
    r.(receiveTime := 0)
  }

  function UntimedContext(ctx: Context): Context
  {
    ctx.(request := Untimed(ctx.request))
  }

  function UntimedParsed(p: Parsed): Parsed
  {
    p.(ctx := UntimedContext(p.ctx))
  }

  // ---------- More bytes do not change what was decided ----------

  lemma {:induction false} LineStaysFound(a: string, b: string)
    requires FindCrlf(a) < |a|
    ensures FindCrlf(a + b) == FindCrlf(a)
  {
    if !(a[0] == '\r' && a[1] == '\n') {
      assert (a + b)[1..] == a[1..] + b;
      LineStaysFound(a[1..], b);
    }
  }

  /** `after` is the turn `before` with `b` appended to what is left. */
  ghost predicate Extends(before: Turn, after: Turn, b: string)
  {
    match before
    case NeedMore => true
    case Next(c, rest) => after == Next(c, rest + b)
    case Stop(p) => after == Stop(p.(rest := p.rest + b))
  }

  lemma HeaderLineStays(ctx: Context, line: string, all: string, rest: string, b: string)
    ensures Extends(HeaderLine(ctx, line, all, rest), HeaderLine(ctx, line, all + b, rest + b), b)
  {
    hide AddHeader, GetHeader;
  }

  lemma TurnStays(ctx: Context, a: string, b: string, time: int)
    ensures Extends(OneTurn(ctx, a, time), OneTurn(ctx, a + b, time), b)
  {
    hide RequestLine, HeaderLine, FindCrlf;
    var i := FindCrlf(a);
    if ctx.state.ExpectBody? {
      var n := ctx.request.contentLength;
      if n <= |a| {
        assert (a + b)[..n] == a[..n] && (a + b)[n..] == a[n..] + b;
      }
    } else if i < |a| {
      LineStaysFound(a, b);
      assert (a + b)[..i] == a[..i] && (a + b)[i + 2..] == a[i + 2..] + b;
      HeaderLineStays(ctx, a[..i], a, a[i + 2..], b);
    }
  }

  /** Parsing `a` and then the rest together with `b` is parsing `a + b`. */
  lemma {:induction false} SplitAnywhere(ctx: Context, a: string, b: string, time: int)
    ensures Parse(ctx, a + b, time) == Feed(Parse(ctx, a, time), Chunk(b, time))
    decreases |a|
  {
    hide OneTurn;
    TurnStays(ctx, a, b, time);
    match OneTurn(ctx, a, time)
    case NeedMore => if ctx.state.GotAll? { NothingToDo(ctx, a + b, time); }
    case Next(c, rest) => SplitAnywhere(c, rest, b, time);
    case Stop(p) => StopIsDone(ctx, a, time);
  }

  lemma StopIsDone(ctx: Context, buf: string, time: int)
    requires OneTurn(ctx, buf, time).Stop?
    ensures Done(OneTurn(ctx, buf, time).result)
  {
  }

  // ---------- The receive time decides nothing ----------

  lemma RequestLineUntimed(r: Request, q: Request, line: string)
    requires Untimed(r) == Untimed(q)
    ensures RequestLine(r, line).0 == RequestLine(q, line).0
    ensures Untimed(RequestLine(r, line).1) == Untimed(RequestLine(q, line).1)
  {
    hide AddQuery;
  }

  lemma TurnUntimed(c: Context, d: Context, buf: string, t: int, u: int)
    requires UntimedContext(c) == UntimedContext(d)
    ensures match (OneTurn(c, buf, t), OneTurn(d, buf, u))
      case (NeedMore, NeedMore) => true
      case (Next(c', r), Next(d', s)) => UntimedContext(c') == UntimedContext(d') && r == s
      case (Stop(p), Stop(q)) => UntimedParsed(p) == UntimedParsed(q)
      case _ => false
  {
    hide RequestLine;
    var i := FindCrlf(buf);
    if c.state.ExpectRequestLine? && i < |buf| {
      RequestLineUntimed(c.request, d.request, buf[..i]);
    }
  }

  lemma {:induction false} TimeIsIgnored(c: Context, d: Context, buf: string, t: int, u: int)
    requires UntimedContext(c) == UntimedContext(d)
    ensures UntimedParsed(Parse(c, buf, t)) == UntimedParsed(Parse(d, buf, u))
    decreases |buf|
  {
    TurnUntimed(c, d, buf, t, u);
    var turn := OneTurn(c, buf, t);
    if turn.Next? {
      TimeIsIgnored(turn.ctx, OneTurn(d, buf, u).ctx, turn.rest, t, u);
    }
  }

  lemma FeedUntimed(p: Parsed, q: Parsed, bytes: string, t: int, u: int)
    requires UntimedParsed(p) == UntimedParsed(q)
    ensures UntimedParsed(Feed(p, Chunk(bytes, t))) == UntimedParsed(Feed(q, Chunk(bytes, u)))
  {
    TimeIsIgnored(p.ctx, q.ctx, p.rest + bytes, t, u);
  }

  // ---------- Chunking independence ----------

  lemma FeedTwice(p: Parsed, a: string, b: string, time: int)
    ensures Feed(p, Chunk(a + b, time)) == Feed(Feed(p, Chunk(a, time)), Chunk(b, time))
  {
    if Done(p) {
      assert p.rest + (a + b) == p.rest + a + b;
    } else {
      assert p.rest + (a + b) == p.rest + a + b;
      SplitAnywhere(p.ctx, p.rest + a, b, time);
    }
  }

  lemma {:induction false} FeedAllIsOneFeed(p: Parsed, q: Parsed, first: string, chunks: seq<Chunk>, time: int)
    requires UntimedParsed(p) == UntimedParsed(Feed(q, Chunk(first, time)))
    ensures UntimedParsed(FeedAll(p, chunks)) == UntimedParsed(Feed(q, Chunk(first + Joined(chunks), time)))
    decreases |chunks|
  {
    if chunks == [] {
      assert first + Joined(chunks) == first;
    } else {
      var c := chunks[0];
      FeedUntimed(p, Feed(q, Chunk(first, time)), c.bytes, c.time, time);
      FeedTwice(q, first, c.bytes, time);
      FeedAllIsOneFeed(Feed(p, c), q, first + c.bytes, chunks[1..], time);
      assert first + c.bytes + Joined(chunks[1..]) == first + Joined(chunks);
    }
  }

  /** For every byte string and every split of it into reads, from any parser
      that still expects input: parsing read by read gives the same verdict,
      state, request (apart from the receive time) and unconsumed bytes as
      parsing the whole string at once. */
  lemma ChunkingIndependence(ctx: Context, chunks: seq<Chunk>, time: int)
    requires !ctx.state.GotAll? && chunks != []
    ensures UntimedParsed(FeedAll(Parsed(Accepted, ctx, ""), chunks)) == UntimedParsed(Parse(ctx, Joined(chunks), time))
  {
    var p := Parsed(Accepted, ctx, "");
    var c := chunks[0];
    FeedUntimed(p, p, c.bytes, c.time, time);
    FeedAllIsOneFeed(Feed(p, c), p, c.bytes, chunks[1..], time);
    assert "" + Joined(chunks) == Joined(chunks);
  }

  // ---------- Pipelined requests ----------

  /** What a caller that re-invokes the parser gets from a buffer: the requests
      completed, each followed by reset(), and where the parser stands. */
  datatype Served = Served(requests: seq<Request>, verdict: Verdict, ctx: Context, rest: string)

  /** The parser expects bytes: not stopped, and a body only when not empty. */
  predicate Expecting(ctx: Context)
  {
    !ctx.state.GotAll? && (ctx.state.ExpectBody? ==> ctx.request.contentLength > 0)
  }

  lemma {:induction false} RequestsConsume(ctx: Context, buf: string, time: int)
    requires Expecting(ctx)
    ensures var p := Parse(ctx, buf, time);
      p.verdict.Accepted? ==> if p.ctx.state.GotAll? then |p.rest| < |buf| else Expecting(p.ctx)
    decreases |buf|
  {
    var turn := OneTurn(ctx, buf, time);
    if turn.Next? {
      RequestsConsume(turn.ctx, turn.rest, time);
    }
  }

  function Drain(ctx: Context, buf: string, time: int): Served
    requires Expecting(ctx)
    decreases |buf|
  {
    var p := Parse(ctx, buf, time);
    if Done(p) && p.verdict.Accepted? then
      RequestsConsume(ctx, buf, time);
      var d := Drain(FRESH, p.rest, time);
      d.(requests := [p.ctx.request] + d.requests)
    else Served([], p.verdict, p.ctx, p.rest)
  }

  lemma {:induction false} DrainStays(ctx: Context, buf: string, time: int)
    requires Expecting(ctx)
    ensures var d := Drain(ctx, buf, time); d.verdict.Accepted? ==> Expecting(d.ctx)
    decreases |buf|
  {
    hide Parse;
    RequestsConsume(ctx, buf, time);
    var p := Parse(ctx, buf, time);
    if Done(p) && p.verdict.Accepted? {
      DrainStays(FRESH, p.rest, time);
    }
  }

  /** Draining `a` and then the rest together with `b` is draining `a + b`. */
  lemma {:induction false} DrainSplits(ctx: Context, a: string, b: string, time: int)
    requires Expecting(ctx)
    ensures var d := Drain(ctx, a, time);
      if d.verdict.Accepted? then
        Expecting(d.ctx) &&
        var e := Drain(d.ctx, d.rest + b, time);
        Drain(ctx, a + b, time) == e.(requests := d.requests + e.requests)
      else Drain(ctx, a + b, time) == d.(rest := d.rest + b)
    decreases |a|
  {
    hide Parse;
    DrainStays(ctx, a, time);
    RequestsConsume(ctx, a, time);
    SplitAnywhere(ctx, a, b, time);
    var p := Parse(ctx, a, time);
    if Done(p) && p.verdict.Accepted? {
      DrainSplits(FRESH, p.rest, b, time);
    } else {
      assert [] + Drain(ctx, a + b, time).requests == Drain(ctx, a + b, time).requests;
    }
  }

  function UntimedAll(rs: seq<Request>): seq<Request>
  {
    seq(|rs|, i requires 0 <= i < |rs| => Untimed(rs[i]))
  }

  function UntimedServed(d: Served): Served
  {
    d.(requests := UntimedAll(d.requests), ctx := UntimedContext(d.ctx))
  }

  lemma {:induction false} DrainUntimed(c: Context, e: Context, buf: string, t: int, u: int)
    requires Expecting(c) && Expecting(e) && UntimedContext(c) == UntimedContext(e)
    ensures UntimedServed(Drain(c, buf, t)) == UntimedServed(Drain(e, buf, u))
    decreases |buf|
  {
    hide Parse;
    TimeIsIgnored(c, e, buf, t, u);
    var p, q := Parse(c, buf, t), Parse(e, buf, u);
    if Done(p) && p.verdict.Accepted? {
      RequestsConsume(c, buf, t);
      DrainUntimed(FRESH, FRESH, p.rest, t, u);
      UntimedCons(p.ctx.request, Drain(FRESH, p.rest, t).requests);
      UntimedCons(q.ctx.request, Drain(FRESH, q.rest, u).requests);
    }
  }

  lemma UntimedCons(r: Request, rs: seq<Request>)
    ensures UntimedAll([r] + rs) == [Untimed(r)] + UntimedAll(rs)
  {
  }

  lemma UntimedAppend(rs: seq<Request>, qs: seq<Request>)
    ensures UntimedAll(rs + qs) == UntimedAll(rs) + UntimedAll(qs)
  {
  }

  /** Read a chunk, drain the buffer, and so on until an error. */
  function ServeChunks(ctx: Context, buf: string, chunks: seq<Chunk>): Served
    requires Expecting(ctx)
    decreases |chunks|
  {
    if chunks == [] then Served([], Accepted, ctx, buf)
    else
      var d := Drain(ctx, buf + chunks[0].bytes, chunks[0].time);
      if !d.verdict.Accepted? then d.(rest := d.rest + Joined(chunks[1..]))
      else
        DrainStays(ctx, buf + chunks[0].bytes, chunks[0].time);
        var e := ServeChunks(d.ctx, d.rest, chunks[1..]);
        e.(requests := d.requests + e.requests)
  }

  /** A stream of requests is decoded the same however it is cut into reads. */
  lemma {:induction false} PipelineChunkingIndependence(ctx: Context, other: Context, buf: string, chunks: seq<Chunk>, time: int)
    requires Expecting(ctx) && Expecting(other) && UntimedContext(ctx) == UntimedContext(other) && chunks != []
    ensures UntimedServed(ServeChunks(ctx, buf, chunks)) == UntimedServed(Drain(other, buf + Joined(chunks), time))
    decreases |chunks|
  {
    hide Drain;
    var c, more := chunks[0], chunks[1..];
    var first := buf + c.bytes;
    assert buf + Joined(chunks) == first + Joined(more);
    DrainStays(ctx, first, c.time);
    DrainSplits(other, first, Joined(more), time);
    DrainUntimed(ctx, other, first, c.time, time);
    var d, f := Drain(ctx, first, c.time), Drain(other, first, time);
    if d.verdict.Accepted? {
      if more == [] {
        assert first + Joined(more) == first;
        assert d.requests + [] == d.requests;
      } else {
        PipelineChunkingIndependence(d.ctx, f.ctx, d.rest, more, time);
        UntimedAppend(d.requests, ServeChunks(d.ctx, d.rest, more).requests);
        UntimedAppend(f.requests, Drain(f.ctx, f.rest + Joined(more), time).requests);
      }
    }
  }
}
