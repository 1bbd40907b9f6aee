/** The incremental HTTP/1.1 request parser of net/src/HttpContext.cpp, with the
    request fields that net/src/HttpRequest.cpp fills in. */
module HttpContext {
  import opened Runs
  import opened Decimal
  import opened Text
  import B = Buffer

  datatype Method = Invalid | Get | Post | Head | Put | Delete | Options

  datatype Request = Request(
    verb: Method, version: string, path: string, query: map<string, string>,
    headers: map<string, string>, body: string, contentLength: nat, receiveTime: int)

  datatype ParseState = ExpectRequestLine | ExpectHeaders | ExpectBody | GotAll

  datatype Context = Context(state: ParseState, request: Request)

  /** `Threw` is an exception from std::stoul leaving parseRequest. */
  datatype Verdict = Accepted | Rejected | Threw

  /** The verdict, the parser afterwards and the bytes left in the buffer. */
  datatype Parsed = Parsed(verdict: Verdict, ctx: Context, rest: string)

  const FRESH := Context(ExpectRequestLine, Request(Invalid, "Unknown", "", map[], map[], "", 0, 0))

  // ---------- Text ----------

  /** std::search for CR LF: its first position, or the length. */
  function FindCrlf(s: string): (i: nat)
    ensures i <= |s| && (i < |s| ==> i + 2 <= |s| && s[i] == '\r' && s[i + 1] == '\n')
  {
    if |s| < 2 then |s|
    else if s[0] == '\r' && s[1] == '\n' then 0
    else FindCrlf(s[1..]) + 1
  }

  function TrimLeft(s: string): string
  {
    if s != [] && IsSpace(s[0]) then TrimLeft(s[1..]) else s
  }

  function TrimRight(s: string): string
  {
    if s != [] && IsSpace(s[|s| - 1]) then TrimRight(s[..|s| - 1]) else s
  }

  function Trim(s: string): string
  {
    TrimRight(TrimLeft(s))
  }

  function MethodOf(m: string): Method
  {
    if m == "GET" then Get
    else if m == "POST" then Post
    else if m == "HEAD" then Head
    else if m == "PUT" then Put
    else if m == "DELETE" then Delete
    else if m == "OPTIONS" then Options
    else Invalid
  }

  // ---------- Request fields ----------

  function AddPair(m: map<string, string>, pair: string): map<string, string>
  {
    var e := Find(pair, '=');
    if e < |pair| then m[pair[..e] := pair[e + 1..]] else m
  }

  function AddQuery(m: map<string, string>, s: string): map<string, string>
    decreases |s|
  {
    var e := Find(s, '&');
    if e < |s| then AddQuery(AddPair(m, s[..e]), s[e + 1..]) else AddPair(m, s)
  }

  /** setQueryParameters: the split loop. */
  method SetQueryParameters(m: map<string, string>, args: string) returns (r: map<string, string>)
    ensures r == AddQuery(m, args)
  {
    hide AddPair, AddQuery, Find;
    r := m;
    var prev := 0;
    var pos := Find(args, '&');
    assert args[0..] == args;
    while pos < |args|
      invariant 0 <= prev <= |args| && pos == prev + Find(args[prev..], '&')
      invariant AddQuery(m, args) == AddQuery(r, args[prev..])
      decreases |args| - prev
    {
      FirstPair(r, args[prev..]);
      assert args[prev..][..pos - prev] == args[prev..pos];
      assert args[prev..][pos - prev + 1..] == args[pos + 1..];
      r := AddPair(r, args[prev..pos]);
      prev := pos + 1;
      pos := prev + Find(args[prev..], '&');
    }
    FirstPair(r, args[prev..]);
    r := AddPair(r, args[prev..]);
  }

  lemma FirstPair(m: map<string, string>, s: string)
    ensures var e := Find(s, '&');
      AddQuery(m, s) == if e < |s| then AddQuery(AddPair(m, s[..e]), s[e + 1..]) else AddPair(m, s)
  {
    hide AddPair, Find;
  }

  /** addHeader's two trimming loops. */
  method TrimLoops(s: string) returns (value: string)
    ensures value == Trim(s)
  {
    var colon := 0;
    while colon < |s| && IsSpace(s[colon])
      invariant 0 <= colon <= |s| && TrimLeft(s) == TrimLeft(s[colon..])
    {
      assert s[colon..][1..] == s[colon + 1..];
      colon := colon + 1;
    }
    value := s[colon..];
    while |value| > 0 && IsSpace(value[|value| - 1])
      invariant Trim(s) == TrimRight(value)
      decreases |value|
    {
      value := value[..|value| - 1];
    }
  }

  function AddHeader(r: Request, line: string, colon: nat): Request
    requires colon < |line|
  {
    r.(headers := r.headers[line[..colon] := Trim(line[colon + 1..])])
  }

  function GetHeader(r: Request, field: string): string
  {
    if field in r.headers then r.headers[field] else ""
  }

  /** processRequestLine: whether the line is acceptable, and the request with
      the fields set before the answer was known. */
  function RequestLine(r: Request, line: string): (bool, Request)
  {
    var space := Find(line, ' ');
    if space == |line| then (false, r)
    else
      var r1 := r.(verb := MethodOf(line[..space]));
      if r1.verb.Invalid? then (false, r1) else AfterMethod(r1, line[space + 1..])
  }

  function AfterMethod(r: Request, tail: string): (bool, Request)
  {
    var space := Find(tail, ' ');
    if space == |tail| then (false, r) else SetVersion(SetTarget(r, tail[..space]), tail[space + 1..])
  }

  function SetVersion(r: Request, v: string): (bool, Request)
  {
    if |v| == 8 && v[..7] == "HTTP/1." && v[7] == '1' then (true, r.(version := "HTTP/1.1"))
    else if |v| == 8 && v[..7] == "HTTP/1." && v[7] == '0' then (true, r.(version := "HTTP/1.0"))
    else (false, r)
  }

  function SetTarget(r: Request, target: string): Request
  {
    var q := Find(target, '?');
    if q < |target| then r.(path := target[..q], query := AddQuery(r.query, target[q + 1..]))
    else r.(path := target)
  }

  // ---------- The parser as a function ----------

  /** One turn of the loop in parseRequest. */
  datatype Turn = NeedMore | Next(ctx: Context, rest: string) | Stop(result: Parsed)

  function OneTurn(ctx: Context, buf: string, time: int): (turn: Turn)
    ensures turn.Next? ==> |turn.rest| < |buf|
  {
    match ctx.state
    case ExpectRequestLine =>
      var i := FindCrlf(buf);
      if i == |buf| then NeedMore
      else
        var (ok, r) := RequestLine(ctx.request, buf[..i]);
        if ok then Next(Context(ExpectHeaders, r.(receiveTime := time)), buf[i + 2..])
        else Stop(Parsed(Rejected, ctx.(request := r), buf))
    case ExpectHeaders =>
      var i := FindCrlf(buf);
      if i == |buf| then NeedMore else HeaderLine(ctx, buf[..i], buf, buf[i + 2..])
    case ExpectBody =>
      var n := ctx.request.contentLength;
      if |buf| < n then NeedMore
      else Stop(Parsed(Accepted, Context(GotAll, ctx.request.(body := buf[..n])), buf[n..]))
    case GotAll => NeedMore
  }

  /** A header line. `all` is the buffer, `rest` what follows the line; an
      exception leaves the line in the buffer. */
  function HeaderLine(ctx: Context, line: string, all: string, rest: string): Turn
  {
    var r := ctx.request;
    var colon := Find(line, ':');
    if colon < |line| then Next(ctx.(request := AddHeader(r, line, colon)), rest)
    else if line != "" then Stop(Parsed(Rejected, ctx, rest))
    else if !r.verb.Post? && !r.verb.Put? then Stop(Parsed(Accepted, ctx.(state := GotAll), rest))
    else if GetHeader(r, "Content-Length") == "" then Stop(Parsed(Rejected, ctx, rest))
    else
      match Stoull(GetHeader(r, "Content-Length"))
      case None => Stop(Parsed(Threw, ctx, all))
      case Some(n) =>
        var r' := r.(contentLength := n);
        if n > 0 then Next(Context(ExpectBody, r'), rest)
        else Stop(Parsed(Accepted, Context(GotAll, r'), rest))
  }

  /** A turn of the loop that found `before` in the buffer and left the parser
      in `ctx` with `rest` did what `turn` says. */
  ghost predicate Did(turn: Turn, ctx0: Context, before: string, verdict: Verdict, hasMore: bool, ctx: Context, rest: string)
  {
    match turn
    case NeedMore => !hasMore && verdict.Accepted? && ctx == ctx0 && rest == before
    case Next(c, r) => hasMore && verdict.Accepted? && ctx == c && rest == r
    case Stop(p) => !hasMore && p == Parsed(verdict, ctx, rest)
  }

  function Parse(ctx: Context, buf: string, time: int): Parsed
    decreases |buf|
  {
    match OneTurn(ctx, buf, time)
    case NeedMore => Parsed(Accepted, ctx, buf)
    case Next(c, rest) => Parse(c, rest, time)
    case Stop(p) => p
  }

  lemma NothingToDo(ctx: Context, buf: string, time: int)
    requires ctx.state.GotAll?
    ensures OneTurn(ctx, buf, time) == NeedMore
  {
  }

  // ---------- The parser as an object ----------

  class HttpContext {
    var state: ParseState
    var request: Request

    function View(): Context
      reads this
    {
      Context(state, request)
    }

    constructor ()
      ensures View() == FRESH
    {
      state, request := ExpectRequestLine, FRESH.request;
    }

    method Reset()
      modifies this
      ensures View() == FRESH
    {
      state, request := ExpectRequestLine, FRESH.request;
    }

    method ProcessRequestLine(line: string) returns (succeed: bool)
      modifies this`request
      ensures (succeed, request) == RequestLine(old(request), line)
    {
      hide AfterMethod;
      var space := Find(line, ' ');
      if space == |line| {
        return false;
      }
      request := request.(verb := MethodOf(line[..space]));
      if request.verb.Invalid? {
        return false;
      }
      succeed := ProcessTarget(line[space + 1..]);
    }

    /** The part of processRequestLine after the method. */
    method ProcessTarget(tail: string) returns (succeed: bool)
      modifies this`request
      ensures (succeed, request) == AfterMethod(old(request), tail)
    {
      hide AddQuery;
      var space := Find(tail, ' ');
      if space == |tail| {
        return false;
      }
      var target := tail[..space];
      var question := Find(target, '?');
      if question < |target| {
        var query := SetQueryParameters(request.query, target[question + 1..]);
        request := request.(path := target[..question], query := query);
      } else {
        request := request.(path := target);
      }
      var v := tail[space + 1..];
      succeed := |v| == 8 && v[..7] == "HTTP/1.";
      if succeed {
        if v[7] == '1' {
          request := request.(version := "HTTP/1.1");
        } else if v[7] == '0' {
          request := request.(version := "HTTP/1.0");
        } else {
          succeed := false;
        }
      }
    }

    /** The empty line that ends the headers. */
    method EndOfHeaders(ghost all: string, ghost rest: string) returns (verdict: Verdict, hasMore: bool)
      requires state.ExpectHeaders?
      modifies this
      ensures Did(HeaderLine(old(View()), "", all, rest), old(View()), all, verdict, hasMore, View(),
                  if verdict.Threw? then all else rest)
    {
      verdict, hasMore := Accepted, false;
      if request.verb.Post? || request.verb.Put? {
        var contentLength := GetHeader(request, "Content-Length");
        if contentLength != "" {
          var n := Stoull(contentLength);
          if n.None? {
            return Threw, false;
          }
          request := request.(contentLength := n.value);
          if request.contentLength > 0 {
            state, hasMore := ExpectBody, true;
          } else {
            state := GotAll;
          }
        } else {
          verdict := Rejected;
        }
      } else {
        state := GotAll;
      }
    }

    method RequestLineTurn(buf: B.Buffer, receiveTime: int) returns (verdict: Verdict, hasMore: bool)
      requires buf.Valid() && state.ExpectRequestLine?
      modifies this, buf`reader, buf`writer
      ensures buf.Valid()
      ensures Did(OneTurn(old(View()), old(buf.Readable()), receiveTime), old(View()), old(buf.Readable()),
                  verdict, hasMore, View(), buf.Readable())
    {
      hide AddQuery, FindCrlf, RequestLine;
      verdict, hasMore := Accepted, false;
      var bytes := buf.Readable();
      var crlf := FindCrlf(bytes);
      if crlf < |bytes| {
        var ok := ProcessRequestLine(bytes[..crlf]);
        if ok {
          request := request.(receiveTime := receiveTime);
          buf.Retrieve(crlf + 2);
          state, hasMore := ExpectHeaders, true;
        } else {
          verdict := Rejected;
        }
      }
    }

    method HeadersTurn(buf: B.Buffer, receiveTime: int) returns (verdict: Verdict, hasMore: bool)
      requires buf.Valid() && state.ExpectHeaders?
      modifies this, buf`reader, buf`writer
      ensures buf.Valid()
      ensures Did(OneTurn(old(View()), old(buf.Readable()), receiveTime), old(View()), old(buf.Readable()),
                  verdict, hasMore, View(), buf.Readable())
    {
      hide FindCrlf, Trim, Stoull, Find;
      verdict, hasMore := Accepted, false;
      var bytes := buf.Readable();
      var crlf := FindCrlf(bytes);
      if crlf < |bytes| {
        var line := bytes[..crlf];
        var colon := Find(line, ':');
        if colon < |line| {
          var value := TrimLoops(line[colon + 1..]);
          request := request.(headers := request.headers[line[..colon] := value]);
          hasMore := true;
        } else if crlf == 0 {
          verdict, hasMore := EndOfHeaders(bytes, bytes[crlf + 2..]);
          if verdict.Threw? {
            return;
          }
        } else {
          verdict := Rejected;
        }
        buf.Retrieve(crlf + 2);
      }
    }

    method BodyTurn(buf: B.Buffer, receiveTime: int) returns (verdict: Verdict, hasMore: bool)
      requires buf.Valid() && state.ExpectBody?
      modifies this, buf`reader, buf`writer
      ensures buf.Valid()
      ensures Did(OneTurn(old(View()), old(buf.Readable()), receiveTime), old(View()), old(buf.Readable()),
                  verdict, hasMore, View(), buf.Readable())
    {
      verdict, hasMore := Accepted, false;
      var bytes := buf.Readable();
      if |bytes| >= request.contentLength {
        request := request.(body := bytes[..request.contentLength]);
        buf.Retrieve(request.contentLength);
        state := GotAll;
      }
    }

    /** parseRequest computes `Parse`. */
    method ParseRequest(buf: B.Buffer, receiveTime: int) returns (verdict: Verdict)
      requires buf.Valid()
      modifies this, buf`reader, buf`writer
      ensures buf.Valid()
      ensures Parsed(verdict, View(), buf.Readable()) == Parse(old(View()), old(buf.Readable()), receiveTime)
    {
      hide OneTurn;
      verdict := Accepted;
      var hasMore := true;
      while hasMore
        invariant buf.Valid()
        invariant hasMore ==> verdict.Accepted?
        invariant Parse(old(View()), old(buf.Readable()), receiveTime) ==
                  if hasMore then Parse(View(), buf.Readable(), receiveTime) else Parsed(verdict, View(), buf.Readable())
        decreases if hasMore then 1 + |buf.Readable()| else 0
      {
        if state == ExpectRequestLine {
          verdict, hasMore := RequestLineTurn(buf, receiveTime);
        } else if state == ExpectHeaders {
          verdict, hasMore := HeadersTurn(buf, receiveTime);
        } else if state == ExpectBody {
          verdict, hasMore := BodyTurn(buf, receiveTime);
        } else {
          NothingToDo(View(), buf.Readable(), receiveTime);
          hasMore := false;
        }
      }
    }
  }
}
