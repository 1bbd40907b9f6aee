/** A reference encoder for requests framed as in sections 3, 5 and 6.2 of
    RFC 9112, and the parser as its inverse. */
module HttpRoundTrip {
  import opened Runs
  import opened Decimal
  import opened Text
  import opened HttpContext
  import opened HttpChunking

  const CRLF := "\r\n"

  /** A field line with the optional white space around its value. */
  datatype Header = Header(name: string, before: string, value: string, after: string)

  datatype Message = Message(
    verb: Method, path: string, query: Option<seq<(string, string)>>, http11: bool,
    headers: seq<Header>, body: string)

  // ---------- Encoder ----------

  function VerbText(verb: Method): string
  {
    match verb
    case Get => "GET"
    case Post => "POST"
    case Head => "HEAD"
    case Put => "PUT"
    case Delete => "DELETE"
    case Options => "OPTIONS"
    case Invalid => "UNKNOWN"
  }

  function PairsText(pairs: seq<(string, string)>): string
  {
    if pairs == [] then ""
    else if |pairs| == 1 then pairs[0].0 + "=" + pairs[0].1
    else pairs[0].0 + "=" + pairs[0].1 + "&" + PairsText(pairs[1..])
  }

  function Target(m: Message): string
  {
    if m.query.Some? then m.path + "?" + PairsText(m.query.value) else m.path
  }

  function VersionText(m: Message): string
  {
    if m.http11 then "HTTP/1.1" else "HTTP/1.0"
  }

  function HeaderText(h: Header): string
  {
    h.name + ":" + (h.before + h.value + h.after)
  }

  function HeadersText(hs: seq<Header>): string
  {
    if hs == [] then "" else HeaderText(hs[0]) + CRLF + HeadersText(hs[1..])
  }

  function FirstLine(m: Message): string
  {
    VerbText(m.verb) + " " + (Target(m) + " " + VersionText(m))
  }

  function Encode(m: Message): string
  {
    FirstLine(m) + CRLF + HeadersText(m.headers) + CRLF + m.body
  }

  function EncodeAll(ms: seq<Message>): string
  {
    if ms == [] then "" else Encode(ms[0]) + EncodeAll(ms[1..])
  }

  // ---------- What a message means ----------

  function QueryMap(m: map<string, string>, pairs: seq<(string, string)>): map<string, string>
    decreases |pairs|
  {
    if pairs == [] then m else QueryMap(m[pairs[0].0 := pairs[0].1], pairs[1..])
  }

  function HeaderMap(m: map<string, string>, hs: seq<Header>): map<string, string>
    decreases |hs|
  {
    if hs == [] then m else HeaderMap(m[hs[0].name := hs[0].value], hs[1..])
  }

  function Meaning(m: Message, time: int): Request
  {
    Request(m.verb, VersionText(m), m.path,
            if m.query.Some? then QueryMap(map[], m.query.value) else map[],
            HeaderMap(map[], m.headers), m.body, |m.body|, time)
  }

  // ---------- Well-formed messages ----------

  predicate Without(s: string, banned: set<char>)
  {
    forall i :: 0 <= i < |s| ==> s[i] !in banned
  }

  function Lower(s: string): string
  {
    seq(|s|, i requires 0 <= i < |s| => if 'A' <= s[i] <= 'Z' then s[i] - 'A' + 'a' else s[i])
  }

  predicate Trimmed(s: string)
  {
    s == "" || (!IsSpace(s[0]) && !IsSpace(s[|s| - 1]))
  }

  predicate Ows(s: string)
  {
    forall i :: 0 <= i < |s| ==> s[i] == ' ' || s[i] == '\t'
  }

  predicate HeaderWf(h: Header)
  {
    && Without(h.name, {':', '\r'})
    && Without(h.value, {'\r'}) && Trimmed(h.value)
    && Ows(h.before) && Ows(h.after)
  }

  predicate PairWf(pair: (string, string))
  {
    Without(pair.0, {' ', '&', '=', '\r'}) && Without(pair.1, {' ', '&', '\r'})
  }

  predicate IsLength(h: Header)
  {
    Lower(h.name) == "content-length"
  }

  predicate LengthOk(h: Header, n: nat)
  {
    h.value != "" && AllDigits(h.value) && Value(h.value) == n
  }

  /** Section 6.2: a body needs a Content-Length, in any case of letters, and
      every Content-Length gives its size. */
  predicate FramingWf(m: Message)
  {
    && |m.body| < TWO64
    && (m.body != "" ==> exists h :: h in m.headers && IsLength(h))
    && forall h :: h in m.headers && IsLength(h) ==> LengthOk(h, |m.body|)
  }

  predicate WellFormed(m: Message)
  {
    && !m.verb.Invalid?
    && Without(m.path, {' ', '?', '\r'})
    && (m.query.Some? ==> forall pair :: pair in m.query.value ==> PairWf(pair))
    && (forall h :: h in m.headers ==> HeaderWf(h))
    && FramingWf(m)
  }

  /** What this parser asks of the framing: POST and PUT carry a Content-Length
      spelled exactly so, the other methods carry no body. */
  predicate Supported(m: Message)
  {
    if m.verb.Post? || m.verb.Put? then exists h :: h in m.headers && h.name == "Content-Length"
    else m.body == ""
  }

  // ---------- Text lemmas ----------

  lemma {:induction false} FindLine(line: string, rest: string)
    requires Without(line, {'\r'})
    ensures FindCrlf(line + CRLF + rest) == |line|
  {
    if line == "" {
      assert line + CRLF + rest == CRLF + rest;
    } else {
      assert (line + CRLF + rest)[1..] == line[1..] + CRLF + rest;
      assert line[0] != '\r';
      FindLine(line[1..], rest);
    }
  }

  lemma {:induction false} TrimLeftOws(a: string, b: string)
    requires Ows(a)
    ensures TrimLeft(a + b) == TrimLeft(b)
  {
    if a == "" {
      assert a + b == b;
    } else {
      assert (a + b)[1..] == a[1..] + b;
      TrimLeftOws(a[1..], b);
    }
  }

  lemma {:induction false} TrimRightOws(a: string, b: string)
    requires Ows(b)
    ensures TrimRight(a + b) == TrimRight(a)
  {
    if b == "" {
      assert a + b == a;
    } else {
      assert (a + b)[..|a + b| - 1] == a + b[..|b| - 1];
      TrimRightOws(a, b[..|b| - 1]);
    }
  }

  lemma TrimInverts(h: Header)
    requires HeaderWf(h)
    ensures Trim(h.before + h.value + h.after) == h.value
  {
    assert h.before + h.value + h.after == h.before + (h.value + h.after);
    TrimLeftOws(h.before, h.value + h.after);
    if h.value == "" {
      assert h.value + h.after == h.after && h.after + "" == h.after;
      TrimLeftOws(h.after, "");
    } else {
      TrimRightOws(h.value, h.after);
    }
  }

  // ---------- Query ----------

  lemma PairInverts(m: map<string, string>, pair: (string, string))
    requires PairWf(pair)
    ensures AddPair(m, pair.0 + "=" + pair.1) == m[pair.0 := pair.1]
  {
    var text := pair.0 + "=" + pair.1;
    assert Without(pair.0, {'='});
    FindAfter(pair.0, '=', pair.1);
    assert text[..|pair.0|] == pair.0 && text[|pair.0| + 1..] == pair.1;
  }

  lemma PairTextClean(pair: (string, string))
    requires PairWf(pair)
    ensures Without(pair.0 + "=" + pair.1, {' ', '&', '\r'})
  {
    var text := pair.0 + "=" + pair.1;
    forall i | 0 <= i < |text| ensures text[i] !in {' ', '&', '\r'} {
      if i < |pair.0| {
        assert text[i] == pair.0[i];
      } else if i > |pair.0| {
        assert text[i] == pair.1[i - |pair.0| - 1];
      }
    }
  }

  lemma {:induction false} QueryInverts(m: map<string, string>, pairs: seq<(string, string)>)
    requires forall pair :: pair in pairs ==> PairWf(pair)
    ensures AddQuery(m, PairsText(pairs)) == QueryMap(m, pairs)
    decreases |pairs|
  {
    hide AddPair;
    if pairs == [] {
      EmptyPair(m);
    } else {
      var text := pairs[0].0 + "=" + pairs[0].1;
      PairTextClean(pairs[0]);
      assert Without(text, {'&'});
      PairInverts(m, pairs[0]);
      if |pairs| == 1 {
        FindAfter(text, '&', "");
      } else {
        FindAfter(text, '&', PairsText(pairs[1..]));
        assert PairsText(pairs)[..|text|] == text && PairsText(pairs)[|text| + 1..] == PairsText(pairs[1..]);
        QueryInverts(m[pairs[0].0 := pairs[0].1], pairs[1..]);
      }
    }
  }

  lemma EmptyPair(m: map<string, string>)
    ensures AddQuery(m, "") == m
  {
  }

  lemma {:induction false} PairsTextClean(pairs: seq<(string, string)>)
    requires forall pair :: pair in pairs ==> PairWf(pair)
    ensures Without(PairsText(pairs), {' ', '\r'})
  {
    if pairs != [] {
      PairTextClean(pairs[0]);
      PairsTextClean(pairs[1..]);
    }
  }

  // ---------- Request line ----------

  lemma TargetInverts(r: Request, m: Message)
    requires WellFormed(m) && r.query == map[]
    ensures Without(Target(m), {' ', '\r'})
    ensures SetTarget(r, Target(m)) ==
      r.(path := m.path, query := if m.query.Some? then QueryMap(map[], m.query.value) else map[])
  {
    hide AddQuery, QueryMap;
    if m.query.Some? {
      FindAfter(m.path, '?', PairsText(m.query.value));
      QueryInverts(map[], m.query.value);
      PairsTextClean(m.query.value);
      assert Target(m)[..|m.path|] == m.path && Target(m)[|m.path| + 1..] == PairsText(m.query.value);
    } else {
      FindAfter(m.path, '?', "");
    }
  }

  lemma VerbInverts(verb: Method, tail: string)
    requires !verb.Invalid?
    ensures var line := VerbText(verb) + " " + tail;
      && Find(line, ' ') == |VerbText(verb)| < |line|
      && MethodOf(line[..|VerbText(verb)|]) == verb
      && line[|VerbText(verb)| + 1..] == tail
    ensures Without(VerbText(verb), {' ', '\r'})
  {
    var text := VerbText(verb);
    var line := text + " " + tail;
    FindAfter(text, ' ', tail);
    assert line[..|text|] == text && line[|text| + 1..] == tail;
  }

  lemma VersionInverts(m: Message, target: string)
    requires Without(target, {' '})
    ensures var tail := target + " " + VersionText(m);
      && Find(tail, ' ') == |target| < |tail|
      && tail[..|target|] == target && tail[|target| + 1..] == VersionText(m)
  {
    FindAfter(target, ' ', VersionText(m));
  }

  lemma FirstLineInverts(m: Message)
    requires WellFormed(m)
    ensures Without(FirstLine(m), {'\r'})
    ensures RequestLine(FRESH.request, FirstLine(m)) ==
      (true, Meaning(m, 0).(headers := map[], body := "", contentLength := 0))
  {
    hide SetTarget, Target, VerbText, MethodOf, Find, QueryMap;
    var r := FRESH.request.(verb := m.verb);
    var tail := Target(m) + " " + VersionText(m);
    VerbInverts(m.verb, tail);
    TargetInverts(r, m);
    VersionInverts(m, Target(m));
    FirstLineClean(m);
    assert RequestLine(FRESH.request, FirstLine(m)) == AfterMethod(r, tail);
    VersionAccepted(SetTarget(r, Target(m)), m);
  }

  lemma VersionAccepted(r: Request, m: Message)
    ensures SetVersion(r, VersionText(m)) == (true, r.(version := VersionText(m)))
  {
    assert "HTTP/1.1"[..7] == "HTTP/1." && "HTTP/1.0"[..7] == "HTTP/1.";
  }

  lemma FirstLineClean(m: Message)
    requires Without(Target(m), {' ', '\r'}) && Without(VerbText(m.verb), {' ', '\r'})
    ensures Without(FirstLine(m), {'\r'})
  {
    hide Target, VerbText;
    assert Without(VersionText(m), {'\r'});
  }

  lemma FirstLineParses(m: Message, rest: string, time: int)
    requires WellFormed(m)
    ensures Parse(FRESH, FirstLine(m) + CRLF + rest, time)
         == Parse(Context(ExpectHeaders, Meaning(m, time).(headers := map[], body := "", contentLength := 0)), rest, time)
  {
    hide RequestLine, FirstLine;
    var line := FirstLine(m);
    var all := line + CRLF + rest;
    FirstLineInverts(m);
    FindLine(line, rest);
    assert all[..|line|] == line && all[|line| + 2..] == rest;
  }

  // ---------- Headers ----------

  lemma HeaderInverts(r: Request, h: Header)
    requires HeaderWf(h)
    ensures Without(HeaderText(h), {'\r'})
    ensures Find(HeaderText(h), ':') == |h.name| < |HeaderText(h)|
    ensures AddHeader(r, HeaderText(h), |h.name|) == r.(headers := r.headers[h.name := h.value])
  {
    hide Trim;
    var value := h.before + h.value + h.after;
    FindAfter(h.name, ':', value);
    assert HeaderText(h)[..|h.name|] == h.name && HeaderText(h)[|h.name| + 1..] == value;
    TrimInverts(h);
  }

  lemma HeaderParses(r: Request, h: Header, rest: string, time: int)
    requires HeaderWf(h)
    ensures Parse(Context(ExpectHeaders, r), HeaderText(h) + CRLF + rest, time)
         == Parse(Context(ExpectHeaders, r.(headers := r.headers[h.name := h.value])), rest, time)
  {
    hide HeaderText, AddHeader, FindCrlf, Find;
    var line := HeaderText(h);
    var all := line + CRLF + rest;
    HeaderInverts(r, h);
    FindLine(line, rest);
    assert all[..|line|] == line && all[|line| + 2..] == rest;
  }

  lemma {:induction false} HeadersParse(r: Request, hs: seq<Header>, rest: string, time: int)
    requires forall h :: h in hs ==> HeaderWf(h)
    ensures Parse(Context(ExpectHeaders, r), HeadersText(hs) + rest, time)
         == Parse(Context(ExpectHeaders, r.(headers := HeaderMap(r.headers, hs))), rest, time)
    decreases |hs|
  {
    hide Parse, HeaderText;
    if hs == [] {
      assert HeadersText(hs) + rest == rest;
    } else {
      var more := HeadersText(hs[1..]) + rest;
      assert HeadersText(hs) + rest == HeaderText(hs[0]) + CRLF + more;
      HeaderParses(r, hs[0], more, time);
      HeadersParse(r.(headers := r.headers[hs[0].name := hs[0].value]), hs[1..], rest, time);
    }
  }

  /** A name is in the map when some header carries it, with such a header's value. */
  lemma {:induction false} HeaderMapEntry(m: map<string, string>, hs: seq<Header>, name: string)
    ensures var r := HeaderMap(m, hs);
      if exists h :: h in hs && h.name == name
      then name in r && exists h :: h in hs && h.name == name && h.value == r[name]
      else (name in r <==> name in m) && (name in m ==> r[name] == m[name])
    decreases |hs|
  {
    if hs != [] {
      var m1 := m[hs[0].name := hs[0].value];
      HeaderMapEntry(m1, hs[1..], name);
      assert hs[0] in hs;
      if h :| h in hs[1..] && h.name == name {
        assert h in hs;
      }
    }
  }

  // ---------- End of headers and body ----------

  lemma BlankLine(rest: string)
    ensures FindCrlf(CRLF + rest) == 0 && (CRLF + rest)[..0] == "" && (CRLF + rest)[2..] == rest
  {
  }

  lemma SpelledLength(m: Message)
    requires WellFormed(m)
    ensures (exists h :: h in m.headers && h.name == "Content-Length") ==>
      "Content-Length" in HeaderMap(map[], m.headers) &&
      var v := HeaderMap(map[], m.headers)["Content-Length"];
      v != "" && Stoull(v) == Some(|m.body|)
    ensures (!exists h :: h in m.headers && h.name == "Content-Length") ==>
      "Content-Length" !in HeaderMap(map[], m.headers)
  {
    hide HeaderMap, Stoull, HeaderWf;
    HeaderMapEntry(map[], m.headers, "Content-Length");
    if exists h :: h in m.headers && h.name == "Content-Length" {
      var v := HeaderMap(map[], m.headers)["Content-Length"];
      var h :| h in m.headers && h.name == "Content-Length" && h.value == v;
      assert Lower("Content-Length") == "content-length";
      assert IsLength(h);
      StoullOfDigits(v);
    }
  }

  lemma BodyParses(r: Request, body: string, rest: string, time: int)
    requires r.contentLength == |body|
    ensures Parse(Context(ExpectBody, r), body + rest, time)
         == Parsed(Accepted, Context(GotAll, r.(body := body)), rest)
  {
    assert (body + rest)[..|body|] == body && (body + rest)[|body|..] == rest;
  }

  /** The turn at the blank line, with all headers of `m` read. */
  lemma EndParses(m: Message, rest: string, time: int)
    requires WellFormed(m)
    ensures var r := Meaning(m, time).(body := "", contentLength := 0);
      Parse(Context(ExpectHeaders, r), CRLF + rest, time) ==
        if !m.verb.Post? && !m.verb.Put? then Parsed(Accepted, Context(GotAll, r), rest)
        else if !Supported(m) then Parsed(Rejected, Context(ExpectHeaders, r), rest)
        else if m.body == "" then Parsed(Accepted, Context(GotAll, r), rest)
        else Parse(Context(ExpectBody, r.(contentLength := |m.body|)), rest, time)
  {
    hide HeaderMap, QueryMap, Stoull, WellFormed;
    BlankLine(rest);
    SpelledLength(m);
    var r := Meaning(m, time).(body := "", contentLength := 0);
    assert OneTurn(Context(ExpectHeaders, r), CRLF + rest, time)
        == HeaderLine(Context(ExpectHeaders, r), "", CRLF + rest, rest);
  }

  // ---------- The round trip ----------

  /** Everything the parser does with a well-formed message and what follows it. */
  lemma MessageParses(m: Message, rest: string, time: int)
    requires WellFormed(m)
    ensures Parse(FRESH, Encode(m) + rest, time) ==
      if Supported(m) then Parsed(Accepted, Context(GotAll, Meaning(m, time)), rest)
      else if m.verb.Post? || m.verb.Put? then
        Parsed(Rejected, Context(ExpectHeaders, Meaning(m, time).(body := "", contentLength := 0)), m.body + rest)
      else
        Parsed(Accepted, Context(GotAll, Meaning(m, time).(body := "", contentLength := 0)), m.body + rest)
  {
    hide Parse, FirstLine, HeaderMap, QueryMap;
    var r := Meaning(m, time).(headers := map[], body := "", contentLength := 0);
    var end := CRLF + (m.body + rest);
    var lines := HeadersText(m.headers) + end;
    assert Encode(m) + rest == FirstLine(m) + CRLF + lines;
    FirstLineParses(m, lines, time);
    HeadersParse(r, m.headers, end, time);
    EndParses(m, m.body + rest, time);
    if Supported(m) {
      if m.body == "" {
        assert m.body + rest == rest;
      } else {
        BodyParses(Meaning(m, time).(body := ""), m.body, rest, time);
      }
    }
  }

  /** A well-formed message followed by anything reads back as itself, consuming
      exactly its own bytes, if and only if its framing is supported. */
  lemma ReadsBackExactly(m: Message, rest: string, time: int)
    requires WellFormed(m)
    ensures Parse(FRESH, Encode(m) + rest, time) == Parsed(Accepted, Context(GotAll, Meaning(m, time)), rest)
      <==> Supported(m)
  {
    hide Parse, Encode, HeaderMap, QueryMap;
    MessageParses(m, rest, time);
    if !Supported(m) && !m.verb.Post? && !m.verb.Put? {
      assert |m.body + rest| > |rest|;
    }
  }

  const LENGTH_ONE := Header("Content-Length", " ", "1", "")
  const DELETE_WITH_BODY := Message(Delete, "/", None, true, [LENGTH_ONE], "x")

  lemma DeleteWithBodyIsWellFormed()
    ensures WellFormed(DELETE_WITH_BODY)
  {
    var h := LENGTH_ONE;
    assert HeaderWf(h);
    assert Lower("Content-Length") == "content-length";
    assert LengthOk(h, 1) by { assert Value("1") == 1; }
    assert DELETE_WITH_BODY.headers[0] == h;
    assert IsLength(h) && h in DELETE_WITH_BODY.headers;
  }

  /** A DELETE with a body is well formed and is not read back: its body is left
      in the buffer, where the next request line is expected. */
  lemma DeleteBodyIsMisread()
    ensures WellFormed(DELETE_WITH_BODY)
    ensures var p := Parse(FRESH, Encode(DELETE_WITH_BODY), 0);
      p.verdict.Accepted? && p.ctx.state.GotAll? && p.ctx.request.body == "" && p.rest == "x"
  {
    hide Parse, Encode, WellFormed, HeaderMap;
    DeleteWithBodyIsWellFormed();
    MessageParses(DELETE_WITH_BODY, "", 0);
    assert Encode(DELETE_WITH_BODY) + "" == Encode(DELETE_WITH_BODY);
  }

  function Meanings(ms: seq<Message>, time: int): seq<Request>
  {
    seq(|ms|, i requires 0 <= i < |ms| => Meaning(ms[i], time))
  }

  /** Alternating parseRequest and reset on the encodings of any sequence of
      supported messages yields exactly that sequence and leaves nothing. */
  lemma {:induction false} PipelinedRoundTrip(ms: seq<Message>, time: int)
    requires forall m :: m in ms ==> WellFormed(m) && Supported(m)
    ensures Drain(FRESH, EncodeAll(ms), time) == Served(Meanings(ms, time), Accepted, FRESH, "")
  {
    hide Parse, Encode, Meaning, WellFormed, Supported;
    if ms == [] {
      NothingParsed(time);
      assert Meanings(ms, time) == [];
    } else {
      assert ms[0] in ms;
      ReadsBackExactly(ms[0], EncodeAll(ms[1..]), time);
      PipelinedRoundTrip(ms[1..], time);
      assert Meanings(ms, time) == [Meaning(ms[0], time)] + Meanings(ms[1..], time);
    }
  }

  lemma NothingParsed(time: int)
    ensures Parse(FRESH, "", time) == Parsed(Accepted, FRESH, "")
  {
  }

  /** The same when the bytes arrive in reads cut anywhere. */
  lemma ChunkedRoundTrip(ms: seq<Message>, chunks: seq<Chunk>, time: int)
    requires forall m :: m in ms ==> WellFormed(m) && Supported(m)
    requires chunks != [] && Joined(chunks) == EncodeAll(ms)
    ensures UntimedServed(ServeChunks(FRESH, "", chunks)) == Served(UntimedAll(Meanings(ms, time)), Accepted, FRESH, "")
  {
    hide Drain, WellFormed, Supported;
    PipelineChunkingIndependence(FRESH, FRESH, "", chunks, time);
    PipelinedRoundTrip(ms, time);
    assert "" + Joined(chunks) == EncodeAll(ms);
  }
}
