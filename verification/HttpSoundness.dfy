/** What the parser accepts, without reference to an encoder: the request line
    exactly, and the framing of every complete request it reports. */
module HttpSoundness {
  import opened Runs
  import opened Decimal
  import opened Text
  import opened HttpContext
  import opened HttpRoundTrip
  import F = HttpFields

  // ---------- Request lines ----------

  ghost predicate IsLine(line: string, verb: Method, target: string, version: string)
  {
    && !verb.Invalid? && ' ' !in target && (version == "HTTP/1.1" || version == "HTTP/1.0")
    && line == VerbText(verb) + " " + (target + " " + version)
  }

  /** A known method, a target without spaces and one of the two versions. */
  ghost predicate AcceptableLine(line: string)
  {
    exists verb, target, version :: IsLine(line, verb, target, version)
  }

  lemma VersionExactly(r: Request, v: string)
    ensures SetVersion(r, v).0 <==> v == "HTTP/1.1" || v == "HTTP/1.0"
  {
    assert "HTTP/1.1"[..7] == "HTTP/1." && "HTTP/1.0"[..7] == "HTTP/1.";
    if SetVersion(r, v).0 {
      assert v == v[..7] + [v[7]];
    }
  }

  lemma MethodText(m: string)
    ensures !MethodOf(m).Invalid? ==> VerbText(MethodOf(m)) == m
  {
  }

  lemma SplitAt(s: string, i: nat, c: char)
    requires i < |s| && s[i] == c
    ensures s == s[..i] + [c] + s[i + 1..]
  {
  }

  lemma AcceptedLineIsAcceptable(r: Request, line: string)
    requires RequestLine(r, line).0
    ensures AcceptableLine(line)
  {
    hide SetVersion, SetTarget, MethodOf, VerbText, IsLine;
    var s1 := Find(line, ' ');
    var tail := line[s1 + 1..];
    var s2 := Find(tail, ' ');
    var verb, target, version := MethodOf(line[..s1]), tail[..s2], tail[s2 + 1..];
    hide Find;
    MethodText(line[..s1]);
    VersionExactly(SetTarget(r.(verb := verb), target), version);
    SplitAt(line, s1, ' ');
    SplitAt(tail, s2, ' ');
    LineParts(line, verb, target, version);
  }

  lemma LineParts(line: string, verb: Method, target: string, version: string)
    requires !verb.Invalid? && ' ' !in target && (version == "HTTP/1.1" || version == "HTTP/1.0")
    requires line == VerbText(verb) + [' '] + (target + [' '] + version)
    ensures IsLine(line, verb, target, version)
  {
  }

  lemma AcceptableLineIsAccepted(r: Request, line: string, verb: Method, target: string, version: string)
    requires IsLine(line, verb, target, version)
    ensures RequestLine(r, line).0
  {
    hide SetVersion, SetTarget, VerbText, MethodOf, Find;
    var tail := target + " " + version;
    VerbInverts(verb, tail);
    assert Without(target, {' '});
    FindAfter(target, ' ', version);
    assert tail[..|target|] == target && tail[|target| + 1..] == version;
    VersionExactly(SetTarget(r.(verb := verb), target), version);
  }

  /** A request line is accepted if and only if it has that form. */
  lemma RequestLineExactly(r: Request, line: string)
    ensures RequestLine(r, line).0 <==> AcceptableLine(line)
  {
    hide RequestLine, IsLine;
    if RequestLine(r, line).0 {
      AcceptedLineIsAcceptable(r, line);
    }
    if AcceptableLine(line) {
      var verb, target, version :| IsLine(line, verb, target, version);
      AcceptableLineIsAccepted(r, line, verb, target, version);
    }
  }

  // ---------- Lines ----------

  /** CR LF occurs nowhere in the text. */
  predicate NoCrlf(s: string)
  {
    forall i :: 0 <= i < |s| - 1 ==> s[i] != '\r' || s[i + 1] != '\n'
  }

  lemma {:induction false} CrlfIsFirst(s: string)
    ensures NoCrlf(s[..FindCrlf(s)])
  {
    if |s| >= 2 && !(s[0] == '\r' && s[1] == '\n') {
      CrlfIsFirst(s[1..]);
      var j := FindCrlf(s[1..]);
      forall i | 0 <= i < j ensures s[i] != '\r' || s[i + 1] != '\n' || i + 1 > j {
        if i > 0 { assert s[1..][..j][i - 1] == s[i]; }
        if 0 < i < j { assert s[1..][..j][i] == s[i + 1]; }
      }
    }
  }

  lemma {:induction false} CrlfAfter(line: string, rest: string)
    requires NoCrlf(line)
    ensures FindCrlf(line + CRLF + rest) == |line|
  {
    var s := line + CRLF + rest;
    if line != "" {
      assert s[1..] == line[1..] + CRLF + rest;
      assert s[1] == if |line| > 1 then line[1] else '\r';
      forall i | 0 <= i < |line[1..]| - 1 ensures line[1..][i] != '\r' || line[1..][i + 1] != '\n' {
        assert line[1..][i] == line[i + 1] && line[1..][i + 1] == line[i + 1 + 1];
      }
      CrlfAfter(line[1..], rest);
    }
  }

  function LinesText(lines: seq<string>): string
  {
    if lines == [] then "" else lines[0] + CRLF + LinesText(lines[1..])
  }

  /** Cutting a line off the front of the buffer. */
  lemma LineFirst(buf: string, i: nat, lines: seq<string>, rest: string)
    requires i + 2 <= |buf| && buf[i] == '\r' && buf[i + 1] == '\n'
    ensures buf[i + 2..] == LinesText(lines) + rest ==> buf == LinesText([buf[..i]] + lines) + rest
    ensures i == 0 && buf[2..] == rest ==> buf == LinesText([]) + (CRLF + rest)
  {
    var line := buf[..i];
    assert ([line] + lines)[1..] == lines;
    assert buf == line + CRLF + buf[i + 2..];
    assert line + CRLF + (LinesText(lines) + rest) == line + CRLF + LinesText(lines) + rest;
  }

  // ---------- Frames ----------

  predicate HeaderLines(lines: seq<string>)
  {
    forall h :: h in lines ==> ':' in h && NoCrlf(h)
  }

  lemma ColonInside(h: string)
    requires ':' in h
    ensures Find(h, ':') < |h|
  {
    assert h[..|h|] == h;
  }

  /** The request after these header lines, one addHeader each. */
  function Headed(r: Request, lines: seq<string>): Request
    requires HeaderLines(lines)
    decreases lines
  {
    if lines == [] then r
    else
      ColonInside(lines[0]);
      Headed(AddHeader(r, lines[0], Find(lines[0], ':')), lines[1..])
  }

  /** The headers declare a body of `n` bytes to this parser. */
  predicate Declares(r: Request, n: nat)
  {
    if r.verb.Post? || r.verb.Put? then
      GetHeader(r, "Content-Length") != "" && Stoull(GetHeader(r, "Content-Length")) == Some(n)
    else n == 0
  }

  function Finished(r: Request, body: string): Request
  {
    if r.verb.Post? || r.verb.Put? then r.(contentLength := |body|, body := body) else r
  }

  /** The request that the line and the header lines describe, without its body. */
  function Described(line: string, lines: seq<string>, time: int): Request
    requires HeaderLines(lines)
  {
    Headed(RequestLine(FRESH.request, line).1.(receiveTime := time), lines)
  }

  /** `buf` is an acceptable request line, header lines that each contain a
      colon, a blank line, a body of the declared length, and `rest`. */
  ghost predicate Framed(buf: string, line: string, lines: seq<string>, body: string, rest: string)
  {
    && buf == line + CRLF + (LinesText(lines) + (CRLF + (body + rest)))
    && AcceptableLine(line) && NoCrlf(line) && HeaderLines(lines)
    && Declares(Described(line, lines, 0), |body|)
  }

  predicate Complete(p: Parsed)
  {
    p.verdict.Accepted? && p.ctx.state.GotAll?
  }

  // ---------- Single turns ----------

  lemma NoLineYet(ctx: Context, buf: string, time: int)
    requires FindCrlf(buf) == |buf| && (ctx.state.ExpectHeaders? || ctx.state.ExpectRequestLine?)
    ensures Parse(ctx, buf, time) == Parsed(Accepted, ctx, buf)
  {
  }

  /** What a header line leads to. */
  lemma OneHeaderLine(r: Request, buf: string, time: int)
    requires FindCrlf(buf) < |buf|
    ensures var i := FindCrlf(buf); var line := buf[..i]; var colon := Find(line, ':');
      && (colon < |line| ==>
            Parse(Context(ExpectHeaders, r), buf, time) ==
            Parse(Context(ExpectHeaders, AddHeader(r, line, colon)), buf[i + 2..], time))
      && (colon == |line| > 0 ==> Parse(Context(ExpectHeaders, r), buf, time).verdict.Rejected?)
  {
    hide FindCrlf, Find, AddHeader, GetHeader;
  }

  /** A header line without a colon is refused and consumed. */
  lemma BadHeaderLine(r: Request, line: string, rest: string, time: int)
    requires NoCrlf(line) && ':' !in line && line != ""
    ensures Parse(Context(ExpectHeaders, r), line + CRLF + rest, time) ==
      Parsed(Rejected, Context(ExpectHeaders, r), rest)
  {
    hide FindCrlf, Find, AddHeader, GetHeader;
    var buf := line + CRLF + rest;
    CrlfAfter(line, rest);
    FindAfter(line, ':', "");
    assert buf[..|line|] == line && buf[|line| + 2..] == rest;
  }

  lemma EndSound(r: Request, buf: string, time: int)
    requires r.body == "" && FindCrlf(buf) == 0 < |buf|
    ensures var p := Parse(Context(ExpectHeaders, r), buf, time); var body := p.ctx.request.body;
      Complete(p) ==> buf[2..] == body + p.rest && Declares(r, |body|) && p.ctx.request == Finished(r, body)
  {
    hide Stoull;
    var ctx, rest := Context(ExpectHeaders, r), buf[2..];
    assert buf[..0] == "";
    var turn := HeaderLine(ctx, "", buf, rest);
    assert OneTurn(ctx, buf, time) == turn;
    if turn.Next? {
      var n := turn.ctx.request.contentLength;
      assert n <= |rest| ==> rest == rest[..n] + rest[n..];
    } else {
      assert "" + rest == rest;
    }
  }

  lemma EndComplete(r: Request, body: string, rest: string, time: int)
    requires r.body == "" && Declares(r, |body|)
    ensures Parse(Context(ExpectHeaders, r), CRLF + (body + rest), time) ==
      Parsed(Accepted, Context(GotAll, Finished(r, body)), rest)
  {
    hide Stoull;
    var buf := CRLF + (body + rest);
    var ctx := Context(ExpectHeaders, r);
    assert buf[..0] == "" && buf[2..] == body + rest && FindCrlf(buf) == 0;
    var turn := HeaderLine(ctx, "", buf, body + rest);
    assert OneTurn(ctx, buf, time) == turn;
    assert (body + rest)[..|body|] == body && (body + rest)[|body|..] == rest;
    assert body == "" ==> body + rest == rest;
  }

  /** The blank line: a POST or PUT without a length is refused, one whose length is
      no number throws and leaves the line, one whose body is not there yet waits
      for it, and every other request is complete. */
  lemma EndExactly(r: Request, rest: string, time: int)
    requires r.body == ""
    ensures var p := Parse(Context(ExpectHeaders, r), CRLF + rest, time);
      var length := GetHeader(r, "Content-Length"); var sized := r.verb.Post? || r.verb.Put?;
      && (sized && length == "" ==> p == Parsed(Rejected, Context(ExpectHeaders, r), rest))
      && (sized && length != "" && Stoull(length).None? ==> p == Parsed(Threw, Context(ExpectHeaders, r), CRLF + rest))
      && (sized && length != "" && Stoull(length).Some? && Stoull(length).value > |rest| ==>
            p == Parsed(Accepted, Context(ExpectBody, r.(contentLength := Stoull(length).value)), rest))
      && (!sized || (length != "" && Stoull(length).Some? && Stoull(length).value <= |rest|) ==> Complete(p))
  {
    hide Stoull;
    var buf, ctx := CRLF + rest, Context(ExpectHeaders, r);
    assert buf[..0] == "" && buf[2..] == rest && FindCrlf(buf) == 0;
    assert OneTurn(ctx, buf, time) == HeaderLine(ctx, "", buf, rest);
  }

  lemma FirstLine(buf: string, time: int)
    requires FindCrlf(buf) < |buf|
    ensures var i := FindCrlf(buf); var (ok, r) := RequestLine(FRESH.request, buf[..i]);
      && r.body == ""
      && (if ok then Parse(FRESH, buf, time) == Parse(Context(ExpectHeaders, r.(receiveTime := time)), buf[i + 2..], time)
          else Parse(FRESH, buf, time) == Parsed(Rejected, Context(ExpectRequestLine, r), buf))
  {
    hide FindCrlf, AddQuery;
  }

  // ---------- Header sections ----------

  /** From the first header on, what was consumed is header lines, a blank line
      and the declared body. */
  lemma {:induction false} HeadersSound(r: Request, buf: string, time: int) returns (lines: seq<string>)
    requires r.body == ""
    ensures HeaderLines(lines)
    ensures var p := Parse(Context(ExpectHeaders, r), buf, time); var body := p.ctx.request.body;
      Complete(p) ==>
        && buf == LinesText(lines) + (CRLF + (body + p.rest))
        && Declares(Headed(r, lines), |body|) && p.ctx.request == Finished(Headed(r, lines), body)
    decreases |buf|
  {
    hide Parse, Declares, Finished, FindCrlf, NoCrlf;
    lines := [];
    var p := Parse(Context(ExpectHeaders, r), buf, time);
    var i := FindCrlf(buf);
    if i == |buf| {
      NoLineYet(Context(ExpectHeaders, r), buf, time);
    } else {
      OneHeaderLine(r, buf, time);
      CrlfIsFirst(buf);
      var line, colon := buf[..i], Find(buf[..i], ':');
      if colon < |line| {
        var rest := HeadersSound(AddHeader(r, line, colon), buf[i + 2..], time);
        assert line[colon] == ':';
        lines := [line] + rest;
        assert lines[1..] == rest;
        LineFirst(buf, i, rest, CRLF + (p.ctx.request.body + p.rest));
      } else if line == "" {
        EndSound(r, buf, time);
        LineFirst(buf, 0, [], p.ctx.request.body + p.rest);
      }
    }
  }

  /** And such bytes are accepted. */
  lemma {:induction false} HeadersComplete(r: Request, lines: seq<string>, body: string, rest: string, time: int)
    requires r.body == "" && HeaderLines(lines) && Declares(Headed(r, lines), |body|)
    ensures Parse(Context(ExpectHeaders, r), LinesText(lines) + (CRLF + (body + rest)), time) ==
      Parsed(Accepted, Context(GotAll, Finished(Headed(r, lines), body)), rest)
    decreases lines
  {
    hide Parse, Declares, Finished, FindCrlf, NoCrlf;
    var end := CRLF + (body + rest);
    if lines == [] {
      assert LinesText(lines) + end == end;
      EndComplete(r, body, rest, time);
    } else {
      var line, more := lines[0], LinesText(lines[1..]) + end;
      var buf := line + CRLF + more;
      assert LinesText(lines) + end == buf;
      assert buf[..|line|] == line && buf[|line| + 2..] == more;
      CrlfAfter(line, more);
      ColonInside(line);
      OneHeaderLine(r, buf, time);
      HeadersComplete(AddHeader(r, line, Find(line, ':')), lines[1..], body, rest, time);
    }
  }

  // ---------- Whole requests ----------

  lemma {:induction false} HeadedKeeps(r: Request, lines: seq<string>, t: int)
    requires HeaderLines(lines)
    ensures Headed(r.(receiveTime := t), lines) == Headed(r, lines).(receiveTime := t)
    ensures Headed(r, lines).body == r.body
    decreases lines
  {
    if lines != [] {
      ColonInside(lines[0]);
      var q := AddHeader(r, lines[0], Find(lines[0], ':'));
      HeadedKeeps(q, lines[1..], t);
      assert AddHeader(r.(receiveTime := t), lines[0], Find(lines[0], ':')) == q.(receiveTime := t);
    }
  }

  lemma DeclaredAnyTime(line: string, lines: seq<string>, t: int, u: int, n: nat)
    requires HeaderLines(lines)
    ensures Declares(Described(line, lines, t), n) <==> Declares(Described(line, lines, u), n)
  {
    hide Headed, RequestLine, Stoull;
    var r := RequestLine(FRESH.request, line).1;
    HeadedKeeps(r, lines, t);
    HeadedKeeps(r, lines, u);
  }

  /** Soundness: whenever a fresh parser reports a complete request, the bytes it
      consumed are framed, and the request is what line, header lines and body
      describe. */
  lemma AcceptedIsFramed(buf: string, time: int) returns (line: string, lines: seq<string>)
    ensures HeaderLines(lines)
    ensures var p := Parse(FRESH, buf, time); var body := p.ctx.request.body;
      Complete(p) ==>
        Framed(buf, line, lines, body, p.rest) && p.ctx.request == Finished(Described(line, lines, time), body)
  {
    hide Parse, RequestLine, Declares, Finished, AcceptableLine, FindCrlf, NoCrlf, Headed;
    line, lines := "", [];
    var i := FindCrlf(buf);
    if i == |buf| {
      NoLineYet(FRESH, buf, time);
    } else {
      line := buf[..i];
      CrlfIsFirst(buf);
      FirstLine(buf, time);
      RequestLineExactly(FRESH.request, line);
      var (ok, r) := RequestLine(FRESH.request, line);
      if ok {
        lines := HeadersSound(r.(receiveTime := time), buf[i + 2..], time);
        assert buf == line + CRLF + buf[i + 2..];
        DeclaredAnyTime(line, lines, time, 0, |Parse(FRESH, buf, time).ctx.request.body|);
      }
    }
  }

  /** Completeness: on framed bytes a fresh parser reports exactly the request
      that they describe, and leaves what follows. */
  lemma FramedIsAccepted(buf: string, line: string, lines: seq<string>, body: string, rest: string, time: int)
    requires Framed(buf, line, lines, body, rest)
    ensures Parse(FRESH, buf, time) ==
      Parsed(Accepted, Context(GotAll, Finished(Described(line, lines, time), body)), rest)
  {
    hide Parse, RequestLine, Declares, Finished, AcceptableLine, FindCrlf, NoCrlf, Headed;
    var more := LinesText(lines) + (CRLF + (body + rest));
    CrlfAfter(line, more);
    assert buf[..|line|] == line && buf[|line| + 2..] == more;
    FirstLine(buf, time);
    RequestLineExactly(FRESH.request, line);
    DeclaredAnyTime(line, lines, 0, time, |body|);
    HeadersComplete(RequestLine(FRESH.request, line).1.(receiveTime := time), lines, body, rest, time);
  }

  /** A fresh parser reports a complete request if and only if the buffer begins
      with a framed one. */
  lemma CompleteExactly(buf: string, time: int)
    ensures Complete(Parse(FRESH, buf, time)) <==>
      exists line, lines, body, rest :: Framed(buf, line, lines, body, rest)
  {
    hide Parse, Framed;
    if Complete(Parse(FRESH, buf, time)) {
      var line, lines := AcceptedIsFramed(buf, time);
      assert Framed(buf, line, lines, Parse(FRESH, buf, time).ctx.request.body, Parse(FRESH, buf, time).rest);
    }
    if exists line, lines, body, rest :: Framed(buf, line, lines, body, rest) {
      var line, lines, body, rest :| Framed(buf, line, lines, body, rest);
      assert HeaderLines(lines) by { FramedLines(buf, line, lines, body, rest); }
      FramedIsAccepted(buf, line, lines, body, rest, time);
    }
  }

  lemma FramedLines(buf: string, line: string, lines: seq<string>, body: string, rest: string)
    requires Framed(buf, line, lines, body, rest)
    ensures HeaderLines(lines)
  {
  }

  // ---------- What the request says ----------

  lemma {:induction false} HeadedGives(r: Request, lines: seq<string>, k: string)
    requires HeaderLines(lines)
    ensures var h := Headed(r, lines); var v := F.Last(lines, k, ':');
      && h == r.(headers := h.headers)
      && F.Lookup(h.headers, k) == if v.Some? then Some(Trim(v.value)) else F.Lookup(r.headers, k)
    decreases lines
  {
    hide F.Assigned, AddHeader, Trim, NoCrlf;
    if lines == [] {
    } else {
      F.HeaderGives(r, lines[0], k);
      ColonInside(lines[0]);
      assert lines == [lines[0]] + lines[1..];
      F.LastFirst(lines[0], lines[1..], k, ':');
      HeadedGives(AddHeader(r, lines[0], Find(lines[0], ':')), lines[1..], k);
    }
  }

  /** The request that framed bytes describe, field by field: method, path and
      version are the words of the line; a parameter is what the last key=value
      between '&' signs says, and a header field what the last line with its name
      says, trimmed. */
  lemma DescribedExactly(verb: Method, path: string, pieces: seq<string>, version: string,
                         lines: seq<string>, time: int, k: string)
    requires !verb.Invalid? && F.Known(version) && ' ' !in path && '?' !in path && HeaderLines(lines)
    requires pieces != [] ==> F.Pieces(pieces) && ' ' !in F.Joined(pieces)
    ensures var query := if pieces == [] then None else Some(F.Joined(pieces));
      var d := Described(VerbText(verb) + [' '] + (F.Target(path, query) + [' '] + version), lines, time);
      && d.verb == verb && d.path == path && d.version == version && d.receiveTime == time
      && d.body == "" && d.contentLength == 0
      && F.Lookup(d.query, k) == F.Last(pieces, k, '=')
      && F.Lookup(d.headers, k) == (var v := F.Last(lines, k, ':'); if v.Some? then Some(Trim(v.value)) else None)
  {
    hide RequestLine, Headed, Trim, F.Assigned, AddQuery, NoCrlf;
    var query := if pieces == [] then None else Some(F.Joined(pieces));
    VerbReads(verb);
    F.RequestLineReads(FRESH.request, VerbText(verb), path, query, version);
    var r := RequestLine(FRESH.request, VerbText(verb) + [' '] + (F.Target(path, query) + [' '] + version)).1;
    HeadedGives(r.(receiveTime := time), lines, k);
    if pieces != [] { F.QueryExactly(map[], pieces, k); }
  }

  lemma VerbReads(verb: Method)
    requires !verb.Invalid?
    ensures MethodOf(VerbText(verb)) == verb && ' ' !in VerbText(verb)
  {
  }
}
