/** What the request fields hold, for every text: the query parameters stated over
    the pieces between '&', the header fields over the header lines, and the
    request line over its three words. */
module HttpFields {
  import opened Runs
  import opened Decimal
  import opened Text
  import opened HttpContext

  function Lookup(m: map<string, string>, k: string): Option<string>
  {
    if k in m then Some(m[k]) else None
  }

  /** The text is `k`, then `mark`, then the value; `k` is free of `mark`. */
  function Assigned(text: string, k: string, mark: char): Option<string>
  {
    if |k| < |text| && text[..|k|] == k && text[|k|] == mark && mark !in k then Some(text[|k| + 1..]) else None
  }

  /** The value that the last of `texts` to assign `k` gives it. */
  function Last(texts: seq<string>, k: string, mark: char): Option<string>
  {
    if texts == [] then None
    else
      var v := Assigned(texts[|texts| - 1], k, mark);
      if v.Some? then v else Last(texts[..|texts| - 1], k, mark)
  }

  function Or<T>(a: Option<T>, b: Option<T>): Option<T>
  {
    if a.Some? then a else b
  }

  lemma AssignedAtMark(text: string, k: string, mark: char)
    ensures var i := Find(text, mark);
      Assigned(text, k, mark) == if i < |text| && k == text[..i] then Some(text[i + 1..]) else None
  {
    hide Find;
    var i := Find(text, mark);
    assert forall j :: 0 <= j < i ==> text[..i][j] == text[j];
    assert |k| <= |text| ==> forall j :: 0 <= j < |k| ==> text[..|k|][j] == text[j];
  }

  lemma {:induction false} LastFirst(text: string, texts: seq<string>, k: string, mark: char)
    ensures Last([text] + texts, k, mark) == Or(Last(texts, k, mark), Assigned(text, k, mark))
    decreases texts
  {
    hide Assigned;
    var all := [text] + texts;
    if texts == [] {
      assert all == [text] && all[..0] == [];
    } else {
      assert all[..|all| - 1] == [text] + texts[..|texts| - 1];
      LastFirst(text, texts[..|texts| - 1], k, mark);
    }
  }

  // ---------- Query parameters ----------

  /** The pieces with '&' between them. */
  function Joined(pieces: seq<string>): string
    requires pieces != []
  {
    if |pieces| == 1 then pieces[0] else pieces[0] + "&" + Joined(pieces[1..])
  }

  predicate Pieces(pieces: seq<string>)
  {
    pieces != [] && forall p :: p in pieces ==> '&' !in p
  }

  /** Every text is cut into such pieces. */
  lemma {:induction false} CutsInto(s: string) returns (pieces: seq<string>)
    ensures Pieces(pieces) && Joined(pieces) == s
    decreases |s|
  {
    var e := Find(s, '&');
    if e == |s| {
      pieces := [s];
      assert s[..e] == s;
    } else {
      var rest := CutsInto(s[e + 1..]);
      pieces := [s[..e]] + rest;
      assert pieces[1..] == rest && s == s[..e] + "&" + s[e + 1..];
    }
  }

  lemma PairGives(m: map<string, string>, piece: string, k: string)
    ensures Lookup(AddPair(m, piece), k) == Or(Assigned(piece, k, '='), Lookup(m, k))
  {
    hide Find, Assigned;
    AssignedAtMark(piece, k, '=');
  }

  /** For every query text, a parameter has the value that the last piece of the
      form key=value gives it, and the one it had before if there is none; pieces
      without '=' are ignored. */
  lemma {:induction false} QueryExactly(m: map<string, string>, pieces: seq<string>, k: string)
    requires Pieces(pieces)
    ensures Lookup(AddQuery(m, Joined(pieces)), k) == Or(Last(pieces, k, '='), Lookup(m, k))
    decreases |pieces|
  {
    hide AddPair, Assigned, Find;
    var p := pieces[0];
    PairGives(m, p, k);
    if |pieces| == 1 {
      FindAfter(p, '&', "");
      assert pieces == [p] + [] && Last([], k, '=') == None;
      LastFirst(p, [], k, '=');
    } else {
      var rest := pieces[1..];
      FindAfter(p, '&', Joined(rest));
      var s := p + "&" + Joined(rest);
      assert s[..|p|] == p && s[|p| + 1..] == Joined(rest);
      QueryExactly(AddPair(m, p), rest, k);
      assert pieces == [p] + rest;
      LastFirst(p, rest, k, '=');
    }
  }

  // ---------- Header fields ----------

  predicate Spaces(s: string)
  {
    forall i :: 0 <= i < |s| ==> IsSpace(s[i])
  }

  /** `v` is `s` without the white space around it. */
  ghost predicate Trims(s: string, v: string)
  {
    && (v != "" ==> !IsSpace(v[0]) && !IsSpace(v[|v| - 1]))
    && exists before, after :: Spaces(before) && Spaces(after) && s == before + v + after
  }

  lemma {:induction false} TrimLeftParts(s: string) returns (before: string)
    ensures Spaces(before) && s == before + TrimLeft(s) && (TrimLeft(s) != "" ==> !IsSpace(TrimLeft(s)[0]))
  {
    hide Spaces, IsSpace;
    if s != "" && IsSpace(s[0]) {
      var rest := TrimLeftParts(s[1..]);
      SpaceFirst(s[0], rest);
      before := [s[0]] + rest;
      assert s == [s[0]] + s[1..];
      assert [s[0]] + (rest + TrimLeft(s[1..])) == before + TrimLeft(s[1..]);
    } else {
      before := "";
      NoSpaces();
      assert before + s == s;
    }
  }

  lemma SpaceFirst(c: char, rest: string)
    requires IsSpace(c) && Spaces(rest)
    ensures Spaces([c] + rest)
  {
  }

  lemma NoSpaces()
    ensures Spaces("")
  {
  }

  lemma SpaceLast(rest: string, c: char)
    requires IsSpace(c) && Spaces(rest)
    ensures Spaces(rest + [c])
  {
  }

  lemma {:induction false} TrimRightParts(s: string) returns (after: string)
    ensures Spaces(after) && s == TrimRight(s) + after
    ensures TrimRight(s) != "" ==> !IsSpace(TrimRight(s)[|TrimRight(s)| - 1]) && TrimRight(s)[0] == s[0]
  {
    hide Spaces, IsSpace;
    if s != "" && IsSpace(s[|s| - 1]) {
      var front, last := s[..|s| - 1], s[|s| - 1];
      var rest := TrimRightParts(front);
      SpaceLast(rest, last);
      after := rest + [last];
      assert s == front + [last];
      assert TrimRight(front) + rest + [last] == TrimRight(front) + after;
    } else {
      after := "";
      NoSpaces();
      assert s + after == s;
    }
  }

  lemma TrimTrims(s: string)
    ensures Trims(s, Trim(s))
  {
    hide TrimLeft, TrimRight;
    var before := TrimLeftParts(s);
    var after := TrimRightParts(TrimLeft(s));
    assert s == before + Trim(s) + after;
  }

  lemma TrimsOnce(s: string, v: string, w: string)
    requires Trims(s, v) && Trims(s, w)
    ensures |v| <= |w|
  {
    var b, a :| Spaces(b) && Spaces(a) && s == b + v + a;
    var c, d :| Spaces(c) && Spaces(d) && s == c + w + d;
    if v != "" {
      var i, j := |b|, |b| + |v| - 1;
      assert s[i] == v[0] && s[j] == v[|v| - 1];
      assert forall n :: 0 <= n < |c| ==> s[n] == c[n];
      assert forall n :: |c| + |w| <= n < |s| ==> s[n] == d[n - |c| - |w|];
      assert |c| <= i && j < |c| + |w|;
    }
  }

  /** The trimmed text is the only one of its kind. */
  lemma TrimExactly(s: string, v: string)
    ensures Trims(s, v) <==> v == Trim(s)
  {
    hide Trim;
    TrimTrims(s);
    if Trims(s, v) {
      var w := Trim(s);
      TrimsOnce(s, v, w);
      TrimsOnce(s, w, v);
      TrimsSame(s, v, w);
    }
  }

  lemma TrimsSame(s: string, v: string, w: string)
    requires Trims(s, v) && Trims(s, w) && |v| == |w|
    ensures v == w
  {
    var b, a :| Spaces(b) && Spaces(a) && s == b + v + a;
    var c, d :| Spaces(c) && Spaces(d) && s == c + w + d;
    if v != "" {
      assert s[|b|] == v[0] && s[|c|] == w[0];
      assert forall n :: 0 <= n < |c| ==> s[n] == c[n];
      assert forall n :: 0 <= n < |b| ==> s[n] == b[n];
      assert |b| == |c|;
      assert s[|b|..|b| + |v|] == v && s[|c|..|c| + |w|] == w;
    }
  }

  /** One header line sets the field before its first colon to the trimmed text
      after it, and nothing else. */
  lemma HeaderGives(r: Request, line: string, k: string)
    requires ':' in line
    ensures Find(line, ':') < |line|
    ensures var v := Assigned(line, k, ':'); var q := AddHeader(r, line, Find(line, ':'));
      && q == r.(headers := q.headers)
      && Lookup(q.headers, k) == if v.Some? then Some(Trim(v.value)) else Lookup(r.headers, k)
  {
    hide Trim, Assigned;
    assert line[..|line|] == line;
    AssignedAtMark(line, k, ':');
  }

  // ---------- Request lines ----------

  predicate Known(version: string)
  {
    version == "HTTP/1.1" || version == "HTTP/1.0"
  }

  lemma KnownExactly(r: Request, version: string)
    ensures SetVersion(r, version) == (Known(version), if Known(version) then r.(version := version) else r)
  {
    assert "HTTP/1.1"[..7] == "HTTP/1." && "HTTP/1.0"[..7] == "HTTP/1.";
    if SetVersion(r, version).0 {
      assert version == version[..7] + [version[7]];
    }
  }

  function Target(path: string, query: Option<string>): string
  {
    if query.Some? then path + "?" + query.value else path
  }

  /** A line of three words with a known method sets the method, the path up to the
      first '?' and the parameters of the text after it; it is accepted, and sets
      the version, exactly when the third word is one of the two versions. */
  lemma RequestLineReads(r: Request, verb: string, path: string, query: Option<string>, version: string)
    requires !MethodOf(verb).Invalid? && ' ' !in verb
    requires ' ' !in path && '?' !in path && (query.Some? ==> ' ' !in query.value)
    ensures RequestLine(r, verb + [' '] + (Target(path, query) + [' '] + version)) ==
      (Known(version), r.(verb := MethodOf(verb), version := if Known(version) then version else r.version, path := path,
                          query := if query.Some? then AddQuery(r.query, query.value) else r.query))
  {
    hide Find, MethodOf, AddQuery, SetVersion, SetTarget, Known;
    var target := Target(path, query);
    var tail := target + [' '] + version;
    var line := verb + [' '] + tail;
    FindAfter(verb, ' ', tail);
    assert line[..|verb|] == verb && line[|verb| + 1..] == tail;
    FindAfter(target, ' ', version);
    assert tail[..|target|] == target && tail[|target| + 1..] == version;
    TargetReads(r.(verb := MethodOf(verb)), path, query);
    KnownExactly(SetTarget(r.(verb := MethodOf(verb)), target), version);
  }

  /** Other lines are refused: without a space they set nothing, with an unknown or
      a lone method only that. */
  lemma ShortLineReads(r: Request, verb: string, tail: string)
    requires ' ' !in verb
    ensures RequestLine(r, verb) == (false, r)
    ensures MethodOf(verb).Invalid? || ' ' !in tail ==>
      RequestLine(r, verb + [' '] + tail) == (false, r.(verb := MethodOf(verb)))
  {
    hide Find, MethodOf, AddQuery;
    FindAfter(verb, ' ', tail);
    var line := verb + [' '] + tail;
    assert line[..|verb|] == verb && line[|verb| + 1..] == tail;
    if ' ' !in tail { FindAfter(tail, ' ', ""); }
  }

  lemma TargetReads(r: Request, path: string, query: Option<string>)
    requires '?' !in path
    ensures SetTarget(r, Target(path, query)) ==
      r.(path := path, query := if query.Some? then AddQuery(r.query, query.value) else r.query)
  {
    hide Find, AddQuery;
    if query.Some? {
      FindAfter(path, '?', query.value);
      var target := path + "?" + query.value;
      assert target == path + ("?" + query.value) == path + ['?'] + query.value;
      assert target[..|path|] == path && target[|path| + 1..] == query.value;
    } else {
      FindAfter(path, '?', "");
    }
  }
}
