/** The '|'-delimited text of cached orders in
    apps/order_server/infra/cache/OrderCache.cpp, and its list form. Amounts are
    whole cents, times are nanoseconds since the epoch. */
module OrderCodec {
  import opened Runs
  import opened Decimal
  import opened Text

  const NANOS: int := 1_000_000_000
  const INT64: int := 0x8000_0000_0000_0000
  const INT32: int := 0x8000_0000

  /** `status` is the numeric value of the one-byte enumeration. */
  datatype Record = Record(
    orderId: string, userId: string, productId: string, quantity: nat, cents: int, currency: string,
    status: nat, statusReason: string, payload: string, createdAt: int, updatedAt: int)

  const DEFAULT_CURRENCY := "CNY"

  /** The values the C++ types can hold. */
  predicate InRange(r: Record)
  {
    r.quantity < TWO32 && r.status < 256 && -INT64 <= r.createdAt < INT64 && -INT64 <= r.updatedAt < INT64
  }

  predicate AllTexts(r: Record, ok: string -> bool)
  {
    && ok(r.orderId) && ok(r.userId) && ok(r.productId) && ok(r.currency)
    && ok(r.statusReason) && ok(r.payload)
  }

  predicate NoBar(s: string)
  {
    '|' !in s
  }

  predicate NoBreak(s: string)
  {
    '|' !in s && '\n' !in s
  }

  // ---------- Numbers ----------

  /** duration_cast to seconds: truncation towards zero. */
  function Seconds(t: int): int
  {
    if t < 0 then -(-t / NANOS) else t / NANOS
  }

  function ShowMagnitude(n: nat): string
  {
    Show(n / 100) + "." + [Digit(n / 10 % 10), Digit(n % 10)]
  }

  /** Fixed with two decimals. */
  function ShowCents(c: int): string
  {
    if c < 0 then "-" + ShowMagnitude(-c) else ShowMagnitude(c)
  }

  /** std::stod on a number with exactly two decimals; anything else is None. */
  function ReadCents(s: string): Option<int>
  {
    if s != "" && s[0] == '-' then
      match ReadMagnitude(s[1..])
      case None => None
      case Some(n) => Some(0 - n)
    else ReadMagnitude(s)
  }

  function ReadMagnitude(u: string): Option<int>
  {
    if |u| < 4 || u[|u| - 3] != '.' || !AllDigits(u[..|u| - 3]) || !IsDigit(u[|u| - 2]) || !IsDigit(u[|u| - 1]) then None
    else Some(100 * Value(u[..|u| - 3]) + 10 * DigitOf(u[|u| - 2]) + DigitOf(u[|u| - 1]))
  }

  lemma MagnitudeReadsBack(n: nat)
    ensures ReadMagnitude(ShowMagnitude(n)) == Some(n)
    ensures ShowMagnitude(n) != "" && IsDigit(ShowMagnitude(n)[0])
  {
    hide Value, Show;
    var s, w := ShowMagnitude(n), Show(n / 100);
    assert s[..|s| - 3] == w;
    assert IsDigit(w[0]);
    ValueOfShow(n / 100);
    assert n == 100 * (n / 100) + 10 * (n / 10 % 10) + n % 10;
  }

  lemma CentsReadBack(c: int)
    ensures ReadCents(ShowCents(c)) == Some(c)
  {
    hide ReadMagnitude, ShowMagnitude;
    if c < 0 {
      MagnitudeReadsBack(-c);
      assert ShowCents(c)[1..] == ShowMagnitude(-c);
    } else {
      MagnitudeReadsBack(c);
    }
  }

  // ---------- Serialize ----------

  /** The eleven fields in order. */
  function Fields(r: Record): (f: seq<string>)
    ensures |f| == 11
  {
    [r.orderId, r.userId, r.productId, Show(r.quantity), ShowCents(r.cents), r.currency,
     Show(r.status), r.statusReason, r.payload, ShowInt(Seconds(r.createdAt)), ShowInt(Seconds(r.updatedAt))]
  }

  function Join(parts: seq<string>, sep: char): string
  {
    if parts == [] then ""
    else if |parts| == 1 then parts[0]
    else parts[0] + [sep] + Join(parts[1..], sep)
  }

  function Serialize(r: Record): string
  {
    Join(Fields(r), '|')
  }

  // ---------- Deserialize ----------

  /** An input string stream: the unread text, and whether reads still work. */
  datatype Stream = Stream(rest: string, good: bool)

  /** std::getline: the text up to the delimiter, or up to the end, which ends
      the stream; a stream that has ended leaves the target as it was. */
  function GetLine(s: Stream, sep: char, old_: string): (string, Stream)
  {
    if !s.good then (old_, s)
    else
      var i := Find(s.rest, sep);
      if i < |s.rest| then (s.rest[..i], Stream(s.rest[i + 1..], true)) else (s.rest, Stream("", false))
  }

  /** What eleven calls of getline read; a token variable is shared, so a field
      read after the end repeats the previous token. */
  function Tokens(payload: string): (f: seq<string>)
    ensures |f| == 11
  {
    var (t0, s0) := GetLine(Stream(payload, true), '|', "");
    var (t1, s1) := GetLine(s0, '|', "");
    var (t2, s2) := GetLine(s1, '|', "");
    var (t3, s3) := GetLine(s2, '|', "");
    var (t4, s4) := GetLine(s3, '|', t3);
    var (t5, s5) := GetLine(s4, '|', DEFAULT_CURRENCY);
    var (t6, s6) := GetLine(s5, '|', t4);
    var (t7, s7) := GetLine(s6, '|', "");
    var (t8, s8) := GetLine(s7, '|', "");
    var (t9, s9) := GetLine(s8, '|', t6);
    var (t10, s10) := GetLine(s9, '|', t9);
    [t0, t1, t2, t3, t4, t5, t6, t7, t8, t9, t10]
  }

  /** None is an exception from one of the numeric conversions. */
  function FromTokens(f: seq<string>): Option<Record>
    requires |f| == 11
  {
    match (Stoull(f[3]), ReadCents(f[4]), StoSigned(f[6], INT32), StoSigned(f[9], INT64), StoSigned(f[10], INT64))
    case (Some(quantity), Some(cents), Some(status), Some(created), Some(updated)) =>
      Some(Record(f[0], f[1], f[2], quantity % TWO32, cents, f[5], status % 256, f[7], f[8],
                  created * NANOS, updated * NANOS))
    case _ => None
  }

  function Deserialize(payload: string): Option<Record>
  {
    FromTokens(Tokens(payload))
  }

  /** A record as the text keeps it: times cut to seconds. */
  function Kept(r: Record): Record
  {
    r.(createdAt := Seconds(r.createdAt) * NANOS, updatedAt := Seconds(r.updatedAt) * NANOS)
  }

  // ---------- Round trip ----------

  /** Reading the next of several joined parts. */
  lemma GetLineOfJoin(parts: seq<string>, sep: char, old_: string)
    requires parts != [] && sep !in parts[0]
    ensures GetLine(Stream(Join(parts, sep), true), sep, old_) ==
      (parts[0], if |parts| == 1 then Stream("", false) else Stream(Join(parts[1..], sep), true))
  {
    if |parts| == 1 {
      FindAfter(parts[0], sep, "");
    } else {
      var all := Join(parts, sep);
      FindAfter(parts[0], sep, Join(parts[1..], sep));
      assert all[..|parts[0]|] == parts[0] && all[|parts[0]| + 1..] == Join(parts[1..], sep);
    }
  }

  lemma TokensOfJoin(f: seq<string>)
    requires |f| == 11 && forall i :: 0 <= i < 11 ==> '|' !in f[i]
    ensures Tokens(Join(f, '|')) == f
  {
    hide Tokens, Join;
    TokensOfFields(f);
    assert Padded(f) == f;
  }

  function At(f: seq<string>, i: nat, missing: string): string
  {
    if i < |f| then f[i] else missing
  }

  /** The eleven fields as the decoder takes them from a text that may end early: a
      text field keeps its initial value, a number repeats the last one read. */
  function Padded(f: seq<string>): (g: seq<string>)
    ensures |g| == 11
  {
    var quantity := At(f, 3, "");
    var amount := At(f, 4, quantity);
    var status := At(f, 6, amount);
    var created := At(f, 9, status);
    [At(f, 0, ""), At(f, 1, ""), At(f, 2, ""), quantity, amount, At(f, 5, DEFAULT_CURRENCY), status,
     At(f, 7, ""), At(f, 8, ""), created, At(f, 10, created)]
  }

  /** The stream after `k` of the fields `f`. */
  function Position(f: seq<string>, k: nat): Stream
  {
    if k < |f| then Stream(Join(f[k..], '|'), true) else Stream("", false)
  }

  lemma NextField(f: seq<string>, k: nat, old_: string)
    requires f != [] && forall i :: 0 <= i < |f| ==> '|' !in f[i]
    ensures GetLine(Position(f, k), '|', old_) == (At(f, k, old_), Position(f, k + 1))
  {
    hide Join;
    if k < |f| {
      assert f[k..][1..] == f[k + 1..];
      GetLineOfJoin(f[k..], '|', old_);
    }
  }

  /** What is read from any number of fields, few or many. */
  lemma TokensOfFields(f: seq<string>)
    requires f != [] && forall i :: 0 <= i < |f| ==> '|' !in f[i]
    ensures Tokens(Join(f, '|')) == Padded(f)
  {
    assert f[0..] == f && Position(f, 0) == Stream(Join(f, '|'), true);
    hide Join, GetLine, Position, At;
    forall k: nat, old_: string ensures GetLine(Position(f, k), '|', old_) == (At(f, k, old_), Position(f, k + 1)) {
      NextField(f, k, old_);
    }
  }

  /** Decoding fails exactly when one of the five numbers cannot be read, and
      otherwise gives the fields as they stand, numbers cut to their types. */
  lemma DecodesExactly(f: seq<string>)
    requires f != [] && forall i :: 0 <= i < |f| ==> '|' !in f[i]
    ensures var r := Deserialize(Join(f, '|')); var g := Padded(f);
      var quantity, cents, status := Stoull(g[3]), ReadCents(g[4]), StoSigned(g[6], INT32);
      var created, updated := StoSigned(g[9], INT64), StoSigned(g[10], INT64);
      && (r.Some? <==> quantity.Some? && cents.Some? && status.Some? && created.Some? && updated.Some?)
      && (r.Some? ==>
            && r.value.orderId == g[0] && r.value.userId == g[1] && r.value.productId == g[2]
            && r.value.quantity == quantity.value % TWO32 && r.value.cents == cents.value
            && r.value.currency == g[5] && r.value.status == status.value % 256
            && r.value.statusReason == g[7] && r.value.payload == g[8]
            && r.value.createdAt == created.value * NANOS && r.value.updatedAt == updated.value * NANOS)
  {
    hide Tokens, Join, Stoull, StoSigned, ReadCents, Padded;
    TokensOfFields(f);
  }

  /** The printed numbers contain neither separator. */
  lemma NumbersAreClean(r: Record)
    ensures forall i :: i in [3, 4, 6, 9, 10] ==> NoBreak(Fields(r)[i])
  {
    DigitsAreClean(Show(r.quantity));
    DigitsAreClean(Show(r.status));
    CentsAreClean(r.cents);
    IntIsClean(Seconds(r.createdAt));
    IntIsClean(Seconds(r.updatedAt));
  }

  lemma DigitsAreClean(s: string)
    requires AllDigits(s)
    ensures NoBreak(s)
  {
    forall c | c in s ensures c != '|' && c != '\n' { assert IsDigit(c); }
  }

  lemma IntIsClean(z: int)
    ensures NoBreak(ShowInt(z))
  {
    DigitsAreClean(Show(if z < 0 then -z else z));
  }

  lemma CentsAreClean(c: int)
    ensures NoBreak(ShowCents(c))
  {
    var n := if c < 0 then -c else c;
    DigitsAreClean(Show(n / 100));
    DigitsAreClean([Digit(n / 10 % 10), Digit(n % 10)]);
  }

  lemma FromFields(r: Record)
    requires InRange(r)
    ensures FromTokens(Fields(r)) == Some(Kept(r))
  {
    hide Stoull, ReadCents, StoSigned, Show, ShowCents, ShowInt, Seconds;
    StoullOfShow(r.quantity);
    CentsReadBack(r.cents);
    StatusReadsBack(r.status);
    SecondsReadBack(r.createdAt);
    SecondsReadBack(r.updatedAt);
  }

  lemma StatusReadsBack(n: nat)
    requires n < 256
    ensures StoSigned(Show(n), INT32) == Some(n)
  {
    hide Scan;
    ScanOfShow(n);
  }

  lemma SecondsReadBack(t: int)
    requires -INT64 <= t < INT64
    ensures StoSigned(ShowInt(Seconds(t)), INT64) == Some(Seconds(t))
  {
    hide Scan;
    ScanOfShowInt(Seconds(t));
    assert -INT64 < Seconds(t) < INT64;
  }

  lemma ReadsBack(r: Record)
    requires InRange(r) && AllTexts(r, NoBar)
    ensures Deserialize(Serialize(r)) == Some(Kept(r))
  {
    hide Tokens, FromTokens, ShowCents, ShowInt;
    NumbersAreClean(r);
    var f := Fields(r);
    assert forall i :: 0 <= i < 11 ==> NoBar(f[i]);
    TokensOfJoin(f);
    FromFields(r);
  }

  lemma GetLineIsClean(s: Stream, sep: char, old_: string)
    requires sep !in old_
    ensures sep !in GetLine(s, sep, old_).0
  {
  }

  lemma TokensAreClean(payload: string)
    ensures forall i :: 0 <= i < 11 ==> '|' !in Tokens(payload)[i]
  {
    hide GetLine;
    forall s: Stream, old_: string | '|' !in old_ ensures '|' !in GetLine(s, '|', old_).0 {
      GetLineIsClean(s, '|', old_);
    }
  }

  lemma DecodedHasNoBar(payload: string)
    ensures var r := Deserialize(payload); r.Some? ==> AllTexts(r.value, NoBar)
  {
    hide Tokens, Stoull, ReadCents, StoSigned;
    TokensAreClean(payload);
  }

  /** For every record the C++ types can hold, decoding the encoding gives the
      record back, with times cut to seconds, if and only if no text field
      contains the separator. */
  lemma ReadsBackExactly(r: Record)
    requires InRange(r)
    ensures Deserialize(Serialize(r)) == Some(Kept(r)) <==> AllTexts(r, NoBar)
  {
    hide Serialize, Deserialize;
    if AllTexts(r, NoBar) {
      ReadsBack(r);
    } else {
      DecodedHasNoBar(Serialize(r));
    }
  }

  const SAMPLE := Record("o-1", "u", "p", 12, -350, "CNY", 6, "", "{}", 7_999_999_999, -1)

  /** The fields of one record, written out: joined by '|' they are its text. */
  lemma SampleFields()
    ensures ShowCents(0) == "0.00"
    ensures Fields(SAMPLE) == ["o-1", "u", "p", "12", "-3.50", "CNY", "6", "", "{}", "7", "0"]
  {
    assert Show(1) == "1";
    assert Show(12) == "12";
    assert Seconds(7_999_999_999) == 7 && Seconds(-1) == 0;
    assert ShowMagnitude(350) == "3.50" by {
      assert Show(3) == "3" && Digit(5) == '5' && Digit(0) == '0';
    }
    assert ShowCents(-350) == "-3.50";
  }

  // ---------- Lists ----------

  function SerializeAll(rs: seq<Record>): seq<string>
  {
    seq(|rs|, i requires 0 <= i < |rs| => Serialize(rs[i]))
  }

  /** serializeOrderList. */
  method SerializeList(rs: seq<Record>) returns (text: string)
    ensures text == Join(SerializeAll(rs), '\n')
  {
    hide Serialize;
    text := "";
    for i := 0 to |rs|
      invariant text == Join(SerializeAll(rs[..i]), '\n')
    {
      JoinSnoc(SerializeAll(rs[..i]), Serialize(rs[i]), '\n');
      assert SerializeAll(rs[..i + 1]) == SerializeAll(rs[..i]) + [Serialize(rs[i])];
      if i > 0 {
        text := text + ['\n'];
      }
      text := text + Serialize(rs[i]);
    }
    assert rs[..|rs|] == rs;
  }

  lemma {:induction false} JoinSnoc(parts: seq<string>, last: string, sep: char)
    ensures Join(parts + [last], sep) == if parts == [] then last else Join(parts, sep) + [sep] + last
  {
    if |parts| == 1 {
      assert (parts + [last])[1..] == [last];
    } else if parts != [] {
      assert (parts + [last])[1..] == parts[1..] + [last];
      JoinSnoc(parts[1..], last, sep);
      assert parts[0] + [sep] + (Join(parts[1..], sep) + [sep] + last) == parts[0] + [sep] + Join(parts[1..], sep) + [sep] + last;
    }
  }

  /** The lines std::getline delivers before it reports failure. */
  function Lines(text: string): seq<string>
    decreases |text|
  {
    var i := Find(text, '\n');
    if i < |text| then [text[..i]] + Lines(text[i + 1..])
    else if text == "" then [] else [text]
  }

  function DecodeLines(lines: seq<string>): Option<seq<Record>>
  {
    if lines == [] then Some([])
    else if lines[0] == "" then DecodeLines(lines[1..])
    else
      match (Deserialize(lines[0]), DecodeLines(lines[1..]))
      case (Some(r), Some(rs)) => Some([r] + rs)
      case _ => None
  }

  function DeserializeList(text: string): Option<seq<Record>>
  {
    DecodeLines(Lines(text))
  }

  /** deserializeOrderList: the loop stops at the first exception. */
  method DeserializeListLoop(text: string) returns (list: Option<seq<Record>>)
    ensures list == DeserializeList(text)
  {
    hide Deserialize, DecodeLines, Lines;
    var out: seq<Record> := [];
    var rest := text;
    assert forall v: seq<Record> :: out + v == v;
    while rest != ""
      invariant DeserializeList(text) == Prepended(out, DecodeLines(Lines(rest)))
      decreases |rest|
    {
      NextLine(rest, out);
      var i := Find(rest, '\n');
      var line := rest[..i];
      rest := if i < |rest| then rest[i + 1..] else "";
      if line != "" {
        var r := Deserialize(line);
        if r.None? {
          return None;
        }
        out := out + [r.value];
      }
    }
    NoLines();
    assert out + [] == out;
    return Some(out);
  }

  function Prepended(out: seq<Record>, rs: Option<seq<Record>>): Option<seq<Record>>
  {
    match rs
    case None => None
    case Some(v) => Some(out + v)
  }

  lemma NoLines()
    ensures DecodeLines(Lines("")) == Some([])
  {
  }

  /** What one call of getline contributes. */
  lemma NextLine(rest: string, out: seq<Record>)
    requires rest != ""
    ensures var i := Find(rest, '\n');
      var more := if i < |rest| then rest[i + 1..] else "";
      Prepended(out, DecodeLines(Lines(rest))) ==
        if rest[..i] == "" then Prepended(out, DecodeLines(Lines(more)))
        else if Deserialize(rest[..i]).None? then None
        else Prepended(out + [Deserialize(rest[..i]).value], DecodeLines(Lines(more)))
  {
    hide Deserialize;
    var i := Find(rest, '\n');
    var more := if i < |rest| then rest[i + 1..] else "";
    NoLines();
    assert rest[..|rest|] == rest;
    assert Lines(rest) == [rest[..i]] + Lines(more);
    assert Lines(rest)[1..] == Lines(more);
    if rest[..i] != "" && Deserialize(rest[..i]).Some? && DecodeLines(Lines(more)).Some? {
      var r, v := Deserialize(rest[..i]).value, DecodeLines(Lines(more)).value;
      assert out + ([r] + v) == out + [r] + v;
    }
  }

  function KeptAll(rs: seq<Record>): seq<Record>
  {
    seq(|rs|, i requires 0 <= i < |rs| => Kept(rs[i]))
  }

  lemma {:induction false} JoinClean(parts: seq<string>, sep: char)
    requires sep != '\n' && forall part :: part in parts ==> '\n' !in part
    ensures '\n' !in Join(parts, sep)
  {
    if parts != [] { JoinClean(parts[1..], sep); }
  }

  lemma SerializedLine(r: Record)
    requires AllTexts(r, NoBreak)
    ensures '\n' !in Serialize(r) && Serialize(r) != ""
  {
    hide ShowCents, ShowInt;
    NumbersAreClean(r);
    var f := Fields(r);
    assert forall i :: 0 <= i < 11 ==> NoBreak(f[i]);
    JoinClean(f, '|');
  }

  lemma {:induction false} LinesOfJoin(parts: seq<string>)
    requires forall part :: part in parts ==> '\n' !in part && part != ""
    ensures Lines(Join(parts, '\n')) == parts
  {
    if parts != [] {
      assert parts[0] in parts;
      if |parts| == 1 {
        FindAfter(parts[0], '\n', "");
      } else {
        var all := Join(parts, '\n');
        FindAfter(parts[0], '\n', Join(parts[1..], '\n'));
        assert all[..|parts[0]|] == parts[0] && all[|parts[0]| + 1..] == Join(parts[1..], '\n');
        LinesOfJoin(parts[1..]);
      }
    }
  }

  lemma {:induction false} DecodeSerialized(rs: seq<Record>)
    requires forall r :: r in rs ==> InRange(r) && AllTexts(r, NoBreak)
    ensures DecodeLines(SerializeAll(rs)) == Some(KeptAll(rs))
  {
    hide Serialize, Deserialize;
    if rs != [] {
      assert rs[0] in rs;
      SerializedLine(rs[0]);
      ReadsBack(rs[0]);
      DecodeSerialized(rs[1..]);
      assert SerializeAll(rs)[1..] == SerializeAll(rs[1..]);
      assert KeptAll(rs) == [Kept(rs[0])] + KeptAll(rs[1..]);
    }
  }

  lemma {:induction false} LinesAreClean(text: string)
    ensures forall line :: line in Lines(text) ==> '\n' !in line
    decreases |text|
  {
    var i := Find(text, '\n');
    if i < |text| {
      LinesAreClean(text[i + 1..]);
    } else {
      assert text[..i] == text;
    }
  }

  lemma TokensWithin(payload: string)
    requires '\n' !in payload
    ensures forall i :: 0 <= i < 11 ==> '\n' !in Tokens(payload)[i]
  {
    hide GetLine;
    forall s: Stream, old_: string | '\n' !in s.rest && '\n' !in old_
      ensures '\n' !in GetLine(s, '|', old_).0 && '\n' !in GetLine(s, '|', old_).1.rest
    {
      GetLineWithin(s, old_);
    }
  }

  lemma GetLineWithin(s: Stream, old_: string)
    requires '\n' !in s.rest && '\n' !in old_
    ensures '\n' !in GetLine(s, '|', old_).0 && '\n' !in GetLine(s, '|', old_).1.rest
  {
  }

  lemma DecodedIsClean(line: string)
    requires '\n' !in line
    ensures var r := Deserialize(line); r.Some? ==> AllTexts(r.value, NoBreak)
  {
    hide Tokens, Stoull, ReadCents, StoSigned;
    TokensAreClean(line);
    TokensWithin(line);
    var f := Tokens(line);
    assert forall i :: 0 <= i < 11 ==> NoBreak(f[i]);
  }

  lemma {:induction false} DecodedListIsClean(lines: seq<string>)
    requires forall line :: line in lines ==> '\n' !in line
    ensures var rs := DecodeLines(lines); rs.Some? ==> forall r :: r in rs.value ==> AllTexts(r, NoBreak)
  {
    hide Deserialize, AllTexts;
    if lines != [] {
      DecodedIsClean(lines[0]);
      DecodedListIsClean(lines[1..]);
    }
  }

  /** The list versions invert each other on every list, the empty one included,
      if and only if no text field contains either separator. */
  lemma ListReadsBackExactly(rs: seq<Record>)
    requires forall r :: r in rs ==> InRange(r)
    ensures DeserializeList(Join(SerializeAll(rs), '\n')) == Some(KeptAll(rs))
      <==> forall r :: r in rs ==> AllTexts(r, NoBreak)
  {
    hide Serialize, Deserialize, DecodeLines, Lines;
    var text := Join(SerializeAll(rs), '\n');
    if forall r :: r in rs ==> AllTexts(r, NoBreak) {
      forall part | part in SerializeAll(rs) ensures '\n' !in part && part != "" {
        var i :| 0 <= i < |rs| && part == Serialize(rs[i]);
        SerializedLine(rs[i]);
      }
      LinesOfJoin(SerializeAll(rs));
      DecodeSerialized(rs);
    } else {
      LinesAreClean(text);
      DecodedListIsClean(Lines(text));
      var r :| r in rs && !AllTexts(r, NoBreak);
      var i :| 0 <= i < |rs| && rs[i] == r;
      assert KeptAll(rs)[i] in KeptAll(rs) && !AllTexts(Kept(r), NoBreak);
    }
  }
}
