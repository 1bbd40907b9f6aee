/** Amounts in the SQL text of apps/order_server/infra/db/OrderRepository.cpp:
    streamed with the default precision, that is with six significant digits.
    Amounts are whole cents. */
module SqlAmount {

  const SIX: nat := 1_000_000

  function Pow10(j: nat): (p: nat)
    ensures p > 0
  {
    if j == 0 then 1 else 10 * Pow10(j - 1)
  }

  /** The weight of the sixth significant digit, at least one cent. */
  function Unit(n: nat): (u: nat)
    ensures 0 < u && (u == 1 || u <= n)
  {
    if n < SIX then 1 else 10 * Unit(n / 10)
  }

  /** The nearest number with six significant digits; `up` says which way a tie
      goes, which depends on the binary form of the amount. */
  function Round(n: nat, up: bool): nat
  {
    var u := Unit(n);
    var over := Over(n, u);
    if 2 * over < u || (2 * over == u && !up) then n - over else n - over + u
  }

  /** What `n` has beyond a multiple of `u`. */
  function Over(n: nat, u: nat): (r: nat)
    requires u > 0
    ensures r < u && r <= n
  {
    n % u
  }

  /** The amount that the database reads from the text. */
  function Stored(cents: int, up: bool): int
  {
    if cents < 0 then 0 - Round(-cents, up) else Round(cents, up)
  }

  /** Nothing but zeros after the sixth digit. */
  predicate SixDigits(n: nat)
  {
    n < SIX || (n % 10 == 0 && SixDigits(n / 10))
  }

  function Size(cents: int): nat
  {
    if cents < 0 then -cents else cents
  }

  predicate Short(cents: int)
  {
    SixDigits(Size(cents))
  }

  lemma DivMod(n: nat, u: nat, q: nat, r: nat)
    requires n == q * u + r && r < u
    ensures n / u == q && n % u == r
  {
    var d := n / u - q;
    assert n == n / u * u + n % u;
    assert d * u == r - n % u;
    assert d >= 1 ==> d * u >= u;
    assert d <= -1 ==> d * u <= 0 - u;
  }

  lemma TenTimes(n: nat, u: nat)
    requires u > 0
    ensures n / (10 * u) == n / 10 / u && n % (10 * u) == 10 * (n / 10 % u) + n % 10
  {
    var a := n / 10;
    assert a == a / u * u + a % u;
    assert 10 * (a / u * u) == a / u * (10 * u);
    DivMod(n, 10 * u, a / u, 10 * (a % u) + n % 10);
  }

  lemma {:induction false} ShortIsWhole(n: nat)
    ensures SixDigits(n) <==> Over(n, Unit(n)) == 0
  {
    if n >= SIX {
      ShortIsWhole(n / 10);
      TenTimes(n, Unit(n / 10));
    }
  }

  predicate Scaled(n: nat, k: nat, j: nat)
  {
    k < SIX && n == k * Pow10(j)
  }

  /** Six digits, as a number below a million times a power of ten. */
  lemma ShortExactly(n: nat)
    ensures SixDigits(n) <==> exists k, j :: Scaled(n, k, j)
  {
    if SixDigits(n) {
      var k, j := ShortParts(n);
      assert Scaled(n, k, j);
    }
    if exists k, j :: Scaled(n, k, j) {
      var k, j :| Scaled(n, k, j);
      PartsShort(k, j);
    }
  }

  lemma {:induction false} ShortParts(n: nat) returns (k: nat, j: nat)
    requires SixDigits(n)
    ensures k < SIX && n == k * Pow10(j)
  {
    if n < SIX {
      k, j := n, 0;
    } else {
      k, j := ShortParts(n / 10);
      j := j + 1;
      assert k * (10 * Pow10(j - 1)) == 10 * (k * Pow10(j - 1));
    }
  }

  lemma {:induction false} PartsShort(k: nat, j: nat)
    requires k < SIX
    ensures SixDigits(k * Pow10(j))
  {
    if j > 0 {
      assert k * Pow10(j) == 10 * (k * Pow10(j - 1));
      PartsShort(k, j - 1);
    }
  }

  lemma {:induction false} UnitParts(n: nat) returns (j: nat)
    ensures Unit(n) == Pow10(j) && n / Unit(n) < SIX
  {
    if n < SIX {
      j := 0;
    } else {
      j := UnitParts(n / 10);
      j := j + 1;
      TenTimes(n, Unit(n / 10));
    }
  }

  lemma Split(n: nat, u: nat)
    requires u > 0
    ensures n - Over(n, u) == n / u * u && n - Over(n, u) + u == (n / u + 1) * u
  {
    var q := n / u;
    assert n == q * u + n % u;
    assert (q + 1) * u == q * u + u;
  }

  lemma RoundParts(n: nat, up: bool) returns (q: nat)
    ensures q == n / Unit(n) && (Round(n, up) == q * Unit(n) || Round(n, up) == (q + 1) * Unit(n))
  {
    hide Over, Unit;
    q := n / Unit(n);
    Split(n, Unit(n));
  }

  lemma RoundIsShort(n: nat, up: bool)
    ensures SixDigits(Round(n, up))
  {
    hide Round, SixDigits;
    var q := RoundParts(n, up);
    var j := UnitParts(n);
    PartsShort(q, j);
    if q + 1 < SIX {
      PartsShort(q + 1, j);
    } else {
      CarriesOver(j);
      PartsShort(100_000, j + 1);
    }
  }

  lemma CarriesOver(j: nat)
    ensures SIX * Pow10(j) == 100_000 * Pow10(j + 1)
  {
  }

  lemma RoundExactly(n: nat, up: bool)
    ensures Round(n, up) == n <==> SixDigits(n)
    ensures Unit(n) >= 2 * (Round(n, up) - n) >= 0 - Unit(n)
  {
    hide SixDigits, Unit;
    ShortIsWhole(n);
  }

  /** The database keeps an amount if and only if it has at most six significant
      digits. What it keeps has, is off by at most half a unit of the sixth digit,
      and stays as it is when stored again. */
  lemma StoredExactly(cents: int, up: bool)
    ensures Stored(cents, up) == cents <==> Short(cents)
    ensures Unit(Size(cents)) >= 2 * (Stored(cents, up) - cents) >= 0 - Unit(Size(cents))
    ensures Short(Stored(cents, up)) && forall again :: Stored(Stored(cents, up), again) == Stored(cents, up)
  {
    hide Round, SixDigits, Unit;
    var n := Size(cents);
    RoundExactly(n, up);
    RoundIsShort(n, up);
    forall again ensures Stored(Stored(cents, up), again) == Stored(cents, up) { RoundExactly(Round(n, up), again); }
  }

  /** 12345.67 is kept as 12345.7, whichever way ties go. */
  lemma SampleAmount(up: bool)
    ensures Stored(1_234_567, up) == 1_234_570 && !Short(1_234_567)
  {
    assert Unit(1_234_567) == 10;
  }
}
