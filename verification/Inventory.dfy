/** Stock and reservations in Redis, as in
    apps/order_server/domain/InventoryService.cpp. Redis is a map; every call
    comes with the answer it got. */
module Inventory {
  import opened Runs
  import opened Decimal
  import opened Text

  type Redis = map<string, string>

  const STOCK_PREFIX := "inventory:stock:"
  const RESERVATION_PREFIX := "inventory:reservation:"
  const ORDER_PREFIX := "order:detail:"

  /** What became of a write: done, refused, or performed with the reply lost,
      which the caller takes for a failure. */
  datatype Write = Done | Refused | Lost

  datatype ReserveCalls = ReserveCalls(client: bool, get: bool, set_: Write, cache: Write)
  datatype ReleaseCalls = ReleaseCalls(client: bool, get: bool, set_: Write, del: bool)

  predicate FineReserve(c: ReserveCalls)
  {
    c.client && c.get && c.set_.Done? && c.cache.Done?
  }

  predicate FineRelease(c: ReleaseCalls)
  {
    c.client && c.get && c.set_.Done?
  }

  function StockKey(product: string): string
  {
    STOCK_PREFIX + product
  }

  function ReservationKey(id: string): string
  {
    RESERVATION_PREFIX + id
  }

  function OrderKey(id: string): string
  {
    ORDER_PREFIX + id
  }

  function ReservationId(order: string, product: string): string
  {
    order + ":" + product
  }

  function Put(m: Redis, key: string, value: string, w: Write): Redis
  {
    if w.Refused? then m else m[key := value]
  }

  /** ReserveForOrder: whether it succeeded, and Redis afterwards. */
  function Reserve(m: Redis, order: string, product: string, quantity: nat, c: ReserveCalls): (bool, Redis)
  {
    var key := StockKey(product);
    if !c.client || !c.get || key !in m then (false, m)
    else
      match Stoull(m[key])
      case None => (false, m)
      case Some(stock) =>
        if stock < quantity then (false, m)
        else
          var m1 := Put(m, key, Show(stock - quantity), c.set_);
          if !c.set_.Done? then (false, m1)
          else
            var text := order + "," + product + "," + Show(quantity) + ",";
            (c.cache.Done?, Put(m1, ReservationKey(ReservationId(order, product)), text, c.cache))
  }

  /** ReleaseReservation; incrementStock adds in 64 bits. */
  function Release(m: Redis, reservation: string, product: string, quantity: nat, c: ReleaseCalls): (bool, Redis)
  {
    var key := StockKey(product);
    if !c.client || !c.get || key !in m then (false, m)
    else
      match Stoull(m[key])
      case None => (false, m)
      case Some(stock) =>
        var m1 := Put(m, key, Show((stock + quantity) % TWO64), c.set_);
        if !c.set_.Done? then (false, m1)
        else (true, if c.del then m1 - {ReservationKey(reservation)} else m1)
  }

  // ---------- The stock of a product ----------

  /** The key holds a number. */
  predicate HasStock(m: Redis, product: string)
  {
    StockKey(product) in m && Stoull(m[StockKey(product)]).Some?
  }

  function Stock(m: Redis, product: string): (n: nat)
    ensures n < TWO64
  {
    if HasStock(m, product) then Stoull(m[StockKey(product)]).value else 0
  }

  /** Two families of keys never meet if and only if neither prefix begins the
      other. */
  lemma PrefixesApartExactly(a: string, b: string)
    ensures (forall p: string, q: string {:trigger a + p, b + q} :: a + p != b + q) <==> !(a <= b) && !(b <= a)
  {
    if a <= b {
      assert a + b[|a|..] == b + "";
    } else if b <= a {
      assert a + "" == b + a[|b|..];
    } else {
      forall p: string, q: string ensures a + p != b + q { OneBeginsTheOther(a, p, b, q); }
    }
  }

  lemma OneBeginsTheOther(a: string, p: string, b: string, q: string)
    ensures a + p == b + q ==> a <= b || b <= a
  {
    assert (a + p)[..|a|] == a && (b + q)[..|b|] == b;
    if a + p == b + q {
      assert if |a| <= |b| then a == b[..|a|] else b == a[..|b|];
    }
  }

  lemma StockKeysApart(p: string, q: string)
    ensures StockKey(p) == StockKey(q) <==> p == q
    ensures StockKey(p) != ReservationKey(q) && StockKey(p) != OrderKey(q)
    ensures OrderKey(p) == OrderKey(q) <==> p == q
    ensures OrderKey(p) != ReservationKey(q)
  {
    assert StockKey(p)[|STOCK_PREFIX|..] == p && StockKey(q)[|STOCK_PREFIX|..] == q;
    assert OrderKey(p)[|ORDER_PREFIX|..] == p && OrderKey(q)[|ORDER_PREFIX|..] == q;
    assert STOCK_PREFIX[10] == 's' && RESERVATION_PREFIX[10] == 'r';
    assert STOCK_PREFIX[0] == 'i' == RESERVATION_PREFIX[0] && ORDER_PREFIX[0] == 'o';
    PrefixesApartExactly(STOCK_PREFIX, RESERVATION_PREFIX);
    PrefixesApartExactly(STOCK_PREFIX, ORDER_PREFIX);
    PrefixesApartExactly(ORDER_PREFIX, RESERVATION_PREFIX);
  }

  /** Two stores agree on the stock of `product`. */
  ghost predicate SameStock(m: Redis, n: Redis, product: string)
  {
    Stock(m, product) == Stock(n, product) && (HasStock(m, product) <==> HasStock(n, product))
  }

  lemma PutElsewhere(m: Redis, key: string, value: string, w: Write, product: string)
    requires key != StockKey(product)
    ensures SameStock(m, Put(m, key, value, w), product)
  {
  }

  lemma PutStock(m: Redis, product: string, n: nat, w: Write)
    requires n < TWO64 && HasStock(m, product)
    ensures var r := Put(m, StockKey(product), Show(n), w);
      HasStock(r, product) && Stock(r, product) == if w.Refused? then Stock(m, product) else n
  {
    StoullOfShow(n);
  }

  /** A reservation succeeds exactly when every call does and the stock is a number
      of at least its quantity. It takes exactly its quantity from its product
      when it succeeds, takes nothing when it fails with every call answered, and
      never adds. */
  lemma ReserveEffect(m: Redis, order: string, product: string, quantity: nat, c: ReserveCalls, p: string)
    ensures var (ok, r) := Reserve(m, order, product, quantity, c);
      && (HasStock(m, p) ==> HasStock(r, p))
      && (p != product ==> SameStock(m, r, p))
      && Stock(r, p) <= Stock(m, p)
      && (ok <==> FineReserve(c) && HasStock(m, product) && quantity <= Stock(m, product))
      && (ok ==> HasStock(r, product) && Stock(r, product) + quantity == Stock(m, product))
      && (!ok && FineReserve(c) ==> SameStock(m, r, p))
  {
    hide Stoull, Show;
    var rid := ReservationId(order, product);
    StockKeysApart(product, p);
    StockKeysApart(p, rid);
    StockKeysApart(product, rid);
    if HasStock(m, product) && Stock(m, product) >= quantity {
      PutStock(m, product, Stock(m, product) - quantity, c.set_);
    }
  }

  /** The reservation reaches the stock key. */
  predicate Debits(m: Redis, product: string, quantity: nat, c: ReserveCalls)
  {
    c.client && c.get && HasStock(m, product) && quantity <= Stock(m, product) && !c.set_.Refused?
  }

  /** What a reservation leaves in Redis, whatever became of its calls: the stock is
      debited once its write is performed, even if the reply is lost; the entry is
      written after a debit that was confirmed; no other key changes. */
  lemma ReserveWrites(m: Redis, order: string, product: string, quantity: nat, c: ReserveCalls, key: string)
    ensures var r := Reserve(m, order, product, quantity, c).1; var entry := ReservationKey(ReservationId(order, product));
      && Stock(r, product) == Stock(m, product) - (if Debits(m, product, quantity, c) then quantity else 0)
      && (Debits(m, product, quantity, c) && c.set_.Done? && !c.cache.Refused? ==>
            entry in r && r[entry] == order + "," + product + "," + Show(quantity) + ",")
      && (key != StockKey(product)
          && (key != entry || !Debits(m, product, quantity, c) || !c.set_.Done? || c.cache.Refused?) ==>
            (key in r <==> key in m) && (key in m ==> r[key] == m[key]))
  {
    hide Stoull, Show;
    StockKeysApart(product, ReservationId(order, product));
    if HasStock(m, product) && Stock(m, product) >= quantity {
      PutStock(m, product, Stock(m, product) - quantity, c.set_);
    }
  }

  /** fetchReservation's reading of an entry: order, product and quantity. */
  function Entry(text: string): (string, string, Option<nat>)
  {
    var i := Find(text, ',');
    var rest := if i < |text| then text[i + 1..] else "";
    var j := Find(rest, ',');
    (text[..i], rest[..j], if j < |rest| then Stoull(rest[j + 1..]) else None)
  }

  /** An entry reads back as the order, product and quantity it was written for. */
  lemma EntryReadsBack(order: string, product: string, quantity: nat)
    requires ',' !in order && ',' !in product && quantity < TWO64
    ensures Entry(order + "," + product + "," + Show(quantity) + ",") == (order, product, Some(quantity))
  {
    hide Find, Show, Stoull;
    var number := Show(quantity) + ",";
    var rest := product + [','] + number;
    var text := order + [','] + rest;
    assert order + "," + product + "," + Show(quantity) + "," == text;
    FindAfter(order, ',', rest);
    FindAfter(product, ',', number);
    assert text[..|order|] == order && text[|order| + 1..] == rest;
    assert rest[..|product|] == product && rest[|product| + 1..] == number;
    NumberThenComma(quantity);
  }

  lemma NumberThenComma(n: nat)
    requires n < TWO64
    ensures Stoull(Show(n) + ",") == Some(n)
  {
    hide Stoull, Value, Show;
    var text := Show(n) + ",";
    assert text == "" + "" + Show(n) + ",";
    ValueOfShow(n);
    StoullOfParts(text, "", "", Show(n), ",");
  }

  /** What a release leaves in Redis: the stock is credited, in 64 bits, once its
      write is performed; the entry is deleted after a credit that was confirmed;
      no other key changes; and it succeeds when the credit is confirmed. */
  lemma ReleaseWrites(m: Redis, reservation: string, product: string, quantity: nat, c: ReleaseCalls, key: string)
    ensures var (ok, r) := Release(m, reservation, product, quantity, c); var entry := ReservationKey(reservation);
      && (ok <==> FineRelease(c) && HasStock(m, product))
      && Stock(r, product) == (if c.client && c.get && HasStock(m, product) && !c.set_.Refused?
                               then (Stock(m, product) + quantity) % TWO64 else Stock(m, product))
      && (ok && c.del ==> entry !in r)
      && (key != StockKey(product) && (key != entry || !ok || !c.del) ==>
            (key in r <==> key in m) && (key in m ==> r[key] == m[key]))
  {
    hide Stoull, Show;
    StockKeysApart(product, reservation);
    if HasStock(m, product) {
      PutStock(m, product, (Stock(m, product) + quantity) % TWO64, c.set_);
    }
  }

  /** A release gives back exactly its quantity when it succeeds, and at most
      that, provided the sum fits 64 bits; it succeeds when every call is
      answered and the stock is a number. */
  lemma ReleaseEffect(m: Redis, reservation: string, product: string, quantity: nat, c: ReleaseCalls, p: string)
    requires Stock(m, product) + quantity < TWO64
    ensures var (ok, r) := Release(m, reservation, product, quantity, c);
      && (HasStock(m, p) ==> HasStock(r, p))
      && (p != product ==> SameStock(m, r, p))
      && Stock(m, product) <= Stock(r, product) <= Stock(m, product) + quantity
      && (ok ==> Stock(r, product) == Stock(m, product) + quantity)
      && (FineRelease(c) && HasStock(m, product) ==> ok)
  {
    hide Stoull, Show;
    StockKeysApart(product, p);
    StockKeysApart(p, reservation);
    StockKeysApart(product, reservation);
    if HasStock(m, product) {
      PutStock(m, product, Stock(m, product) + quantity, c.set_);
    }
  }
}
