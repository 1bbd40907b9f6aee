/** The cached copy of an order agrees with the database row, over whole runs of
    the operations in module Orders. */
module OrderCache {
  import opened Runs
  import opened Decimal
  import opened OrderCodec
  import opened Inventory
  import opened Orders
  import SqlAmount

  /** Equal in everything but the timestamps, which the database read does not
      return, the payload, whose SQL literal is not escaped, and the amount, whose
      SQL text is rounded: that only with `money`. */
  predicate SameOrder(a: Record, b: Record, money: bool)
  {
    && a.(createdAt := 0, updatedAt := 0, cents := 0, payload := "")
       == b.(createdAt := 0, updatedAt := 0, cents := 0, payload := "")
    && (money ==> a.cents == b.cents)
  }

  /** No delimiter, and no NUL, at which Redis commands cut their arguments. */
  predicate Plain(s: string)
  {
    NoBar(s) && '\0' !in s
  }

  /** What the C++ types hold and the text format and Redis can carry. */
  predicate Storable(r: Record)
  {
    InRange(r) && AllTexts(r, Plain)
  }

  ghost predicate RowOk(s: System, id: string)
    requires id in s.db
  {
    s.db[id].orderId == id && Storable(s.db[id])
  }

  ghost predicate EntryOk(s: System, id: string, money: bool)
  {
    OrderKey(id) in s.redis ==>
      id in s.db && Cached(s.redis, id).Some? && SameOrder(Cached(s.redis, id).value, s.db[id], money)
  }

  /** Each cached order decodes to its row; with `money`, to the amount too. */
  ghost predicate Agree(s: System, money: bool)
  {
    (forall id :: id in s.db ==> RowOk(s, id)) && (forall id :: EntryOk(s, id, money))
  }

  predicate InTime(t: int)
  {
    -INT64 <= t < INT64
  }

  /** A quoted SQL literal keeps the text as it is. */
  predicate Literal(s: string)
  {
    '\'' !in s && '\\' !in s
  }

  predicate Literals(r: Record)
  {
    Literal(r.orderId) && Literal(r.userId) && Literal(r.productId) && Literal(r.currency) && Literal(r.statusReason)
  }

  /** The inputs of the operation are storable, and so is what the database makes
      of the payload. */
  predicate Carries(e: Event)
  {
    InTime(e.calls.now) && Plain(e.calls.payload) &&
    match e.op
    case HandlerCreate(request, id, _) => Storable(request.(orderId := id)) && Literals(request.(orderId := id))
    case ServiceCreate(order, _) => Storable(order) && Literals(order)
    case Cancel(_, reason, _) => Plain(reason) && Literal(reason)
    case SetStatus(_, _, reason) => Plain(reason) && Literal(reason)
    case MarkPaid(_, _, paidAt) => InTime(paidAt)
    case Get(_, _) => true
  }

  /** The order as a creation without stock records it. */
  function FailedOrder(order: Record, now: int): Record
  {
    order.(status := FAILED, statusReason := "inventory reservation failed", createdAt := now, updatedAt := now)
  }

  /** The row as an update leaves it, with a status that has a name; None when the
      operation is no update or finds no row. */
  function Intended(s: System, e: Event): Option<Record>
  {
    match e.op
    case Cancel(id, reason, _) =>
      if e.calls.read && id in s.db then Some(s.db[id].(status := CANCELLED, statusReason := reason)) else None
    case SetStatus(id, status, reason) =>
      if id in s.db then Some(s.db[id].(status := Named(status), statusReason := reason)) else None
    case MarkPaid(id, cents, _) =>
      if id in s.db then Some(s.db[id].(status := PAID, cents := SqlAmount.Stored(cents, e.calls.roundUp))) else None
    case _ => None
  }

  /** The row is not rewritten, or is and reaches the cache. */
  predicate Refreshed(c: Calls)
  {
    c.update.Refused? || (c.update.Done? && c.reread && !c.put.Refused?)
  }

  /** The order that a creation both inserts and offers to the cache. */
  function Creates(s: System, e: Event): Option<Record>
  {
    match e.op
    case HandlerCreate(request, id, require_) =>
      if ValidRequest(request) && InsertAnswer(s.db, id, e.calls.insert).Inserted?
         && (require_ ==> Reserve(s.redis, "", request.productId, request.quantity, e.calls.reserve).0) then Some(request)
      else None
    case ServiceCreate(order, _) =>
      if InsertAnswer(s.db, order.orderId, e.calls.insert).Inserted? then Some(order) else None
    case _ => None
  }

  /** A creation without stock that inserts nothing and is cached all the same. */
  predicate CachesUninserted(s: System, order: Record, reserve: bool, c: Calls)
  {
    && reserve && !Reserve(s.redis, order.orderId, order.productId, order.quantity, c.reserve).0
    && InsertAnswer(s.db, order.orderId, c.insert).NotInserted?
  }

  /** What the operation puts into the one store is in the other: an update that
      rewrites the row of a cached order refreshes the cache or changes nothing;
      a failed creation that inserted nothing is not cached over anything else;
      and, where amounts count, a new order that is cached has an amount of at
      most six significant digits. */
  predicate KeepsPace(s: System, e: Event, money: bool)
  {
    && (money && Creates(s, e).Some? ==> e.calls.put.Refused? || SqlAmount.Short(Creates(s, e).value.cents))
    && (e.op.ServiceCreate? && CachesUninserted(s, e.op.order, e.op.reserve, e.calls) ==>
          || e.calls.put.Refused?
          || (e.op.order.orderId in s.db
              && SameOrder(FailedOrder(e.op.order, e.calls.now), s.db[e.op.order.orderId], money)))
    && (Intended(s, e).Some? ==>
          || Refreshed(e.calls) || OrderKey(e.op.id) !in s.redis
          || (e.op.id in s.db && SameOrder(Intended(s, e).value, s.db[e.op.id], money)))
  }

  predicate Careful(s: System, e: Event, money: bool)
  {
    Carries(e) && KeepsPace(s, e, money)
  }

  // ---------- Steps ----------

  /** The cached orders of two stores are the same. */
  ghost predicate SameOrders(m: Redis, n: Redis)
  {
    forall id :: (OrderKey(id) in m <==> OrderKey(id) in n) && (OrderKey(id) in m ==> m[OrderKey(id)] == n[OrderKey(id)])
  }

  lemma ReserveSparesOrders(m: Redis, order: string, product: string, quantity: nat, c: ReserveCalls)
    ensures SameOrders(m, Reserve(m, order, product, quantity, c).1)
  {
    hide Stoull, Show;
    forall id ensures OrderKey(id) != StockKey(product) && OrderKey(id) != ReservationKey(ReservationId(order, product)) {
      StockKeysApart(product, id);
      StockKeysApart(id, ReservationId(order, product));
    }
  }

  lemma ReleaseSparesOrders(m: Redis, reservation: string, product: string, quantity: nat, c: ReleaseCalls)
    ensures SameOrders(m, Release(m, reservation, product, quantity, c).1)
  {
    hide Stoull, Show;
    forall id ensures OrderKey(id) != StockKey(product) && OrderKey(id) != ReservationKey(reservation) {
      StockKeysApart(product, id);
      StockKeysApart(id, reservation);
    }
  }

  lemma StockWorkKeeps(s: System, m: Redis, held: seq<Hold>, money: bool)
    requires Agree(s, money) && SameOrders(s.redis, m)
    ensures Agree(s.(redis := m, held := held), money)
  {
    hide Deserialize, Storable, OrderKey;
    var q := s.(redis := m, held := held);
    forall id ensures EntryOk(q, id, money) { assert EntryOk(s, id, money); }
    forall id | id in q.db ensures RowOk(q, id) { assert RowOk(s, id); }
  }

  lemma StorableReadsBack(r: Record)
    requires Storable(r)
    ensures Deserialize(Serialize(r)).Some? && SameOrder(Deserialize(Serialize(r)).value, r, true)
  {
    ReadsBack(r);
  }

  /** Writing a row, and a record of the same order to the cache: agreement if and
      only if the record is the row, or the cache refuses it and holds nothing
      that the row contradicts. */
  lemma RowAndEntryExactly(s: System, row: Record, cached: Record, w: Write, money: bool)
    requires forall id :: id in s.db ==> RowOk(s, id)
    requires forall id :: id != row.orderId ==> EntryOk(s, id, money)
    requires Storable(row) && Storable(cached) && cached.orderId == row.orderId
    ensures !w.Refused? ==>
      (Agree(CacheOrder(s.(db := s.db[row.orderId := row]), cached, w), money) <==> SameOrder(cached, row, money))
    ensures w.Refused? && OrderKey(row.orderId) !in s.redis ==>
      Agree(CacheOrder(s.(db := s.db[row.orderId := row]), cached, w), money)
  {
    hide Deserialize, Serialize, OrderKey, Storable;
    var q := CacheOrder(s.(db := s.db[row.orderId := row]), cached, w);
    StorableReadsBack(cached);
    forall id | id in q.db ensures RowOk(q, id) { assert id in s.db ==> RowOk(s, id); }
    forall id | id != row.orderId ensures EntryOk(q, id, money) {
      StockKeysApart(id, row.orderId);
      assert EntryOk(s, id, money);
    }
    assert !w.Refused? ==> (EntryOk(q, row.orderId, money) <==> SameOrder(cached, row, money));
  }

  lemma RowStorable(r: Record, c: Calls)
    requires Storable(r) && Plain(c.payload)
    ensures Storable(Row(r, c))
    ensures SameOrder(r, Row(r, c), true) <==> SqlAmount.Short(r.cents)
  {
    SqlAmount.StoredExactly(r.cents, c.roundUp);
  }

  /** A new order that is inserted and cached. */
  lemma NewRowExactly(s: System, r: Record, c: Calls, money: bool)
    requires Agree(s, money) && Storable(r) && Plain(c.payload) && r.orderId !in s.db
    ensures Agree(CacheOrder(s.(db := s.db[r.orderId := Row(r, c)]), r, c.put), money) <==>
      !money || c.put.Refused? || SqlAmount.Short(r.cents)
  {
    hide CacheOrder, Storable, Cached, SqlAmount.Stored, Plain;
    assert EntryOk(s, r.orderId, money);
    RowStorable(r, c);
    RowAndEntryExactly(s, Row(r, c), r, c.put, money);
  }

  lemma RowRefreshKeeps(s: System, id: string, r: Record, c: Calls, money: bool)
    requires Agree(s, money) && id in s.db && Storable(r) && r.orderId == id && c.reread && !c.put.Refused?
    ensures Agree(Refresh(s.(db := s.db[id := r]), id, c), money)
  {
    hide CacheOrder, Cached;
    RowAndEntryExactly(s, r, FromRow(r), c.put, money);
  }

  /** A row rewritten behind the cache. */
  lemma StaleExactly(s: System, id: string, r: Record, money: bool)
    requires Agree(s, money) && id in s.db && Storable(r) && r.orderId == id
    ensures Agree(s.(db := s.db[id := r]), money) <==> OrderKey(id) !in s.redis || SameOrder(r, s.db[id], money)
  {
    hide Deserialize, OrderKey, Storable;
    var q := s.(db := s.db[id := r]);
    assert EntryOk(s, id, money) && RowOk(s, id);
    forall d | d in q.db ensures RowOk(q, d) { assert d in s.db ==> RowOk(s, d); }
    if OrderKey(id) !in s.redis || SameOrder(r, s.db[id], money) {
      forall d ensures EntryOk(q, d, money) { assert EntryOk(s, d, money); }
    } else {
      assert !EntryOk(q, id, money);
    }
  }

  lemma UpdateAgreesExactly(s: System, id: string, r: Record, c: Calls, money: bool)
    requires Agree(s, money) && id in s.db && Storable(r) && r.orderId == id
    ensures Agree(Update(s, id, r, c), money) <==>
      Refreshed(c) || OrderKey(id) !in s.redis || SameOrder(r, s.db[id], money)
  {
    hide Agree, Storable, Serialize, SameOrder;
    if c.update.Done? && c.reread && !c.put.Refused? {
      RowRefreshKeeps(s, id, r, c, money);
    } else if !c.update.Refused? {
      assert Update(s, id, r, c) == s.(db := s.db[id := r]);
      StaleExactly(s, id, r, money);
    }
  }

  lemma PersistAgreesExactly(s: System, r: Record, reserved: bool, reservation: string, c: Calls, money: bool)
    requires Agree(s, money) && Storable(r) && Plain(c.payload)
    ensures Agree(Persist(s, r, reserved, reservation, c), money) <==>
      (money && InsertAnswer(s.db, r.orderId, c.insert).Inserted? ==> c.put.Refused? || SqlAmount.Short(r.cents))
  {
    hide Agree, Storable, CacheOrder, Release, Plain, SqlAmount.Short, Row;
    match InsertAnswer(s.db, r.orderId, c.insert)
    case Inserted =>
      var held := if reserved then s.held + [Hold(r.orderId, r.productId, r.quantity)] else s.held;
      SameOrdersRefl(s.redis);
      StockWorkKeeps(s, s.redis, held, money);
      NewRowExactly(s.(held := held), r, c, money);
    case NotInserted =>
      ReleaseSparesOrders(s.redis, reservation, r.productId, r.quantity, c.release);
      if reserved {
        StockWorkKeeps(s, Release(s.redis, reservation, r.productId, r.quantity, c.release).1, s.held, money);
      }
    case InsertThrew =>
  }

  lemma SameOrdersRefl(m: Redis)
    ensures SameOrders(m, m)
  {
  }

  lemma HandleAgreesExactly(s: System, request: Record, id: string, require_: bool, c: Calls, money: bool)
    requires Agree(s, money) && Carries(Event(HandlerCreate(request, id, require_), c))
    ensures Agree(Handle(s, request, id, require_, c), money) <==>
      KeepsPace(s, Event(HandlerCreate(request, id, require_), c), money)
  {
    hide Agree, Persist, Reserve, Plain, SqlAmount.Short;
    var r := request.(orderId := id, createdAt := c.now, updatedAt := c.now, status := PENDING);
    assert Storable(r);
    if require_ {
      var m := Reserve(s.redis, "", request.productId, request.quantity, c.reserve).1;
      ReserveSparesOrders(s.redis, "", request.productId, request.quantity, c.reserve);
      StockWorkKeeps(s, m, s.held, money);
      PersistAgreesExactly(s.(redis := m), r, true, "", c, money);
    } else {
      PersistAgreesExactly(s, r, false, "", c, money);
    }
  }

  lemma ReasonsPlain()
    ensures Plain("order created") && Plain("inventory reservation failed")
  {
  }

  lemma CreatedStorable(order: Record, now: int)
    requires Storable(order) && InTime(now)
    ensures Storable(order.(status := PENDING, statusReason := "order created", createdAt := now, updatedAt := now))
    ensures Storable(FailedOrder(order, now))
  {
    hide Plain;
    ReasonsPlain();
  }

  lemma CreateAgreesExactly(s: System, order: Record, reserve: bool, c: Calls, money: bool)
    requires Agree(s, money) && Storable(order) && InTime(c.now) && Plain(c.payload)
    ensures Agree(Create(s, order, reserve, c), money) <==> KeepsPace(s, Event(ServiceCreate(order, reserve), c), money)
  {
    hide Agree, Persist, Reserve, ReservationId, CacheOrder, Storable, InTime, SameOrder, Plain, SqlAmount.Short, Row;
    var r := order.(status := PENDING, statusReason := "order created", createdAt := c.now, updatedAt := c.now);
    CreatedStorable(order, c.now);
    var rid := ReservationId(r.orderId, r.productId);
    if reserve {
      var (ok, m) := Reserve(s.redis, r.orderId, r.productId, r.quantity, c.reserve);
      var s1 := s.(redis := m);
      ReserveSparesOrders(s.redis, r.orderId, r.productId, r.quantity, c.reserve);
      StockWorkKeeps(s, m, s.held, money);
      if ok {
        PersistAgreesExactly(s1, r, true, rid, c, money);
      } else if InsertAnswer(s.db, r.orderId, c.insert).Inserted? {
        NewRowExactly(s1, FailedOrder(order, c.now), c, money);
      } else if InsertAnswer(s.db, r.orderId, c.insert).NotInserted? {
        FailedCreateAgreesExactly(s, order, c, money);
      }
    } else {
      PersistAgreesExactly(s, r, false, rid, c, money);
    }
  }

  /** CancelOrder is a release of stock and an update. */
  lemma CancelIsUpdate(s: System, id: string, reason: string, release: bool, c: Calls)
    requires c.read && id in s.db
    ensures var r := s.db[id].(status := CANCELLED, statusReason := reason, updatedAt := c.now);
      CancelOrder(s, id, reason, release, c) ==
        Update(if release && c.update.Done? then s.(redis := Release(s.redis, "", r.productId, r.quantity, c.release).1,
                                                    held := Dropped(s.held, id)) else s, id, r, c)
  {
    hide Release, Dropped, Serialize;
  }

  lemma CancelAgreesExactly(s: System, id: string, reason: string, release: bool, c: Calls, money: bool)
    requires Agree(s, money) && InTime(c.now) && Plain(reason)
    ensures Agree(CancelOrder(s, id, reason, release, c), money) <==>
      KeepsPace(s, Event(Cancel(id, reason, release), c), money)
  {
    hide EntryOk, Refresh, Release, Dropped, Update, Plain, OrderKey;
    if c.read && id in s.db {
      assert RowOk(s, id);
      var r := s.db[id].(status := CANCELLED, statusReason := reason, updatedAt := c.now);
      var m := Release(s.redis, "", r.productId, r.quantity, c.release).1;
      CancelIsUpdate(s, id, reason, release, c);
      ReleaseSparesOrders(s.redis, "", r.productId, r.quantity, c.release);
      StockWorkKeeps(s, m, Dropped(s.held, id), money);
      UpdateAgreesExactly(s, id, r, c, money);
      UpdateAgreesExactly(s.(redis := m, held := Dropped(s.held, id)), id, r, c, money);
    }
  }

  /** The exact step: with storable inputs, an operation keeps each cached order
      equal to its row if and only if it keeps pace; without amounts and with. */
  lemma StepAgreesExactly(s: System, e: Event, money: bool)
    requires Agree(s, money) && Carries(e)
    ensures Agree(Step(s, e), money) <==> KeepsPace(s, e, money)
  {
    hide EntryOk, Handle, Create, CancelOrder, Update, CacheOrder, Cached, Plain, Literal, OrderKey, Reserve, SqlAmount.Short, SqlAmount.Stored;
    var c := e.calls;
    match e.op
    case HandlerCreate(request, id, require_) => HandleAgreesExactly(s, request, id, require_, c, money);
    case ServiceCreate(order, reserve) => CreateAgreesExactly(s, order, reserve, c, money);
    case Cancel(id, reason, release) => CancelAgreesExactly(s, id, reason, release, c, money);
    case SetStatus(id, status, reason) =>
      if id in s.db {
        assert RowOk(s, id);
        UpdateAgreesExactly(s, id, s.db[id].(status := Named(status), statusReason := reason, updatedAt := c.now), c, money);
      }
    case MarkPaid(id, cents, paidAt) =>
      if id in s.db {
        assert RowOk(s, id);
        UpdateAgreesExactly(s, id, Paid(s.db[id], cents, paidAt, c), c, money);
      }
    case Get(id, preferCache) => if id in s.db { ReadAgrees(s, id, c.put, money); }
  }

  lemma ReadAgrees(s: System, id: string, w: Write, money: bool)
    requires Agree(s, money) && id in s.db
    ensures Agree(CacheOrder(s, FromRow(s.db[id]), w), money)
  {
    hide Cached;
    assert RowOk(s, id);
    if !w.Refused? {
      RowAndEntryExactly(s, s.db[id], FromRow(s.db[id]), w, money);
      assert s.db[id := s.db[id]] == s.db;
    }
  }

  // ---------- Whole runs ----------

  ghost predicate CarefulRun(s: System, run: seq<Event>, money: bool)
    decreases run
  {
    run != [] ==> Careful(s, run[0], money) && CarefulRun(Step(s, run[0]), run[1..], money)
  }

  lemma {:induction false} RunAgrees(s: System, run: seq<Event>, money: bool)
    requires Agree(s, money) && CarefulRun(s, run, money)
    ensures Agree(Exec(Step, s, run), money)
    decreases run
  {
    hide Agree, Step, Carries, KeepsPace;
    if run != [] {
      StepAgreesExactly(s, run[0], money);
      RunAgrees(Step(s, run[0]), run[1..], money);
    }
  }

  /** Over every such run from empty stores, a read that prefers the cache finds an
      order exactly when a read of the database does, never by an exception, and
      with the same identity, user, product, quantity, currency, status and
      reason; with the same amount too, where new orders that are cached have at
      most six significant digits. */
  lemma CacheFirstReadsAgree(stock: Redis, run: seq<Event>, id: string, c: Calls, money: bool)
    requires forall k :: OrderKey(k) !in stock
    requires CarefulRun(System(stock, map[], []), run, money) && c.read
    ensures var s := Exec(Step, System(stock, map[], []), run);
      var viaCache := GetOrder(s, id, true, c).0; var viaDb := GetOrder(s, id, false, c).0;
      && !viaCache.Threw? && (viaCache.Found? <==> viaDb.Found?) && (viaDb.Found? <==> id in s.db)
      && (viaCache.Found? ==> SameOrder(viaCache.order, viaDb.order, money) && SameOrder(viaDb.order, s.db[id], true))
  {
    hide Step, Careful, Deserialize;
    var s0 := System(stock, map[], []);
    assert Agree(s0, money);
    RunAgrees(s0, run, money);
    var s := Exec(Step, s0, run);
    assert EntryOk(s, id, money);
  }

  /** Reads see writes: after an update that reports success, a read through the
      cache and a read of the database both give the updated order, with the
      amount as the SQL text has it. */
  lemma UpdatesAreRead(s: System, e: Event, c: Calls, money: bool)
    requires Agree(s, money) && Careful(s, e, money) && Intended(s, e).Some? && e.calls.update.Done? && c.read
    ensures var r := Step(s, e); var want := Intended(s, e).value;
      var viaCache := GetOrder(r, want.orderId, true, c).0; var viaDb := GetOrder(r, want.orderId, false, c).0;
      && viaCache.Found? && SameOrder(viaCache.order, want, money)
      && viaDb.Found? && SameOrder(viaDb.order, want, true)
  {
    hide Deserialize, Serialize, Release, Dropped, SqlAmount.Stored, SqlAmount.Short, Storable;
    StepAgreesExactly(s, e, money);
    var r, want := Step(s, e), Intended(s, e).value;
    assert RowOk(s, e.op.id);
    assert EntryOk(r, want.orderId, money);
    assert SameOrder(r.db[want.orderId], want, true);
  }

  /** A payment is read back if and only if it has at most six significant digits;
      otherwise both reads give it rounded. */
  lemma PaymentReadsBackExactly(s: System, id: string, cents: int, paidAt: int, c: Calls, r: Calls)
    requires Agree(s, true) && id in s.db && InTime(c.now) && InTime(paidAt) && Plain(c.payload)
    requires c.update.Done? && c.reread && !c.put.Refused? && r.read
    ensures var q := Step(s, Event(MarkPaid(id, cents, paidAt), c));
      var viaCache := GetOrder(q, id, true, r).0; var viaDb := GetOrder(q, id, false, r).0;
      && viaCache.Found? && viaDb.Found?
      && viaCache.order.cents == viaDb.order.cents == SqlAmount.Stored(cents, c.roundUp)
      && (viaCache.order.cents == cents <==> SqlAmount.Short(cents))
  {
    hide Agree, Step, GetOrder, SqlAmount.Stored, SqlAmount.Short, Plain, Storable;
    assert RowOk(s, id) by { AgreeRow(s, id); }
    var e := Event(MarkPaid(id, cents, paidAt), c);
    SqlAmount.StoredExactly(cents, c.roundUp);
    UpdatesAreRead(s, e, r, true);
  }

  lemma AgreeRow(s: System, id: string)
    requires Agree(s, true) && id in s.db
    ensures RowOk(s, id)
  {
  }

  // ---------- Where the agreement ends ----------

  /** A new order that is inserted and cached is read from the cache with its own
      amount and from the database with the rounded one: the reads part if and
      only if it has more than six significant digits. */
  lemma CreatedAmountExactly(s: System, order: Record, c: Calls, r: Calls)
    requires Agree(s, false) && Storable(order) && InTime(c.now) && Plain(c.payload)
    requires order.orderId !in s.db && c.insert.Inserted? && !c.put.Refused? && r.lookup && r.read
    ensures var q := Create(s, order, false, c);
      var viaCache := GetOrder(q, order.orderId, true, r).0; var viaDb := GetOrder(q, order.orderId, false, r).0;
      && viaCache.Found? && viaCache.order.cents == order.cents
      && viaDb.Found? && viaDb.order.cents == SqlAmount.Stored(order.cents, c.roundUp)
      && (viaCache.order.cents == viaDb.order.cents <==> SqlAmount.Short(order.cents))
  {
    hide Agree, Serialize, Deserialize, Storable, InTime, Plain, SqlAmount.Stored, SqlAmount.Short;
    CreatedStorable(order, c.now);
    var rec := order.(status := PENDING, statusReason := "order created", createdAt := c.now, updatedAt := c.now);
    StorableReadsBack(rec);
    SqlAmount.StoredExactly(order.cents, c.roundUp);
  }

  /** An order of 12345.67: the cache says so, the database 12345.70. */
  lemma RoundedAmountParts(s: System, order: Record, c: Calls, r: Calls)
    requires Agree(s, false) && Storable(order) && InTime(c.now) && Plain(c.payload) && order.cents == 1_234_567
    requires order.orderId !in s.db && c.insert.Inserted? && !c.put.Refused? && r.lookup && r.read
    ensures var q := Create(s, order, false, c);
      var viaCache := GetOrder(q, order.orderId, true, r).0; var viaDb := GetOrder(q, order.orderId, false, r).0;
      viaCache.Found? && viaDb.Found? && viaCache.order.cents == 1_234_567 && viaDb.order.cents == 1_234_570
  {
    hide Agree, Create, GetOrder, Storable, InTime, Plain, SqlAmount.Stored, SqlAmount.Short;
    CreatedAmountExactly(s, order, c, r);
    SqlAmount.SampleAmount(c.roundUp);
  }

  lemma CachedAgreesExactly(s: System, r: Record, w: Write, money: bool)
    requires Agree(s, money) && Storable(r)
    ensures Agree(CacheOrder(s, r, w), money) <==>
      w.Refused? || (r.orderId in s.db && SameOrder(r, s.db[r.orderId], money))
  {
    hide Serialize, Deserialize, Storable;
    var q := CacheOrder(s, r, w);
    StorableReadsBack(r);
    if w.Refused? {
      assert q == s;
    } else if r.orderId in s.db {
      var row := s.db[r.orderId];
      assert RowOk(s, r.orderId);
      RowAndEntryExactly(s, row, r, w, money);
      assert s.db[row.orderId := row] == s.db;
    } else {
      assert !EntryOk(q, r.orderId, money);
    }
  }

  lemma FailedCreateIs(s: System, order: Record, c: Calls)
    requires !Reserve(s.redis, order.orderId, order.productId, order.quantity, c.reserve).0
    requires InsertAnswer(s.db, order.orderId, c.insert).NotInserted?
    ensures Create(s, order, true, c) ==
      CacheOrder(s.(redis := Reserve(s.redis, order.orderId, order.productId, order.quantity, c.reserve).1),
                 FailedOrder(order, c.now), c.put)
  {
    hide Reserve, CacheOrder, Persist;
  }

  /** A service creation whose reservation fails ignores the answer of its insert
      and caches the failed order regardless. When nothing was inserted, cache and
      database still agree if and only if the cache refused it, or the row that is
      there happens to be the same failed order. */
  lemma FailedCreateAgreesExactly(s: System, order: Record, c: Calls, money: bool)
    requires Agree(s, money) && Storable(order) && InTime(c.now)
    requires !Reserve(s.redis, order.orderId, order.productId, order.quantity, c.reserve).0
    requires InsertAnswer(s.db, order.orderId, c.insert).NotInserted?
    ensures Agree(Create(s, order, true, c), money) <==>
      c.put.Refused? ||
      (order.orderId in s.db && SameOrder(FailedOrder(order, c.now), s.db[order.orderId], money))
  {
    hide Agree, Reserve, Storable, CacheOrder, SameOrder, Create, InsertAnswer, FailedOrder;
    assert FailedOrder(order, c.now).orderId == order.orderId by { FailedIdIs(order, c.now); }
    var m := Reserve(s.redis, order.orderId, order.productId, order.quantity, c.reserve).1;
    FailedCreateIs(s, order, c);
    ReserveSparesOrders(s.redis, order.orderId, order.productId, order.quantity, c.reserve);
    StockWorkKeeps(s, m, s.held, money);
    CreatedStorable(order, c.now);
    CachedAgreesExactly(s.(redis := m), FailedOrder(order, c.now), c.put, money);
  }

  lemma FailedIdIs(order: Record, now: int)
    ensures FailedOrder(order, now).orderId == order.orderId
  {
  }

  /** So a reused id disagrees whenever its row is any other order. */
  lemma ReusedIdDisagrees(s: System, order: Record, c: Calls, money: bool)
    requires Agree(s, money) && Storable(order) && InTime(c.now) && !c.put.Refused? && !c.insert.InsertThrew?
    requires !Reserve(s.redis, order.orderId, order.productId, order.quantity, c.reserve).0
    requires order.orderId in s.db && !SameOrder(FailedOrder(order, c.now), s.db[order.orderId], money)
    ensures !Agree(Create(s, order, true, c), money)
  {
    hide Agree, Storable, Create, Reserve;
    FailedCreateAgreesExactly(s, order, c, money);
  }

  /** And a fresh id disagrees whenever its insert is refused: the order is in the
      cache with no row, and is found there only. */
  lemma RefusedInsertDisagrees(s: System, order: Record, c: Calls, r: Calls, money: bool)
    requires Agree(s, money) && Storable(order) && InTime(c.now) && !c.put.Refused? && c.insert.NotInserted?
    requires !Reserve(s.redis, order.orderId, order.productId, order.quantity, c.reserve).0
    requires order.orderId !in s.db && r.lookup
    ensures var q := Create(s, order, true, c);
      && !Agree(q, money)
      && GetOrder(q, order.orderId, true, r).0.Found? && GetOrder(q, order.orderId, false, r).0.Missing?
  {
    hide Agree, Reserve, Serialize, Deserialize, Storable, Create, InTime;
    FailedCreateAgreesExactly(s, order, c, money);
    FailedCreateIs(s, order, c);
    CreatedStorable(order, c.now);
    StorableReadsBack(FailedOrder(order, c.now));
  }
}
