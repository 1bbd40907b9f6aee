/** What the order operations do for their callers, in terms of the request and of
    what is read afterwards. */
module OrderResults {
  import opened Runs
  import opened Decimal
  import opened OrderCodec
  import opened Inventory
  import opened Orders
  import opened OrderCache
  import SqlAmount

  /** The row of a new order: the request's own fields, the amount as the SQL text
      keeps it, the payload as the database reads it. */
  predicate RowFor(row: Record, request: Record, id: string, status: nat, reason: string, c: Calls)
  {
    && row.orderId == id && row.userId == request.userId && row.productId == request.productId
    && row.quantity == request.quantity && row.currency == request.currency
    && row.status == status && row.statusReason == reason
    && row.cents == SqlAmount.Stored(request.cents, c.roundUp) && row.payload == c.payload
    && row.createdAt == c.now && row.updatedAt == c.now
  }

  /** The other rows are as they were. */
  ghost predicate OnlyAdds(s: System, r: System, id: string)
  {
    r.db.Keys == s.db.Keys + {id} && forall d :: d in s.db && d != id ==> r.db[d] == s.db[d]
  }

  predicate Enough(s: System, product: string, quantity: nat, c: Calls)
  {
    FineReserve(c.reserve) && HasStock(s.redis, product) && quantity <= Stock(s.redis, product)
  }

  // ---------- Creating ----------

  /** Insert and cache: exactly one row, one hold if stock was reserved, and the
      order as it was given in the cache; the stock is left alone. */
  lemma PersistCreates(s: System, r: Record, reserved: bool, reservation: string, c: Calls, p: string)
    requires r.orderId !in s.db && c.insert.Inserted?
    ensures var q := Persist(s, r, reserved, reservation, c);
      && OnlyAdds(s, q, r.orderId) && q.db[r.orderId] == Row(r, c)
      && q.held == (if reserved then s.held + [Hold(r.orderId, r.productId, r.quantity)] else s.held)
      && (!c.put.Refused? ==> OrderKey(r.orderId) in q.redis && q.redis[OrderKey(r.orderId)] == Serialize(r))
      && Stock(q.redis, p) == Stock(s.redis, p)
  {
    hide Serialize, Stoull;
    StockKeysApart(p, r.orderId);
    assert s.db[r.orderId := Row(r, c)].Keys == s.db.Keys + {r.orderId};
  }

  /** A create request succeeds if and only if user and product are given, quantity
      and amount are positive, the stock suffices where it is required, and the
      insert succeeds under a fresh id. It then leaves exactly one new row for the
      request, a hold and a debit of its quantity where stock is required, and a
      cached order; a request that is not valid changes nothing. */
  lemma HandlerCreates(s: System, request: Record, id: string, require_: bool, c: Calls)
    requires id !in s.db
    ensures var r := Handle(s, request, id, require_, c);
      var valid := request.userId != "" && request.productId != "" && request.quantity > 0 && request.cents > 0;
      var stocked := !require_ || Enough(s, request.productId, request.quantity, c);
      && (id in r.db <==> valid && stocked && c.insert.Inserted?)
      && (!valid ==> r == s)
      && (id !in r.db ==> r.db == s.db && r.held == s.held)
      && (id in r.db ==>
            && OnlyAdds(s, r, id) && RowFor(r.db[id], request, id, 0, request.statusReason, c)
            && r.held == (if require_ then s.held + [Hold(id, request.productId, request.quantity)] else s.held)
            && Stock(r.redis, request.productId) ==
                 Stock(s.redis, request.productId) - (if require_ then request.quantity else 0))
  {
    hide Reserve, Persist, Stoull, Serialize;
    var rec := request.(orderId := id, createdAt := c.now, updatedAt := c.now, status := PENDING);
    var p := request.productId;
    ReserveEffect(s.redis, "", p, request.quantity, c.reserve, p);
    var m := if require_ then Reserve(s.redis, "", p, request.quantity, c.reserve).1 else s.redis;
    NotCreated(s.(redis := m), rec, require_, "", c);
    if c.insert.Inserted? { PersistCreates(s.(redis := m), rec, require_, "", c, p); }
  }

  lemma NotCreated(s: System, r: Record, reserved: bool, reservation: string, c: Calls)
    ensures var q := Persist(s, r, reserved, reservation, c);
      !c.insert.Inserted? ==> q.db == s.db && q.held == s.held
  {
    hide Release, Serialize;
  }

  /** What a create request leaves in the cache is read back as it was given. */
  lemma HandlerCaches(s: System, request: Record, id: string, c: Calls, r: Calls)
    requires id !in s.db && Carries(Event(HandlerCreate(request, id, false), c))
    requires request.userId != "" && request.productId != "" && request.quantity > 0 && request.cents > 0
    requires c.insert.Inserted? && !c.put.Refused? && r.lookup
    ensures var found := GetOrder(Handle(s, request, id, false, c), id, true, r).0;
      found.Found? && found.order == Kept(request.(orderId := id, createdAt := c.now, updatedAt := c.now, status := 0))
  {
    hide Serialize, Deserialize, Stoull, Plain, Literal;
    var rec := request.(orderId := id, createdAt := c.now, updatedAt := c.now, status := PENDING);
    assert Storable(rec);
    PersistCreates(s, rec, false, "", c, "");
    StorableKept(rec);
  }

  lemma StorableKept(r: Record)
    requires Storable(r)
    ensures Deserialize(Serialize(r)) == Some(Kept(r))
  {
    ReadsBack(r);
  }

  /** A service creation under a fresh id leaves a row whenever its insert succeeds:
      the pending order with its stock, or the failed one without. */
  lemma ServiceCreates(s: System, order: Record, reserve: bool, c: Calls)
    requires order.orderId !in s.db
    ensures var r := Create(s, order, reserve, c); var id := order.orderId;
      var stocked := !reserve || Enough(s, order.productId, order.quantity, c);
      && (id in r.db <==> c.insert.Inserted?)
      && (id !in r.db ==> r.db == s.db && r.held == s.held)
      && (id in r.db ==>
            && OnlyAdds(s, r, id)
            && (stocked ==> RowFor(r.db[id], order, id, 0, "order created", c))
            && (!stocked ==> RowFor(r.db[id], order, id, 6, "inventory reservation failed", c))
            && r.held == (if reserve && stocked then s.held + [Hold(id, order.productId, order.quantity)] else s.held))
      && (id in r.db && stocked ==>
            Stock(r.redis, order.productId) == Stock(s.redis, order.productId) - (if reserve then order.quantity else 0))
  {
    hide Reserve, Persist, Stoull, Serialize, ReservationId;
    var rec := order.(status := PENDING, statusReason := "order created", createdAt := c.now, updatedAt := c.now);
    var p := order.productId;
    ReserveEffect(s.redis, order.orderId, p, order.quantity, c.reserve, p);
    var m := if reserve then Reserve(s.redis, order.orderId, p, order.quantity, c.reserve).1 else s.redis;
    NotCreated(s.(redis := m), rec, reserve, ReservationId(order.orderId, p), c);
    if c.insert.Inserted? {
      PersistCreates(s.(redis := m), rec, reserve, ReservationId(order.orderId, p), c, p);
      assert s.db[order.orderId := Row(FailedOrder(order, c.now), c)].Keys == s.db.Keys + {order.orderId};
    }
  }

  /** A reservation that fails, and for the service also an insert that throws, ends
      the creation with what the reservation did to Redis, and nothing else. */
  lemma FailedReservationStays(s: System, order: Record, id: string, c: Calls)
    ensures ValidRequest(order) && !Enough(s, order.productId, order.quantity, c) ==>
      Handle(s, order, id, true, c) ==
        s.(redis := Reserve(s.redis, "", order.productId, order.quantity, c.reserve).1)
    ensures InsertAnswer(s.db, order.orderId, c.insert).InsertThrew? ==>
      Create(s, order, true, c) ==
        s.(redis := Reserve(s.redis, order.orderId, order.productId, order.quantity, c.reserve).1)
  {
    hide Reserve, Stoull, Serialize;
    ReserveEffect(s.redis, "", order.productId, order.quantity, c.reserve, order.productId);
  }

  // ---------- Updating ----------

  /** An update that is stored dates the row: by the clock, or by the payment. */
  lemma UpdatesDateTheRow(s: System, e: Event)
    requires (e.op.Cancel? && e.calls.read) || e.op.SetStatus? || e.op.MarkPaid?
    requires e.op.id in s.db && !e.calls.update.Refused?
    ensures var r := Step(s, e);
      && e.op.id in r.db && r.db[e.op.id].createdAt == s.db[e.op.id].createdAt
      && r.db[e.op.id].updatedAt == if e.op.MarkPaid? then e.op.paidAt else e.calls.now
  {
    hide Release, Serialize, Dropped;
  }

  /** Same order, apart from what updates change. */
  predicate SameIdentity(a: Record, b: Record)
  {
    && a.orderId == b.orderId && a.userId == b.userId && a.productId == b.productId
    && a.quantity == b.quantity && a.currency == b.currency
  }

  /** Both kinds of read find the order `id` with these. */
  ghost predicate BothRead(q: System, id: string, c: Calls, was: Record, status: nat, reason: string)
  {
    var viaCache := GetOrder(q, id, true, c).0; var viaDb := GetOrder(q, id, false, c).0;
    && viaCache.Found? && SameIdentity(viaCache.order, was)
    && viaCache.order.status == status && viaCache.order.statusReason == reason
    && viaDb.Found? && SameIdentity(viaDb.order, was)
    && viaDb.order.status == status && viaDb.order.statusReason == reason
  }

  predicate Reaches(c: Calls)
  {
    c.read && c.update.Done? && c.reread && !c.put.Refused?
  }

  lemma UpdateReads(s: System, e: Event, r: Calls, money: bool, want: Record)
    requires Agree(s, money) && Carries(e) && Reaches(e.calls) && r.read && Intended(s, e) == Some(want)
    requires e.op.Cancel? || e.op.SetStatus? || e.op.MarkPaid?
    ensures BothRead(Step(s, e), want.orderId, r, want, want.status, want.statusReason)
  {
    hide Agree, Carries, Step, GetOrder, Intended;
    assert KeepsPace(s, e, money) by { RefreshedKeepsPace(s, e, money); }
    UpdatesAreRead(s, e, r, money);
  }

  lemma RefreshedKeepsPace(s: System, e: Event, money: bool)
    requires Reaches(e.calls) && (e.op.Cancel? || e.op.SetStatus? || e.op.MarkPaid?)
    ensures KeepsPace(s, e, money)
  {
    hide Reserve;
  }

  lemma RowId(s: System, id: string, money: bool)
    requires Agree(s, money) && id in s.db
    ensures s.db[id].orderId == id
  {
    assert RowOk(s, id);
  }

  /** After a payment that is stored and refreshed both reads say Paid, and the
      order and its reason are as before. */
  lemma PaymentMarksPaid(s: System, id: string, cents: int, paidAt: int, c: Calls, r: Calls, money: bool)
    requires Agree(s, money) && id in s.db && Carries(Event(MarkPaid(id, cents, paidAt), c)) && Reaches(c) && r.read
    ensures BothRead(Step(s, Event(MarkPaid(id, cents, paidAt), c)), id, r, s.db[id], 3, s.db[id].statusReason)
  {
    hide Agree, Carries, Step, GetOrder, SqlAmount.Stored;
    RowId(s, id, money);
    UpdateReads(s, Event(MarkPaid(id, cents, paidAt), c), r, money,
                s.db[id].(status := PAID, cents := SqlAmount.Stored(cents, c.roundUp)));
  }

  /** A status that has a name is read back as itself, any other as Pending. */
  lemma StatusReadsBackExactly(s: System, id: string, status: nat, reason: string, c: Calls, r: Calls, money: bool)
    requires Agree(s, money) && id in s.db && Carries(Event(SetStatus(id, status, reason), c)) && Reaches(c) && r.read
    ensures BothRead(Step(s, Event(SetStatus(id, status, reason), c)), id, r, s.db[id],
                     if status <= 6 then status else 0, reason)
  {
    hide Agree, Carries, Step, GetOrder;
    RowId(s, id, money);
    UpdateReads(s, Event(SetStatus(id, status, reason), c), r, money,
                s.db[id].(status := Named(status), statusReason := reason));
  }

  /** A cancelled order is read as Cancelled with the reason given. */
  lemma CancelReadsBack(s: System, id: string, reason: string, release: bool, c: Calls, r: Calls, money: bool)
    requires Agree(s, money) && id in s.db && Carries(Event(Cancel(id, reason, release), c)) && Reaches(c) && r.read
    ensures BothRead(Step(s, Event(Cancel(id, reason, release), c)), id, r, s.db[id], 5, reason)
  {
    hide Agree, Carries, Step, GetOrder;
    RowId(s, id, money);
    UpdateReads(s, Event(Cancel(id, reason, release), c), r, money,
                s.db[id].(status := CANCELLED, statusReason := reason));
  }

  /** A cancellation that releases credits exactly the quantity of the row to its
      product; one that does not, or fails before, leaves every stock alone. */
  lemma CancelCredits(s: System, id: string, reason: string, release: bool, c: Calls, p: string)
    ensures var r := CancelOrder(s, id, reason, release, c);
      if c.read && id in s.db && c.update.Done? && release && FineRelease(c.release)
         && s.db[id].productId == p && HasStock(s.redis, p)
      then Stock(r.redis, p) == (Stock(s.redis, p) + s.db[id].quantity) % TWO64
      else if c.read && id in s.db && c.update.Done? && release && s.db[id].productId == p then true
      else Stock(r.redis, p) == Stock(s.redis, p)
  {
    hide Serialize, Stoull, Release, Dropped, Stock, HasStock;
    if c.read && id in s.db {
      var row := s.db[id];
      var m := if release then Release(s.redis, "", row.productId, row.quantity, c.release).1 else s.redis;
      ReleaseWrites(s.redis, "", row.productId, row.quantity, c.release, StockKey(p));
      StockKeysApart(p, row.productId);
      StockKeysApart(p, row.orderId);
      StockKeysApart(p, "");
      SameKeySameStock(s.redis, m, p);
      var text := Serialize(FromRow(row.(status := CANCELLED, statusReason := reason, updatedAt := c.now)));
      PutElsewhere(m, OrderKey(row.orderId), text, c.put, p);
      PutElsewhere(s.redis, OrderKey(row.orderId), text, c.put, p);
    }
  }

  lemma SameKeySameStock(m: Redis, n: Redis, p: string)
    ensures (StockKey(p) in m <==> StockKey(p) in n) && (StockKey(p) in m ==> m[StockKey(p)] == n[StockKey(p)]) ==>
      Stock(m, p) == Stock(n, p)
  {
  }

  /** An update of an order that does not exist, or whose UPDATE is refused, changes
      nothing. */
  lemma NothingUpdated(s: System, e: Event)
    requires e.op.Cancel? || e.op.SetStatus? || e.op.MarkPaid?
    ensures e.op.id !in s.db || e.calls.update.Refused? ==> Step(s, e) == s
  {
    hide Release, Serialize, Dropped;
  }

  // ---------- Reading ----------

  /** A read that has to ask the database fills the cache: from then on a read finds
      the order there, though the database be gone. */
  lemma ReadFillsCache(s: System, id: string, preferCache: bool, c: Calls, r: Calls, money: bool)
    requires Agree(s, money) && id in s.db && c.read && !c.put.Refused? && r.lookup
    requires !preferCache || !c.lookup || OrderKey(id) !in s.redis
    ensures var (answer, q) := GetOrder(s, id, preferCache, c); var later := GetOrder(q, id, true, r);
      && answer.Found? && answer.order == FromRow(s.db[id])
      && later.0.Found? && SameOrder(later.0.order, answer.order, true) && later.0.order.payload == answer.order.payload
      && later.1 == q
  {
    hide Serialize, Deserialize, Storable, Plain;
    assert RowOk(s, id);
    RowFromStorable(s.db[id]);
    StorableKept(FromRow(s.db[id]));
  }

  lemma RowFromStorable(r: Record)
    requires Storable(r)
    ensures Storable(FromRow(r))
  {
  }

  /** A read that finds the order in the cache answers from there and changes
      nothing; one that finds it nowhere says so. */
  lemma ReadAnswers(s: System, id: string, preferCache: bool, c: Calls)
    ensures preferCache && c.lookup && OrderKey(id) in s.redis ==>
      GetOrder(s, id, preferCache, c) ==
        (match Deserialize(s.redis[OrderKey(id)]) { case Some(o) => Found(o) case None => Threw }, s)
    ensures !(preferCache && c.lookup && OrderKey(id) in s.redis) && (!c.read || id !in s.db) ==>
      GetOrder(s, id, preferCache, c) == (Missing, s)
  {
    hide Deserialize;
  }

  /** A read of the database gives the row without its times. */
  lemma DatabaseRead(s: System, id: string, c: Calls)
    requires id in s.db && c.read
    ensures var answer := GetOrder(s, id, false, c).0;
      && answer.Found? && SameOrder(answer.order, s.db[id], true) && answer.order.payload == s.db[id].payload
      && answer.order.createdAt == 0 && answer.order.updatedAt == 0
    ensures forall p :: Step(s, Event(Get(id, p), c)) == GetOrder(s, id, p, c).1
  {
    hide Serialize, Deserialize;
  }
}
