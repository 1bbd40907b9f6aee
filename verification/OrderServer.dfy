/** The order services as one object over its two stores. Each method follows
    the code's sequence of calls and computes the function of the same
    operation in modules Inventory and Orders. */
module OrderServer {
  import opened Runs
  import opened Decimal
  import opened OrderCodec
  import opened Inventory
  import O = Orders

  class OrderServer {
    var redis: Redis
    var db: map<string, Record>
    ghost var held: seq<O.Hold>

    ghost function View(): O.System
      reads this
    {
      O.System(redis, db, held)
    }

    constructor (redis: Redis, db: map<string, Record>)
      ensures View() == O.System(redis, db, [])
    {
      this.redis, this.db, held := redis, db, [];
    }

    /** RedisClient::Set. */
    method SetKey(key: string, value: string, w: Write) returns (ok: bool)
      modifies this`redis
      ensures redis == Put(old(redis), key, value, w) && ok == w.Done?
    {
      ok := w.Done?;
      if !w.Refused? {
        redis := redis[key := value];
      }
    }

    method ReserveForOrder(order: string, product: string, quantity: nat, c: ReserveCalls) returns (ok: bool)
      modifies this`redis
      ensures (ok, redis) == Reserve(old(redis), order, product, quantity, c)
    {
      if !c.client {
        return false;
      }
      var productKey := StockKey(product);
      var reservationId := ReservationId(order, product);
      if !c.get || productKey !in redis {
        return false;
      }
      var stockValue := Stoull(redis[productKey]);
      if stockValue.None? || stockValue.value < quantity {
        return false;
      }
      ok := SetKey(productKey, Show(stockValue.value - quantity), c.set_);
      if ok {
        ok := SetKey(ReservationKey(reservationId), order + "," + product + "," + Show(quantity) + ",", c.cache);
      }
    }

    method IncrementStock(product: string, quantity: nat, get: bool, w: Write) returns (ok: bool)
      modifies this`redis
      ensures
        var key := StockKey(product);
        if !get || !old(HasStock(redis, product)) then !ok && redis == old(redis)
        else ok == w.Done? && redis == Put(old(redis), key, Show((old(Stock(redis, product)) + quantity) % TWO64), w)
    {
      var key := StockKey(product);
      if !get || key !in redis {
        return false;
      }
      var stock := Stoull(redis[key]);
      if stock.None? {
        return false;
      }
      ok := SetKey(key, Show((stock.value + quantity) % TWO64), w);
    }

    method ReleaseReservation(reservation: string, product: string, quantity: nat, c: ReleaseCalls) returns (ok: bool)
      modifies this`redis
      ensures (ok, redis) == Release(old(redis), reservation, product, quantity, c)
    {
      if !c.client {
        return false;
      }
      ok := IncrementStock(product, quantity, c.get, c.set_);
      if ok && c.del {
        redis := redis - {ReservationKey(reservation)};
      }
    }

    method PutOrder(r: Record, w: Write) returns (ok: bool)
      modifies this`redis
      ensures View() == O.CacheOrder(old(View()), r, w) && ok == w.Done?
    {
      ok := SetKey(OrderKey(r.orderId), Serialize(r), w);
    }

    method RefreshCache(id: string, c: O.Calls)
      modifies this`redis
      ensures View() == O.Refresh(old(View()), id, c)
    {
      if c.reread && id in db {
        var _ := PutOrder(O.FromRow(db[id]), c.put);
      }
    }

    /** Insert, then cache, or release what was reserved. */
    method Persist(r: Record, reserved: bool, reservation: string, c: O.Calls)
      modifies this
      ensures View() == O.Persist(old(View()), r, reserved, reservation, c)
    {
      var answer := O.InsertAnswer(db, r.orderId, c.insert);
      match answer {
        case Inserted =>
          db := db[r.orderId := O.Row(r, c)];
          if reserved {
            held := held + [O.Hold(r.orderId, r.productId, r.quantity)];
          }
          var _ := PutOrder(r, c.put);
        case NotInserted =>
          if reserved {
            var _ := ReleaseReservation(reservation, r.productId, r.quantity, c.release);
          }
        case InsertThrew =>
      }
    }

    /** OrderCreateHandler::handle after the request was parsed. */
    method HandleCreate(request: Record, id: string, require_: bool, c: O.Calls)
      modifies this
      ensures View() == O.Handle(old(View()), request, id, require_, c)
    {
      if request.userId == "" || request.productId == "" {
        return;
      }
      if request.quantity == 0 || request.cents <= 0 {
        return;
      }
      if require_ {
        var ok := ReserveForOrder("", request.productId, request.quantity, c.reserve);
        if !ok {
          return;
        }
      }
      var r := request.(orderId := id, createdAt := c.now, updatedAt := c.now, status := O.PENDING);
      Persist(r, require_, "", c);
    }

    method CreateOrder(order: Record, reserve: bool, c: O.Calls)
      modifies this
      ensures View() == O.Create(old(View()), order, reserve, c)
    {
      hide Reserve, Serialize, O.Persist;
      var r := order.(status := O.PENDING, statusReason := "order created", createdAt := c.now, updatedAt := c.now);
      if reserve {
        var ok := ReserveForOrder(r.orderId, r.productId, r.quantity, c.reserve);
        if !ok {
          r := r.(status := O.FAILED, statusReason := "inventory reservation failed");
          var answer := O.InsertAnswer(db, r.orderId, c.insert);
          if answer.InsertThrew? {
            return;
          }
          if answer.Inserted? {
            db := db[r.orderId := O.Row(r, c)];
          }
          var _ := PutOrder(r, c.put);
          return;
        }
      }
      Persist(r, reserve, ReservationId(r.orderId, r.productId), c);
    }

    /** An UPDATE statement on one row. */
    method UpdateRow(id: string, r: Record, w: Write) returns (ok: bool)
      modifies this`db
      ensures (ok, View()) == O.UpdateRow(old(View()), id, r, w)
    {
      ok := false;
      if id in db && !w.Refused? {
        db := db[id := r];
        ok := w.Done?;
      }
    }

    method CancelOrder(id: string, reason: string, release: bool, c: O.Calls) returns (ok: bool)
      modifies this
      ensures View() == O.CancelOrder(old(View()), id, reason, release, c)
      ensures ok == (c.read && id in old(db) && c.update.Done?)
    {
      hide Release, Serialize;
      if !c.read || id !in db {
        return false;
      }
      var record := db[id];
      ok := UpdateRow(id, record.(status := O.CANCELLED, statusReason := reason, updatedAt := c.now), c.update);
      if !ok {
        return;
      }
      if release {
        var _ := ReleaseReservation("", record.productId, record.quantity, c.release);
        held := O.Dropped(held, id);
      }
      RefreshCache(id, c);
    }

    method UpdateStatus(id: string, status: nat, reason: string, c: O.Calls) returns (ok: bool)
      modifies this
      ensures View() == O.Step(old(View()), O.Event(O.SetStatus(id, status, reason), c))
      ensures ok == (id in old(db) && c.update.Done?)
    {
      hide Serialize;
      if id !in db {
        return false;
      }
      ok := UpdateRow(id, db[id].(status := O.Named(status), statusReason := reason, updatedAt := c.now), c.update);
      if ok {
        RefreshCache(id, c);
      }
    }

    method MarkPaid(id: string, cents: int, paidAt: int, c: O.Calls) returns (ok: bool)
      modifies this
      ensures View() == O.Step(old(View()), O.Event(O.MarkPaid(id, cents, paidAt), c))
      ensures ok == (id in old(db) && c.update.Done?)
    {
      hide Serialize;
      if id !in db {
        return false;
      }
      ok := UpdateRow(id, O.Paid(db[id], cents, paidAt, c), c.update);
      if ok {
        RefreshCache(id, c);
      }
    }

    method GetOrderById(id: string, preferCache: bool, c: O.Calls) returns (r: O.Lookup)
      modifies this`redis
      ensures (r, View()) == O.GetOrder(old(View()), id, preferCache, c)
    {
      hide Deserialize, Serialize;
      if preferCache && c.lookup && OrderKey(id) in redis {
        var cached := Deserialize(redis[OrderKey(id)]);
        return if cached.Some? then O.Found(cached.value) else O.Threw;
      }
      if !c.read || id !in db {
        return O.Missing;
      }
      r := O.Found(O.FromRow(db[id]));
      var _ := PutOrder(r.order, c.put);
    }
  }
}
