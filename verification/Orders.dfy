/** Creating, cancelling, updating and reading orders across Redis (stock,
    reservations, cached orders) and the database, as in
    apps/order_server/interface/http/OrderCreateHandler.cpp and
    apps/order_server/domain/OrderService.cpp. Calls do not interleave. */
module Orders {
  import opened Runs
  import opened Decimal
  import opened OrderCodec
  import SqlAmount
  import opened Inventory

  const PENDING: nat := 0
  const PAID: nat := 3
  const CANCELLED: nat := 5
  const FAILED: nat := 6

  /** An order in the database whose stock is still taken. */
  datatype Hold = Hold(orderId: string, productId: string, quantity: nat)

  /** `held` is bookkeeping: no operation reads it. */
  datatype System = System(redis: Redis, db: map<string, Record>, held: seq<Hold>)

  /** An insert that fails inserts nothing; it may fail by an exception. */
  datatype Insert = Inserted | NotInserted | InsertThrew

  /** `roundUp` is the way an amount exactly between two goes in the SQL text, and
      `payload` what the database makes of the payload's literal, which is not
      escaped. */
  datatype Calls = Calls(
    reserve: ReserveCalls, release: ReleaseCalls, insert: Insert, update: Write, roundUp: bool, payload: string,
    lookup: bool, read: bool, reread: bool, put: Write, now: int)

  datatype Action =
    | HandlerCreate(request: Record, id: string, require_: bool)
    | ServiceCreate(order: Record, reserve: bool)
    | Cancel(id: string, reason: string, release: bool)
    | SetStatus(id: string, status: nat, reason: string)
    | MarkPaid(id: string, cents: int, paidAt: int)
    | Get(id: string, preferCache: bool)

  /** An operation and the answers its calls got. */
  datatype Event = Event(op: Action, calls: Calls)

  /** What GetOrderById answers; `Threw` is an exception from decoding the cached
      text, which leaves the call. */
  datatype Lookup = Found(order: Record) | Missing | Threw

  // ---------- Database and cache ----------

  /** A status goes through its name in the database; a number that has no name
      is written as "Unknown" and reads back as Pending. */
  function Named(status: nat): nat
  {
    if status <= FAILED then status else PENDING
  }

  /** The primary key rejects a second row. */
  function InsertAnswer(db: map<string, Record>, id: string, o: Insert): Insert
  {
    if o.Inserted? && id in db then NotInserted else o
  }

  /** A new row: amount and payload are what is read from the SQL text. */
  function Row(r: Record, c: Calls): Record
  {
    r.(cents := SqlAmount.Stored(r.cents, c.roundUp), payload := c.payload)
  }

  /** GetById does not read the timestamps. */
  function FromRow(r: Record): Record
  {
    r.(createdAt := 0, updatedAt := 0)
  }

  function CacheOrder(s: System, r: Record, w: Write): System
  {
    s.(redis := Put(s.redis, OrderKey(r.orderId), Serialize(r), w))
  }

  function Refresh(s: System, id: string, c: Calls): System
  {
    if c.reread && id in s.db then CacheOrder(s, FromRow(s.db[id]), c.put) else s
  }

  /** An UPDATE of one row: whether it reported success, and the system. */
  function UpdateRow(s: System, id: string, r: Record, w: Write): (bool, System)
  {
    if id !in s.db || w.Refused? then (false, s) else (w.Done?, s.(db := s.db[id := r]))
  }

  // ---------- Operations ----------

  predicate ValidRequest(r: Record)
  {
    r.userId != "" && r.productId != "" && r.quantity != 0 && r.cents > 0
  }

  /** Insert, then cache, or give the stock back. */
  function Persist(s: System, r: Record, reserved: bool, reservation: string, c: Calls): System
  {
    match InsertAnswer(s.db, r.orderId, c.insert)
    case Inserted =>
      CacheOrder(s.(db := s.db[r.orderId := Row(r, c)],
                    held := if reserved then s.held + [Hold(r.orderId, r.productId, r.quantity)] else s.held), r, c.put)
    case NotInserted =>
      if reserved then s.(redis := Release(s.redis, reservation, r.productId, r.quantity, c.release).1) else s
    case InsertThrew => s
  }

  /** OrderCreateHandler::handle. The stock is reserved before the order has an
      id, and the compensation names no reservation. */
  function Handle(s: System, request: Record, id: string, require_: bool, c: Calls): System
  {
    if !ValidRequest(request) then s
    else
      var (ok, m) := if require_ then Reserve(s.redis, "", request.productId, request.quantity, c.reserve) else (true, s.redis);
      if !ok then s.(redis := m)
      else
        var r := request.(orderId := id, createdAt := c.now, updatedAt := c.now, status := PENDING);
        Persist(s.(redis := m), r, require_, "", c)
  }

  /** OrderService::CreateOrder; `reserve` says that reservations are required
      and this order does not skip its own. */
  function Create(s: System, order: Record, reserve: bool, c: Calls): System
  {
    var r := order.(status := PENDING, statusReason := "order created", createdAt := c.now, updatedAt := c.now);
    var (ok, m) := if reserve then Reserve(s.redis, r.orderId, r.productId, r.quantity, c.reserve) else (true, s.redis);
    var s1 := s.(redis := m);
    if ok then Persist(s1, r, reserve, ReservationId(r.orderId, r.productId), c)
    else
      var failed := r.(status := FAILED, statusReason := "inventory reservation failed");
      match InsertAnswer(s.db, r.orderId, c.insert)
      case Inserted => CacheOrder(s1.(db := s.db[r.orderId := Row(failed, c)]), failed, c.put)
      case NotInserted => CacheOrder(s1, failed, c.put)
      case InsertThrew => s1
  }

  predicate IsHeld(held: seq<Hold>, id: string)
  {
    exists i :: 0 <= i < |held| && held[i].orderId == id
  }

  /** The ledger without the first hold of `id`. */
  function Dropped(held: seq<Hold>, id: string): seq<Hold>
  {
    if held == [] then []
    else if held[0].orderId == id then held[1..]
    else [held[0]] + Dropped(held[1..], id)
  }

  /** Whether CancelOrder gets as far as releasing. */
  predicate Releases(s: System, id: string, release: bool, c: Calls)
  {
    c.read && id in s.db && c.update.Done? && release
  }

  /** OrderService::CancelOrder. It releases whatever the order's state was. */
  function CancelOrder(s: System, id: string, reason: string, release: bool, c: Calls): System
  {
    if !c.read || id !in s.db then s
    else
      var r := s.db[id];
      var (ok, s1) := UpdateRow(s, id, r.(status := CANCELLED, statusReason := reason, updatedAt := c.now), c.update);
      if !ok then s1
      else
        var s2 := if release then s1.(redis := Release(s1.redis, "", r.productId, r.quantity, c.release).1,
                                      held := Dropped(s1.held, id)) else s1;
        Refresh(s2, id, c)
  }

  /** The row after UpdatePayment. */
  function Paid(r: Record, cents: int, paidAt: int, c: Calls): Record
  {
    r.(status := PAID, cents := SqlAmount.Stored(cents, c.roundUp), updatedAt := paidAt)
  }

  function Update(s: System, id: string, r: Record, c: Calls): System
  {
    var (ok, s1) := UpdateRow(s, id, r, c.update);
    if ok then Refresh(s1, id, c) else s1
  }

  /** The cached record, if there is one that decodes. */
  function Cached(m: Redis, id: string): Option<Record>
  {
    if OrderKey(id) in m then Deserialize(m[OrderKey(id)]) else None
  }

  /** OrderService::GetOrderById: the answer and the system. A cache that cannot be
      asked counts as a miss. */
  function GetOrder(s: System, id: string, preferCache: bool, c: Calls): (Lookup, System)
  {
    if preferCache && c.lookup && OrderKey(id) in s.redis then
      match Cached(s.redis, id)
      case Some(r) => (Found(r), s)
      case None => (Threw, s)
    else if !c.read || id !in s.db then (Missing, s)
    else (Found(FromRow(s.db[id])), CacheOrder(s, FromRow(s.db[id]), c.put))
  }

  function Step(s: System, e: Event): System
  {
    match e.op
    case HandlerCreate(request, id, require_) => Handle(s, request, id, require_, e.calls)
    case ServiceCreate(order, reserve) => Create(s, order, reserve, e.calls)
    case Cancel(id, reason, release) => CancelOrder(s, id, reason, release, e.calls)
    case SetStatus(id, status, reason) =>
      if id in s.db then Update(s, id, s.db[id].(status := Named(status), statusReason := reason, updatedAt := e.calls.now), e.calls) else s
    case MarkPaid(id, cents, paidAt) =>
      if id in s.db then Update(s, id, Paid(s.db[id], cents, paidAt, e.calls), e.calls) else s
    case Get(id, preferCache) => GetOrder(s, id, preferCache, e.calls).1
  }
}

/** Stock conservation over whole runs. */
module StockConservation {
  import opened Runs
  import opened Decimal
  import opened OrderCodec
  import opened Inventory
  import opened Orders

  function HeldOf(held: seq<Hold>, p: string): nat
  {
    if held == [] then 0
    else (if held[0].productId == p then held[0].quantity else 0) + HeldOf(held[1..], p)
  }

  /** Stock of a product plus the quantities of its persisted reserved orders. */
  function Total(s: System, p: string): nat
  {
    Stock(s.redis, p) + HeldOf(s.held, p)
  }

  ghost predicate HoldOk(s: System, h: Hold)
  {
    && h.orderId in s.db && s.db[h.orderId].productId == h.productId && s.db[h.orderId].quantity == h.quantity
    && HasStock(s.redis, h.productId)
  }

  ghost predicate Inv(s: System)
  {
    && (forall h :: h in s.held ==> HoldOk(s, h))
    && (forall p :: Total(s, p) < TWO64)
  }

  // ---------- The ledger and the calls ----------

  /** The order that this operation reserves stock for and inserts. */
  function Takes(s: System, e: Event): Option<string>
  {
    match e.op
    case HandlerCreate(request, id, require_) =>
      if require_ && ValidRequest(request) && InsertAnswer(s.db, id, e.calls.insert).Inserted?
         && Reserve(s.redis, "", request.productId, request.quantity, e.calls.reserve).0 then Some(id) else None
    case ServiceCreate(order, reserve) =>
      if reserve && InsertAnswer(s.db, order.orderId, e.calls.insert).Inserted?
         && Reserve(s.redis, order.orderId, order.productId, order.quantity, e.calls.reserve).0 then Some(order.orderId) else None
    case _ => None
  }

  /** The order whose stock this operation sets out to give back. */
  function Gives(s: System, e: Event): Option<string>
  {
    if e.op.Cancel? && Releases(s, e.op.id, e.op.release, e.calls) then Some(e.op.id) else None
  }

  function LiveNext(s: System, e: Event, live: set<string>): set<string>
  {
    match Takes(s, e)
    case Some(id) => live + {id}
    case None => if Gives(s, e).Some? then live - {Gives(s, e).value} else live
  }

  /** The orders that a creation of the run reserved stock for and inserted, and
      that no later cancellation released; `live` are those from before. */
  ghost function Live(s: System, run: seq<Event>, live: set<string>): set<string>
    decreases run
  {
    if run == [] then live else Live(Step(s, run[0]), run[1..], LiveNext(s, run[0], live))
  }

  /** One hold for each order. */
  ghost predicate Distinct(held: seq<Hold>)
  {
    held != [] ==> !IsHeld(held[1..], held[0].orderId) && Distinct(held[1..])
  }

  ghost predicate HoldIsRow(db: map<string, Record>, h: Hold)
  {
    h.orderId in db && h == Hold(h.orderId, db[h.orderId].productId, db[h.orderId].quantity)
  }

  ghost predicate LedgerOk(s: System, live: set<string>)
  {
    && Distinct(s.held)
    && (forall h :: h in s.held ==> HoldIsRow(s.db, h))
    && (forall id :: IsHeld(s.held, id) <==> id in live)
  }

  lemma HeldFirst(held: seq<Hold>, id: string)
    requires held != []
    ensures IsHeld(held, id) <==> held[0].orderId == id || IsHeld(held[1..], id)
  {
    assert forall i :: 0 <= i < |held| - 1 ==> held[1..][i] == held[i + 1];
    if IsHeld(held, id) && held[0].orderId != id {
      var i :| 0 <= i < |held| && held[i].orderId == id;
      assert held[1..][i - 1].orderId == id;
    }
  }

  lemma {:induction false} HeldLast(held: seq<Hold>, h: Hold, id: string)
    ensures IsHeld(held + [h], id) <==> IsHeld(held, id) || h.orderId == id
    ensures Distinct(held) && !IsHeld(held, h.orderId) ==> Distinct(held + [h])
    decreases held
  {
    hide IsHeld;
    var all := held + [h];
    HeldFirst(all, id);
    HeldFirst(all, h.orderId);
    NotHeldEmpty(id);
    if held == [] {
      assert all[1..] == [];
      NotHeldEmpty(h.orderId);
    } else {
      assert all[1..] == held[1..] + [h];
      HeldFirst(held, id);
      HeldFirst(held, h.orderId);
      HeldLast(held[1..], h, id);
      HeldLast(held[1..], h, held[0].orderId);
    }
  }

  lemma NotHeldEmpty(id: string)
    ensures !IsHeld([], id)
  {
  }

  lemma {:induction false} HeldWithout(held: seq<Hold>, id: string, x: string)
    requires Distinct(held)
    ensures IsHeld(Dropped(held, id), x) <==> IsHeld(held, x) && x != id
    ensures Distinct(Dropped(held, id)) && forall h :: h in Dropped(held, id) ==> h in held
    decreases held
  {
    hide IsHeld;
    if held == [] {
      NotHeldEmpty(x);
    } else {
      HeldFirst(held, x);
      if held[0].orderId != id {
        var rest := Dropped(held[1..], id);
        assert ([held[0]] + rest)[1..] == rest;
        HeldFirst([held[0]] + rest, x);
        HeldWithout(held[1..], id, x);
        HeldWithout(held[1..], id, held[0].orderId);
      }
    }
  }

  ghost predicate SameGoods(db: map<string, Record>, rows: map<string, Record>)
  {
    forall id :: id in db ==>
      id in rows && rows[id].productId == db[id].productId && rows[id].quantity == db[id].quantity
  }

  /** What an operation does to the ledger and to the rows it speaks of. */
  ghost predicate HeldMoves(s: System, r: System, takes: Option<string>, gives: Option<string>)
  {
    && SameGoods(s.db, r.db)
    && match takes
       case Some(id) =>
         && id !in s.db && id in r.db
         && r.held == s.held + [Hold(id, r.db[id].productId, r.db[id].quantity)]
       case None => r.held == if gives.Some? then Dropped(s.held, gives.value) else s.held
  }

  lemma PersistMoves(s: System, m: Redis, r: Record, reserved: bool, reservation: string, c: Calls)
    ensures HeldMoves(s, Persist(s.(redis := m), r, reserved, reservation, c),
                      if reserved && InsertAnswer(s.db, r.orderId, c.insert).Inserted? then Some(r.orderId) else None, None)
  {
    hide Release, Serialize;
  }

  lemma HandleMoves(s: System, request: Record, id: string, require_: bool, c: Calls)
    ensures HeldMoves(s, Handle(s, request, id, require_, c), Takes(s, Event(HandlerCreate(request, id, require_), c)), None)
  {
    hide Reserve, Persist;
    var r := request.(orderId := id, createdAt := c.now, updatedAt := c.now, status := PENDING);
    var m := if require_ then Reserve(s.redis, "", request.productId, request.quantity, c.reserve).1 else s.redis;
    PersistMoves(s, m, r, require_, "", c);
  }

  lemma CreateMoves(s: System, order: Record, reserve: bool, c: Calls)
    ensures HeldMoves(s, Create(s, order, reserve, c), Takes(s, Event(ServiceCreate(order, reserve), c)), None)
  {
    hide Reserve, Persist, Serialize;
    var r := order.(status := PENDING, statusReason := "order created", createdAt := c.now, updatedAt := c.now);
    var m := if reserve then Reserve(s.redis, r.orderId, r.productId, r.quantity, c.reserve).1 else s.redis;
    PersistMoves(s, m, r, reserve, ReservationId(r.orderId, r.productId), c);
  }

  lemma HeldStep(s: System, e: Event)
    ensures HeldMoves(s, Step(s, e), Takes(s, e), Gives(s, e))
  {
    hide Handle, Create, Release, Serialize, Deserialize, Dropped;
    match e.op
    case HandlerCreate(request, id, require_) => HandleMoves(s, request, id, require_, e.calls);
    case ServiceCreate(order, reserve) => CreateMoves(s, order, reserve, e.calls);
    case _ =>
  }

  lemma LedgerStep(s: System, e: Event, live: set<string>)
    requires LedgerOk(s, live)
    ensures LedgerOk(Step(s, e), LiveNext(s, e, live))
  {
    hide Step, Takes, Gives, IsHeld, Distinct, Dropped;
    HeldStep(s, e);
    var r := Step(s, e);
    match Takes(s, e) {
      case Some(id) =>
        var h := Hold(id, r.db[id].productId, r.db[id].quantity);
        if IsHeld(s.held, id) { HoldHasRow(s, live, id); }
        forall x ensures IsHeld(r.held, x) <==> x in live + {id} { HeldLast(s.held, h, x); }
        HeldLast(s.held, h, id);
        forall g | g in r.held ensures HoldIsRow(r.db, g) { assert g in s.held ==> HoldIsRow(s.db, g); }
      case None =>
        if Gives(s, e).Some? {
          var id := Gives(s, e).value;
          forall x ensures IsHeld(r.held, x) <==> x in live - {id} { HeldWithout(s.held, id, x); }
          HeldWithout(s.held, id, id);
        }
        forall g | g in r.held ensures HoldIsRow(r.db, g) { assert HoldIsRow(s.db, g); }
    }
  }

  lemma HoldHasRow(s: System, live: set<string>, id: string)
    requires LedgerOk(s, live) && IsHeld(s.held, id)
    ensures id in s.db
  {
    var i :| 0 <= i < |s.held| && s.held[i].orderId == id;
    assert s.held[i] in s.held && HoldIsRow(s.db, s.held[i]);
  }

  lemma {:induction false} LedgerRun(s: System, run: seq<Event>, live: set<string>)
    requires LedgerOk(s, live)
    ensures LedgerOk(Exec(Step, s, run), Live(s, run, live))
    decreases run
  {
    hide Step, LedgerOk, LiveNext;
    if run != [] {
      LedgerStep(s, run[0], live);
      LedgerRun(Step(s, run[0]), run[1..], LiveNext(s, run[0], live));
    }
  }

  /** The ledger is what the calls did: after any run it has exactly one hold, for
      the product and quantity of its row, for every order that a creation
      reserved and inserted and that no later cancellation released. */
  lemma HeldExactly(redis: Redis, db: map<string, Record>, run: seq<Event>)
    ensures var s0 := System(redis, db, []); var s := Exec(Step, s0, run);
      && Distinct(s.held)
      && (forall h :: h in s.held ==> HoldIsRow(s.db, h))
      && (forall id :: IsHeld(s.held, id) <==> id in Live(s0, run, {}))
  {
    LedgerRun(System(redis, db, []), run, {});
  }

  /** A cancellation that releases stock is of an order that a creation reserved
      and that no cancellation has released since. */
  predicate Disciplined(s: System, e: Event, live: set<string>)
  {
    Gives(s, e).Some? ==> Gives(s, e).value in live
  }

  // ---------- Conservation ----------

  /** Every Redis call on the stock succeeds and the insert does not throw. */
  predicate Fine(e: Event)
  {
    FineReserve(e.calls.reserve) && FineRelease(e.calls.release) && !e.calls.insert.InsertThrew?
  }

  lemma {:induction false} HeldSnoc(held: seq<Hold>, h: Hold, p: string)
    ensures HeldOf(held + [h], p) == HeldOf(held, p) + if h.productId == p then h.quantity else 0
  {
    if held == [] {
      assert held + [h] == [h];
    } else {
      assert (held + [h])[1..] == held[1..] + [h];
      HeldSnoc(held[1..], h, p);
    }
  }

  /** Dropping a hold takes its quantity off its product and nothing else. */
  lemma {:induction false} HeldDropped(held: seq<Hold>, h: Hold, p: string)
    requires IsHeld(held, h.orderId)
    requires forall g :: g in held && g.orderId == h.orderId ==> g == h
    ensures HeldOf(held, p) == HeldOf(Dropped(held, h.orderId), p) + if h.productId == p then h.quantity else 0
    ensures forall g :: g in Dropped(held, h.orderId) ==> g in held
  {
    if held[0].orderId != h.orderId {
      var i :| 0 <= i < |held| && held[i].orderId == h.orderId;
      assert held[1..][i - 1].orderId == h.orderId;
      HeldDropped(held[1..], h, p);
      var rest := Dropped(held[1..], h.orderId);
      assert ([held[0]] + rest)[1..] == rest;
    } else {
      assert held[0] in held;
    }
  }

  lemma {:induction false} DroppedNone(held: seq<Hold>, id: string)
    requires !IsHeld(held, id)
    ensures Dropped(held, id) == held
  {
    if held != [] {
      assert held[0].orderId != id;
      assert forall i :: 0 <= i < |held[1..]| ==> held[1..][i] == held[i + 1];
      DroppedNone(held[1..], id);
    }
  }

  /** What one operation must do: keep the invariant and the bound. */
  ghost predicate Good(s: System, r: System, fine: bool)
  {
    && Inv(r)
    && (forall p :: Total(r, p) <= Total(s, p))
    && (fine ==> forall p :: Total(r, p) == Total(s, p))
  }

  /** Caching an order and rewriting a row leave stock and ledger alone. */
  lemma CachingKeeps(s: System, r: Record, w: Write)
    requires Inv(s)
    ensures Good(s, CacheOrder(s, r, w), true)
  {
    hide Serialize, Stock, HasStock, HeldOf;
    var q := CacheOrder(s, r, w);
    forall p ensures SameStock(s.redis, q.redis, p) {
      StockKeysApart(p, r.orderId);
      PutElsewhere(s.redis, OrderKey(r.orderId), Serialize(r), w, p);
    }
    forall h | h in q.held ensures HoldOk(q, h) { assert HoldOk(s, h) && SameStock(s.redis, q.redis, h.productId); }
    forall p ensures Total(q, p) == Total(s, p) < TWO64 { assert SameStock(s.redis, q.redis, p); }
  }

  lemma RowKeeps(s: System, id: string, r: Record)
    requires Inv(s)
    requires id in s.db ==> r.productId == s.db[id].productId && r.quantity == s.db[id].quantity
    ensures Good(s, s.(db := s.db[id := r]), true)
  {
    hide Stock, HasStock, HeldOf;
    var q := s.(db := s.db[id := r]);
    forall h | h in q.held ensures HoldOk(q, h) { assert HoldOk(s, h); }
    forall p ensures Total(q, p) == Total(s, p) && Total(s, p) < TWO64 { }
  }

  /** After a reservation the system owes `quantity` to `product`. */
  ghost predicate Owing(s0: System, s: System, product: string, quantity: nat, fine: bool)
  {
    && (forall h :: h in s.held ==> HoldOk(s, h))
    && HasStock(s.redis, product)
    && (forall p :: Total(s, p) + (if p == product then quantity else 0) <= Total(s0, p))
    && (fine ==> forall p :: Total(s, p) + (if p == product then quantity else 0) == Total(s0, p))
  }

  lemma ReserveKeeps(s: System, order: string, product: string, quantity: nat, c: ReserveCalls)
    requires Inv(s)
    ensures var (ok, m) := Reserve(s.redis, order, product, quantity, c);
      if ok then Owing(s, s.(redis := m), product, quantity, true) else Good(s, s.(redis := m), FineReserve(c))
  {
    hide Reserve, Stock, HasStock, HeldOf;
    var (ok, m) := Reserve(s.redis, order, product, quantity, c);
    var q := s.(redis := m);
    forall p
      ensures HasStock(s.redis, p) ==> HasStock(m, p)
      ensures Stock(m, p) <= Stock(s.redis, p) && (p != product ==> Stock(m, p) == Stock(s.redis, p))
      ensures !ok && FineReserve(c) ==> Stock(m, p) == Stock(s.redis, p)
    {
      ReserveEffect(s.redis, order, product, quantity, c, p);
    }
    ReserveEffect(s.redis, order, product, quantity, c, product);
    forall h | h in q.held ensures HoldOk(q, h) { assert HoldOk(s, h); }
    forall p ensures Total(q, p) <= Total(s, p) < TWO64 { }
  }

  /** Giving back what is owed. */
  lemma ReleaseOwed(s0: System, s: System, reservation: string, product: string, quantity: nat, c: ReleaseCalls)
    requires Inv(s0) && Owing(s0, s, product, quantity, true)
    ensures Good(s0, s.(redis := Release(s.redis, reservation, product, quantity, c).1), FineRelease(c))
  {
    hide Release, Stock, HasStock, HeldOf;
    var m := Release(s.redis, reservation, product, quantity, c).1;
    var q := s.(redis := m);
    assert Total(s, product) + quantity <= Total(s0, product) < TWO64;
    forall p
      ensures HasStock(s.redis, p) ==> HasStock(m, p)
      ensures p != product ==> Stock(m, p) == Stock(s.redis, p)
    {
      ReleaseEffect(s.redis, reservation, product, quantity, c, p);
    }
    ReleaseEffect(s.redis, reservation, product, quantity, c, product);
    forall h | h in q.held ensures HoldOk(q, h) { assert HoldOk(s, h); }
    forall p ensures Total(q, p) <= Total(s0, p) < TWO64 && (FineRelease(c) ==> Total(q, p) == Total(s0, p)) { }
  }

  /** Recording what is owed as held by a new row. */
  lemma InsertOwed(s0: System, s: System, r: Record, row: Record)
    requires Inv(s0) && Owing(s0, s, r.productId, r.quantity, true) && r.orderId !in s.db
    requires row.productId == r.productId && row.quantity == r.quantity
    ensures Good(s0, s.(db := s.db[r.orderId := row], held := s.held + [Hold(r.orderId, r.productId, r.quantity)]), true)
  {
    hide Stock, HasStock, HeldOf;
    var h := Hold(r.orderId, r.productId, r.quantity);
    var q := s.(db := s.db[r.orderId := row], held := s.held + [h]);
    forall g | g in q.held ensures HoldOk(q, g) { assert g in s.held ==> HoldOk(s, g); }
    forall p ensures Total(q, p) == Total(s0, p) < TWO64 { HeldSnoc(s.held, h, p); }
  }

  lemma GoodThen(s: System, q: System, r: System, fine: bool)
    requires Good(s, q, fine) && Good(q, r, true)
    ensures Good(s, r, fine)
  {
    forall p ensures Total(r, p) <= Total(s, p) && (fine ==> Total(r, p) == Total(s, p)) {
      assert Total(r, p) == Total(q, p) <= Total(s, p);
    }
  }

  lemma Unchanged(s: System)
    requires Inv(s)
    ensures Good(s, s, true)
  {
  }

  lemma PersistReservedKeeps(s0: System, s: System, r: Record, reservation: string, c: Calls)
    requires Inv(s0) && Owing(s0, s, r.productId, r.quantity, true)
    ensures Good(s0, Persist(s, r, true, reservation, c), FineRelease(c.release) && !c.insert.InsertThrew?)
  {
    hide Release, Inv, Total, HoldOk, CacheOrder;
    match InsertAnswer(s.db, r.orderId, c.insert)
    case Inserted =>
      InsertOwed(s0, s, r, Row(r, c));
      var q := s.(db := s.db[r.orderId := Row(r, c)], held := s.held + [Hold(r.orderId, r.productId, r.quantity)]);
      CachingKeeps(q, r, c.put);
      GoodThen(s0, q, CacheOrder(q, r, c.put), true);
    case NotInserted => ReleaseOwed(s0, s, reservation, r.productId, r.quantity, c.release);
    case InsertThrew => LeakedKeeps(s0, s, r.productId, r.quantity);
  }

  lemma LeakedKeeps(s0: System, s: System, product: string, quantity: nat)
    requires Inv(s0) && Owing(s0, s, product, quantity, true)
    ensures Good(s0, s, false)
  {
    forall p ensures Total(s, p) <= Total(s0, p) < TWO64 { }
  }

  lemma PersistFreeKeeps(s: System, r: Record, reservation: string, c: Calls)
    requires Inv(s)
    ensures Good(s, Persist(s, r, false, reservation, c), true)
  {
    hide Inv, Total, CacheOrder;
    if InsertAnswer(s.db, r.orderId, c.insert).Inserted? {
      var q := s.(db := s.db[r.orderId := Row(r, c)]);
      RowKeeps(s, r.orderId, Row(r, c));
      CachingKeeps(q, r, c.put);
      GoodThen(s, q, CacheOrder(q, r, c.put), true);
    } else {
      Unchanged(s);
    }
  }

  lemma HandleKeeps(s: System, request: Record, id: string, require_: bool, c: Calls)
    requires Inv(s)
    ensures Good(s, Handle(s, request, id, require_, c), Fine(Event(HandlerCreate(request, id, require_), c)))
  {
    hide Inv, Total, Persist, Reserve, HoldOk;
    Unchanged(s);
    if ValidRequest(request) {
      var r := request.(orderId := id, createdAt := c.now, updatedAt := c.now, status := PENDING);
      if require_ {
        ReserveKeeps(s, "", request.productId, request.quantity, c.reserve);
        var (ok, m) := Reserve(s.redis, "", request.productId, request.quantity, c.reserve);
        if ok {
          PersistReservedKeeps(s, s.(redis := m), r, "", c);
        }
      } else {
        PersistFreeKeeps(s, r, "", c);
      }
    }
  }

  lemma CreateKeeps(s: System, order: Record, reserve: bool, c: Calls)
    requires Inv(s)
    ensures Good(s, Create(s, order, reserve, c), Fine(Event(ServiceCreate(order, reserve), c)))
  {
    hide Inv, Total, Persist, Reserve, HoldOk, CacheOrder, ReservationId;
    var r := order.(status := PENDING, statusReason := "order created", createdAt := c.now, updatedAt := c.now);
    var rid := ReservationId(r.orderId, r.productId);
    if reserve {
      ReserveKeeps(s, r.orderId, r.productId, r.quantity, c.reserve);
      var (ok, m) := Reserve(s.redis, r.orderId, r.productId, r.quantity, c.reserve);
      if ok {
        PersistReservedKeeps(s, s.(redis := m), r, rid, c);
      } else {
        FailedKeeps(s, s.(redis := m), r.(status := FAILED, statusReason := "inventory reservation failed"), c, FineReserve(c.reserve));
      }
    } else {
      PersistFreeKeeps(s, r, rid, c);
    }
  }

  lemma FailedKeeps(s: System, q: System, failed: Record, c: Calls, fine: bool)
    requires Good(s, q, fine)
    ensures failed.orderId !in q.db ==> Good(s, CacheOrder(q.(db := q.db[failed.orderId := Row(failed, c)]), failed, c.put), fine)
    ensures Good(s, CacheOrder(q, failed, c.put), fine)
  {
    hide Inv, Total, CacheOrder;
    assert Inv(q);
    CachingKeeps(q, failed, c.put);
    GoodThen(s, q, CacheOrder(q, failed, c.put), fine);
    if failed.orderId !in q.db {
      var d := q.(db := q.db[failed.orderId := Row(failed, c)]);
      RowKeeps(q, failed.orderId, Row(failed, c));
      CachingKeeps(d, failed, c.put);
      GoodThen(q, d, CacheOrder(d, failed, c.put), true);
      GoodThen(s, q, CacheOrder(d, failed, c.put), fine);
    }
  }

  lemma RefreshKeeps(s: System, id: string, c: Calls)
    requires Inv(s)
    ensures Good(s, Refresh(s, id, c), true)
  {
    hide Inv, Total, CacheOrder;
    Unchanged(s);
    if c.reread && id in s.db { CachingKeeps(s, FromRow(s.db[id]), c.put); }
  }

  lemma UpdateKeeps(s: System, id: string, r: Record, c: Calls)
    requires Inv(s) && id in s.db && r.productId == s.db[id].productId && r.quantity == s.db[id].quantity
    ensures Good(s, Update(s, id, r, c), true)
  {
    hide Inv, Total, Refresh;
    Unchanged(s);
    RowKeeps(s, id, r);
    var q := s.(db := s.db[id := r]);
    RefreshKeeps(q, id, c);
    GoodThen(s, q, Refresh(q, id, c), true);
  }

  lemma DropOwes(s: System, id: string)
    requires Inv(s) && IsHeld(s.held, id)
    ensures id in s.db
    ensures var r := s.db[id]; Owing(s, s.(held := Dropped(s.held, id)), r.productId, r.quantity, true)
  {
    hide Stock, HasStock, HeldOf, Dropped;
    var i :| 0 <= i < |s.held| && s.held[i].orderId == id;
    var h := s.held[i];
    assert h in s.held && HoldOk(s, h);
    forall g | g in s.held && g.orderId == id ensures g == h { assert HoldOk(s, g); }
    var q := s.(held := Dropped(s.held, id));
    forall p ensures Total(q, p) + (if p == h.productId then h.quantity else 0) == Total(s, p) { HeldDropped(s.held, h, p); }
    HeldDropped(s.held, h, h.productId);
    forall g | g in q.held ensures HoldOk(q, g) { assert HoldOk(s, g); }
  }

  lemma CancelKeeps(s: System, id: string, reason: string, release: bool, c: Calls)
    requires Inv(s) && (Releases(s, id, release, c) ==> IsHeld(s.held, id))
    ensures Good(s, CancelOrder(s, id, reason, release, c), FineRelease(c.release))
  {
    hide Inv, Total, Release, Refresh, HoldOk, Dropped;
    Unchanged(s);
    if c.read && id in s.db {
      var r := s.db[id].(status := CANCELLED, statusReason := reason, updatedAt := c.now);
      RowKeeps(s, id, r);
      var s1 := s.(db := s.db[id := r]);
      if c.update.Done? {
        if release {
          DropOwes(s1, id);
          ReleaseOwed(s1, s1.(held := Dropped(s.held, id)), "", r.productId, r.quantity, c.release);
          var s2 := s1.(redis := Release(s.redis, "", r.productId, r.quantity, c.release).1, held := Dropped(s.held, id));
          GoodFrom(s, s1, s2, FineRelease(c.release));
          RefreshKeeps(s2, id, c);
          GoodThen(s, s2, Refresh(s2, id, c), FineRelease(c.release));
        } else {
          RefreshKeeps(s1, id, c);
          GoodThen(s, s1, Refresh(s1, id, c), true);
        }
      }
    }
  }

  lemma GoodFrom(s: System, q: System, r: System, fine: bool)
    requires Good(s, q, true) && Good(q, r, fine)
    ensures Good(s, r, fine)
  {
    forall p ensures Total(r, p) <= Total(s, p) && (fine ==> Total(r, p) == Total(s, p)) {
      assert Total(q, p) == Total(s, p);
    }
  }

  lemma StepKeeps(s: System, e: Event)
    requires Inv(s) && (Gives(s, e).Some? ==> IsHeld(s.held, Gives(s, e).value))
    ensures Good(s, Step(s, e), Fine(e))
  {
    hide Inv, Total, Handle, Create, CancelOrder, Update, CacheOrder;
    var c := e.calls;
    Unchanged(s);
    match e.op
    case HandlerCreate(request, id, require_) => HandleKeeps(s, request, id, require_, c);
    case ServiceCreate(order, reserve) => CreateKeeps(s, order, reserve, c);
    case Cancel(id, reason, release) => CancelKeeps(s, id, reason, release, c);
    case SetStatus(id, status, reason) =>
      if id in s.db { UpdateKeeps(s, id, s.db[id].(status := Named(status), statusReason := reason, updatedAt := c.now), c); }
    case MarkPaid(id, cents, paidAt) =>
      if id in s.db { UpdateKeeps(s, id, Paid(s.db[id], cents, paidAt, c), c); }
    case Get(id, preferCache) =>
      if id in s.db { CachingKeeps(s, FromRow(s.db[id]), c.put); }
  }

  ghost predicate DisciplinedRun(s: System, run: seq<Event>, live: set<string>)
    decreases run
  {
    run != [] ==>
      Disciplined(s, run[0], live) && DisciplinedRun(Step(s, run[0]), run[1..], LiveNext(s, run[0], live))
  }

  lemma {:induction false} RunKeeps(s: System, run: seq<Event>, live: set<string>)
    requires Inv(s) && LedgerOk(s, live) && DisciplinedRun(s, run, live)
    ensures Good(s, Exec(Step, s, run), forall e :: e in run ==> Fine(e))
    decreases run
  {
    hide Inv, Total, Step, Fine, Takes, Gives, LiveNext;
    if run == [] {
      Unchanged(s);
    } else {
      var q := Step(s, run[0]);
      StepKeeps(s, run[0]);
      LedgerStep(s, run[0], live);
      RunKeeps(q, run[1..], LiveNext(s, run[0], live));
      GoodChain(s, q, Exec(Step, q, run[1..]), Fine(run[0]), forall e :: e in run[1..] ==> Fine(e));
      assert run == [run[0]] + run[1..];
    }
  }

  lemma GoodChain(s: System, q: System, r: System, first: bool, second: bool)
    requires Good(s, q, first) && Good(q, r, second)
    ensures Good(s, r, first && second)
  {
    forall p ensures Total(r, p) <= Total(s, p) && (first && second ==> Total(r, p) == Total(s, p)) {
      assert Total(q, p) <= Total(s, p);
    }
  }

  lemma StartOk(redis: Redis, db: map<string, Record>)
    ensures Inv(System(redis, db, []))
  {
    forall p ensures Total(System(redis, db, []), p) < TWO64 { }
  }

  /** From any stock and orders, over every run of non-interleaved operations
      with any Redis failures and any insert failures, in which cancellations
      release only what a creation reserved and no cancellation released since:
      stock plus persisted reserved quantities never exceeds the initial stock
      of the product, and equals it when no stock call failed and no insert
      threw. */
  lemma Conservation(redis: Redis, db: map<string, Record>, run: seq<Event>, p: string)
    requires DisciplinedRun(System(redis, db, []), run, {})
    ensures var s := Exec(Step, System(redis, db, []), run);
      && Stock(s.redis, p) + HeldOf(s.held, p) <= Stock(redis, p)
      && ((forall e :: e in run ==> Fine(e)) ==> Stock(s.redis, p) + HeldOf(s.held, p) == Stock(redis, p))
  {
    var s0 := System(redis, db, []);
    StartOk(redis, db);
    RunKeeps(s0, run, {});
    assert Total(s0, p) == Stock(redis, p);
    assert Total(Exec(Step, s0, run), p) <= Total(s0, p);
  }

  /** incrementStock never wraps in such a run: neither what a live order gives
      back when it is cancelled, nor what a creation gives back when its insert is
      refused after its reservation, exceeds 64 bits with the stock. */
  lemma NeverWraps(redis: Redis, db: map<string, Record>, run: seq<Event>, id: string)
    requires DisciplinedRun(System(redis, db, []), run, {})
    ensures var s0 := System(redis, db, []); var s := Exec(Step, s0, run);
      && (id in Live(s0, run, {}) ==> id in s.db && Stock(s.redis, s.db[id].productId) + s.db[id].quantity < TWO64)
      && forall order, product, quantity, c ::
           var (ok, m) := Reserve(s.redis, order, product, quantity, c); ok ==> Stock(m, product) + quantity < TWO64
  {
    hide Reserve;
    var s0 := System(redis, db, []);
    StartOk(redis, db);
    RunKeeps(s0, run, {});
    LedgerRun(s0, run, {});
    var s := Exec(Step, s0, run);
    if id in Live(s0, run, {}) {
      DropOwes(s, id);
      var p := s.db[id].productId;
      assert Total(s.(held := Dropped(s.held, id)), p) + s.db[id].quantity <= Total(s, p) < TWO64;
    }
    forall order, product, quantity, c
      ensures var (ok, m) := Reserve(s.redis, order, product, quantity, c); ok ==> Stock(m, product) + quantity < TWO64
    {
      ReserveEffect(s.redis, order, product, quantity, c, product);
    }
  }

  /** In any state reached by such a run, a cancellation whose calls all succeed
      keeps the bound if and only if a creation reserved the order and no
      cancellation released it since: cancelled twice, or never reserved, it makes
      stock. */
  lemma CancelExactly(redis: Redis, db: map<string, Record>, run: seq<Event>, id: string, reason: string, c: Calls)
    requires DisciplinedRun(System(redis, db, []), run, {})
    requires CancelSucceeds(Exec(Step, System(redis, db, []), run), id, c)
    ensures var s0 := System(redis, db, []); var s := Exec(Step, s0, run);
      (forall p :: Total(CancelOrder(s, id, reason, true, c), p) <= Total(s, p)) <==> id in Live(s0, run, {})
  {
    hide Step, Inv, Total, CancelSucceeds;
    var s0 := System(redis, db, []);
    StartOk(redis, db);
    RunKeeps(s0, run, {});
    LedgerRun(s0, run, {});
    CancelKeepsBoundExactly(Exec(Step, s0, run), id, reason, c);
  }

  /** The row is there with something to give back, and every call succeeds. */
  predicate CancelSucceeds(s: System, id: string, c: Calls)
  {
    && id in s.db && s.db[id].quantity > 0
    && Releases(s, id, true, c) && FineRelease(c.release) && HasStock(s.redis, s.db[id].productId)
    && Stock(s.redis, s.db[id].productId) + s.db[id].quantity < TWO64
  }

  lemma CancelKeepsBoundExactly(s: System, id: string, reason: string, c: Calls)
    requires Inv(s) && CancelSucceeds(s, id, c)
    ensures (forall p :: Total(CancelOrder(s, id, reason, true, c), p) <= Total(s, p)) <==> IsHeld(s.held, id)
  {
    if IsHeld(s.held, id) {
      CancelKeeps(s, id, reason, true, c);
    } else {
      hide Stock, HasStock, Release;
      var p := s.db[id].productId;
      var r := CancelOrder(s, id, reason, true, c);
      DroppedNone(s.held, id);
      ReleaseEffect(s.redis, "", p, s.db[id].quantity, c.release, p);
      var m := Release(s.redis, "", p, s.db[id].quantity, c.release).1;
      StockKeysApart(p, id);
      StockKeysApart(p, s.db[id].orderId);
      PutElsewhere(m, OrderKey(s.db[id].orderId), Serialize(FromRow(r.db[id])), c.put, p);
      assert SameStock(m, r.redis, p);
      assert Total(r, p) == Total(s, p) + s.db[id].quantity;
    }
  }

  // ---------- What the status tells ----------

  predicate Open(r: Record)
  {
    r.status != CANCELLED && r.status != FAILED
  }

  /** The status of an order follows its stock: creations reserve, cancellations
      release and their UPDATE does not fail half-way, and the other updates
      neither open nor close an order. */
  predicate Tidy(s: System, e: Event)
  {
    match e.op
    case HandlerCreate(_, _, require_) => require_
    case ServiceCreate(_, reserve) => reserve
    case Cancel(_, _, release) => release && !e.calls.update.Lost?
    case SetStatus(id, status, _) =>
      Named(status) != CANCELLED && Named(status) != FAILED && (id in s.db ==> Open(s.db[id]))
    case MarkPaid(id, _, _) => id in s.db ==> Open(s.db[id])
    case Get(_, _) => true
  }

  ghost predicate TidyRun(s: System, run: seq<Event>)
    decreases run
  {
    run != [] ==> Tidy(s, run[0]) && TidyRun(Step(s, run[0]), run[1..])
  }

  ghost predicate StatusTells(s: System, live: set<string>)
  {
    forall id :: id in live <==> id in s.db && Open(s.db[id])
  }

  lemma PersistTells(s: System, m: Redis, r: Record, reservation: string, c: Calls, live: set<string>)
    requires StatusTells(s, live) && r.status == PENDING
    ensures StatusTells(Persist(s.(redis := m), r, true, reservation, c),
                        if InsertAnswer(s.db, r.orderId, c.insert).Inserted? then live + {r.orderId} else live)
  {
    hide Release, Serialize;
  }

  lemma HandleTells(s: System, request: Record, id: string, c: Calls, live: set<string>)
    requires StatusTells(s, live)
    ensures StatusTells(Handle(s, request, id, true, c), LiveNext(s, Event(HandlerCreate(request, id, true), c), live))
  {
    hide Reserve, Persist;
    var r := request.(orderId := id, createdAt := c.now, updatedAt := c.now, status := PENDING);
    var m := Reserve(s.redis, "", request.productId, request.quantity, c.reserve).1;
    PersistTells(s, m, r, "", c, live);
  }

  lemma CreateTells(s: System, order: Record, c: Calls, live: set<string>)
    requires StatusTells(s, live)
    ensures StatusTells(Create(s, order, true, c), LiveNext(s, Event(ServiceCreate(order, true), c), live))
  {
    hide Reserve, Persist, Serialize;
    var r := order.(status := PENDING, statusReason := "order created", createdAt := c.now, updatedAt := c.now);
    var m := Reserve(s.redis, r.orderId, r.productId, r.quantity, c.reserve).1;
    PersistTells(s, m, r, ReservationId(r.orderId, r.productId), c, live);
  }

  lemma StatusStep(s: System, e: Event, live: set<string>)
    requires StatusTells(s, live) && Tidy(s, e)
    ensures StatusTells(Step(s, e), LiveNext(s, e, live))
  {
    hide Handle, Create, Release, Serialize, Deserialize, Dropped;
    match e.op
    case HandlerCreate(request, id, _) => HandleTells(s, request, id, e.calls, live);
    case ServiceCreate(order, _) => CreateTells(s, order, e.calls, live);
    case _ =>
  }

  lemma {:induction false} StatusRun(s: System, run: seq<Event>, live: set<string>)
    requires StatusTells(s, live) && TidyRun(s, run)
    ensures StatusTells(Exec(Step, s, run), Live(s, run, live))
    decreases run
  {
    hide Step, StatusTells, LiveNext, Tidy;
    if run != [] {
      StatusStep(s, run[0], live);
      StatusRun(Step(s, run[0]), run[1..], LiveNext(s, run[0], live));
    }
  }

  /** In such a run from an empty database an order holds stock if and only if its
      row says neither cancelled nor failed. */
  lemma StatusTellsExactly(redis: Redis, run: seq<Event>, id: string)
    requires TidyRun(System(redis, map[], []), run)
    ensures var s := Exec(Step, System(redis, map[], []), run);
      IsHeld(s.held, id) <==> id in s.db && Open(s.db[id])
  {
    hide Step;
    StatusRun(System(redis, map[], []), run, {});
    LedgerRun(System(redis, map[], []), run, {});
  }

  /** No cancellation is called on a cancelled or failed order. */
  ghost predicate CancelsOpen(s: System, run: seq<Event>)
    decreases run
  {
    run != [] ==>
      (run[0].op.Cancel? && run[0].op.id in s.db ==> Open(s.db[run[0].op.id])) && CancelsOpen(Step(s, run[0]), run[1..])
  }

  lemma {:induction false} OpenIsDisciplined(s: System, run: seq<Event>, live: set<string>)
    requires StatusTells(s, live) && TidyRun(s, run) && CancelsOpen(s, run)
    ensures DisciplinedRun(s, run, live)
    decreases run
  {
    hide Step, LiveNext, Tidy;
    if run != [] {
      StatusStep(s, run[0], live);
      OpenIsDisciplined(Step(s, run[0]), run[1..], LiveNext(s, run[0], live));
    }
  }

  /** Conservation under a test that a caller of CancelOrder can make: look at the
      status first. */
  lemma ConservationByStatus(redis: Redis, run: seq<Event>, p: string)
    requires TidyRun(System(redis, map[], []), run) && CancelsOpen(System(redis, map[], []), run)
    ensures var s := Exec(Step, System(redis, map[], []), run);
      && Stock(s.redis, p) + HeldOf(s.held, p) <= Stock(redis, p)
      && ((forall e :: e in run ==> Fine(e)) ==> Stock(s.redis, p) + HeldOf(s.held, p) == Stock(redis, p))
  {
    OpenIsDisciplined(System(redis, map[], []), run, {});
    Conservation(redis, map[], run, p);
  }

  /** And the test is exact: after such a run, a cancellation whose calls all
      succeed keeps the bound if and only if the row says neither cancelled nor
      failed. */
  lemma CancelByStatus(redis: Redis, run: seq<Event>, id: string, reason: string, c: Calls)
    requires TidyRun(System(redis, map[], []), run) && CancelsOpen(System(redis, map[], []), run)
    requires CancelSucceeds(Exec(Step, System(redis, map[], []), run), id, c)
    ensures var s := Exec(Step, System(redis, map[], []), run);
      (forall p :: Total(CancelOrder(s, id, reason, true, c), p) <= Total(s, p)) <==> Open(s.db[id])
  {
    hide Step, Total, CancelOrder;
    OpenIsDisciplined(System(redis, map[], []), run, {});
    StatusRun(System(redis, map[], []), run, {});
    CancelExactly(redis, map[], run, id, reason, c);
  }

  /** Rolling back a service creation deletes the reservation it cached, when the
      calls succeed. */
  lemma RollbackDeletesReservation(s: System, order: Record, c: Calls)
    requires Reserve(s.redis, order.orderId, order.productId, order.quantity, c.reserve).0
    requires InsertAnswer(s.db, order.orderId, c.insert).NotInserted? && FineRelease(c.release) && c.release.del
    ensures ReservationKey(ReservationId(order.orderId, order.productId)) !in Create(s, order, true, c).redis
  {
    hide Reserve, Stoull;
    ReserveEffect(s.redis, order.orderId, order.productId, order.quantity, c.reserve, order.productId);
  }

  /** The handler reserves before the order has an id and rolls back without one,
      so the reservation it cached stays behind. */
  lemma HandlerRollbackLeavesReservation(s: System, request: Record, id: string, c: Calls)
    requires ValidRequest(request) && Reserve(s.redis, "", request.productId, request.quantity, c.reserve).0
    requires InsertAnswer(s.db, id, c.insert).NotInserted?
    ensures ReservationKey(":" + request.productId) in Handle(s, request, id, true, c).redis
  {
    hide Stoull, Show;
    var rid := ReservationId("", request.productId);
    assert rid == ":" + request.productId;
    var m := Reserve(s.redis, "", request.productId, request.quantity, c.reserve).1;
    assert ReservationKey(rid) in m;
    assert ReservationKey(rid) != ReservationKey("") by {
      assert |ReservationKey(rid)| > |ReservationKey("")|;
    }
  }

  /** An insert that throws skips the compensation: the quantity is lost. */
  lemma InsertExceptionLeaks(s: System, request: Record, id: string, c: Calls)
    requires Inv(s) && ValidRequest(request) && c.insert.InsertThrew?
    requires Reserve(s.redis, "", request.productId, request.quantity, c.reserve).0
    ensures Total(Handle(s, request, id, true, c), request.productId) + request.quantity == Total(s, request.productId)
  {
    hide Reserve;
    ReserveKeeps(s, "", request.productId, request.quantity, c.reserve);
    var q := s.(redis := Reserve(s.redis, "", request.productId, request.quantity, c.reserve).1);
    assert Total(q, request.productId) + request.quantity == Total(s, request.productId);
  }
}
