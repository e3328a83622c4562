/** Order creation through the reseller API (`create_order` in app/api/routes/orders.py):
    the stored response, the lookup by key, the insert and the record of the response.
    Each request reads twice and commits once; other requests commit in between. */
module CreateOrder {
  import opened Wrappers

  type RequestId = nat
  type OrderId = nat
  type ResellerId = nat
  type Key = nat
  /** The request body stands for its fingerprint. */
  type Body = nat

  datatype Request = Request(reseller: ResellerId, key: Option<Key>, body: Body, reference: Option<nat>)

  datatype Order = Order(reseller: ResellerId, key: Option<Key>, reference: Option<nat>, version: nat)

  /** An order as serialised at some version of it. */
  datatype Response = Response(order: OrderId, version: nat)

  /** A row of idempotency_records. Its scope is the same for every reseller, so the key alone identifies it. */
  datatype Record = Record(body: Body, response: Response)

  datatype Answer =
    | Created(response: Response)
    | Replayed(response: Response)
    | Existing(response: Response)
    | KeyConflict
    | Refused
  {
    predicate HasResponse() {
      Created? || Replayed? || Existing?
    }
  }

  datatype Tables = Tables(orders: map<OrderId, Order>, records: map<Key, Record>)

  /** How far an open request has come. */
  datatype Stage = NotReplayed(request: Request) | NotFound(request: Request)

  datatype Exchange = Exchange(request: Request, answer: Answer)

  datatype Api = Api(tables: Tables, open: map<RequestId, Stage>, log: seq<Exchange>)

  const EMPTY: Api := Api(Tables(map[], map[]), map[], [])

  // --------------------------------------------------------- one request

  predicate Holds(orders: map<OrderId, Order>, order: OrderId, reseller: ResellerId, key: Key) {
    order in orders && orders[order].reseller == reseller && orders[order].key == Some(key)
  }

  /** The lookup by key, and the unique constraint behind it. */
  predicate KeyTaken(orders: map<OrderId, Order>, reseller: ResellerId, key: Key) {
    exists order :: order in orders && Holds(orders, order, reseller, key)
  }

  /** `replay`: the stored response for the same body, a conflict for another, or nothing. */
  function Replay(tables: Tables, request: Request): Option<Answer> {
    if request.key.None? || request.key.value !in tables.records then None
    else
      var record := tables.records[request.key.value];
      Some(if record.body == request.body then Replayed(record.response) else KeyConflict)
  }

  function Insert(tables: Tables, request: Request, order: OrderId): Tables {
    Tables(tables.orders[order := Order(request.reseller, request.key, request.reference, 0)],
           if request.key.None? || request.key.value in tables.records then tables.records
           else tables.records[request.key.value := Record(request.body, Response(order, 0))])
  }

  /** Whether the insert of the order is refused by the constraint. */
  predicate Clashes(tables: Tables, request: Request) {
    request.key.Some? && KeyTaken(tables.orders, request.reseller, request.key.value)
  }

  // ---------------------------------------------------------------- runs

  datatype Step =
    | Receive(r: RequestId, request: Request)
    | Lookup(r: RequestId, found: OrderId)
    | Commit(r: RequestId, order: OrderId, valid: bool)
    | Change(order: OrderId)
    | Purge(key: Key)

  predicate Enabled(api: Api, step: Step) {
    match step
    case Receive(r, _) => r !in api.open
    case Lookup(r, found) =>
      && r in api.open && api.open[r].NotReplayed?
      && var request := api.open[r].request;
         request.key.Some? && KeyTaken(api.tables.orders, request.reseller, request.key.value) ==>
           Holds(api.tables.orders, found, request.reseller, request.key.value)
    case Commit(r, order, _) => r in api.open && api.open[r].NotFound? && order !in api.tables.orders
    case Change(order) => order in api.tables.orders
    case Purge(key) => key in api.tables.records
  }

  function Finish(api: Api, r: RequestId, request: Request, answer: Answer): Api {
    api.(open := api.open - {r}, log := api.log + [Exchange(request, answer)])
  }

  function Apply(api: Api, step: Step): Api
    requires Enabled(api, step)
  {
    match step
    case Receive(r, request) =>
      var replayed := Replay(api.tables, request);
      if replayed.Some? then Finish(api, r, request, replayed.value)
      else api.(open := api.open[r := NotReplayed(request)])
    case Lookup(r, found) =>
      var request := api.open[r].request;
      if Clashes(api.tables, request) then
        Finish(api, r, request, Existing(Response(found, api.tables.orders[found].version)))
      else api.(open := api.open[r := NotFound(request)])
    case Commit(r, order, valid) =>
      var request := api.open[r].request;
      if !valid || Clashes(api.tables, request) then Finish(api, r, request, Refused)
      else Finish(api, r, request, Created(Response(order, 0))).(tables := Insert(api.tables, request, order))
    case Change(order) =>
      var was := api.tables.orders[order];
      api.(tables := api.tables.(orders := api.tables.orders[order := was.(version := was.version + 1)]))
    case Purge(key) => api.(tables := api.tables.(records := api.tables.records - {key}))
  }

  predicate Legal(api: Api, steps: seq<Step>)
    decreases |steps|
  {
    steps == [] || (Enabled(api, steps[0]) && Legal(Apply(api, steps[0]), steps[1..]))
  }

  function After(api: Api, steps: seq<Step>): Api
    requires Legal(api, steps)
    decreases |steps|
  {
    if steps == [] then api else After(Apply(api, steps[0]), steps[1..])
  }

  // ---------------------------------------------------------- invariants

  /** At most one order per reseller and key. */
  ghost predicate OnePerKey(orders: map<OrderId, Order>) {
    forall a, b, reseller, key :: Holds(orders, a, reseller, key) && Holds(orders, b, reseller, key) ==> a == b
  }

  /** A stored response belongs to an order that was committed under the same key. */
  ghost predicate RecordsBacked(tables: Tables) {
    forall key :: key in tables.records ==>
                    && tables.records[key].response.order in tables.orders
                    && tables.orders[tables.records[key].response.order].key == Some(key)
  }

  /** Every answer with a response shows an order that exists and carries the key of the request. */
  ghost predicate Answered(orders: map<OrderId, Order>, exchange: Exchange) {
    exchange.answer.HasResponse() && exchange.request.key.Some? ==>
      && exchange.answer.response.order in orders
      && orders[exchange.answer.response.order].key == exchange.request.key
  }

  ghost predicate Sound(api: Api) {
    && OnePerKey(api.tables.orders) && RecordsBacked(api.tables)
    && forall i :: 0 <= i < |api.log| ==> Answered(api.tables.orders, api.log[i])
  }

  /** Orders keep their reseller, key and reference. */
  predicate OrdersKept(now: map<OrderId, Order>, before: map<OrderId, Order>) {
    forall o :: o in before ==> o in now && now[o].reseller == before[o].reseller && now[o].key == before[o].key
  }

  lemma AnswersStay(now: map<OrderId, Order>, before: map<OrderId, Order>, log: seq<Exchange>)
    requires OrdersKept(now, before) && forall i :: 0 <= i < |log| ==> Answered(before, log[i])
    ensures forall i :: 0 <= i < |log| ==> Answered(now, log[i])
  {
    forall i | 0 <= i < |log|
      ensures Answered(now, log[i])
    {
      assert Answered(before, log[i]);
    }
  }

  lemma InsertKeepsSound(api: Api, r: RequestId, request: Request, order: OrderId)
    requires Sound(api) && order !in api.tables.orders && !Clashes(api.tables, request)
    ensures Sound(Finish(api, r, request, Created(Response(order, 0))).(tables := Insert(api.tables, request, order)))
  {
    var now := Insert(api.tables, request, order);
    AnswersStay(now.orders, api.tables.orders, api.log);
    forall a, b, reseller, key | Holds(now.orders, a, reseller, key) && Holds(now.orders, b, reseller, key)
      ensures a == b
    {
      assert a != order ==> Holds(api.tables.orders, a, reseller, key);
      assert b != order ==> Holds(api.tables.orders, b, reseller, key);
    }
  }

  lemma ChangeKeepsSound(api: Api, order: OrderId)
    requires Sound(api) && order in api.tables.orders
    ensures Sound(Apply(api, Change(order)))
  {
    var now := Apply(api, Change(order)).tables;
    AnswersStay(now.orders, api.tables.orders, api.log);
    forall a, b, reseller, key | Holds(now.orders, a, reseller, key) && Holds(now.orders, b, reseller, key)
      ensures a == b
    {
      assert Holds(api.tables.orders, a, reseller, key) && Holds(api.tables.orders, b, reseller, key);
    }
  }

  lemma StepKeepsSound(api: Api, step: Step)
    requires Sound(api) && Enabled(api, step)
    ensures Sound(Apply(api, step)) && OrdersKept(Apply(api, step).tables.orders, api.tables.orders)
  {
    match step
    case Commit(r, order, valid) =>
      if valid && !Clashes(api.tables, api.open[r].request) {
        InsertKeepsSound(api, r, api.open[r].request, order);
      }
    case Change(order) => ChangeKeepsSound(api, order);
    case Receive(_, _) =>
    case Lookup(_, _) =>
    case Purge(_) =>
  }

  /** Whatever the requests, their interleaving and the purges: at most one order exists
      per reseller and key, and no response is stored for an order that was rolled back. */
  lemma {:induction false} RunKeepsSound(api: Api, steps: seq<Step>)
    requires Sound(api) && Legal(api, steps)
    ensures Sound(After(api, steps)) && OrdersKept(After(api, steps).tables.orders, api.tables.orders)
    decreases |steps|
  {
    if steps != [] {
      StepKeepsSound(api, steps[0]);
      RunKeepsSound(Apply(api, steps[0]), steps[1..]);
    }
  }

  // --------------------------------------------------------- the replays

  /** Until its record is purged, a key answers the same body with the response stored
      first, whatever happened to the order since, and refuses any other body; neither
      changes a table. */
  lemma {:induction false} FirstResponseIsReplayed(api: Api, steps: seq<Step>, r: RequestId, request: Request)
    requires Legal(api, steps) && request.key.Some? && request.key.value in api.tables.records
    requires Purge(request.key.value) !in steps
    requires Enabled(After(api, steps), Receive(r, request))
    ensures var record := api.tables.records[request.key.value];
            var before := After(api, steps);
            Apply(before, Receive(r, request))
            == Finish(before, r, request,
                      if record.body == request.body then Replayed(record.response) else KeyConflict)
    decreases |steps|
  {
    if steps != [] {
      FirstResponseIsReplayed(Apply(api, steps[0]), steps[1..], r, request);
    }
  }

  /** Once the record is purged the order still is there: the request is not created
      again but answered with the order as it is now, and its body is not compared. */
  lemma PurgedKeyFindsTheOrder(api: Api, r: RequestId, request: Request, found: OrderId)
    requires r !in api.open && request.key.Some? && request.key.value in api.tables.records
    requires Holds(api.tables.orders, found, request.reseller, request.key.value)
    ensures Legal(api, [Purge(request.key.value), Receive(r, request), Lookup(r, found)])
    ensures var now := After(api, [Purge(request.key.value), Receive(r, request), Lookup(r, found)]);
            && now.tables.orders == api.tables.orders && now.open == api.open
            && now.tables.records == api.tables.records - {request.key.value}
            && now.log == api.log + [Exchange(request, Existing(Response(found, api.tables.orders[found].version)))]
  {
    var purged := Apply(api, Purge(request.key.value));
    UnknownKeyFindsTheOrder(purged, r, request, found);
    Link(api, Purge(request.key.value), [Receive(r, request), Lookup(r, found)]);
  }

  lemma UnknownKeyFindsTheOrder(api: Api, r: RequestId, request: Request, found: OrderId)
    requires r !in api.open && request.key.Some? && request.key.value !in api.tables.records
    requires Holds(api.tables.orders, found, request.reseller, request.key.value)
    ensures Legal(api, [Receive(r, request), Lookup(r, found)])
    ensures var now := After(api, [Receive(r, request), Lookup(r, found)]);
            && now.tables == api.tables && now.open == api.open
            && now.log == api.log + [Exchange(request, Existing(Response(found, api.tables.orders[found].version)))]
  {
    var read := Apply(api, Receive(r, request));
    Link(read, Lookup(r, found), []);
    Link(api, Receive(r, request), [Lookup(r, found)]);
  }

  lemma Link(api: Api, step: Step, rest: seq<Step>)
    requires Enabled(api, step) && Legal(Apply(api, step), rest)
    ensures Legal(api, [step] + rest) && After(api, [step] + rest) == After(Apply(api, step), rest)
    ensures rest == [] ==> [step] + rest == [step] && After(api, [step]) == Apply(api, step)
  {
    assert ([step] + rest)[1..] == rest;
    if rest == [] {
      assert [step] + rest == [step];
    }
  }

  // -------------------------------------------- keys that are not shared

  /** No two resellers ever send the same key. */
  ghost predicate OwnKeys(owner: Key -> ResellerId, steps: seq<Step>) {
    forall i :: 0 <= i < |steps| && steps[i].Receive? && steps[i].request.key.Some? ==>
                  steps[i].request.reseller == owner(steps[i].request.key.value)
  }

  /** The response, if any, shows an order of the asking reseller under the key it sent. */
  ghost predicate ShowsOwnOrder(orders: map<OrderId, Order>, exchange: Exchange) {
    exchange.answer.HasResponse() && exchange.request.key.Some? ==>
      Holds(orders, exchange.answer.response.order, exchange.request.reseller, exchange.request.key.value)
  }

  ghost predicate Owned(owner: Key -> ResellerId, api: Api) {
    && (forall o :: o in api.tables.orders && api.tables.orders[o].key.Some? ==>
          api.tables.orders[o].reseller == owner(api.tables.orders[o].key.value))
    && (forall r :: r in api.open && api.open[r].request.key.Some? ==>
          api.open[r].request.reseller == owner(api.open[r].request.key.value))
    && (forall i :: 0 <= i < |api.log| && api.log[i].request.key.Some? ==>
          api.log[i].request.reseller == owner(api.log[i].request.key.value))
  }

  lemma StepKeepsOwned(owner: Key -> ResellerId, api: Api, steps: seq<Step>)
    requires steps != [] && Enabled(api, steps[0]) && OwnKeys(owner, steps) && Owned(owner, api)
    ensures Owned(owner, Apply(api, steps[0])) && OwnKeys(owner, steps[1..])
  {
    assert forall i :: 0 <= i < |steps[1..]| ==> steps[1..][i] == steps[i + 1];
  }

  lemma {:induction false} RunKeepsOwned(owner: Key -> ResellerId, api: Api, steps: seq<Step>)
    requires Legal(api, steps) && OwnKeys(owner, steps) && Owned(owner, api)
    ensures Owned(owner, After(api, steps))
    decreases |steps|
  {
    if steps != [] {
      StepKeepsOwned(owner, api, steps);
      RunKeepsOwned(owner, Apply(api, steps[0]), steps[1..]);
    }
  }

  /** When no key is shared between resellers, every response shows the requesting
      reseller its own order, the only one under that key. */
  lemma OwnKeysGetOwnOrders(owner: Key -> ResellerId, steps: seq<Step>)
    requires Legal(EMPTY, steps) && OwnKeys(owner, steps)
    ensures var now := After(EMPTY, steps);
            && OnePerKey(now.tables.orders)
            && forall i :: 0 <= i < |now.log| ==> ShowsOwnOrder(now.tables.orders, now.log[i])
  {
    RunKeepsSound(EMPTY, steps);
    RunKeepsOwned(owner, EMPTY, steps);
    var now := After(EMPTY, steps);
    forall i | 0 <= i < |now.log|
      ensures ShowsOwnOrder(now.tables.orders, now.log[i])
    {
      assert Answered(now.tables.orders, now.log[i]);
    }
  }

  /** Then, too, every order created under a key leaves its response behind. */
  lemma OwnKeysAreRecorded(owner: Key -> ResellerId, api: Api, r: RequestId, order: OrderId)
    requires Owned(owner, api) && Sound(api) && Enabled(api, Commit(r, order, true))
    requires api.open[r].request.key.Some? && !Clashes(api.tables, api.open[r].request)
    ensures var request := api.open[r].request;
            var records := Apply(api, Commit(r, order, true)).tables.records;
            && request.key.value in records
            && records[request.key.value] == Record(request.body, Response(order, 0))
  {
    var request := api.open[r].request;
    if request.key.value in api.tables.records {
      var stored := api.tables.records[request.key.value].response.order;
      assert Holds(api.tables.orders, stored, request.reseller, request.key.value);
    }
  }

  // ------------------------------------------------------- what is false

  lemma {:induction false} Chain(api: Api, first: seq<Step>, second: seq<Step>)
    requires Legal(api, first) && Legal(After(api, first), second)
    ensures Legal(api, first + second) && After(api, first + second) == After(After(api, first), second)
    decreases |first|
  {
    if first == [] {
      assert first + second == second;
    } else {
      assert (first + second)[1..] == first[1..] + second;
      Chain(Apply(api, first[0]), first[1..], second);
    }
  }

  /** The steps of a request that meets no stored response and no order. */
  function Whole(r: RequestId, request: Request, order: OrderId): seq<Step> {
    [Receive(r, request), Lookup(r, order), Commit(r, order, true)]
  }

  lemma WholeRequest(api: Api, r: RequestId, request: Request, order: OrderId)
    requires r !in api.open && order !in api.tables.orders
    requires Replay(api.tables, request).None? && !Clashes(api.tables, request)
    ensures Legal(api, Whole(r, request, order))
    ensures After(api, Whole(r, request, order))
         == Finish(api, r, request, Created(Response(order, 0))).(tables := Insert(api.tables, request, order))
  {
    var read := api.(open := api.open[r := NotReplayed(request)]);
    var looked := api.(open := api.open[r := Stage.NotFound(request)]);
    assert Apply(read, Lookup(r, order)).open == looked.open;
    assert looked.open - {r} == api.open - {r};
    Link(looked, Commit(r, order, true), []);
    Link(read, Lookup(r, order), [Commit(r, order, true)]);
    Link(api, Receive(r, request), [Lookup(r, order), Commit(r, order, true)]);
  }

  /** Two resellers that happen to pick the same key: the second is refused, or with an
      equal body is shown the order of the first. */
  lemma SharedKeysShowForeignOrders(body: Body, other: Body)
    requires body != other
    ensures var first := Request(1, Some(5), body, None);
            var second := Request(2, Some(5), body, None);
            var third := Request(2, Some(5), other, None);
            var steps := Whole(1, first, 10) + [Receive(2, second), Receive(3, third)];
            && Legal(EMPTY, steps)
            && After(EMPTY, steps).tables.orders == map[10 := Order(1, Some(5), None, 0)]
            && After(EMPTY, steps).log == [Exchange(first, Created(Response(10, 0))),
                                           Exchange(second, Replayed(Response(10, 0))), Exchange(third, KeyConflict)]
  {
    var first, second, third := Request(1, Some(5), body, None), Request(2, Some(5), body, None), Request(2, Some(5),
            other, None);
    WholeRequest(EMPTY, 1, first, 10);
    var paid := After(EMPTY, Whole(1, first, 10));
    var shown := Apply(paid, Receive(2, second));
    Link(shown, Receive(3, third), []);
    Link(paid, Receive(2, second), [Receive(3, third)]);
    Chain(EMPTY, Whole(1, first, 10), [Receive(2, second), Receive(3, third)]);
  }

  /** The keyed requests of a run come from the given resellers with the given keys. */
  ghost predicate Within(allowed: set<(ResellerId, Key)>, steps: seq<Step>) {
    forall i :: 0 <= i < |steps| && steps[i].Receive? && steps[i].request.key.Some? ==>
                  (steps[i].request.reseller, steps[i].request.key.value) in allowed
  }

  /** No key is in use by two resellers. */
  ghost predicate Unshared(allowed: set<(ResellerId, Key)>) {
    forall a, b :: a in allowed && b in allowed && a.1 == b.1 ==> a.0 == b.0
  }

  ghost predicate AllOwn(api: Api) {
    forall i :: 0 <= i < |api.log| ==> ShowsOwnOrder(api.tables.orders, api.log[i])
  }

  ghost function OwnerIn(allowed: set<(ResellerId, Key)>, key: Key): ResellerId {
    if exists pair :: pair in allowed && pair.1 == key then
      var pair :| pair in allowed && pair.1 == key;
      pair.0
    else 0
  }

  lemma UnsharedRunsAreOwn(allowed: set<(ResellerId, Key)>, steps: seq<Step>)
    requires Unshared(allowed) && Legal(EMPTY, steps) && Within(allowed, steps)
    ensures AllOwn(After(EMPTY, steps))
  {
    OwnKeysGetOwnOrders(key => OwnerIn(allowed, key), steps);
  }

  /** The first reseller orders under the key, the second asks for the same. */
  lemma SharedKeyRun(first: ResellerId, second: ResellerId, key: Key, body: Body) returns (steps: seq<Step>)
    requires first != second
    ensures Legal(EMPTY, steps) && Within({(first, key), (second, key)}, steps) && !AllOwn(After(EMPTY, steps))
  {
    var one, two := Request(first, Some(key), body, None), Request(second, Some(key), body, None);
    WholeRequest(EMPTY, 1, one, 10);
    var ordered := After(EMPTY, Whole(1, one, 10));
    Link(ordered, Receive(2, two), []);
    Chain(EMPTY, Whole(1, one, 10), [Receive(2, two)]);
    steps := Whole(1, one, 10) + [Receive(2, two)];
    assert After(EMPTY, steps).log[1] == Exchange(two, Replayed(Response(10, 0)));
  }

  /** Every run shows every reseller its own orders only, exactly when no key is in use by
      two of them: the record does not say whose it is. */
  lemma OnlySharedKeysShowForeignOrders(allowed: set<(ResellerId, Key)>)
    ensures (forall steps :: Legal(EMPTY, steps) && Within(allowed, steps) ==> AllOwn(After(EMPTY, steps)))
       <==> Unshared(allowed)
  {
    if Unshared(allowed) {
      forall steps | Legal(EMPTY, steps) && Within(allowed, steps)
        ensures AllOwn(After(EMPTY, steps))
      {
        UnsharedRunsAreOwn(allowed, steps);
      }
    } else {
      var a, b :| a in allowed && b in allowed && a.1 == b.1 && a.0 != b.0;
      var steps := SharedKeyRun(a.0, b.0, a.1, 0);
      assert a == (a.0, a.1) && b == (b.0, a.1);
      assert Within(allowed, steps) && !AllOwn(After(EMPTY, steps));
    }
  }

  ghost function OrderUnder(orders: map<OrderId, Order>, reseller: ResellerId, key: Key): (order: OrderId)
    requires KeyTaken(orders, reseller, key)
    ensures Holds(orders, order, reseller, key)
  {
    var order :| order in orders && Holds(orders, order, reseller, key);
    order
  }

  /** A valid request served in full, with nothing in between. */
  ghost function Serving(api: Api, r: RequestId, request: Request, order: OrderId): seq<Step> {
    if Replay(api.tables, request).Some? then [Receive(r, request)]
    else if Clashes(api.tables, request) then
      [Receive(r, request), Lookup(r, OrderUnder(api.tables.orders, request.reseller, request.key.value))]
    else Whole(r, request, order)
  }

  /** The key has no stored response, and no order of the reseller carries it. */
  ghost predicate IsNewTo(tables: Tables, request: Request) {
    request.key.Some? ==>
      && request.key.value !in tables.records
      && forall o :: o in tables.orders ==>
           tables.orders[o].reseller != request.reseller || tables.orders[o].key != request.key
  }

  /** It makes an order exactly when its key has neither a stored response nor an order of
      the reseller: the order asked for, answered as it was made, with the answer kept for
      the key. Otherwise it writes nothing. */
  lemma ServingCreates(api: Api, r: RequestId, request: Request, order: OrderId)
    requires r !in api.open && order !in api.tables.orders
    ensures Legal(api, Serving(api, r, request, order))
    ensures var now := After(api, Serving(api, r, request, order));
            && now.open == api.open
            && (order in now.tables.orders <==> IsNewTo(api.tables, request))
            && (IsNewTo(api.tables, request) ==>
                  && now.tables.orders
                     == api.tables.orders[order := Order(request.reseller, request.key, request.reference, 0)]
                  && now.tables.records
                     == (if request.key.None? then api.tables.records
                         else api.tables.records[request.key.value := Record(request.body, Response(order, 0))])
                  && now.log == api.log + [Exchange(request, Created(Response(order, 0)))])
            && (!IsNewTo(api.tables, request) ==> now.tables == api.tables)
  {
    if Replay(api.tables, request).Some? {
      Link(api, Receive(r, request), []);
      assert api.open - {r} == api.open;
    } else if Clashes(api.tables, request) {
      var found := OrderUnder(api.tables.orders, request.reseller, request.key.value);
      UnknownKeyFindsTheOrder(api, r, request, found);
    } else {
      WholeRequest(api, r, request, order);
      assert api.open - {r} == api.open;
    }
  }

  ghost function Served(api: Api, r: RequestId, request: Request, order: OrderId): Api
    requires r !in api.open && order !in api.tables.orders
  {
    ServingCreates(api, r, request, order);
    After(api, Serving(api, r, request, order))
  }

  lemma ServedIsSound(api: Api, r: RequestId, request: Request, order: OrderId)
    requires r !in api.open && order !in api.tables.orders && Sound(api)
    ensures Sound(Served(api, r, request, order))
    ensures OrdersKept(Served(api, r, request, order).tables.orders, api.tables.orders)
  {
    ServingCreates(api, r, request, order);
    RunKeepsSound(api, Serving(api, r, request, order));
  }

  /** A request is sent twice; anything may happen in between, purges included. Both make
      an order exactly when they carry no key, whatever reference the reseller gives them. */
  lemma RepeatsAreCaughtByKeyOnly(api: Api, request: Request, r: RequestId, order: OrderId, between: seq<Step>,
                                  again: RequestId, second: OrderId)
    requires Sound(api) && r !in api.open && order !in api.tables.orders
    requires Legal(Served(api, r, request, order), between)
    requires var later := After(Served(api, r, request, order), between);
             again !in later.open && second !in later.tables.orders
    ensures var once := Served(api, r, request, order);
            var twice := Served(After(once, between), again, request, second);
            order in once.tables.orders && second in twice.tables.orders <==> request.key.None?
  {
    var once := Served(api, r, request, order);
    var later := After(once, between);
    ServingCreates(api, r, request, order);
    ServedIsSound(api, r, request, order);
    RunKeepsSound(once, between);
    ServingCreates(later, again, request, second);
    if request.key.Some? && order in once.tables.orders {
      assert Holds(later.tables.orders, order, request.reseller, request.key.value);
    }
  }

  /** So without a key the reseller's own reference does not help: the same request sent
      twice makes two orders. */
  lemma KeylessRequestsAreRepeated(body: Body, reference: Option<nat>)
    ensures var request := Request(1, None, body, reference);
            var steps := Whole(1, request, 10) + Whole(2, request, 11);
            && Legal(EMPTY, steps)
            && After(EMPTY, steps).tables.orders
               == map[10 := Order(1, None, reference, 0), 11 := Order(1, None, reference, 0)]
  {
    var request := Request(1, None, body, reference);
    WholeRequest(EMPTY, 1, request, 10);
    var once := After(EMPTY, Whole(1, request, 10));
    WholeRequest(once, 2, request, 11);
    Chain(EMPTY, Whole(1, request, 10), Whole(2, request, 11));
  }

  // ----------------------------------------------------------- the route

  /** The endpoint as an object over the tables. Each method is one step of a request. */
  class Endpoint {
    var orders: map<OrderId, Order>
    var records: map<Key, Record>
    var open: map<RequestId, Stage>
    ghost var log: seq<Exchange>

    ghost function Now(): Api
      reads this
    {
      Api(Tables(orders, records), open, log)
    }

    constructor ()
      ensures Now() == EMPTY
    {
      orders, records, open, log := map[], map[], map[], [];
    }

    /** The replay of a stored response, if there is one. */
    method ReceiveRequest(r: RequestId, request: Request) returns (answer: Option<Answer>)
      requires Enabled(Now(), Receive(r, request))
      modifies this
      ensures Now() == Apply(old(Now()), Receive(r, request))
      ensures answer == Replay(old(Now()).tables, request)
    {
      if request.key.Some? && request.key.value in records {
        var record := records[request.key.value];
        answer := Some(if record.body == request.body then Replayed(record.response) else KeyConflict);
        log := log + [Exchange(request, answer.value)];
        assert open - {r} == open;
      } else {
        open := open[r := NotReplayed(request)];
        answer := None;
      }
    }

    /** The lookup by key. */
    method LookupOrder(r: RequestId) returns (answer: Option<Answer>)
      requires r in open && open[r].NotReplayed?
      modifies this
      ensures exists found :: && Enabled(old(Now()), Lookup(r, found))
                              && Now() == Apply(old(Now()), Lookup(r, found))
      ensures answer.Some? <==> r !in open
      ensures answer.Some? ==> log == old(log) + [Exchange(old(open[r]).request, answer.value)]
    {
      var request := open[r].request;
      var found := 0;
      if request.key.Some? && KeyTaken(orders, request.reseller, request.key.value) {
        found :| found in orders && Holds(orders, found, request.reseller, request.key.value);
        answer := Some(Existing(Response(found, orders[found].version)));
        open, log := open - {r}, log + [Exchange(request, answer.value)];
      } else {
        open := open[r := Stage.NotFound(request)];
        answer := None;
      }
      assert Enabled(old(Now()), Lookup(r, found)) && Now() == Apply(old(Now()), Lookup(r, found));
    }

    /** Everything from the validation of the body to the commit. */
    method CommitOrder(r: RequestId, order: OrderId, valid: bool) returns (answer: Answer)
      requires Enabled(Now(), Commit(r, order, valid))
      modifies this
      ensures Now() == Apply(old(Now()), Commit(r, order, valid))
      ensures log == old(log) + [Exchange(old(open[r]).request, answer)]
    {
      var request := open[r].request;
      if !valid || (request.key.Some? && KeyTaken(orders, request.reseller, request.key.value)) {
        answer := Refused;
      } else {
        answer := Created(Response(order, 0));
        orders := orders[order := Order(request.reseller, request.key, request.reference, 0)];
        // The savepoint: a record that is already there is left alone, and the order stays.
        if request.key.Some? && request.key.value !in records {
          records := records[request.key.value := Record(request.body, Response(order, 0))];
        }
      }
      open, log := open - {r}, log + [Exchange(request, answer)];
    }
  }
}
