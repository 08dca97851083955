/** The six handlers of cart-service/internal/api/handlers.go. Each one is a
    chain of early returns: the method, then the path split into segments,
    then the decoded body; it either answers 404 or 400 itself or calls
    exactly one store operation, whose error it turns into a 500. The
    decisions are functions of the request; `Serve` runs a decision against
    a `CartStore.Store`. */
module Api {
  import opened Strings
  import opened CartStore

  datatype Option<T> = None | Some(value: T)

  /** The JSON fields the handlers decode. A field that the JSON leaves out
      holds Go's zero value; each handler reads only the fields of its own
      request struct. */
  datatype Body = Body(userId: string, productId: string, quantity: int)

  /** A request as a handler sees it: `body` is `None` when decoding into the
      handler's request struct fails. */
  datatype Request = Request(verb: string, path: string, body: Option<Body>)

  /** The store operation a handler calls, with the arguments it extracted. */
  datatype Op =
    | CreateCart(userId: string)
    | GetCart(cartId: CartId)
    | EmptyCart(cartId: CartId)
    | RemoveItem(cartId: CartId, productId: ProductId)
    | AddItem(cartId: CartId, productId: ProductId, qty: int)
    | DecreaseItem(cartId: CartId, productId: ProductId, qty: int)

  /** `http.NotFound`, `http.Error(..., 400)`, or a call into the store. */
  datatype Decision = NotFound | BadRequest | Call(op: Op)

  /** `strings.Split(strings.Trim(r.URL.Path, "/"), "/")`. */
  function Segments(path: string): seq<string>
  {
    Split(Trim(path, '/'), '/')
  }

  // ----- The path checks -----

  /** The check of `viewCart`: two segments, the first `carts`; the cart id
      is the second. */
  function CartPath(path: string): (r: Option<CartId>)
    ensures r.Some? ==> '/' !in r.value && Trim(path, '/') == Join(["carts", r.value], '/')
  {
    var parts := Segments(path);
    if |parts| != 2 || parts[0] != "carts" then None
    else
      PathOf(path);
      assert parts == ["carts", parts[1]];
      Some(parts[1])
  }

  /** The check of `emptyCart` and `addItem`: three segments, `carts` first
      and `items` last; the cart id is the middle one. */
  function ItemsPath(path: string): (r: Option<CartId>)
    ensures r.Some? ==> '/' !in r.value && Trim(path, '/') == Join(["carts", r.value, "items"], '/')
  {
    var parts := Segments(path);
    if |parts| != 3 || parts[0] != "carts" || parts[2] != "items" then None
    else
      PathOf(path);
      assert parts == ["carts", parts[1], "items"];
      Some(parts[1])
  }

  /** The check of `deleteItem` and `decreaseItem`: four segments, `carts`
      first and `items` third; the cart id is the second, the product id the
      fourth. */
  function ItemPath(path: string): (r: Option<(CartId, ProductId)>)
    ensures r.Some? ==> && '/' !in r.value.0 && '/' !in r.value.1
                        && Trim(path, '/') == Join(["carts", r.value.0, "items", r.value.1], '/')
  {
    var parts := Segments(path);
    if |parts| != 4 || parts[0] != "carts" || parts[2] != "items" then None
    else
      PathOf(path);
      assert parts == ["carts", parts[1], "items", parts[3]];
      Some((parts[1], parts[3]))
  }

  // ----- The decisions, one per handler -----

  /** `createCart`: the method, then the body; the path is not inspected. */
  function CreateCartDecision(req: Request): (d: Decision)
    ensures req.verb != "POST" ==> d == NotFound
    ensures d == BadRequest <==> req.verb == "POST" && (req.body.None? || req.body.value.userId == "")
    ensures d.Call? <==> req.verb == "POST" && req.body.Some? && req.body.value.userId != ""
    ensures d.Call? ==> req.verb == "POST" && req.body.Some?
                        && d.op == CreateCart(req.body.value.userId) && d.op.userId != ""
  {
    if req.verb != "POST" then NotFound
    else if req.body.None? || req.body.value.userId == "" then BadRequest
    else Call(CreateCart(req.body.value.userId))
  }

  /** `viewCart`: GET on `carts/{cartID}`; never a 400. */
  function ViewCartDecision(req: Request): (d: Decision)
    ensures d != BadRequest
    ensures d.Call? <==> req.verb == "GET" && CartPath(req.path).Some?
    ensures d.Call? ==> d.op == GetCart(CartPath(req.path).value)
  {
    if req.verb != "GET" then NotFound
    else match CartPath(req.path)
      case None => NotFound
      case Some(cartID) => Call(GetCart(cartID))
  }

  /** `emptyCart`: DELETE on `carts/{cartID}/items`; never a 400. */
  function EmptyCartDecision(req: Request): (d: Decision)
    ensures d != BadRequest
    ensures d.Call? <==> req.verb == "DELETE" && ItemsPath(req.path).Some?
    ensures d.Call? ==> d.op == EmptyCart(ItemsPath(req.path).value)
  {
    if req.verb != "DELETE" then NotFound
    else match ItemsPath(req.path)
      case None => NotFound
      case Some(cartID) => Call(EmptyCart(cartID))
  }

  /** `deleteItem`: DELETE on `carts/{cartID}/items/{productID}`; never a 400. */
  function DeleteItemDecision(req: Request): (d: Decision)
    ensures d != BadRequest
    ensures d.Call? <==> req.verb == "DELETE" && ItemPath(req.path).Some?
    ensures d.Call? ==> d.op == RemoveItem(ItemPath(req.path).value.0, ItemPath(req.path).value.1)
  {
    if req.verb != "DELETE" then NotFound
    else match ItemPath(req.path)
      case None => NotFound
      case Some((cartID, productID)) => Call(RemoveItem(cartID, productID))
  }

  /** `addItem`: POST on `carts/{cartID}/items`, then a body with a product
      and a positive quantity. The body is judged only once the method and
      the path have passed. */
  function AddItemDecision(req: Request): (d: Decision)
    ensures req.verb != "POST" || ItemsPath(req.path).None? ==> d == NotFound
    ensures d == BadRequest <==> && req.verb == "POST" && ItemsPath(req.path).Some?
                                 && (req.body.None? || req.body.value.productId == "" || req.body.value.quantity <= 0)
    ensures d.Call? <==> && req.verb == "POST" && ItemsPath(req.path).Some?
                         && req.body.Some? && req.body.value.productId != "" && req.body.value.quantity > 0
    ensures d.Call? ==> d.op == AddItem(ItemsPath(req.path).value, req.body.value.productId, req.body.value.quantity)
  {
    if req.verb != "POST" then NotFound
    else match ItemsPath(req.path)
      case None => NotFound
      case Some(cartID) =>
        if req.body.None? || req.body.value.productId == "" || req.body.value.quantity <= 0 then BadRequest
        else Call(AddItem(cartID, req.body.value.productId, req.body.value.quantity))
  }

  /** `decreaseItem`: PATCH on `carts/{cartID}/items/{productID}`, then a body
      with a positive quantity, judged only once the method and the path
      have passed. */
  function DecreaseItemDecision(req: Request): (d: Decision)
    ensures req.verb != "PATCH" || ItemPath(req.path).None? ==> d == NotFound
    ensures d == BadRequest <==> && req.verb == "PATCH" && ItemPath(req.path).Some?
                                 && (req.body.None? || req.body.value.quantity <= 0)
    ensures d.Call? <==> && req.verb == "PATCH" && ItemPath(req.path).Some?
                         && req.body.Some? && req.body.value.quantity > 0
    ensures d.Call? ==> d.op == DecreaseItem(ItemPath(req.path).value.0, ItemPath(req.path).value.1,
                                             req.body.value.quantity)
  {
    if req.verb != "PATCH" then NotFound
    else match ItemPath(req.path)
      case None => NotFound
      case Some((cartID, productID)) =>
        if req.body.None? || req.body.value.quantity <= 0 then BadRequest
        else Call(DecreaseItem(cartID, productID, req.body.value.quantity))
  }

  /** An accepted path is its segments joined back with slashes. */
  lemma PathOf(path: string)
    ensures Trim(path, '/') == Join(Segments(path), '/')
    ensures forall i :: 0 <= i < |Segments(path)| ==> '/' !in Segments(path)[i]
  {
  }

  /** Any run of slashes around `/`-free segments that do not start or end
      the path empty splits back into exactly those segments. */
  lemma SegmentsPadded(a: nat, parts: seq<string>, b: nat)
    requires |parts| >= 1 && parts[0] != [] && parts[|parts| - 1] != []
    requires forall i :: 0 <= i < |parts| ==> '/' !in parts[i]
    ensures Segments(Repeat('/', a) + Join(parts, '/') + Repeat('/', b)) == parts
  {
    JoinLast(parts, '/');
    TrimPadded('/', a, Join(parts, '/'), b);
    SplitJoin(parts, '/');
  }

  lemma {:induction false} JoinLast(parts: seq<string>, c: char)
    requires |parts| >= 1 && parts[|parts| - 1] != []
    ensures var s := Join(parts, c);
            s != [] && s[|s| - 1] == parts[|parts| - 1][|parts[|parts| - 1]| - 1]
  {
    if |parts| > 1 {
      JoinLast(parts[1..], c);
    }
  }

  /** The `viewCart` path check accepts `carts/{cartID}` padded with
      slashes, for every non-empty `cartID` without a slash. */
  lemma CartPathPadded(a: nat, cartID: string, b: nat)
    requires cartID != [] && '/' !in cartID
    ensures CartPath(Repeat('/', a) + Join(["carts", cartID], '/') + Repeat('/', b)) == Some(cartID)
  {
    SegmentsPadded(a, ["carts", cartID], b);
  }

  /** The `emptyCart`/`addItem` path check accepts `carts/{cartID}/items`
      padded with slashes, for every `cartID` without a slash, even empty. */
  lemma ItemsPathPadded(a: nat, cartID: string, b: nat)
    requires '/' !in cartID
    ensures ItemsPath(Repeat('/', a) + Join(["carts", cartID, "items"], '/') + Repeat('/', b)) == Some(cartID)
  {
    SegmentsPadded(a, ["carts", cartID, "items"], b);
  }

  /** The `deleteItem`/`decreaseItem` path check accepts
      `carts/{cartID}/items/{productID}` padded with slashes, for every
      `cartID` and non-empty `productID` without a slash. */
  lemma ItemPathPadded(a: nat, cartID: string, productID: string, b: nat)
    requires '/' !in cartID && productID != [] && '/' !in productID
    ensures ItemPath(Repeat('/', a) + Join(["carts", cartID, "items", productID], '/') + Repeat('/', b))
            == Some((cartID, productID))
  {
    SegmentsPadded(a, ["carts", cartID, "items", productID], b);
  }

  /** POST with a non-empty `user_id` creates a cart for that user, whatever
      the path and the other fields. */
  lemma CreateCartAccepts(path: string, userId: string, productId: string, qty: int)
    requires userId != ""
    ensures CreateCartDecision(Request("POST", path, Some(Body(userId, productId, qty)))) == Call(CreateCart(userId))
  {
  }

  /** GET on `/carts/{cartID}` views that cart. */
  lemma ViewCartAccepts(a: nat, cartID: string, b: nat, body: Option<Body>)
    requires cartID != [] && '/' !in cartID
    ensures ViewCartDecision(Request("GET", Repeat('/', a) + Join(["carts", cartID], '/') + Repeat('/', b), body))
            == Call(GetCart(cartID))
  {
    CartPathPadded(a, cartID, b);
  }

  /** DELETE on `/carts/{cartID}/items` empties that cart. */
  lemma EmptyCartAccepts(a: nat, cartID: string, b: nat, body: Option<Body>)
    requires '/' !in cartID
    ensures EmptyCartDecision(Request("DELETE", Repeat('/', a) + Join(["carts", cartID, "items"], '/') + Repeat('/', b), body))
            == Call(EmptyCart(cartID))
  {
    ItemsPathPadded(a, cartID, b);
  }

  /** POST on `/carts/{cartID}/items` with a product and a positive quantity
      adds exactly that. */
  lemma AddItemAccepts(a: nat, cartID: string, b: nat, productID: string, qty: int)
    requires '/' !in cartID && productID != "" && qty > 0
    ensures AddItemDecision(Request("POST", Repeat('/', a) + Join(["carts", cartID, "items"], '/') + Repeat('/', b),
                                    Some(Body("", productID, qty))))
            == Call(AddItem(cartID, productID, qty))
  {
    ItemsPathPadded(a, cartID, b);
  }

  /** DELETE on `/carts/{cartID}/items/{productID}` removes that pair. */
  lemma DeleteItemAccepts(a: nat, cartID: string, productID: string, b: nat, body: Option<Body>)
    requires '/' !in cartID && productID != [] && '/' !in productID
    ensures DeleteItemDecision(Request("DELETE", Repeat('/', a) + Join(["carts", cartID, "items", productID], '/') + Repeat('/', b), body))
            == Call(RemoveItem(cartID, productID))
  {
    ItemPathPadded(a, cartID, productID, b);
  }

  /** PATCH on `/carts/{cartID}/items/{productID}` with a positive quantity
      decreases that pair by it. */
  lemma DecreaseItemAccepts(a: nat, cartID: string, productID: string, b: nat, qty: int)
    requires '/' !in cartID && productID != [] && '/' !in productID && qty > 0
    ensures DecreaseItemDecision(Request("PATCH", Repeat('/', a) + Join(["carts", cartID, "items", productID], '/') + Repeat('/', b),
                                         Some(Body("", "", qty))))
            == Call(DecreaseItem(cartID, productID, qty))
  {
    ItemPathPadded(a, cartID, productID, b);
  }

  /** A trailing empty segment is a trailing slash. */
  lemma {:induction false} JoinEmptyLast(parts: seq<string>, c: char)
    requires |parts| >= 1
    ensures Join(parts + [""], c) == Join(parts, c) + [c]
  {
    if |parts| == 1 {
      assert Join(parts + [""], c) == parts[0] + [c] + Join([""], c);
    } else {
      assert (parts + [""])[1..] == parts[1..] + [""];
      JoinEmptyLast(parts[1..], c);
    }
  }

  lemma Regroup(w: string, x: string, y: string, z: string)
    ensures w + (x + y) + z == w + x + (y + z)
  {
  }

  /** A trailing empty segment is one more slash of padding. */
  lemma TrailingSlashIsPadding(a: nat, parts: seq<string>, b: nat)
    requires |parts| >= 1
    ensures Repeat('/', a) + Join(parts + [""], '/') + Repeat('/', b)
            == Repeat('/', a) + Join(parts, '/') + Repeat('/', b + 1)
  {
    var left, joined, right := Repeat('/', a), Join(parts, '/'), Repeat('/', b);
    JoinEmptyLast(parts, '/');
    assert Repeat('/', b + 1) == ['/'] + right;
    Regroup(left, joined, ['/'], right);
  }

  /** A slash-padded path whose last segment is empty loses that segment to
      the trim. */
  lemma TrailingEmptySegment(a: nat, parts: seq<string>, b: nat)
    requires |parts| >= 1 && parts[0] != [] && parts[|parts| - 1] != []
    requires forall i :: 0 <= i < |parts| ==> '/' !in parts[i]
    ensures Segments(Repeat('/', a) + Join(parts + [""], '/') + Repeat('/', b)) == parts
  {
    TrailingSlashIsPadding(a, parts, b);
    SegmentsPadded(a, parts, b + 1);
  }

  /** An empty cart id at the end of the path is trimmed away with the
      slashes: `/carts/` has one segment and `viewCart` does not find it. */
  lemma TrailingEmptyCartNotFound(a: nat, b: nat, body: Option<Body>)
    ensures ViewCartDecision(Request("GET", Repeat('/', a) + Join(["carts", ""], '/') + Repeat('/', b), body)) == NotFound
  {
    assert ["carts", ""] == ["carts"] + [""];
    TrailingEmptySegment(a, ["carts"], b);
  }

  /** `/carts/{cartID}/items/` loses its empty product id to the trim and has
      three segments, so neither `deleteItem` nor `decreaseItem` finds it. */
  lemma TrailingEmptyProductNotFound(a: nat, cartID: string, b: nat, req: Request)
    requires '/' !in cartID
    requires req.path == Repeat('/', a) + Join(["carts", cartID, "items", ""], '/') + Repeat('/', b)
    ensures DeleteItemDecision(req) == NotFound
    ensures DecreaseItemDecision(req) == NotFound
  {
    var parts := ["carts", cartID, "items"];
    assert ["carts", cartID, "items", ""] == parts + [""];
    assert parts[0] != [] && parts[2] != [];
    assert '/' !in parts[0] && '/' !in parts[2];
    TrailingEmptySegment(a, parts, b);
    assert |Segments(req.path)| == 3;
    assert ItemPath(req.path) == None;
  }

  // ----- Running a decision against the store -----

  /** The six handlers. */
  datatype Handler =
    | CreateCartHandler | ViewCartHandler | EmptyCartHandler
    | DeleteItemHandler | AddItemHandler | DecreaseItemHandler

  function Decide(h: Handler, req: Request): Decision
  {
    match h
    case CreateCartHandler => CreateCartDecision(req)
    case ViewCartHandler => ViewCartDecision(req)
    case EmptyCartHandler => EmptyCartDecision(req)
    case DeleteItemHandler => DeleteItemDecision(req)
    case AddItemHandler => AddItemDecision(req)
    case DecreaseItemHandler => DecreaseItemDecision(req)
  }

  /** Whether the database rejects the first and the second statement of the
      store operation (only `EmptyCart` and `DecreaseItem` have a second). */
  datatype Faults = Faults(first: bool, second: bool)

  /** What a store operation gave back to the handler. */
  datatype Answer = Failure | NewCart(id: CartId) | Rows(cartId: CartId, rows: seq<CartRow>) | Success

  /** What the handler writes: `http.NotFound`/`http.Error` text, or the
      JSON of `writeJSON`. */
  datatype Payload = Message | CartCreated(cartId: CartId) | CartView(cartId: CartId, items: seq<CartRow>) | OkTrue

  datatype Response = Response(status: int, payload: Payload)

  /** The error of which statements reaches the handler: `EmptyCart`
      returns either statement's, `DecreaseItem` only its update's. */
  predicate Faulted(op: Op, faults: Faults)
  {
    faults.first || (op.EmptyCart? && faults.second)
  }

  /** The status mapping after the store call: any error is a 500, a new cart
      a 201 carrying its id, every other success a 200. */
  function Respond(answer: Answer): (resp: Response)
    ensures resp.status == 500 <==> answer.Failure?
    ensures resp.status == 201 <==> answer.NewCart?
    ensures answer.NewCart? ==> resp.payload == CartCreated(answer.id)
    ensures answer.Rows? ==> resp == Response(200, CartView(answer.cartId, answer.rows))
    ensures answer.Success? ==> resp == Response(200, OkTrue)
  {
    match answer
    case Failure => Response(500, Message)
    case NewCart(id) => Response(201, CartCreated(id))
    case Rows(cartId, rows) => Response(200, CartView(cartId, rows))
    case Success => Response(200, OkTrue)
  }

  /** How many statements reading the clock an operation runs. */
  function Ticks(op: Op, faults: Faults): nat
  {
    match op
    case CreateCart(_) => 1
    case GetCart(_) => 0
    case EmptyCart(_) => if faults.first then 0 else 1
    case RemoveItem(_, _) => 0
    case AddItem(_, _, qty) => if qty <= 0 then 0 else 1
    case DecreaseItem(_, _, _) => 1
  }

  /** What an operation does to the tables, from `carts0`, `items0` at
      `clock0` to `carts1`, `items1` at `clock1`, given which statements the
      database rejects. */
  ghost predicate Effect(op: Op, faults: Faults,
                         carts0: map<CartId, Cart>, items0: Items, clock0: Time,
                         carts1: map<CartId, Cart>, items1: Items, clock1: Time)
  {
    && clock1 == clock0 + Ticks(op, faults)
    && match op
       case CreateCart(userId) =>
         && items1 == items0
         && if faults.first then carts1 == carts0
            else exists id :: id in carts1 && id !in carts0 && carts1 == carts0[id := Cart(userId, clock1, clock1)]
       case GetCart(_) => carts1 == carts0 && items1 == items0
       case EmptyCart(cartId) =>
         if faults.first then carts1 == carts0 && items1 == items0
         else && items1 == RemoveCart(items0, cartId)
              && carts1 == (if faults.second then carts0 else Touch(carts0, cartId, clock1))
       case RemoveItem(cartId, productId) =>
         && carts1 == carts0
         && items1 == (if faults.first then items0 else RemovePair(items0, ItemKey(cartId, productId)))
       case AddItem(cartId, productId, qty) =>
         && carts1 == carts0
         && if qty <= 0 || faults.first then items1 == items0
            else var k := ItemKey(cartId, productId);
                 && k in items1 && items1 == Upsert(items0, k, qty, items1[k].id, clock1)
                 && (k !in items0 ==> items1[k].id !in ItemIds(items0))
       case DecreaseItem(cartId, productId, qty) =>
         && carts1 == carts0
         && var k := ItemKey(cartId, productId);
            var updated := if faults.first then items0 else Decrease(items0, k, qty, clock1);
            items1 == if faults.second then updated else DropIfZero(updated, k)
  }

  /** Calls the store operation a handler decided on. */
  method Execute(store: Store, op: Op, faults: Faults) returns (answer: Answer)
    requires store.Valid()
    modifies store
    ensures store.Valid()
    ensures answer.Failure? <==> Faulted(op, faults) || (op.AddItem? && op.qty <= 0)
    ensures op.CreateCart? && !answer.Failure? ==>
              answer.NewCart? && answer.id !in old(store.carts) && answer.id in store.carts
              && store.carts[answer.id].userId == op.userId
    ensures op.GetCart? && !answer.Failure? ==>
              && answer.Rows? && answer.cartId == op.cartId
              && Ascending(answer.rows) && Lists(answer.rows, Joined(store.items, store.products, op.cartId))
    ensures !op.CreateCart? && !op.GetCart? && !answer.Failure? ==> answer == Success
    ensures op.GetCart? ==> unchanged(store)
    ensures Effect(op, faults, old(store.carts), old(store.items), old(store.clock),
                   store.carts, store.items, store.clock)
    ensures Positive(old(store.items)) && !(op.DecreaseItem? && faults.second) ==> Positive(store.items)
  {
    match op
    case CreateCart(userId) =>
      var r := store.CreateCart(userId, faults.first);
      answer := if r.Err? then Failure else NewCart(r.value);
      if r.Ok? {
        assert r.value in store.carts;
      }
    case GetCart(cartId) =>
      var r := store.GetCart(cartId, faults.first);
      answer := if r.Err? then Failure else Rows(cartId, r.value);
    case EmptyCart(cartId) =>
      var o := store.EmptyCart(cartId, faults.first, faults.second);
      answer := if o.Failed? then Failure else Success;
    case RemoveItem(cartId, productId) =>
      var o := store.RemoveItem(cartId, productId, faults.first);
      answer := if o.Failed? then Failure else Success;
    case AddItem(cartId, productId, qty) =>
      var o := store.AddItem(cartId, productId, qty, faults.first);
      answer := if o.Failed? then Failure else Success;
    case DecreaseItem(cartId, productId, qty) =>
      var o := store.DecreaseItem(cartId, productId, qty, faults.first, faults.second);
      answer := if o.Failed? then Failure else Success;
  }

  /** One request through one handler. A 404 or 400 never reaches the store;
      a 500 happens exactly when the database rejected a statement whose
      error the handler sees, so the store's own quantity check is never
      what fails a request; the positive-quantity invariant survives every
      request except a decrease whose cleanup delete was rejected. */
  method Serve(store: Store, h: Handler, req: Request, faults: Faults) returns (resp: Response)
    requires store.Valid()
    modifies store
    ensures store.Valid()
    ensures Decide(h, req) == NotFound ==> resp == Response(404, Message) && unchanged(store)
    ensures Decide(h, req) == BadRequest ==> resp == Response(400, Message) && unchanged(store)
    ensures Decide(h, req).Call? ==> (resp.status == 500 <==> Faulted(Decide(h, req).op, faults))
    ensures Decide(h, req).Call? && !Faulted(Decide(h, req).op, faults) ==>
              resp.status == (if h == CreateCartHandler then 201 else 200)
    ensures Decide(h, req).Call? && h == CreateCartHandler && !faults.first ==>
              && resp.payload.CartCreated? && resp.payload.cartId !in old(store.carts)
              && resp.payload.cartId in store.carts
              && store.carts[resp.payload.cartId].userId == req.body.value.userId
    ensures Decide(h, req).Call? && h == ViewCartHandler && !faults.first ==>
              && resp.payload.CartView? && resp.payload.cartId == CartPath(req.path).value
              && Ascending(resp.payload.items)
              && Lists(resp.payload.items, Joined(store.items, store.products, resp.payload.cartId))
    ensures Decide(h, req).Call? ==>
              Effect(Decide(h, req).op, faults, old(store.carts), old(store.items), old(store.clock),
                     store.carts, store.items, store.clock)
    ensures Positive(old(store.items)) && !(h == DecreaseItemHandler && faults.second) ==> Positive(store.items)
  {
    var d := Decide(h, req);
    match d
    case NotFound =>
      resp := Response(404, Message);
    case BadRequest =>
      resp := Response(400, Message);
    case Call(op) =>
      var answer := Execute(store, op, faults);
      resp := Respond(answer);
  }
}
