/** The cart store of cart-service/internal/db/repository.go: the `carts` and
    `cart_items` tables, the read-only `products` table they are joined with,
    and the six operations that run SQL against them, as one in-memory class.

    Every SQL statement that can fail takes a `bool` saying whether the
    database rejects it (timeout, lost connection, constraint violation): a
    rejected statement changes no table. `NOW()` and the timestamp columns'
    defaults read a logical clock that ticks once per statement that reads it. */
module CartStore {

  type CartId = string
  type ProductId = string
  type ItemId = string
  type Time = nat

  /** A row of `carts` (the `status` column is never read or written here). */
  datatype Cart = Cart(userId: string, createdAt: Time, updatedAt: Time)

  /** The unique key `(cart_id, product_id)` of `cart_items`. */
  datatype ItemKey = ItemKey(cartId: CartId, productId: ProductId)

  /** The other columns of a `cart_items` row. */
  datatype Item = Item(id: ItemId, quantity: int, createdAt: Time, updatedAt: Time)

  /** A row of `products`, as far as the join reads it. */
  datatype Product = Product(name: string, priceCents: int)

  /** `CartRow`: one row of the `GetCart` query. */
  datatype CartRow = CartRow(itemId: ItemId, productId: ProductId, quantity: int,
                             productName: string, priceCents: int,
                             createdAt: Time, updatedAt: Time)

  /** `ValidationError` is the `errors.New` of `AddItem`; every database error
      is a `PersistenceError`. */
  datatype Error = ValidationError | PersistenceError

  /** The `error` that the writing operations return. */
  datatype Outcome = Done | Failed(error: Error)

  /** A value together with an `error`, as `CreateCart` and `GetCart` return them. */
  datatype Result<T> = Ok(value: T) | Err(error: Error)

  type Items = map<ItemKey, Item>

  // ----- Invariants of the tables -----

  /** Every stored quantity is at least one. */
  predicate Positive(items: Items)
  {
    forall k :: k in items ==> items[k].quantity >= 1
  }

  /** `cart_items.id` is a key. */
  predicate DistinctIds(items: Items)
  {
    forall k1, k2 :: k1 in items && k2 in items && k1 != k2 ==> items[k1].id != items[k2].id
  }

  /** No two items were created by the same statement, so `created_at` orders them totally. */
  predicate DistinctCreation(items: Items)
  {
    forall k1, k2 :: k1 in items && k2 in items && k1 != k2 ==> items[k1].createdAt != items[k2].createdAt
  }

  /** No timestamp lies in the future of `clock`. */
  predicate NotAfter(carts: map<CartId, Cart>, items: Items, clock: Time)
  {
    && (forall c :: c in carts ==> carts[c].createdAt <= carts[c].updatedAt <= clock)
    && (forall k :: k in items ==> items[k].createdAt <= items[k].updatedAt <= clock)
  }

  function ItemIds(items: Items): set<ItemId>
  {
    set k | k in items :: items[k].id
  }

  // ----- What each statement does to `cart_items` -----

  /** The `INSERT ... ON CONFLICT (cart_id, product_id) DO UPDATE SET
      quantity = cart_items.quantity + EXCLUDED.quantity, updated_at = NOW()`
      of `AddItem`; `newId` is the id the insert would give a new row. */
  function Upsert(items: Items, k: ItemKey, qty: int, newId: ItemId, now: Time): Items
  {
    if k in items then items[k := items[k].(quantity := items[k].quantity + qty, updatedAt := now)]
    else items[k := Item(newId, qty, now, now)]
  }

  /** The `UPDATE ... SET quantity = GREATEST(quantity - $3, 0), updated_at = NOW()` of `DecreaseItem`. */
  function Decrease(items: Items, k: ItemKey, qty: int, now: Time): Items
  {
    if k in items then
      var q := items[k].quantity - qty;
      items[k := items[k].(quantity := if q > 0 then q else 0, updatedAt := now)]
    else items
  }

  /** The cleanup `DELETE ... AND quantity = 0` of `DecreaseItem`. */
  function DropIfZero(items: Items, k: ItemKey): Items
  {
    if k in items && items[k].quantity == 0 then items - {k} else items
  }

  /** The `DELETE FROM cart_items WHERE cart_id = $1 AND product_id = $2` of `RemoveItem`. */
  function RemovePair(items: Items, k: ItemKey): Items
  {
    items - {k}
  }

  /** The `DELETE FROM cart_items WHERE cart_id = $1` of `EmptyCart`. */
  function RemoveCart(items: Items, c: CartId): Items
  {
    map k | k in items && k.cartId != c :: items[k]
  }

  /** The `UPDATE carts SET updated_at = NOW() WHERE id = $1` of `EmptyCart`. */
  function Touch(carts: map<CartId, Cart>, c: CartId, now: Time): map<CartId, Cart>
  {
    if c in carts then carts[c := carts[c].(updatedAt := now)] else carts
  }

  // ----- What `GetCart` selects -----

  /** The `WHERE ci.cart_id = $1` filter and the `INNER JOIN products` condition. */
  predicate Selected(items: Items, products: map<ProductId, Product>, c: CartId, k: ItemKey)
  {
    k in items && k.cartId == c && k.productId in products
  }

  /** The row the `SELECT` list builds from an item and its product. */
  function RowOf(k: ItemKey, item: Item, p: Product): CartRow
  {
    CartRow(item.id, k.productId, item.quantity, p.name, p.priceCents, item.createdAt, item.updatedAt)
  }

  /** The set of rows the query returns, before `ORDER BY`. */
  function Joined(items: Items, products: map<ProductId, Product>, c: CartId): set<CartRow>
  {
    set k | k in items && Selected(items, products, c, k) :: RowOf(k, items[k], products[k.productId])
  }

  /** `ORDER BY ci.created_at ASC`, strictly, since creation times are distinct. */
  predicate Ascending(rows: seq<CartRow>)
  {
    forall i, j :: 0 <= i < j < |rows| ==> rows[i].createdAt < rows[j].createdAt
  }

  /** The rows of `rows` are exactly the elements of `s`. */
  predicate Lists(rows: seq<CartRow>, s: set<CartRow>)
  {
    && (forall i :: 0 <= i < |rows| ==> rows[i] in s)
    && (forall x :: x in s ==> x in rows)
  }

  // ----- Helpers for fresh ids and the selection order -----

  /** A length that no string of `used` reaches. */
  ghost function LongerThanAll(used: set<string>): (n: nat)
    ensures forall x :: x in used ==> |x| < n
  {
    if used == {} then 0
    else
      var x :| x in used;
      var m := LongerThanAll(used - {x});
      if |x| < m then m else |x| + 1
  }

  /** However many ids are in use, there is an unused one. */
  lemma UnusedIdExists(used: set<string>)
    ensures exists id: string :: id !in used
  {
    var id := seq(LongerThanAll(used), _ => 'x');
    assert id !in used;
  }

  /** A finite non-empty set of selected keys has one created first. */
  lemma {:induction false} EarliestExists(items: Items, pending: set<ItemKey>)
    requires pending != {} && pending <= items.Keys
    ensures exists k :: k in pending && forall k' :: k' in pending ==> items[k].createdAt <= items[k'].createdAt
  {
    var x :| x in pending;
    if pending - {x} == {} {
      assert pending == {x};
    } else {
      EarliestExists(items, pending - {x});
      var y :| y in pending - {x} && forall k' :: k' in pending - {x} ==> items[y].createdAt <= items[k'].createdAt;
      if items[x].createdAt <= items[y].createdAt {
        assert forall k' :: k' in pending ==> items[x].createdAt <= items[k'].createdAt;
      } else {
        assert forall k' :: k' in pending ==> items[y].createdAt <= items[k'].createdAt;
      }
    }
  }

  /** The state of the `GetCart` scan: `out` holds, in order, the selected
      rows created before every key still `pending`, and every selected key
      is either pending or already listed. */
  ghost predicate Scan(items: Items, products: map<ProductId, Product>, c: CartId,
                       out: seq<CartRow>, pending: set<ItemKey>)
  {
    && (forall k :: k in pending ==> Selected(items, products, c, k))
    && Ascending(out)
    && (forall i :: 0 <= i < |out| ==> out[i] in Joined(items, products, c))
    && (forall i, k :: 0 <= i < |out| && k in pending ==> out[i].createdAt < items[k].createdAt)
    && (forall k :: Selected(items, products, c, k) && k !in pending ==> RowOf(k, items[k], products[k.productId]) in out)
  }

  /** Appending the earliest pending row keeps the scan state. */
  lemma ScanStep(items: Items, products: map<ProductId, Product>, c: CartId,
                 out: seq<CartRow>, pending: set<ItemKey>, k: ItemKey)
    requires DistinctCreation(items)
    requires Scan(items, products, c, out, pending)
    requires k in pending && forall k' :: k' in pending ==> items[k].createdAt <= items[k'].createdAt
    ensures Scan(items, products, c, out + [RowOf(k, items[k], products[k.productId])], pending - {k})
  {
    var row := RowOf(k, items[k], products[k.productId]);
    var out' := out + [row];
    assert row in Joined(items, products, c);
    forall i, j | 0 <= i < j < |out'| ensures out'[i].createdAt < out'[j].createdAt {
      if j == |out| {
        assert out'[i] == out[i];
      }
    }
    forall i, k' | 0 <= i < |out'| && k' in pending - {k} ensures out'[i].createdAt < items[k'].createdAt {
      if i == |out| {
        assert items[k].createdAt != items[k'].createdAt;
      } else {
        assert out'[i] == out[i];
      }
    }
    forall k' | Selected(items, products, c, k') && k' !in pending - {k}
      ensures RowOf(k', items[k'], products[k'.productId]) in out'
    {
      if k' == k {
        assert out'[|out|] == row;
      }
    }
  }

  /** With nothing pending, the scan has listed the whole join. */
  lemma ScanDone(items: Items, products: map<ProductId, Product>, c: CartId, out: seq<CartRow>)
    requires Scan(items, products, c, out, {})
    ensures Ascending(out) && Lists(out, Joined(items, products, c))
  {
    forall x | x in Joined(items, products, c) ensures x in out {
      var k :| Selected(items, products, c, k) && x == RowOf(k, items[k], products[k.productId]);
    }
  }

  // ----- Properties of the statements -----

  /** Dropping the first row of an ordered listing lists the rest of the set. */
  lemma ListsTail(a: seq<CartRow>, s: set<CartRow>)
    requires Ascending(a) && Lists(a, s) && a != []
    ensures Ascending(a[1..]) && Lists(a[1..], s - {a[0]})
  {
    forall x | x in s - {a[0]} ensures x in a[1..] {
      var i :| 0 <= i < |a| && a[i] == x;
      assert a[1..][i - 1] == x;
    }
    forall i | 0 <= i < |a[1..]| ensures a[1..][i] in s - {a[0]} {
      assert a[1..][i] == a[i + 1];
    }
  }

  /** Two ordered listings of one set start with the same row. */
  lemma SameFirst(a: seq<CartRow>, b: seq<CartRow>, s: set<CartRow>)
    requires Ascending(a) && Lists(a, s) && a != []
    requires Ascending(b) && Lists(b, s) && b != []
    ensures a[0] == b[0]
  {
    assert a[0] in s && b[0] in s;
    assert a[0] in b && b[0] in a;
  }

  /** Two `created_at`-ordered listings of the same rows are the same
      sequence: the order `GetCart` returns is fully determined. */
  lemma {:induction false} AscendingUnique(a: seq<CartRow>, b: seq<CartRow>, s: set<CartRow>)
    requires Ascending(a) && Lists(a, s)
    requires Ascending(b) && Lists(b, s)
    ensures a == b
  {
    if a != [] {
      assert a[0] in s;
      assert b != [];
      SameFirst(a, b, s);
      ListsTail(a, s);
      ListsTail(b, s);
      AscendingUnique(a[1..], b[1..], s - {a[0]});
      assert a == [a[0]] + a[1..] && b == [b[0]] + b[1..];
    }
  }

  /** A row with its mutable columns (`quantity`, `updated_at`) blanked. */
  function Frozen(x: CartRow): CartRow
  {
    x.(quantity := 0, updatedAt := 0)
  }

  /** The row a merge leaves in place of a joined row `y`. */
  lemma MergedRow(items: Items, products: map<ProductId, Product>, c: CartId,
                  k: ItemKey, qty: int, newId: ItemId, now: Time, y: CartRow) returns (y': CartRow)
    requires k in items && y in Joined(items, products, c)
    ensures y' in Joined(Upsert(items, k, qty, newId, now), products, c) && Frozen(y') == Frozen(y)
  {
    var k' :| Selected(items, products, c, k') && y == RowOf(k', items[k'], products[k'.productId]);
    assert Selected(items, products, c, k');
    var items' := Upsert(items, k, qty, newId, now);
    assert k' in items';
    y' := RowOf(k', items'[k'], products[k'.productId]);
    assert Selected(items', products, c, k');
  }

  /** A second `AddItem` on an existing pair keeps the row's id, product and
      `created_at`, so `GetCart` lists the same items in the same positions
      before and after it. */
  lemma MergeKeepsOrder(items: Items, products: map<ProductId, Product>, c: CartId,
                        k: ItemKey, qty: int, newId: ItemId, now: Time,
                        before: seq<CartRow>, after: seq<CartRow>)
    requires k in items
    requires Ascending(before) && Lists(before, Joined(items, products, c))
    requires Ascending(after) && Lists(after, Joined(Upsert(items, k, qty, newId, now), products, c))
    ensures |before| == |after|
    ensures forall i :: 0 <= i < |before| ==>
              && before[i].itemId == after[i].itemId
              && before[i].productId == after[i].productId
              && before[i].createdAt == after[i].createdAt
  {
    var items' := Upsert(items, k, qty, newId, now);
    var fb := seq(|before|, i requires 0 <= i < |before| => Frozen(before[i]));
    var fa := seq(|after|, i requires 0 <= i < |after| => Frozen(after[i]));
    var frozen := set x | x in Joined(items, products, c) :: Frozen(x);
    assert forall k' :: k' in items' <==> k' in items;
    forall i | 0 <= i < |fb| ensures fb[i] in frozen {
      assert before[i] in Joined(items, products, c);
    }
    forall x | x in frozen ensures x in fb {
      var y :| y in Joined(items, products, c) && x == Frozen(y);
      var i :| 0 <= i < |before| && before[i] == y;
      assert fb[i] == x;
    }
    forall i | 0 <= i < |fa| ensures fa[i] in frozen {
      assert after[i] in Joined(items', products, c);
      var k' :| Selected(items', products, c, k') && after[i] == RowOf(k', items'[k'], products[k'.productId]);
      assert Selected(items', products, c, k');
      assert Frozen(after[i]) == Frozen(RowOf(k', items[k'], products[k'.productId]));
    }
    forall x | x in frozen ensures x in fa {
      var y :| y in Joined(items, products, c) && x == Frozen(y);
      var y' := MergedRow(items, products, c, k, qty, newId, now, y);
      var i :| 0 <= i < |after| && after[i] == y';
      assert fa[i] == x;
    }
    AscendingUnique(fb, fa, frozen);
    forall i | 0 <= i < |before|
      ensures before[i].itemId == after[i].itemId && before[i].productId == after[i].productId
              && before[i].createdAt == after[i].createdAt
    {
      assert fb[i] == fa[i];
    }
  }

  /** `AddItem` is a merge, not an overwrite: adding `a` and then `b` to a
      pair leaves one row holding the old quantity (none: 0) plus `a + b`,
      with the id and `created_at` of the first insert, and every other row as it was. */
  lemma AddTwiceMerges(items: Items, k: ItemKey, a: int, b: int, id1: ItemId, id2: ItemId, t1: Time, t2: Time)
    ensures var r := Upsert(Upsert(items, k, a, id1, t1), k, b, id2, t2);
            && r.Keys == items.Keys + {k}
            && r[k].quantity == (if k in items then items[k].quantity else 0) + a + b
            && r[k].id == (if k in items then items[k].id else id1)
            && r[k].createdAt == (if k in items then items[k].createdAt else t1)
            && r[k].updatedAt == t2
            && forall k' :: k' in items && k' != k ==> r[k'] == items[k']
  {
  }

  /** After a successful cleanup, a decrease of a positive row by a positive
      amount leaves the row exactly when the old quantity exceeded `qty`,
      holding the difference; all other rows are kept. */
  lemma DecreaseThenCleanup(items: Items, k: ItemKey, qty: int, now: Time)
    requires Positive(items) && qty > 0
    ensures var r := DropIfZero(Decrease(items, k, qty, now), k);
            && Positive(r)
            && (k !in items ==> r == items)
            && (k in items ==> (k in r <==> items[k].quantity > qty))
            && (k in r ==> r[k] == items[k].(quantity := items[k].quantity - qty, updatedAt := now))
            && forall k' :: k' != k ==> (k' in r <==> k' in items) && (k' in r ==> r[k'] == items[k'])
  {
  }

  /** Without the cleanup (its error is discarded), decreasing a row by at
      least its quantity leaves it stored with quantity 0. */
  lemma StaleZeroRow(items: Items, k: ItemKey, qty: int, now: Time)
    requires Positive(items) && k in items && qty >= items[k].quantity
    ensures var r := Decrease(items, k, qty, now);
            k in r && r[k].quantity == 0 && !Positive(r)
  {
  }

  /** `RemoveItem` deletes its own pair only, and a second call changes nothing. */
  lemma RemovePairOnly(items: Items, k: ItemKey)
    ensures var r := RemovePair(items, k);
            && k !in r
            && (forall k' :: k' != k ==> (k' in r <==> k' in items) && (k' in r ==> r[k'] == items[k']))
            && RemovePair(r, k) == r
            && (k !in items ==> r == items)
  {
  }

  /** `RemoveItem` and `DecreaseItem` on a pair that has no row change nothing. */
  lemma AbsentPairUnchanged(items: Items, k: ItemKey, qty: int, now: Time)
    requires k !in items
    ensures RemovePair(items, k) == items
    ensures Decrease(items, k, qty, now) == items && DropIfZero(items, k) == items
  {
  }

  /** `EmptyCart` removes every item of its cart, keeps every item of the
      other carts, and `GetCart` on that cart then finds nothing. */
  lemma RemoveCartOnly(items: Items, products: map<ProductId, Product>, c: CartId)
    ensures var r := RemoveCart(items, c);
            && (forall k :: k in r ==> k.cartId != c)
            && (forall k :: k in items && k.cartId != c ==> k in r && r[k] == items[k])
            && Joined(r, products, c) == {}
  {
  }

  /** A cart that has no items, or does not exist at all, joins to no rows. */
  lemma NoItemsNoRows(items: Items, products: map<ProductId, Product>, c: CartId)
    requires forall k :: k in items ==> k.cartId != c
    ensures Joined(items, products, c) == {}
  {
  }

  /** Each listed row is a selected item of the cart joined with its product,
      and no product appears twice. */
  lemma JoinedRowsFaithful(items: Items, products: map<ProductId, Product>, c: CartId, x: CartRow, y: CartRow)
    requires x in Joined(items, products, c) && y in Joined(items, products, c)
    ensures var k := ItemKey(c, x.productId);
            && k in items && x.productId in products
            && x == RowOf(k, items[k], products[x.productId])
    ensures x.productId == y.productId ==> x == y
  {
  }

  /** The `EmptyCart` touch moves the cart's `updated_at` strictly forward. */
  lemma TouchAdvances(carts: map<CartId, Cart>, c: CartId, clock: Time, now: Time)
    requires c in carts && carts[c].updatedAt <= clock < now
    ensures Touch(carts, c, now)[c].updatedAt > carts[c].updatedAt
    ensures Touch(carts, c, now)[c].userId == carts[c].userId
  {
  }

  // ----- The store -----

  class Store {
    var carts: map<CartId, Cart>
    var items: Items
    const products: map<ProductId, Product>
    var clock: Time

    ghost predicate Valid()
      reads this
    {
      NotAfter(carts, items, clock) && DistinctIds(items) && DistinctCreation(items)
    }

    /** Empty `carts` and `cart_items` next to a given product catalogue. */
    constructor (catalogue: map<ProductId, Product>)
      ensures Valid()
      ensures carts == map[] && items == map[] && products == catalogue && clock == 0
    {
      carts, items, products, clock := map[], map[], catalogue, 0;
    }

    /** `CreateCart`: `INSERT INTO carts (user_id) VALUES ($1) RETURNING id`.
        No check that the user has no cart yet, nor that `userID` is non-empty. */
    method CreateCart(userID: string, fails: bool) returns (r: Result<CartId>)
      requires Valid()
      modifies this
      ensures Valid()
      ensures items == old(items) && clock == old(clock) + 1
      ensures fails ==> r == Err(PersistenceError) && carts == old(carts)
      ensures !fails ==> r.Ok? && r.value !in old(carts)
                         && carts == old(carts)[r.value := Cart(userID, clock, clock)]
    {
      clock := clock + 1;
      if fails {
        return Err(PersistenceError);
      }
      UnusedIdExists(carts.Keys);
      var id :| id !in carts.Keys;
      carts := carts[id := Cart(userID, clock, clock)];
      r := Ok(id);
    }

    /** `AddItem`: rejects `qty <= 0` before touching the database, otherwise one upsert. */
    method AddItem(cartID: CartId, productID: ProductId, qty: int, fails: bool) returns (o: Outcome)
      requires Valid()
      modifies this
      ensures Valid()
      ensures carts == old(carts)
      ensures qty <= 0 ==> o == Failed(ValidationError) && items == old(items) && clock == old(clock)
      ensures qty > 0 ==> clock == old(clock) + 1
      ensures qty > 0 && fails ==> o == Failed(PersistenceError) && items == old(items)
      ensures qty > 0 && !fails ==>
                var k := ItemKey(cartID, productID);
                && o == Done && k in items
                && items == Upsert(old(items), k, qty, items[k].id, clock)
                && (k !in old(items) ==> items[k].id !in ItemIds(old(items)))
      ensures Positive(old(items)) ==> Positive(items)
    {
      if qty <= 0 {
        return Failed(ValidationError);
      }
      clock := clock + 1;
      if fails {
        return Failed(PersistenceError);
      }
      var k := ItemKey(cartID, productID);
      UnusedIdExists(ItemIds(items));
      var newId :| newId !in ItemIds(items);
      items := Upsert(items, k, qty, newId, clock);
      o := Done;
    }

    /** `GetCart`: the filtered and joined rows in `created_at` order, built
        one row at a time as the `rows.Next()` loop appends them. */
    method GetCart(cartID: CartId, fails: bool) returns (r: Result<seq<CartRow>>)
      requires Valid()
      ensures r.Err? <==> fails
      ensures r.Err? ==> r.error == PersistenceError
      ensures r.Ok? ==> Ascending(r.value) && Lists(r.value, Joined(items, products, cartID))
      ensures r.Ok? && (forall k :: k in items ==> k.cartId != cartID) ==> r.value == []
    {
      if fails {
        return Err(PersistenceError);
      }
      var pending := set k | k in items && Selected(items, products, cartID, k);
      var out: seq<CartRow> := [];
      while pending != {}
        invariant Scan(items, products, cartID, out, pending)
        invariant (forall k :: k in items ==> k.cartId != cartID) ==> out == []
        decreases pending
      {
        EarliestExists(items, pending);
        var k :| k in pending && forall k' :: k' in pending ==> items[k].createdAt <= items[k'].createdAt;
        ScanStep(items, products, cartID, out, pending, k);
        out := out + [RowOf(k, items[k], products[k.productId])];
        pending := pending - {k};
      }
      ScanDone(items, products, cartID, out);
      r := Ok(out);
    }

    /** `EmptyCart`: delete the cart's items, then bump the cart's `updated_at`;
        a failing delete stops before the update. */
    method EmptyCart(cartID: CartId, deleteFails: bool, updateFails: bool) returns (o: Outcome)
      requires Valid()
      modifies this
      ensures Valid()
      ensures deleteFails ==> o == Failed(PersistenceError) && items == old(items)
                              && carts == old(carts) && clock == old(clock)
      ensures !deleteFails ==> && items == RemoveCart(old(items), cartID)
                               && clock == old(clock) + 1
                               && carts == (if updateFails then old(carts) else Touch(old(carts), cartID, clock))
                               && o == (if updateFails then Failed(PersistenceError) else Done)
      ensures Positive(old(items)) ==> Positive(items)
    {
      if deleteFails {
        return Failed(PersistenceError);
      }
      items := RemoveCart(items, cartID);
      clock := clock + 1;
      if updateFails {
        return Failed(PersistenceError);
      }
      carts := Touch(carts, cartID, clock);
      o := Done;
    }

    /** `RemoveItem`: one unconditional delete of the pair. */
    method RemoveItem(cartID: CartId, productID: ProductId, fails: bool) returns (o: Outcome)
      requires Valid()
      modifies this
      ensures Valid()
      ensures carts == old(carts) && clock == old(clock)
      ensures o == (if fails then Failed(PersistenceError) else Done)
      ensures items == (if fails then old(items) else RemovePair(old(items), ItemKey(cartID, productID)))
      ensures Positive(old(items)) ==> Positive(items)
    {
      if fails {
        return Failed(PersistenceError);
      }
      items := RemovePair(items, ItemKey(cartID, productID));
      o := Done;
    }

    /** `DecreaseItem`: the floor-at-zero update, then the cleanup delete,
        which runs whatever the update did and whose error is discarded; the
        result is the update's error alone. No check on the sign of `qty`. */
    method DecreaseItem(cartID: CartId, productID: ProductId, qty: int, updateFails: bool, deleteFails: bool)
      returns (o: Outcome)
      requires Valid()
      modifies this
      ensures Valid()
      ensures carts == old(carts) && clock == old(clock) + 1
      ensures o == (if updateFails then Failed(PersistenceError) else Done)
      ensures var k := ItemKey(cartID, productID);
              var updated := if updateFails then old(items) else Decrease(old(items), k, qty, clock);
              items == if deleteFails then updated else DropIfZero(updated, k)
      ensures !deleteFails && Positive(old(items)) ==> Positive(items)
    {
      var k := ItemKey(cartID, productID);
      clock := clock + 1;
      if !updateFails {
        items := Decrease(items, k, qty, clock);
      }
      if !deleteFails {
        items := DropIfZero(items, k);
      }
      o := if updateFails then Failed(PersistenceError) else Done;
    }
  }
}
