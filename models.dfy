/** The records of the shop (e_commerce/models.py) as values, the bounds
    their field declarations impose, and the join-row queries the handlers
    and serializers run against the database (`objects.get`,
    `items.all()`, cascading deletes). */
module Models {
  import opened Outcomes

  type UserId = nat
  type ItemId = nat
  type CartId = nat
  type OrderId = nat
  type WishlistId = nat
  /** `auto_now` / `auto_now_add` values; the clock is a parameter of the handlers. */
  type Timestamp = nat

  /** Money in integer cents: every price field is DecimalField(max_digits=9, decimal_places=2). */
  type Cents = int

  /** Nine digits, two of them after the point: at most seven whole digits. */
  const DecimalBound: int := 1_000_000_000

  /** A cent amount that a DecimalField(max_digits=9, decimal_places=2) can hold. */
  predicate DecimalFits(c: Cents) {
    -DecimalBound < c < DecimalBound
  }

  /** A catalog item. `qty` is the stock, an IntegerField with no lower bound. */
  datatype Item = Item(
    title: string,
    description: string,
    targetGender: string,
    qty: int,
    buyPrice: Cents,
    sellPrice: Cents)

  /** The bounds the declared fields of Item put on a stored item. */
  predicate ValidItem(i: Item) {
    && |i.title| <= 200
    && |i.description| <= 1000
    && |i.targetGender| <= 50
    && DecimalFits(i.buyPrice)
    && DecimalFits(i.sellPrice)
  }

  /** One wishlist per owner; `items` is the many-to-many relation, listed without repeats. */
  datatype Wishlist = Wishlist(id: WishlistId, owner: UserId, items: seq<ItemId>, lastUpdated: Timestamp)

  /** One cart per owner; its lines are ItemCart join rows whose parent is the cart's id. */
  datatype Cart = Cart(id: CartId, owner: UserId, totalPrice: Cents)

  /** Any number of orders per owner; lines are ItemOrder join rows whose parent is the order's id. */
  datatype Order = Order(
    id: OrderId,
    owner: UserId,
    totalPrice: Cents,
    orderedAt: Timestamp,
    lastUpdated: Timestamp,
    status: string)

  /** An ItemCart or ItemOrder record: one item, one parent (cart or order), one integer qty. */
  datatype JoinRow = JoinRow(item: ItemId, parent: nat, qty: int)

  /** No id occurs twice: a many-to-many relation lists each item once. */
  predicate NoDup(s: seq<ItemId>) {
    forall i, j :: 0 <= i < j < |s| ==> s[i] != s[j]
  }

  /** Every id names a stored item. */
  predicate AllStored(ids: seq<ItemId>, items: map<ItemId, Item>) {
    forall x :: x in ids ==> x in items
  }

  /** The whole database the handlers work on. Carts and wishlists are
      keyed by their owner (both are OneToOneField on the user); orders by
      their id. `next*` stand in for the database's primary-key sequences. */
  datatype Db = Db(
    items: map<ItemId, Item>,
    wishlists: map<UserId, Wishlist>,
    carts: map<UserId, Cart>,
    orders: map<OrderId, Order>,
    cartRows: seq<JoinRow>,
    orderRows: seq<JoinRow>,
    nextWishlistId: WishlistId,
    nextCartId: CartId,
    nextOrderId: OrderId)

  /** The constraints the model declarations put on the stored records:
      items within their field bounds; the wishlist and the cart of a user
      are that user's, with ids unique among them; each wishlist lists
      stored items, each once; every join row names a stored item and an
      allocated parent. */
  predicate ValidDb(d: Db) {
    && (forall i :: i in d.items ==> ValidItem(d.items[i]))
    && (forall u :: u in d.wishlists ==>
          && d.wishlists[u].owner == u && d.wishlists[u].id < d.nextWishlistId
          && NoDup(d.wishlists[u].items) && AllStored(d.wishlists[u].items, d.items))
    && (forall u, v :: u in d.wishlists && v in d.wishlists && u != v ==> d.wishlists[u].id != d.wishlists[v].id)
    && (forall u :: u in d.carts ==> d.carts[u].owner == u && d.carts[u].id < d.nextCartId)
    && (forall u, v :: u in d.carts && v in d.carts && u != v ==> d.carts[u].id != d.carts[v].id)
    && (forall o :: o in d.orders ==> d.orders[o].id == o && o < d.nextOrderId)
    && (forall r :: r in d.cartRows ==> r.parent < d.nextCartId && r.item in d.items)
    && (forall r :: r in d.orderRows ==> r.parent < d.nextOrderId && r.item in d.items)
  }

  /** The join rows linked to `parent`, in row order: what `parent.items.all()` walks. */
  function RowsOf(rows: seq<JoinRow>, parent: nat): (linked: seq<JoinRow>)
    ensures forall r :: r in linked <==> r in rows && r.parent == parent
    ensures |linked| <= |rows|
  {
    if rows == [] then []
    else
      var init, last := rows[..|rows| - 1], rows[|rows| - 1];
      assert rows == init + [last];
      RowsOf(init, parent) + (if last.parent == parent then [last] else [])
  }

  /** The item ids `parent.items.all()` yields: one per linked join row. */
  function LinkedItems(rows: seq<JoinRow>, parent: nat): (ids: seq<ItemId>)
    ensures |ids| == |RowsOf(rows, parent)|
  {
    var linked := RowsOf(rows, parent);
    seq(|linked|, k requires 0 <= k < |linked| => linked[k].item)
  }

  /** The rows that `objects.get(parent=parent, item=item)` filters. */
  function Matches(rows: seq<JoinRow>, parent: nat, item: ItemId): (found: seq<JoinRow>)
    ensures forall r :: r in found <==> r in rows && r.parent == parent && r.item == item
  {
    if rows == [] then []
    else
      var init, last := rows[..|rows| - 1], rows[|rows| - 1];
      assert rows == init + [last];
      Matches(init, parent, item) + (if last.parent == parent && last.item == item then [last] else [])
  }

  /** `objects.get(parent=parent, item=item)`: the single matching row, or an
      error when there is none (DoesNotExist) or several (MultipleObjectsReturned). */
  function Get(rows: seq<JoinRow>, parent: nat, item: ItemId): (r: Result<JoinRow>)
    ensures r.Ok? <==> |Matches(rows, parent, item)| == 1
    ensures r.Ok? ==> r.value in rows && r.value.parent == parent && r.value.item == item
    ensures r.Ok? ==> forall s :: s in rows && s.parent == parent && s.item == item ==> s == r.value
    ensures r.Err? ==> r.error == RowNotUnique(parent, item, |Matches(rows, parent, item)|)
  {
    var found := Matches(rows, parent, item);
    if |found| == 1 then
      assert found[0] in found;
      Ok(found[0])
    else
      Err(RowNotUnique(parent, item, |found|))
  }

  /** Cascade on deleting a cart or an order (`on_delete=CASCADE` on the
      parent key), and `cart.items.clear()`: drop every row of `parent`. */
  function DeleteParent(rows: seq<JoinRow>, parent: nat): (kept: seq<JoinRow>)
    ensures forall r :: r in kept <==> r in rows && r.parent != parent
    ensures |kept| <= |rows|
  {
    if rows == [] then []
    else
      var init, last := rows[..|rows| - 1], rows[|rows| - 1];
      assert rows == init + [last];
      DeleteParent(init, parent) + (if last.parent != parent then [last] else [])
  }

  lemma {:induction false} RowsOfAppend(a: seq<JoinRow>, b: seq<JoinRow>, parent: nat)
    ensures RowsOf(a + b, parent) == RowsOf(a, parent) + RowsOf(b, parent)
    decreases |b|
  {
    if b != [] {
      var init, last := b[..|b| - 1], b[|b| - 1];
      assert (a + b)[..|a + b| - 1] == a + init;
      RowsOfAppend(a, init, parent);
    } else {
      assert a + b == a;
    }
  }

  lemma {:induction false} MatchesAppend(a: seq<JoinRow>, b: seq<JoinRow>, parent: nat, item: ItemId)
    ensures Matches(a + b, parent, item) == Matches(a, parent, item) + Matches(b, parent, item)
    decreases |b|
  {
    if b != [] {
      var init := b[..|b| - 1];
      assert (a + b)[..|a + b| - 1] == a + init;
      MatchesAppend(a, init, parent, item);
    } else {
      assert a + b == a;
    }
  }

  lemma {:induction false} DeleteParentAppend(a: seq<JoinRow>, b: seq<JoinRow>, parent: nat)
    ensures DeleteParent(a + b, parent) == DeleteParent(a, parent) + DeleteParent(b, parent)
    decreases |b|
  {
    if b != [] {
      var init := b[..|b| - 1];
      assert (a + b)[..|a + b| - 1] == a + init;
      DeleteParentAppend(a, init, parent);
    } else {
      assert a + b == a;
    }
  }

  /** Deleting a parent leaves no row that references it and keeps the
      rows of every other parent exactly as they were, in order. */
  lemma {:induction false} DeleteParentCascades(rows: seq<JoinRow>, parent: nat, other: nat)
    ensures RowsOf(DeleteParent(rows, parent), parent) == []
    ensures other != parent ==> RowsOf(DeleteParent(rows, parent), other) == RowsOf(rows, other)
    decreases |rows|
  {
    if rows != [] {
      var init, last := rows[..|rows| - 1], rows[|rows| - 1];
      DeleteParentCascades(init, parent, other);
      var lastKept := if last.parent != parent then [last] else [];
      RowsOfAppend(DeleteParent(init, parent), lastKept, parent);
      RowsOfAppend(DeleteParent(init, parent), lastKept, other);
    }
  }

  /** Rows copied under another parent, item and qty kept. */
  function Reparent(rows: seq<JoinRow>, parent: nat): (moved: seq<JoinRow>)
    ensures |moved| == |rows|
    ensures forall r :: r in moved ==> r.parent == parent
  {
    seq(|rows|, k requires 0 <= k < |rows| => JoinRow(rows[k].item, parent, rows[k].qty))
  }

  lemma RowsOfNone(rows: seq<JoinRow>, parent: nat)
    requires forall r :: r in rows ==> r.parent != parent
    ensures RowsOf(rows, parent) == []
  {
  }

  lemma MatchesNone(rows: seq<JoinRow>, parent: nat, item: ItemId)
    requires forall r :: r in rows ==> r.parent != parent
    ensures Matches(rows, parent, item) == []
  {
  }

  lemma {:induction false} RowsOfSameParent(rows: seq<JoinRow>, parent: nat)
    requires forall r :: r in rows ==> r.parent == parent
    ensures RowsOf(rows, parent) == rows
    ensures DeleteParent(rows, parent) == []
    decreases |rows|
  {
    if rows != [] {
      var init, last := rows[..|rows| - 1], rows[|rows| - 1];
      assert rows == init + [last];
      assert last in rows;
      forall r | r in init ensures r.parent == parent { assert r in rows; }
      RowsOfSameParent(init, parent);
      assert RowsOf(rows, parent) == RowsOf(init, parent) + [last];
      assert DeleteParent(rows, parent) == DeleteParent(init, parent);
    }
  }

  lemma {:induction false} DeleteParentNone(rows: seq<JoinRow>, parent: nat)
    requires forall r :: r in rows ==> r.parent != parent
    ensures DeleteParent(rows, parent) == rows
    decreases |rows|
  {
    if rows != [] {
      var init, last := rows[..|rows| - 1], rows[|rows| - 1];
      assert rows == init + [last];
      assert last in rows;
      forall r | r in init ensures r.parent != parent { assert r in rows; }
      DeleteParentNone(init, parent);
      assert DeleteParent(rows, parent) == DeleteParent(init, parent) + [last];
    }
  }

  /** `cart.items.clear()` followed by inserting `added` under the cart:
      afterwards the cart's rows are exactly `added`, in order, and every
      other row is as before. */
  lemma ReplaceRows(rows: seq<JoinRow>, parent: nat, added: seq<JoinRow>)
    requires forall r :: r in added ==> r.parent == parent
    ensures RowsOf(DeleteParent(rows, parent) + added, parent) == added
    ensures DeleteParent(DeleteParent(rows, parent) + added, parent) == DeleteParent(rows, parent)
  {
    var kept := DeleteParent(rows, parent);
    RowsOfAppend(kept, added, parent);
    DeleteParentAppend(kept, added, parent);
    RowsOfNone(kept, parent);
    DeleteParentNone(kept, parent);
    RowsOfSameParent(added, parent);
  }

  /** Filtering a parent's rows first does not change which rows match (parent, item). */
  lemma {:induction false} MatchesOfRowsOf(rows: seq<JoinRow>, parent: nat, item: ItemId)
    ensures Matches(RowsOf(rows, parent), parent, item) == Matches(rows, parent, item)
    decreases |rows|
  {
    if rows != [] {
      var init, last := rows[..|rows| - 1], rows[|rows| - 1];
      MatchesOfRowsOf(init, parent, item);
      var tail := if last.parent == parent then [last] else [];
      MatchesAppend(RowsOf(init, parent), tail, parent, item);
    }
  }

  /** Moving rows of one parent under another keeps how many match each item. */
  lemma {:induction false} MatchesReparent(rows: seq<JoinRow>, src: nat, dst: nat, item: ItemId)
    requires forall r :: r in rows ==> r.parent == src
    ensures |Matches(Reparent(rows, dst), dst, item)| == |Matches(rows, src, item)|
    decreases |rows|
  {
    if rows != [] {
      var init, last := rows[..|rows| - 1], rows[|rows| - 1];
      assert rows == init + [last];
      assert last in rows;
      forall r | r in init ensures r.parent == src { assert r in rows; }
      MatchesReparent(init, src, dst, item);
      var moved := Reparent(rows, dst);
      assert moved[..|moved| - 1] == Reparent(init, dst);
      assert moved[|moved| - 1] == JoinRow(last.item, dst, last.qty);
    }
  }
}
