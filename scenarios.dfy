/** Request sequences against a fresh store, each outcome proved. */
module Scenarios {
  import opened Outcomes
  import opened Models
  import opened Pricing
  import opened Wishlists
  import opened Serializers
  import opened Views

  /** Item 1 sells at 10.00 with 5 in stock; item 2 sells at 4.50 with 2 in stock. */
  function Catalog(): (catalog: map<ItemId, Item>)
    ensures forall i :: i in catalog ==> ValidItem(catalog[i])
  {
    map[1 := Item("shirt", "cotton", "any", 5, 600, 1000), 2 := Item("cap", "wool", "any", 2, 200, 450)]
  }

  /** Three of item 1 are accepted at 30.00; six are more than its stock. */
  lemma ShirtRequests()
    ensures Validate(Catalog(), [LineRequest(Some(1), Some(3))]) == Ok(Priced([Line(1, 3, 1000)], 3000))
    ensures Validate(Catalog(), [LineRequest(Some(1), Some(6))]) == Err(InsufficientInventory(1, 6, 5))
  {
    assert [LineRequest(Some(1), Some(3))][..0] == [];
    assert [LineRequest(Some(1), Some(6))][..0] == [];
    assert CheckLine(Catalog(), LineRequest(Some(1), Some(3))) == Ok(Line(1, 3, 1000));
    assert [] + [Line(1, 3, 1000)] == [Line(1, 3, 1000)];
  }

  /** A cart whose one row is (item 1, qty 3) lists that row in its detail. */
  lemma OneRowDetail(cart: Cart)
    requires cart.id == 0
    ensures LinkedItems([JoinRow(1, 0, 3)], 0) == [1]
    ensures CartDetailOf(cart, [JoinRow(1, 0, 3)]) == Ok(CartDetail(0, cart.totalPrice, cart.owner, [ItemQty(1, 3)]))
  {
    var rows := [JoinRow(1, 0, 3)];
    assert rows[..0] == [];
    assert RowsOf(rows, 0) == rows;
    assert Matches(rows, 0, 1) == rows;
    CartDetailMeaning(cart, rows);
    assert Pairs(rows) == [ItemQty(1, 3)];
  }

  /** A cart of three of item 1 costs 30.00; asking for six is refused and
      leaves the cart as it was. */
  method CartCreateThenRefusedUpdate() {
    ShirtRequests();
    var store := new Store(Catalog());
    var created := store.CartCreate(7, CartPayload(Some(99), Some([LineRequest(Some(1), Some(3))])));
    assert created == Ok(Cart(0, 7, 3000));
    assert store.cartRows == [JoinRow(1, 0, 3)];
    var refused := store.CartUpdate(7, CartPayload(None, Some([LineRequest(Some(1), Some(6))])));
    assert refused == Err(InsufficientInventory(1, 6, 5));
    assert store.carts[7] == Cart(0, 7, 3000) && store.cartRows == [JoinRow(1, 0, 3)];
  }

  /** The order placed from a cart of three of item 1 copies it, and the cart stays. */
  method OrderCopiesCart() {
    ShirtRequests();
    var store := new Store(Catalog());
    var created := store.CartCreate(7, CartPayload(None, Some([LineRequest(Some(1), Some(3))])));
    assert store.carts[7] == Cart(0, 7, 3000) && store.cartRows == [JoinRow(1, 0, 3)];
    OneRowDetail(store.carts[7]);
    var placed := store.PlaceOrder(7, 100);
    assert placed == Ok(OrderDetail(0, 3000, 7, 100, 100, "placed", [ItemQty(1, 3)]));
    assert store.carts[7] == Cart(0, 7, 3000);
  }

  /** A cart without rows expands to no entries. */
  lemma NoRows(parent: nat)
    ensures LinkedItems([], parent) == []
    ensures Expand([], parent, []) == Expansion([], None)
  {
  }

  /** An empty request is accepted with no lines and a zero total. */
  lemma EmptyRequest()
    ensures Validate(map[], []) == Ok(Priced([], 0))
    ensures CartRows([], 0) == []
  {
  }

  /** User 7 creates a cart with an empty list and places an order from it
      at time 100: the store then holds that cart, without rows, and that order. */
  method SetUp() returns (store: Store)
    ensures fresh(store) && store.Valid()
    ensures store.State() == Db(map[], map[], map[7 := Cart(0, 7, 0)], map[0 := Order(0, 7, 0, 100, 100, "placed")],
                                [], [], 0, 1, 1)
  {
    EmptyRequest();
    NoRows(0);
    store := new Store(map[]);
    var created := store.CartCreate(7, CartPayload(None, Some([])));
    assert store.State() == Db(map[], map[], map[7 := Cart(0, 7, 0)], map[], [], [], 0, 1, 0);
    var placed := store.PlaceOrder(7, 100);
  }

  /** The owner of an order places a second one from the same cart. */
  method SecondOrderFromOneCart() {
    NoRows(0);
    var store := SetUp();
    var second := store.PlaceOrder(7, 200);
    assert second == Ok(OrderDetail(1, 0, 7, 200, 200, "placed", []));
    assert store.orders.Keys == {0, 1} && store.orders[0].owner == store.orders[1].owner == 7;
  }

  /** A user who does not own an order cannot change its status. */
  method StrangerCannotUpdateStatus() {
    var store := SetUp();
    var stranger := store.UpdateOrderStatus(8, 0, StatusPayload(Some("cancelled")), 150);
    assert stranger == Err(Forbidden) && store.orders[0].status == "placed";
  }

  /** The owner of an order changes its status and its modification time. */
  method OwnerUpdatesStatus() {
    var store := SetUp();
    var owner := store.UpdateOrderStatus(7, 0, StatusPayload(Some("shipped")), 160);
    assert store.orders[0].status == "shipped" && store.orders[0].lastUpdated == 160;
  }

  /** The id lists of the wishlist scenario below. */
  lemma WishlistLists()
    ensures AllStored([1, 2], Catalog()) && AllStored([2], Catalog())
    ensures Dedup([1, 2]) == [1, 2]
    ensures Remaining([1, 2], [1]) == [2]
    ensures Dedup([2] + [2]) == [2]
    ensures Remaining([2], [2]) == []
  {
    assert NoDup([1, 2]);
    assert [1, 2][1..] == [2];
    assert [2] + [2] == [2, 2];
    assert [2, 2][..1] == [2];
    assert [2][1..] == [];
  }

  /** Of [2, 3], the id the serializer refuses is 3. */
  lemma UnknownId()
    ensures FirstUnknown([2, 3], Catalog()) == Some(3)
  {
    assert [2, 3][1..] == [3];
    assert [3][1..] == [];
  }

  /** Posting [1, 2], removing [1], then adding [2] again leaves [2] alone;
      an empty list, posted or left by a removal, is refused. */
  method WishlistEdits() {
    WishlistLists();
    var store := new Store(Catalog());
    var w := store.WishlistPost(7, WishlistPayload(None, Some([])), 0);
    assert w == Err(EmptyList("items")) && store.wishlists == map[];
    w := store.WishlistPost(7, WishlistPayload(Some(99), Some([1, 2])), 1);
    assert w.Ok? && w.value.owner == 7 && w.value.items == [1, 2];
    w := store.WishlistDelete(7, WishlistPayload(None, Some([1])), 2);
    assert w.Ok? && w.value.items == [2];
    w := store.WishlistPut(7, WishlistPayload(None, Some([2])), 3);
    assert w.Ok? && w.value.items == [2];
    w := store.WishlistDelete(7, WishlistPayload(None, Some([2])), 4);
    assert w == Err(EmptyList("items")) && store.wishlists[7].items == [2];
  }

  /** An id naming no stored item is refused and no wishlist is created. */
  method UnknownWishlistItem() {
    UnknownId();
    var store := new Store(Catalog());
    var w := store.WishlistPost(7, WishlistPayload(None, Some([2, 3])), 0);
    assert w == Err(ItemNotFound(Some(3)));
    assert store.wishlists == map[];
  }
}
