/** The request handlers of e_commerce/views.py over an in-memory database:
    wishlist POST/PUT/DELETE, cart create/update/retrieve, order placement
    and order status update. The caller's id and the clock are parameters;
    the outcome of a handler is a value or the error it ends in. */
module Views {
  import opened Outcomes
  import opened Models
  import opened Permissions
  import opened Pricing
  import opened Wishlists
  import opened Serializers

  /** The body of a wishlist request: "owner" (overwritten by the handler) and "items", an id list. */
  datatype WishlistPayload = WishlistPayload(owner: Option<UserId>, items: Option<seq<ItemId>>)

  /** The body of a cart request: "owner" (never read) and "items", a list of {item_id, quantity}. */
  datatype CartPayload = CartPayload(owner: Option<UserId>, items: Option<seq<LineRequest>>)

  /** The body of an order update; only "status" is read. */
  datatype StatusPayload = StatusPayload(status: Option<string>)

  /** The order detail view, whose permission classes list IsOwner. */
  datatype View = OrderRetrieveUpdateView

  /** The ItemCart rows the insert loop writes for `lines`, in order. */
  function CartRows(lines: seq<Line>, cart: CartId): (rows: seq<JoinRow>)
    ensures |rows| == |lines|
    ensures forall r :: r in rows ==> r.parent == cart
  {
    seq(|lines|, k requires 0 <= k < |lines| => JoinRow(lines[k].item, cart, lines[k].quantity))
  }

  /** The ItemOrder rows written for the copied entries, in order. */
  function OrderRows(entries: seq<ItemQty>, order: OrderId): (rows: seq<JoinRow>)
    ensures |rows| == |entries|
    ensures forall r :: r in rows ==> r.parent == order
  {
    seq(|entries|, k requires 0 <= k < |entries| => JoinRow(entries[k].itemId, order, entries[k].quantity))
  }

  /** `if not status`: the status must be present and non-empty. */
  predicate StatusGiven(payload: StatusPayload) {
    payload.status.Some? && payload.status.value != ""
  }

  /** OrderRetrieveUpdateAPIView.update as written: it loads the order with
      `objects.get` instead of `get_object()`, so IsOwner is never consulted. */
  function StatusUpdateAsWritten(order: Order, caller: UserId, payload: StatusPayload, now: Timestamp): (r: Result<Order>)
    ensures r.Ok? <==> StatusGiven(payload)
    ensures r.Ok? ==> r.value == order.(status := payload.status.value, lastUpdated := now)
  {
    if !StatusGiven(payload) then Err(StatusRequired)
    else Ok(order.(status := payload.status.value, lastUpdated := now))
  }

  /** As written, a user who does not own an order changes its status. */
  lemma NonOwnerUpdatesStatusAsWritten()
    ensures var order := Order(1, 10, 3000, 0, 0, "placed");
      && !HasObjectPermission(Request(20), OrderRetrieveUpdateView, order)
      && StatusUpdateAsWritten(order, 20, StatusPayload(Some("cancelled")), 5).Ok?
      && StatusUpdateAsWritten(order, 20, StatusPayload(Some("cancelled")), 5).value.status == "cancelled"
  {
  }

  /** The update the view's permission classes call for: a missing or empty
      status is refused, then a caller IsOwner does not admit is refused;
      otherwise only the status and the modification time change. */
  function StatusUpdate(order: Order, caller: UserId, payload: StatusPayload, now: Timestamp): (r: Result<Order>)
    ensures !StatusGiven(payload) ==> r == Err(StatusRequired)
    ensures StatusGiven(payload) && !HasObjectPermission(Request(caller), OrderRetrieveUpdateView, order) ==>
      r == Err(Forbidden)
    ensures r.Ok? <==> StatusGiven(payload) && caller == order.owner
    ensures r.Ok? ==> r.value == order.(status := payload.status.value, lastUpdated := now)
  {
    if !StatusGiven(payload) then Err(StatusRequired)
    else if !HasObjectPermission(Request(caller), OrderRetrieveUpdateView, order) then Err(Forbidden)
    else Ok(order.(status := payload.status.value, lastUpdated := now))
  }

  /** Rows copied under a fresh parent id are the only rows of that parent. */
  lemma CopiedRowsOf(orderRows: seq<JoinRow>, linked: seq<JoinRow>, order: OrderId)
    requires forall r :: r in orderRows ==> r.parent != order
    ensures RowsOf(orderRows + Reparent(linked, order), order) == Reparent(linked, order)
  {
    var copied := Reparent(linked, order);
    calc {
      RowsOf(orderRows + copied, order);
      { RowsOfAppend(orderRows, copied, order); }
      RowsOf(orderRows, order) + RowsOf(copied, order);
      { RowsOfNone(orderRows, order); RowsOfSameParent(copied, order); }
      [] + copied;
    }
    assert [] + copied == copied;
  }

  /** Copying a cart's rows under a fresh order id keeps, item by item, the
      number of rows found for the item. */
  lemma CopiedMatches(cartRows: seq<JoinRow>, cart: CartId, orderRows: seq<JoinRow>, order: OrderId, x: ItemId)
    requires forall r :: r in orderRows ==> r.parent != order
    ensures |Matches(orderRows + Reparent(RowsOf(cartRows, cart), order), order, x)| == |Matches(cartRows, cart, x)|
  {
    var linked := RowsOf(cartRows, cart);
    MatchesAppend(orderRows, Reparent(linked, order), order, x);
    MatchesNone(orderRows, order, x);
    MatchesReparent(linked, cart, order, x);
    MatchesOfRowsOf(cartRows, cart, x);
  }

  /** When every item linked to the cart has one cart row, every item
      linked to the copy has one order row. */
  lemma CopiedUnique(cartRows: seq<JoinRow>, cart: CartId, orderRows: seq<JoinRow>, order: OrderId)
    requires forall r :: r in orderRows ==> r.parent != order
    requires forall k :: 0 <= k < |LinkedItems(cartRows, cart)| ==> Unique(cartRows, cart, LinkedItems(cartRows, cart)[k])
    ensures var placed := orderRows + Reparent(RowsOf(cartRows, cart), order);
      forall k :: 0 <= k < |LinkedItems(placed, order)| ==> Unique(placed, order, LinkedItems(placed, order)[k])
  {
    var linked := RowsOf(cartRows, cart);
    var placed := orderRows + Reparent(linked, order);
    CopiedRowsOf(orderRows, linked, order);
    var ids, cartIds := LinkedItems(placed, order), LinkedItems(cartRows, cart);
    forall k | 0 <= k < |ids|
      ensures Unique(placed, order, ids[k])
    {
      assert ids[k] == cartIds[k];
      CopiedMatches(cartRows, cart, orderRows, order, ids[k]);
    }
  }

  /** Placing an order copies a cart whose linked items each have one join
      row: the order's rows are the cart's rows under the order's id, and the
      order detail lists the same entries as the cart detail. */
  lemma PlacedOrderCopiesCart(cartRows: seq<JoinRow>, cart: CartId, orderRows: seq<JoinRow>, order: Order)
    requires forall r :: r in orderRows ==> r.parent != order.id
    requires Expand(cartRows, cart, LinkedItems(cartRows, cart)).failure.None?
    ensures var entries := Expand(cartRows, cart, LinkedItems(cartRows, cart)).entries;
      var placed := orderRows + OrderRows(entries, order.id);
      && RowsOf(placed, order.id) == Reparent(RowsOf(cartRows, cart), order.id)
      && OrderDetailOf(order, placed) == Ok(OrderDetail(
           order.id, order.totalPrice, order.owner, order.orderedAt, order.lastUpdated, order.status,
           Pairs(RowsOf(cartRows, cart))))
  {
    var linked := RowsOf(cartRows, cart);
    var cartIds := LinkedItems(cartRows, cart);
    DetailEntries(cartRows, cart);
    var copied := Reparent(linked, order.id);
    assert OrderRows(Pairs(linked), order.id) == copied;
    var placed := orderRows + copied;
    CopiedRowsOf(orderRows, linked, order.id);
    ExpandSucceeds(cartRows, cart, cartIds);
    CopiedUnique(cartRows, cart, orderRows, order.id);
    OrderDetailMeaning(order, placed);
    assert Pairs(copied) == Pairs(linked);
  }

  /** Saving a wishlist the owner already has keeps the database valid. */
  lemma WishlistSavedValid(d: Db, w: Wishlist)
    requires ValidDb(d)
    requires w.owner in d.wishlists && w.id == d.wishlists[w.owner].id && NoDup(w.items) && AllStored(w.items, d.items)
    ensures ValidDb(d.(wishlists := d.wishlists[w.owner := w]))
  {
  }

  /** Creating a wishlist with the next id keeps the database valid. */
  lemma WishlistCreatedValid(d: Db, w: Wishlist)
    requires ValidDb(d)
    requires w.owner !in d.wishlists && w.id == d.nextWishlistId && NoDup(w.items) && AllStored(w.items, d.items)
    ensures ValidDb(d.(wishlists := d.wishlists[w.owner := w], nextWishlistId := d.nextWishlistId + 1))
  {
  }

  /** Creating a cart with the next id, and rows for it naming stored items, keeps the database valid. */
  lemma CartCreatedValid(d: Db, cart: Cart, added: seq<JoinRow>)
    requires ValidDb(d)
    requires cart.owner !in d.carts && cart.id == d.nextCartId
    requires forall r :: r in added ==> r.parent == cart.id && r.item in d.items
    ensures ValidDb(d.(carts := d.carts[cart.owner := cart], cartRows := d.cartRows + added, nextCartId := d.nextCartId + 1))
  {
  }

  /** Replacing a cart's rows by rows naming stored items keeps the database valid. */
  lemma CartReplacedValid(d: Db, cart: Cart, added: seq<JoinRow>)
    requires ValidDb(d)
    requires cart.owner in d.carts && cart.id == d.carts[cart.owner].id
    requires forall r :: r in added ==> r.parent == cart.id && r.item in d.items
    ensures ValidDb(d.(carts := d.carts[cart.owner := cart], cartRows := DeleteParent(d.cartRows, cart.id) + added))
  {
  }

  /** Creating an order with the next id, and rows for it naming stored items, keeps the database valid. */
  lemma OrderCreatedValid(d: Db, order: Order, added: seq<JoinRow>)
    requires ValidDb(d)
    requires order.id == d.nextOrderId
    requires forall r :: r in added ==> r.parent == order.id && r.item in d.items
    ensures ValidDb(d.(orders := d.orders[order.id := order], orderRows := d.orderRows + added, nextOrderId := d.nextOrderId + 1))
  {
  }

  /** The rows written for accepted lines name stored items and the given parent. */
  lemma LinesStored(catalog: map<ItemId, Item>, reqs: seq<LineRequest>, cart: CartId)
    requires Validate(catalog, reqs).Ok?
    ensures forall r :: r in CartRows(Validate(catalog, reqs).value.lines, cart) ==> r.parent == cart && r.item in catalog
  {
    ValidateAccepted(catalog, reqs);
    var rows := CartRows(Validate(catalog, reqs).value.lines, cart);
    forall r | r in rows
      ensures r.parent == cart && r.item in catalog
    {
      var k :| 0 <= k < |rows| && rows[k] == r;
    }
  }

  /** Order rows copied from a valid cart's rows keep the database valid, whether or not the copy ran to the end. */
  lemma CopiedRowsValid(d: Db, cart: CartId, order: Order)
    requires ValidDb(d) && order.id == d.nextOrderId
    ensures var entries := Expand(d.cartRows, cart, LinkedItems(d.cartRows, cart)).entries;
      ValidDb(d.(orders := d.orders[order.id := order], orderRows := d.orderRows + OrderRows(entries, order.id),
                 nextOrderId := d.nextOrderId + 1))
  {
    var ids := LinkedItems(d.cartRows, cart);
    ExpandMeaning(d.cartRows, cart, ids);
    var entries := Expand(d.cartRows, cart, ids).entries;
    var added := OrderRows(entries, order.id);
    forall r | r in added
      ensures r.parent == order.id && r.item in d.items
    {
      var k :| 0 <= k < |added| && added[k] == r;
      assert entries[k].itemId == ids[k];
      assert RowsOf(d.cartRows, cart)[k] in RowsOf(d.cartRows, cart);
    }
    OrderCreatedValid(d, order, added);
  }

  /** The database, with one handler per endpoint method. */
  class Store {
    var items: map<ItemId, Item>
    var wishlists: map<UserId, Wishlist>
    var carts: map<UserId, Cart>
    var orders: map<OrderId, Order>
    var cartRows: seq<JoinRow>
    var orderRows: seq<JoinRow>
    var nextWishlistId: WishlistId
    var nextCartId: CartId
    var nextOrderId: OrderId

    /** The fields as one value. */
    function State(): Db
      reads this
    {
      Db(items, wishlists, carts, orders, cartRows, orderRows, nextWishlistId, nextCartId, nextOrderId)
    }

    ghost predicate Valid()
      reads this
    {
      ValidDb(State())
    }

    /** A database holding `catalog` and nothing else. */
    constructor (catalog: map<ItemId, Item>)
      requires forall i :: i in catalog ==> ValidItem(catalog[i])
      ensures Valid()
      ensures State() == Db(catalog, map[], map[], map[], [], [], 0, 0, 0)
    {
      items := catalog;
      wishlists, carts, orders := map[], map[], map[];
      cartRows, orderRows := [], [];
      nextWishlistId, nextCartId, nextOrderId := 0, 0, 0;
    }

    /** get_owner_wishlist (and get_object): the owner's wishlist, or an error when there is none. */
    function GetOwnerWishlist(owner: UserId): (r: Result<Wishlist>)
      reads this
      ensures r.Ok? <==> owner in wishlists
      ensures r.Ok? ==> r.value == wishlists[owner]
      ensures r.Err? ==> r.error == WishlistNotFound
    {
      if owner in wishlists then Ok(wishlists[owner]) else Err(WishlistNotFound)
    }

    /** POST /wishlist/: the wishlist becomes exactly the requested ids,
        created for the caller if the caller has none. The serializer's item
        field refuses an absent list, an empty one (the relation is declared
        without `blank=True`) and an id naming no stored item. */
    method WishlistPost(caller: UserId, payload: WishlistPayload, now: Timestamp) returns (r: Result<Wishlist>)
      requires Valid()
      modifies this
      ensures Valid()
      ensures payload.items.None? ==> r == Err(MissingField("items")) && State() == old(State())
      ensures payload.items == Some([]) ==> r == Err(EmptyList("items")) && State() == old(State())
      ensures payload.items.Some? && FirstUnknown(payload.items.value, old(items)).Some? ==>
        r == Err(ItemNotFound(FirstUnknown(payload.items.value, old(items)))) && State() == old(State())
      ensures r.Ok? <==> payload.items.Some? && payload.items.value != [] && AllStored(payload.items.value, old(items))
      ensures r.Ok? ==>
        && r.value.owner == caller
        && r.value.items == Dedup(payload.items.value)
        && (forall x :: x in r.value.items <==> x in payload.items.value)
        && r.value.lastUpdated == now
      ensures r.Ok? && caller in old(wishlists) ==>
        && r.value.id == old(wishlists)[caller].id
        && State() == old(State()).(wishlists := old(wishlists)[caller := r.value])
      ensures r.Ok? && caller !in old(wishlists) ==>
        && r.value.id == old(nextWishlistId)
        && State() == old(State()).(wishlists := old(wishlists)[caller := r.value], nextWishlistId := old(nextWishlistId) + 1)
    {
      var data := payload.(owner := Some(caller));
      if data.items.None? {
        return Err(MissingField("items"));
      }
      if data.items.value == [] {
        return Err(EmptyList("items"));
      }
      var unknown := FirstUnknown(data.items.value, items);
      if unknown.Some? {
        return Err(ItemNotFound(unknown));
      }
      var ids := Dedup(data.items.value);
      if caller in wishlists {
        var w := wishlists[caller].(owner := data.owner.value, items := ids, lastUpdated := now);
        WishlistSavedValid(State(), w);
        wishlists := wishlists[caller := w];
        r := Ok(w);
      } else {
        var w := Wishlist(nextWishlistId, data.owner.value, ids, now);
        WishlistCreatedValid(State(), w);
        wishlists := wishlists[caller := w];
        nextWishlistId := nextWishlistId + 1;
        r := Ok(w);
      }
    }

    /** PUT /wishlist/: the requested ids are added to the current ones; the
        serializer refuses the combined list when it is empty or names an
        item that is not stored. */
    method WishlistPut(caller: UserId, payload: WishlistPayload, now: Timestamp) returns (r: Result<Wishlist>)
      requires Valid()
      modifies this
      ensures Valid()
      ensures caller !in old(wishlists) ==> r == Err(WishlistNotFound) && State() == old(State())
      ensures caller in old(wishlists) && payload.items.GetOr([]) == [] && old(wishlists)[caller].items == [] ==>
        r == Err(EmptyList("items")) && State() == old(State())
      ensures caller in old(wishlists) && FirstUnknown(payload.items.GetOr([]), old(items)).Some? ==>
        r == Err(ItemNotFound(FirstUnknown(payload.items.GetOr([]), old(items)))) && State() == old(State())
      ensures caller in old(wishlists) && AllStored(payload.items.GetOr([]), old(items)) &&
                (payload.items.GetOr([]) != [] || old(wishlists)[caller].items != []) ==>
        var w := old(wishlists)[caller];
        && r == Ok(w.(items := Dedup(payload.items.GetOr([]) + w.items), lastUpdated := now))
        && State() == old(State()).(wishlists := old(wishlists)[caller := r.value])
        && forall x :: x in r.value.items <==> x in payload.items.GetOr([]) || x in w.items
    {
      var data := payload.(owner := Some(caller));
      var wishlist := GetOwnerWishlist(caller);
      if wishlist.Err? {
        return Err(wishlist.error);
      }
      var currentItems := wishlist.value.items;
      var newItems := data.items.GetOr([]) + currentItems;
      if newItems == [] {
        return Err(EmptyList("items"));
      }
      FirstUnknownAppend(data.items.GetOr([]), currentItems, items);
      var unknown := FirstUnknown(newItems, items);
      if unknown.Some? {
        return Err(ItemNotFound(unknown));
      }
      var w := wishlist.value.(owner := data.owner.value, items := Dedup(newItems), lastUpdated := now);
      WishlistSavedValid(State(), w);
      wishlists := wishlists[caller := w];
      r := Ok(w);
    }

    /** DELETE /wishlist/: the current ids not in the delete list are kept, in
        their order; they are stored items, so the serializer accepts them
        unless none is left. */
    method WishlistDelete(caller: UserId, payload: WishlistPayload, now: Timestamp) returns (r: Result<Wishlist>)
      requires Valid()
      modifies this
      ensures Valid()
      ensures caller !in old(wishlists) ==> r == Err(WishlistNotFound) && State() == old(State())
      ensures caller in old(wishlists) && payload.items.None? ==>
        r == Err(MissingField("items")) && State() == old(State())
      ensures caller in old(wishlists) && payload.items.Some? && Remaining(old(wishlists)[caller].items, payload.items.value) == [] ==>
        r == Err(EmptyList("items")) && State() == old(State())
      ensures caller in old(wishlists) && payload.items.Some? && Remaining(old(wishlists)[caller].items, payload.items.value) != [] ==>
        var w := old(wishlists)[caller];
        && r == Ok(w.(items := Remaining(w.items, payload.items.value), lastUpdated := now))
        && State() == old(State()).(wishlists := old(wishlists)[caller := r.value])
        && (forall x :: x in r.value.items <==> x in w.items && x !in payload.items.value)
        && Subsequence(r.value.items, w.items)
    {
      var data := payload.(owner := Some(caller));
      var wishlist := GetOwnerWishlist(caller);
      if wishlist.Err? {
        return Err(wishlist.error);
      }
      var currentItems := wishlist.value.items;
      if data.items.None? {
        return Err(MissingField("items"));
      }
      var remainingItems := Remaining(currentItems, data.items.value);
      if remainingItems == [] {
        return Err(EmptyList("items"));
      }
      var w := wishlist.value.(owner := data.owner.value, items := Dedup(remainingItems), lastUpdated := now);
      WishlistSavedValid(State(), w);
      wishlists := wishlists[caller := w];
      r := Ok(w);
    }

    /** GET /cart/: the caller's cart detail. */
    method CartRetrieve(caller: UserId) returns (r: Result<CartDetail>)
      ensures caller !in carts ==> r == Err(CartNotFound)
      ensures caller in carts ==> r == CartDetailOf(carts[caller], cartRows)
    {
      if caller !in carts {
        return Err(CartNotFound);
      }
      r := CartRepresentation(carts[caller], cartRows);
    }

    /** The insert loop of the cart handlers: one ItemCart row per line, in order. */
    method InsertCartRows(lines: seq<Line>, cart: CartId)
      modifies this
      ensures State() == old(State()).(cartRows := old(cartRows) + CartRows(lines, cart))
    {
      ghost var added := CartRows(lines, cart);
      var i := 0;
      while i < |lines|
        invariant 0 <= i <= |lines|
        invariant cartRows == old(cartRows) + added[..i]
        invariant State() == old(State()).(cartRows := cartRows)
      {
        assert added[..i + 1] == added[..i] + [added[i]];
        cartRows := cartRows + [JoinRow(lines[i].item, cart, lines[i].quantity)];
        i := i + 1;
      }
      assert added[..i] == added;
    }

    /** The copy loop of order placement: for each item linked to the cart,
        its unique cart row is looked up and an ItemOrder row with its qty is
        written; the first item without exactly one row ends the loop, with
        the rows before it written. */
    method CopyCartRows(cart: CartId, order: OrderId) returns (failure: Option<Error>)
      modifies this
      ensures var x := Expand(old(cartRows), cart, LinkedItems(old(cartRows), cart));
        && failure == x.failure
        && State() == old(State()).(orderRows := old(orderRows) + OrderRows(x.entries, order))
    {
      var cartItems := LinkedItems(cartRows, cart);
      ghost var entries: seq<ItemQty> := [];
      var i := 0;
      while i < |cartItems|
        invariant 0 <= i <= |cartItems|
        invariant Expand(cartRows, cart, cartItems[..i]) == Expansion(entries, None)
        invariant orderRows == old(orderRows) + OrderRows(entries, order)
        invariant State() == old(State()).(orderRows := orderRows)
      {
        ExpandStep(cartRows, cart, cartItems, i);
        var itemCart := Get(cartRows, cart, cartItems[i]);
        if itemCart.Err? {
          ExpandStopsAtFailure(cartRows, cart, cartItems, i + 1);
          return Some(itemCart.error);
        }
        var row := JoinRow(cartItems[i], order, itemCart.value.qty);
        assert OrderRows(entries + [ItemQty(cartItems[i], itemCart.value.qty)], order)
            == OrderRows(entries, order) + [row];
        orderRows := orderRows + [row];
        entries := entries + [ItemQty(cartItems[i], itemCart.value.qty)];
        i := i + 1;
      }
      assert cartItems[..i] == cartItems;
      failure := None;
    }

    /** POST /cart/: validate every line, then create the caller's cart with
        the computed total and one join row per line. */
    method CartCreate(caller: UserId, payload: CartPayload) returns (r: Result<Cart>)
      requires Valid()
      modifies this
      ensures Valid()
      ensures payload.items.None? ==> r == Err(MissingField("items")) && State() == old(State())
      ensures payload.items.Some? && Validate(old(items), payload.items.value).Err? ==>
        r == Err(Validate(old(items), payload.items.value).error) && State() == old(State())
      ensures payload.items.Some? && Validate(old(items), payload.items.value).Ok? ==>
        var p := Validate(old(items), payload.items.value).value;
        var ownerTaken, outOfRange := caller in old(carts), !DecimalFits(p.total);
        if ownerTaken || outOfRange then
          r == Err(CartInvalid(ownerTaken, outOfRange)) && State() == old(State())
        else
          && r == Ok(Cart(old(nextCartId), caller, p.total))
          && State() == old(State()).(
               carts := old(carts)[caller := r.value],
               cartRows := old(cartRows) + CartRows(p.lines, r.value.id),
               nextCartId := old(nextCartId) + 1)
          && RowsOf(cartRows, r.value.id) == CartRows(p.lines, r.value.id)
          && r.value.totalPrice == Subtotal(p.lines)
    {
      if payload.items.None? {
        return Err(MissingField("items"));
      }
      var priced := PriceLines(items, payload.items.value);
      if priced.Err? {
        return Err(priced.error);
      }
      var itemsList, totalPrice := priced.value.lines, priced.value.total;
      ValidateAccepted(items, payload.items.value);
      // the serializer checks both fields of {owner: caller, total_price: total}
      var ownerTaken, outOfRange := caller in carts, !DecimalFits(totalPrice);
      if ownerTaken || outOfRange {
        return Err(CartInvalid(ownerTaken, outOfRange));
      }
      ghost var before := State();
      var cart := Cart(nextCartId, caller, totalPrice);
      ghost var added := CartRows(itemsList, cart.id);
      carts := carts[caller := cart];
      nextCartId := nextCartId + 1;
      assert State() == before.(carts := before.carts[caller := cart], nextCartId := before.nextCartId + 1);
      InsertCartRows(itemsList, cart.id);
      assert State() == before.(carts := before.carts[caller := cart], cartRows := before.cartRows + added,
                                nextCartId := before.nextCartId + 1);
      LinesStored(before.items, payload.items.value, cart.id);
      CartCreatedValid(before, cart, added);
      RowsOfAppend(before.cartRows, added, cart.id);
      RowsOfNone(before.cartRows, cart.id);
      RowsOfSameParent(added, cart.id);
      r := Ok(cart);
    }

    /** PUT /cart/: validate every line, then replace all the cart's join
        rows by the requested lines and its total by the new total. */
    method CartUpdate(caller: UserId, payload: CartPayload) returns (r: Result<Cart>)
      requires Valid()
      modifies this
      ensures Valid()
      ensures caller !in old(carts) ==> r == Err(CartNotFound) && State() == old(State())
      ensures caller in old(carts) && payload.items.None? ==>
        r == Err(MissingField("items")) && State() == old(State())
      ensures caller in old(carts) && payload.items.Some? && Validate(old(items), payload.items.value).Err? ==>
        r == Err(Validate(old(items), payload.items.value).error) && State() == old(State())
      ensures caller in old(carts) && payload.items.Some? && Validate(old(items), payload.items.value).Ok? ==>
        var cart, p := old(carts)[caller], Validate(old(items), payload.items.value).value;
        && r == Ok(cart.(totalPrice := p.total))
        && State() == old(State()).(
             carts := old(carts)[caller := r.value],
             cartRows := DeleteParent(old(cartRows), cart.id) + CartRows(p.lines, cart.id))
        && RowsOf(cartRows, cart.id) == CartRows(p.lines, cart.id)
        && DeleteParent(cartRows, cart.id) == DeleteParent(old(cartRows), cart.id)
        && r.value.totalPrice == Subtotal(p.lines)
    {
      if caller !in carts {
        return Err(CartNotFound);
      }
      var cart := carts[caller];
      if payload.items.None? {
        return Err(MissingField("items"));
      }
      var priced := PriceLines(items, payload.items.value);
      if priced.Err? {
        return Err(priced.error);
      }
      var itemsList, totalPrice := priced.value.lines, priced.value.total;
      ValidateAccepted(items, payload.items.value);
      ghost var before := State();
      ghost var added := CartRows(itemsList, cart.id);
      cartRows := DeleteParent(cartRows, cart.id);
      cart := cart.(totalPrice := totalPrice);
      assert State() == before.(cartRows := DeleteParent(before.cartRows, cart.id));
      InsertCartRows(itemsList, cart.id);
      assert State() == before.(cartRows := DeleteParent(before.cartRows, cart.id) + added);
      carts := carts[caller := cart];
      assert State() == before.(carts := before.carts[caller := cart], cartRows := DeleteParent(before.cartRows, cart.id) + added);
      LinesStored(before.items, payload.items.value, cart.id);
      CartReplacedValid(before, cart, added);
      ReplaceRows(before.cartRows, cart.id, added);
      r := Ok(cart);
    }

    /** POST /order/: a new order with the cart's owner and total and status
        "placed", then one order row per cart row with the same item and qty.
        The cart and the stock are left as they are. The order is written
        before the rows, so a cart item with several rows ends the request
        after the order and the rows before it were written. */
    method PlaceOrder(caller: UserId, now: Timestamp) returns (r: Result<OrderDetail>)
      requires Valid()
      modifies this
      ensures Valid()
      ensures caller !in old(carts) ==> r == Err(CartNotFound) && State() == old(State())
      ensures caller in old(carts) ==>
        var cart := old(carts)[caller];
        var order := Order(old(nextOrderId), cart.owner, cart.totalPrice, now, now, "placed");
        var x := Expand(old(cartRows), cart.id, LinkedItems(old(cartRows), cart.id));
        && order.owner == caller
        && State() == old(State()).(
             orders := old(orders)[order.id := order],
             orderRows := old(orderRows) + OrderRows(x.entries, order.id),
             nextOrderId := old(nextOrderId) + 1)
        && (x.failure.Some? ==> r == Err(x.failure.value))
        && (x.failure.None? ==>
              && RowsOf(orderRows, order.id) == Reparent(RowsOf(old(cartRows), cart.id), order.id)
              && r == Ok(OrderDetail(order.id, cart.totalPrice, caller, now, now, "placed",
                                     Pairs(RowsOf(old(cartRows), cart.id)))))
      ensures r.Ok? <==> caller in old(carts) && CartDetailOf(old(carts)[caller], old(cartRows)).Ok?
      ensures r.Ok? ==> r.value.items == CartDetailOf(old(carts)[caller], old(cartRows)).value.items
    {
      if caller !in carts {
        return Err(CartNotFound);
      }
      ghost var before := State();
      var cart := carts[caller];
      var order := Order(nextOrderId, cart.owner, cart.totalPrice, now, now, "placed");
      ghost var entries := Expand(before.cartRows, cart.id, LinkedItems(before.cartRows, cart.id)).entries;
      orders := orders[order.id := order];
      nextOrderId := nextOrderId + 1;
      assert State() == before.(orders := before.orders[order.id := order], nextOrderId := before.nextOrderId + 1);
      var failure := CopyCartRows(cart.id, order.id);
      assert State() == before.(orders := before.orders[order.id := order],
                                orderRows := before.orderRows + OrderRows(entries, order.id),
                                nextOrderId := before.nextOrderId + 1);
      CopiedRowsValid(before, cart.id, order);
      if failure.Some? {
        return Err(failure.value);
      }
      PlacedOrderCopiesCart(before.cartRows, cart.id, before.orderRows, order);
      CartDetailMeaning(cart, before.cartRows);
      r := OrderRepresentation(order, orderRows);
    }

    /** PUT/PATCH /order/{id}: a missing or empty status is refused; then the
        order is looked up; then, as the view's IsOwner permission requires,
        a caller who does not own it is refused; otherwise only the status and
        the modification time change. */
    method UpdateOrderStatus(caller: UserId, orderId: OrderId, payload: StatusPayload, now: Timestamp)
      returns (r: Result<OrderDetail>)
      requires Valid()
      modifies this
      ensures Valid()
      ensures !StatusGiven(payload) ==> r == Err(StatusRequired) && State() == old(State())
      ensures StatusGiven(payload) && orderId !in old(orders) ==> r == Err(OrderNotFound) && State() == old(State())
      ensures StatusGiven(payload) && orderId in old(orders) && caller != old(orders)[orderId].owner ==>
        r == Err(Forbidden) && State() == old(State())
      ensures StatusGiven(payload) && orderId in old(orders) && caller == old(orders)[orderId].owner ==>
        var updated := old(orders)[orderId].(status := payload.status.value, lastUpdated := now);
        && State() == old(State()).(orders := old(orders)[orderId := updated])
        && r == OrderDetailOf(updated, orderRows)
    {
      if !StatusGiven(payload) {
        return Err(StatusRequired);
      }
      if orderId !in orders {
        return Err(OrderNotFound);
      }
      var updated := StatusUpdate(orders[orderId], caller, payload, now);
      if updated.Err? {
        return Err(updated.error);
      }
      orders := orders[orderId := updated.value];
      r := OrderRepresentation(updated.value, orderRows);
    }
  }
}
