/** The detail views of carts and orders (e_commerce/serializers.py,
    CartDetailsSerializer.to_representation and
    OrderDetailSerializer.to_representation): the record's own fields, and
    its join rows expanded into {item_id, quantity} entries. */
module Serializers {
  import opened Outcomes
  import opened Models

  /** One `{"item_id": ..., "quantity": ...}` entry. */
  datatype ItemQty = ItemQty(itemId: ItemId, quantity: int)

  /** `{id, total_price, owner, items}` of a cart. */
  datatype CartDetail = CartDetail(id: CartId, totalPrice: Cents, owner: UserId, items: seq<ItemQty>)

  /** `{id, total_price, owner, ordered_at, last_updated, status, items}` of an order. */
  datatype OrderDetail = OrderDetail(
    id: OrderId,
    totalPrice: Cents,
    owner: UserId,
    orderedAt: Timestamp,
    lastUpdated: Timestamp,
    status: string,
    items: seq<ItemQty>)

  /** The entries appended before the loop stopped, and the error that stopped it, if any. */
  datatype Expansion = Expansion(entries: seq<ItemQty>, failure: Option<Error>)

  /** Exactly one join row links `item` to `parent`. */
  predicate Unique(rows: seq<JoinRow>, parent: nat, item: ItemId) {
    |Matches(rows, parent, item)| == 1
  }

  /** Join rows as `{item_id, quantity}` entries, in the same order. */
  function Pairs(rows: seq<JoinRow>): (entries: seq<ItemQty>)
    ensures |entries| == |rows|
  {
    seq(|rows|, k requires 0 <= k < |rows| => ItemQty(rows[k].item, rows[k].qty))
  }

  /** The loop shared by the detail views: for each id in turn,
      `objects.get(parent, item=id)` and append `{item_id: id, quantity: qty}`;
      the first get that fails ends the loop. */
  function Expand(rows: seq<JoinRow>, parent: nat, ids: seq<ItemId>): Expansion
  {
    if ids == [] then Expansion([], None)
    else
      var prev := Expand(rows, parent, ids[..|ids| - 1]);
      if prev.failure.Some? then prev
      else
        match Get(rows, parent, ids[|ids| - 1])
        case Err(e) => Expansion(prev.entries, Some(e))
        case Ok(row) => Expansion(prev.entries + [ItemQty(ids[|ids| - 1], row.qty)], None)
  }

  /** One more turn of the loop: a prefix extended by the next id. */
  lemma ExpandStep(rows: seq<JoinRow>, parent: nat, ids: seq<ItemId>, i: nat)
    requires i < |ids|
    requires Expand(rows, parent, ids[..i]).failure.None?
    ensures Get(rows, parent, ids[i]).Err? ==>
      Expand(rows, parent, ids[..i + 1]) == Expansion(Expand(rows, parent, ids[..i]).entries, Some(Get(rows, parent, ids[i]).error))
    ensures Get(rows, parent, ids[i]).Ok? ==>
      Expand(rows, parent, ids[..i + 1])
        == Expansion(Expand(rows, parent, ids[..i]).entries + [ItemQty(ids[i], Get(rows, parent, ids[i]).value.qty)], None)
  {
    assert ids[..i + 1][..i] == ids[..i];
  }

  /** Once the loop has failed on a prefix of the ids, it has failed the same way on all of them. */
  lemma {:induction false} ExpandStopsAtFailure(rows: seq<JoinRow>, parent: nat, ids: seq<ItemId>, n: nat)
    requires n <= |ids|
    requires Expand(rows, parent, ids[..n]).failure.Some?
    ensures Expand(rows, parent, ids) == Expand(rows, parent, ids[..n])
    decreases |ids|
  {
    if n < |ids| {
      var init := ids[..|ids| - 1];
      assert init[..n] == ids[..n];
      ExpandStopsAtFailure(rows, parent, init, n);
    } else {
      assert ids[..n] == ids;
    }
  }

  /** What the loop produces: one entry per id up to the first id without
      exactly one join row, each carrying the qty of that id's join row; it
      stops with an error at that id, and otherwise covers every id. */
  lemma {:induction false} ExpandMeaning(rows: seq<JoinRow>, parent: nat, ids: seq<ItemId>)
    ensures var x := Expand(rows, parent, ids);
      && |x.entries| <= |ids|
      && (forall k :: 0 <= k < |x.entries| ==>
            && Unique(rows, parent, ids[k])
            && x.entries[k] == ItemQty(ids[k], Get(rows, parent, ids[k]).value.qty))
      && (x.failure.None? <==> |x.entries| == |ids|)
      && (x.failure.Some? ==>
            && !Unique(rows, parent, ids[|x.entries|])
            && x.failure == Some(Get(rows, parent, ids[|x.entries|]).error))
    decreases |ids|
  {
    if ids != [] {
      var init := ids[..|ids| - 1];
      ExpandMeaning(rows, parent, init);
      assert forall k :: 0 <= k < |init| ==> init[k] == ids[k];
    }
  }

  /** The loop succeeds exactly when every id has exactly one join row for the parent. */
  lemma ExpandSucceeds(rows: seq<JoinRow>, parent: nat, ids: seq<ItemId>)
    ensures Expand(rows, parent, ids).failure.None? <==> forall k :: 0 <= k < |ids| ==> Unique(rows, parent, ids[k])
  {
    ExpandMeaning(rows, parent, ids);
  }

  /** Run over `parent.items.all()`, a successful loop lists the parent's join rows as entries, in row order. */
  lemma DetailEntries(rows: seq<JoinRow>, parent: nat)
    requires Expand(rows, parent, LinkedItems(rows, parent)).failure.None?
    ensures Expand(rows, parent, LinkedItems(rows, parent)).entries == Pairs(RowsOf(rows, parent))
  {
    var ids, linked := LinkedItems(rows, parent), RowsOf(rows, parent);
    var x := Expand(rows, parent, ids);
    ExpandMeaning(rows, parent, ids);
    forall k | 0 <= k < |linked|
      ensures x.entries[k] == ItemQty(linked[k].item, linked[k].qty)
    {
      assert linked[k] in linked;
    }
  }

  /** The cart detail: the cart's id, total and owner, and its join rows
      expanded; an error when a linked item has several rows. */
  function CartDetailOf(cart: Cart, cartRows: seq<JoinRow>): Result<CartDetail> {
    var x := Expand(cartRows, cart.id, LinkedItems(cartRows, cart.id));
    if x.failure.None? then Ok(CartDetail(cart.id, cart.totalPrice, cart.owner, x.entries))
    else Err(x.failure.value)
  }

  /** The order detail: the order's own fields unchanged, and its join rows expanded. */
  function OrderDetailOf(order: Order, orderRows: seq<JoinRow>): Result<OrderDetail> {
    var x := Expand(orderRows, order.id, LinkedItems(orderRows, order.id));
    if x.failure.None? then
      Ok(OrderDetail(order.id, order.totalPrice, order.owner, order.orderedAt, order.lastUpdated, order.status, x.entries))
    else Err(x.failure.value)
  }

  /** The cart detail succeeds exactly when each item linked to the cart has
      one join row; it then carries the cart's id, owner and total unchanged
      and one entry per join row, with that row's item and qty. */
  lemma CartDetailMeaning(cart: Cart, cartRows: seq<JoinRow>)
    ensures var ids := LinkedItems(cartRows, cart.id);
      CartDetailOf(cart, cartRows).Ok? <==> forall k :: 0 <= k < |ids| ==> Unique(cartRows, cart.id, ids[k])
    ensures CartDetailOf(cart, cartRows).Ok? ==>
      CartDetailOf(cart, cartRows).value == CartDetail(cart.id, cart.totalPrice, cart.owner, Pairs(RowsOf(cartRows, cart.id)))
  {
    ExpandSucceeds(cartRows, cart.id, LinkedItems(cartRows, cart.id));
    if CartDetailOf(cart, cartRows).Ok? {
      DetailEntries(cartRows, cart.id);
    }
  }

  /** The order detail succeeds exactly when each item linked to the order
      has one join row; it then carries the order's fields unchanged and one
      entry per join row, with that row's item and qty. */
  lemma OrderDetailMeaning(order: Order, orderRows: seq<JoinRow>)
    ensures var ids := LinkedItems(orderRows, order.id);
      OrderDetailOf(order, orderRows).Ok? <==> forall k :: 0 <= k < |ids| ==> Unique(orderRows, order.id, ids[k])
    ensures OrderDetailOf(order, orderRows).Ok? ==>
      OrderDetailOf(order, orderRows).value == OrderDetail(
        order.id, order.totalPrice, order.owner, order.orderedAt, order.lastUpdated, order.status,
        Pairs(RowsOf(orderRows, order.id)))
  {
    ExpandSucceeds(orderRows, order.id, LinkedItems(orderRows, order.id));
    if OrderDetailOf(order, orderRows).Ok? {
      DetailEntries(orderRows, order.id);
    }
  }

  /** CartDetailsSerializer.to_representation. */
  method CartRepresentation(cart: Cart, cartRows: seq<JoinRow>) returns (r: Result<CartDetail>)
    ensures r == CartDetailOf(cart, cartRows)
  {
    var items := LinkedItems(cartRows, cart.id);
    var newItems: seq<ItemQty> := [];
    var i := 0;
    while i < |items|
      invariant 0 <= i <= |items|
      invariant Expand(cartRows, cart.id, items[..i]) == Expansion(newItems, None)
    {
      ExpandStep(cartRows, cart.id, items, i);
      var itemCart := Get(cartRows, cart.id, items[i]);
      if itemCart.Err? {
        ExpandStopsAtFailure(cartRows, cart.id, items, i + 1);
        return Err(itemCart.error);
      }
      newItems := newItems + [ItemQty(items[i], itemCart.value.qty)];
      i := i + 1;
    }
    assert items[..i] == items;
    r := Ok(CartDetail(cart.id, cart.totalPrice, cart.owner, newItems));
  }

  /** OrderDetailSerializer.to_representation. */
  method OrderRepresentation(order: Order, orderRows: seq<JoinRow>) returns (r: Result<OrderDetail>)
    ensures r == OrderDetailOf(order, orderRows)
  {
    var items := LinkedItems(orderRows, order.id);
    var detailedItems: seq<ItemQty> := [];
    var i := 0;
    while i < |items|
      invariant 0 <= i <= |items|
      invariant Expand(orderRows, order.id, items[..i]) == Expansion(detailedItems, None)
    {
      ExpandStep(orderRows, order.id, items, i);
      var itemOrder := Get(orderRows, order.id, items[i]);
      if itemOrder.Err? {
        ExpandStopsAtFailure(orderRows, order.id, items, i + 1);
        return Err(itemOrder.error);
      }
      detailedItems := detailedItems + [ItemQty(items[i], itemOrder.value.qty)];
      i := i + 1;
    }
    assert items[..i] == items;
    r := Ok(OrderDetail(order.id, order.totalPrice, order.owner, order.orderedAt, order.lastUpdated, order.status,
                        detailedItems));
  }
}
