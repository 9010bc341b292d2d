/** CustomResponse (e_commerce/responses.py): a cart payload whose "items"
    is a list of item ids is rewritten so that "items" lists
    {item_id, quantity} entries read from the cart's join rows. */
module Responses {
  import opened Outcomes
  import opened Models
  import opened Serializers

  /** The payload handed to CustomResponse: `id`, `owner`, `total_price` and a list of item ids. */
  datatype CartData = CartData(id: CartId, owner: UserId, totalPrice: Cents, items: seq<ItemId>)

  /** The payload after the rewrite, or the error of the first id without exactly one join row. */
  function ResponseOf(data: CartData, cartRows: seq<JoinRow>): Result<CartDetail> {
    var x := Expand(cartRows, data.id, data.items);
    if x.failure.None? then Ok(CartDetail(data.id, data.totalPrice, data.owner, x.entries))
    else Err(x.failure.value)
  }

  /** The rewrite keeps `id`, `owner` and `total_price` and replaces `items`
      by a list of the same length and order whose quantities are the qty of
      the (cart, item) join row; an id with no join row, or with several, is
      an error naming the first such id. */
  lemma ResponseMeaning(data: CartData, cartRows: seq<JoinRow>)
    ensures ResponseOf(data, cartRows).Ok? <==>
      forall k :: 0 <= k < |data.items| ==> Unique(cartRows, data.id, data.items[k])
    ensures ResponseOf(data, cartRows).Ok? ==>
      var d := ResponseOf(data, cartRows).value;
      && d.id == data.id && d.owner == data.owner && d.totalPrice == data.totalPrice
      && |d.items| == |data.items|
      && forall k :: 0 <= k < |data.items| ==>
           && d.items[k].itemId == data.items[k]
           && (forall row :: row in cartRows && row.parent == data.id && row.item == data.items[k] ==>
                 d.items[k].quantity == row.qty)
    ensures ResponseOf(data, cartRows).Err? ==>
      exists k :: 0 <= k < |data.items| && !Unique(cartRows, data.id, data.items[k])
        && ResponseOf(data, cartRows).error == RowNotUnique(data.id, data.items[k], |Matches(cartRows, data.id, data.items[k])|)
        && forall j :: 0 <= j < k ==> Unique(cartRows, data.id, data.items[j])
  {
    ExpandMeaning(cartRows, data.id, data.items);
    var x := Expand(cartRows, data.id, data.items);
    if x.failure.Some? {
      var k := |x.entries|;
      assert !Unique(cartRows, data.id, data.items[k]);
      assert forall j :: 0 <= j < k ==> Unique(cartRows, data.id, data.items[j]);
    }
  }

  /** CustomResponse.__init__: look up each id's join row and overwrite `items`. */
  method CustomResponse(data: CartData, cartRows: seq<JoinRow>) returns (r: Result<CartDetail>)
    ensures r == ResponseOf(data, cartRows)
  {
    var keyedItems := data.items;
    var newItems: seq<ItemQty> := [];
    var i := 0;
    while i < |keyedItems|
      invariant 0 <= i <= |keyedItems|
      invariant Expand(cartRows, data.id, keyedItems[..i]) == Expansion(newItems, None)
    {
      ExpandStep(cartRows, data.id, keyedItems, i);
      var itemCart := Get(cartRows, data.id, keyedItems[i]);
      if itemCart.Err? {
        ExpandStopsAtFailure(cartRows, data.id, keyedItems, i + 1);
        return Err(itemCart.error);
      }
      newItems := newItems + [ItemQty(keyedItems[i], itemCart.value.qty)];
      i := i + 1;
    }
    assert keyedItems[..i] == keyedItems;
    r := Ok(CartDetail(data.id, data.totalPrice, data.owner, newItems));
  }
}
