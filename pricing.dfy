/** The validation loop shared by cart create and cart update
    (e_commerce/views.py, CartRetrieveCreateUpdateAPIView.create and
    .update): each requested line is resolved against the catalog, checked
    against the item's stock and priced; the first failing line ends the
    request. */
module Pricing {
  import opened Outcomes
  import opened Models

  /** One entry of the request's "items" list; either key may be absent. */
  datatype LineRequest = LineRequest(itemId: Option<ItemId>, quantity: Option<int>)

  /** A resolved line: the item, the requested quantity and the item's sell price when it was read. */
  datatype Line = Line(item: ItemId, quantity: int, sellPrice: Cents)

  /** The resolved lines in request order and the running total they add up to. */
  datatype Priced = Priced(lines: seq<Line>, total: Cents)

  /** The requested quantity; an absent "quantity" means 1. */
  function Quantity(req: LineRequest): int {
    req.quantity.GetOr(1)
  }

  /** One turn of the loop: look the item up, compare the quantity with its stock. */
  function CheckLine(catalog: map<ItemId, Item>, req: LineRequest): (r: Result<Line>)
    ensures r.Ok? <==>
      req.itemId.Some? && req.itemId.value in catalog && Quantity(req) <= catalog[req.itemId.value].qty
    ensures r.Ok? ==>
      && r.value.item == req.itemId.value
      && r.value.quantity == Quantity(req)
      && r.value.sellPrice == catalog[r.value.item].sellPrice
    ensures (req.itemId.None? || req.itemId.value !in catalog) ==> r == Err(ItemNotFound(req.itemId))
    ensures req.itemId.Some? && req.itemId.value in catalog && Quantity(req) > catalog[req.itemId.value].qty ==>
      r == Err(InsufficientInventory(req.itemId.value, Quantity(req), catalog[req.itemId.value].qty))
  {
    match req.itemId
    case None => Err(ItemNotFound(None))
    case Some(id) =>
      if id !in catalog then Err(ItemNotFound(req.itemId))
      else if Quantity(req) > catalog[id].qty then
        Err(InsufficientInventory(id, Quantity(req), catalog[id].qty))
      else Ok(Line(id, Quantity(req), catalog[id].sellPrice))
  }

  /** The loop run over `reqs`, as a function of its prefix: the state after
      the last line, or the error of the first line that failed. */
  function Validate(catalog: map<ItemId, Item>, reqs: seq<LineRequest>): Result<Priced>
  {
    if reqs == [] then Ok(Priced([], 0))
    else
      match Validate(catalog, reqs[..|reqs| - 1])
      case Err(e) => Err(e)
      case Ok(p) =>
        match CheckLine(catalog, reqs[|reqs| - 1])
        case Err(e) => Err(e)
        case Ok(line) => Ok(Priced(p.lines + [line], p.total + line.sellPrice * line.quantity))
  }

  /** The sum of sell price times quantity over `lines`, added up from the front. */
  function Subtotal(lines: seq<Line>): Cents {
    if lines == [] then 0 else lines[0].sellPrice * lines[0].quantity + Subtotal(lines[1..])
  }

  lemma {:induction false} SubtotalAppend(lines: seq<Line>, line: Line)
    ensures Subtotal(lines + [line]) == Subtotal(lines) + line.sellPrice * line.quantity
    decreases |lines|
  {
    if lines != [] {
      assert (lines + [line])[1..] == lines[1..] + [line];
      SubtotalAppend(lines[1..], line);
    }
  }

  /** Once a prefix of the request has failed, the whole request fails with the same error. */
  lemma {:induction false} ValidateStopsAtFailure(catalog: map<ItemId, Item>, reqs: seq<LineRequest>, n: nat)
    requires n <= |reqs|
    requires Validate(catalog, reqs[..n]).Err?
    ensures Validate(catalog, reqs) == Validate(catalog, reqs[..n])
    decreases |reqs|
  {
    if n < |reqs| {
      var init := reqs[..|reqs| - 1];
      assert init[..n] == reqs[..n];
      ValidateStopsAtFailure(catalog, init, n);
    } else {
      assert reqs[..n] == reqs;
    }
  }

  /** All or nothing: the request is accepted exactly when every one of its lines is. */
  lemma {:induction false} ValidateAllOrNothing(catalog: map<ItemId, Item>, reqs: seq<LineRequest>)
    ensures Validate(catalog, reqs).Ok? <==> forall k :: 0 <= k < |reqs| ==> CheckLine(catalog, reqs[k]).Ok?
    decreases |reqs|
  {
    if reqs != [] {
      var init := reqs[..|reqs| - 1];
      ValidateAllOrNothing(catalog, init);
      assert forall k :: 0 <= k < |init| ==> init[k] == reqs[k];
    }
  }

  /** An accepted request yields one line per requested line, in request
      order, each with the requested (or default) quantity, within the item's
      stock and priced at the item's sell price, and the total is the sum of
      sell price times quantity over those lines. */
  lemma {:induction false} ValidateAccepted(catalog: map<ItemId, Item>, reqs: seq<LineRequest>)
    requires Validate(catalog, reqs).Ok?
    ensures var p := Validate(catalog, reqs).value;
      && |p.lines| == |reqs|
      && (forall k :: 0 <= k < |reqs| ==>
            && reqs[k].itemId == Some(p.lines[k].item)
            && p.lines[k].item in catalog
            && p.lines[k].quantity == Quantity(reqs[k])
            && p.lines[k].quantity <= catalog[p.lines[k].item].qty
            && p.lines[k].sellPrice == catalog[p.lines[k].item].sellPrice)
      && p.total == Subtotal(p.lines)
    decreases |reqs|
  {
    if reqs != [] {
      var init := reqs[..|reqs| - 1];
      ValidateAccepted(catalog, init);
      var p := Validate(catalog, init).value;
      var line := CheckLine(catalog, reqs[|reqs| - 1]).value;
      SubtotalAppend(p.lines, line);
      assert forall k :: 0 <= k < |init| ==> init[k] == reqs[k];
    }
  }

  /** A refused request reports the error of its first failing line, and every line before it passed. */
  lemma {:induction false} ValidateFirstFailure(catalog: map<ItemId, Item>, reqs: seq<LineRequest>)
    requires Validate(catalog, reqs).Err?
    ensures exists k :: (0 <= k < |reqs|
      && CheckLine(catalog, reqs[k]) == Err(Validate(catalog, reqs).error)
      && forall j :: 0 <= j < k ==> CheckLine(catalog, reqs[j]).Ok?)
    decreases |reqs|
  {
    var init := reqs[..|reqs| - 1];
    assert forall k :: 0 <= k < |init| ==> init[k] == reqs[k];
    if Validate(catalog, init).Err? {
      ValidateFirstFailure(catalog, init);
    } else {
      ValidateAllOrNothing(catalog, init);
      var k := |reqs| - 1;
      assert CheckLine(catalog, reqs[k]) == Err(Validate(catalog, reqs).error);
    }
  }

  /** The loop of views.py: resolve, check, append and accumulate, stopping at the first failure. */
  method PriceLines(catalog: map<ItemId, Item>, reqs: seq<LineRequest>) returns (r: Result<Priced>)
    ensures r == Validate(catalog, reqs)
  {
    var lines: seq<Line> := [];
    var total: Cents := 0;
    var i := 0;
    while i < |reqs|
      invariant 0 <= i <= |reqs|
      invariant Validate(catalog, reqs[..i]) == Ok(Priced(lines, total))
    {
      assert reqs[..i + 1][..i] == reqs[..i];
      var itemId := reqs[i].itemId;
      var quantity := reqs[i].quantity.GetOr(1);
      if itemId.None? || itemId.value !in catalog {
        r := Err(ItemNotFound(itemId));
        ValidateStopsAtFailure(catalog, reqs, i + 1);
        return;
      }
      var item := catalog[itemId.value];
      if quantity > item.qty {
        r := Err(InsufficientInventory(itemId.value, quantity, item.qty));
        ValidateStopsAtFailure(catalog, reqs, i + 1);
        return;
      }
      lines := lines + [Line(itemId.value, quantity, item.sellPrice)];
      total := total + item.sellPrice * quantity;
      i := i + 1;
    }
    assert reqs[..i] == reqs;
    r := Ok(Priced(lines, total));
  }

  /** Stock is checked line by line, not summed over lines naming the same
      item: two lines of 3 pass against a stock of 5. */
  lemma StockCheckedPerLine()
    ensures Validate(map[7 := Item("shirt", "", "", 5, 600, 1000)],
                     [LineRequest(Some(7), Some(3)), LineRequest(Some(7), Some(3))])
         == Ok(Priced([Line(7, 3, 1000), Line(7, 3, 1000)], 6000))
  {
    var catalog := map[7 := Item("shirt", "", "", 5, 600, 1000)];
    var reqs := [LineRequest(Some(7), Some(3)), LineRequest(Some(7), Some(3))];
    var one := [LineRequest(Some(7), Some(3))];
    assert CheckLine(catalog, one[0]) == Ok(Line(7, 3, 1000));
    assert one[..0] == [];
    assert Validate(catalog, one[..0]) == Ok(Priced([], 0));
    assert [] + [Line(7, 3, 1000)] == [Line(7, 3, 1000)];
    assert Validate(catalog, one) == Ok(Priced([Line(7, 3, 1000)], 3000));
    assert reqs[..|reqs| - 1] == one;
    assert CheckLine(catalog, reqs[|reqs| - 1]) == Ok(Line(7, 3, 1000));
    assert [Line(7, 3, 1000)] + [Line(7, 3, 1000)] == [Line(7, 3, 1000), Line(7, 3, 1000)];
  }

  /** There is no lower bound on the quantity: a negative quantity passes and lowers the total. */
  lemma NegativeQuantityAccepted()
    ensures Validate(map[7 := Item("shirt", "", "", 5, 600, 1000)], [LineRequest(Some(7), Some(-2))])
         == Ok(Priced([Line(7, -2, 1000)], -2000))
  {
    var catalog := map[7 := Item("shirt", "", "", 5, 600, 1000)];
    var reqs := [LineRequest(Some(7), Some(-2))];
    assert CheckLine(catalog, reqs[0]) == Ok(Line(7, -2, 1000));
    assert reqs[..|reqs| - 1] == [];
    assert Validate(catalog, reqs[..|reqs| - 1]) == Ok(Priced([], 0));
    assert [] + [Line(7, -2, 1000)] == [Line(7, -2, 1000)];
  }
}
