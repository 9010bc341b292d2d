# bluxa e_commerce core, modelled in Dafny

This project models the shop backend of the `e_commerce` Django app: a
catalog of items, a wishlist per user, a cart per user, and orders placed
from the cart. A cart's lines and an order's lines are join rows
(`ItemCart`, `ItemOrder`), each holding one item, one parent and one
integer quantity. The model covers these parts:

- the records and the bounds their field declarations put on them, and the
  ORM queries the handlers run: `objects.get` on a join table, the
  walk over `items.all()`, and cascading deletes (`models.dfy`);
- the validation and pricing loop that cart create and cart update share
  (`pricing.dfy`);
- the id-list computations of the wishlist handlers (`wishlists.dfy`);
- the `to_representation` loops of `CartDetailsSerializer` and
  `OrderDetailSerializer`, which expand join rows into
  `{item_id, quantity}` entries (`serializers.dfy`);
- `CustomResponse`, which rewrites a cart payload's id list the same way
  (`responses.dfy`);
- the `IsOwner` object permission (`permissions.dfy`);
- the request handlers, as methods of a `Store` class whose fields are the
  database tables (`views.dfy`).

Each handler returns either a value or the error the web layer would turn
into an error response. An exception the code would raise, such as
`DoesNotExist`, `MultipleObjectsReturned`, `KeyError` or a validation
error, becomes an `Err` value. Every handler has these properties:

- It keeps the database invariant `ValidDb`.
- Its `ensures` give the complete new state as a change to the old one.
- On every error path, it ensures the state is unchanged, except for
  order placement and the status update. Order placement writes the order
  before the row copy that can fail. The status update saves the new
  status before it serializes the order detail, which can fail. Both
  follow the source.

Functions specify the loops. Each loop method is proved equal to its
function, and lemmas state what that function means.

`scenarios.dfy` proves whole request sequences against a small catalog:

- a cart is created and then refused an update that exceeds stock;
- an order copies its cart;
- an order's owner changes its status and a stranger is refused;
- a wishlist is edited: add, remove, then add again, with an empty list refused when posted and when a removal would leave it;
- a wishlist request with an unknown id is refused.

Money is held in integer cents. A `DecimalField(max_digits=9,
decimal_places=2)` holds an amount of cents `c` with `-10^9 < c < 10^9`.

### Behaviour of the code that the model keeps

- **Quantities.** The only check on a line's quantity is
  `quantity > item.qty` (`e_commerce/views.py:134`, `:187`), so no lower
  bound applies. A zero quantity passes and adds nothing to the total; a
  negative one passes and lowers it (`Pricing.NegativeQuantityAccepted`).
- **Partial writes.** Order placement creates the order
  (`e_commerce/views.py:230-234`) before it copies the rows. A cart item
  with several join rows then ends the request with the order and a
  prefix of its rows already written (`Views.Store.PlaceOrder`).
- **Status saved before the detail.** The status update calls
  `order.save()` (`e_commerce/views.py:264`) before it serializes the order
  (`:266`). The serializer fails when an item of the order has several
  ItemOrder rows, which the admin site can create
  (`e_commerce/admin.py:11`). The request then fails with the new status
  already written (`Views.Store.UpdateOrderStatus`).
- **Stock at placement.** Order placement copies the cart's rows without
  checking them against the current stock (`e_commerce/views.py:236-240`).

### Status updates: as written and as declared

The order detail view declares `permission_classes = [IsAuthenticated,
IsOwner]` (`e_commerce/views.py:253`), but its `update` loads the order with
`objects.get` instead of `get_object()` (`e_commerce/views.py:260`), so
`IsOwner` never runs and any user changes any order's status. The code as
written is `Views.StatusUpdateAsWritten`, with the counterexample
`Views.NonOwnerUpdatesStatusAsWritten`. `Views.Store.UpdateOrderStatus`
models the handler as declared, loading the order through `get_object()`,
so a caller who does not own the order is refused (see Findings).

## Model

| member | source | states |
|---|---|---|
| Models.RowsOf | e_commerce/models.py:59-68 | the rows linked to a parent are exactly the stored rows with that parent, in row order |
| Models.Matches | e_commerce/serializers.py:51 | the rows a `get(cart, item)` filter sees are exactly the stored rows with that parent and that item |
| Models.Get | e_commerce/serializers.py:51 | `objects.get` succeeds exactly when one row matches, and returns that row; otherwise it fails, reporting how many rows matched |
| Models.DeleteParent | e_commerce/views.py:200 | `cart.items.clear()` (and the cascade of deleting a cart or order) keeps exactly the rows of other parents |
| Models.DeleteParentCascades | e_commerce/models.py:61 | after the cascade, no row references the deleted parent, and every other parent's rows are unchanged and in the same order |
| Models.ReplaceRows | e_commerce/views.py:200-205 | clearing a cart's rows and inserting new ones leaves exactly the new rows for that cart, and the rows of other carts unchanged |
| Models.MatchesOfRowsOf | e_commerce/views.py:239 | looking up (cart, item) among the cart's linked rows finds the same rows as looking it up in the whole table |
| Models.MatchesReparent | e_commerce/views.py:238-240 | rows copied under a new parent match each item as many times as the originals did |
| Pricing.CheckLine | e_commerce/views.py:127-145 | a line is accepted exactly when its item exists and the quantity (1 when absent) is at most the stock; an unknown item gives ItemNotFound, and too large a quantity gives InsufficientInventory with requested and available |
| Pricing.ValidateAllOrNothing | e_commerce/views.py:127-145 | a request is accepted exactly when every one of its lines is |
| Pricing.ValidateAccepted | e_commerce/views.py:127-145 | an accepted request gives one line per requested line, in order, each within stock and at the item's sell price, and the total is the sum of price times quantity |
| Pricing.ValidateFirstFailure | e_commerce/views.py:127-145 | a refused request reports the error of its first failing line, and every earlier line passed |
| Pricing.ValidateStopsAtFailure | e_commerce/views.py:141-145 | once a prefix of the request fails, the whole request fails with that error |
| Pricing.PriceLines | e_commerce/views.py:180-198 | the loop computes the validation result of the whole request |
| Pricing.StockCheckedPerLine | e_commerce/views.py:187-190 | stock is compared per line, so two lines of 3 of one item pass against a stock of 5 |
| Pricing.NegativeQuantityAccepted | e_commerce/views.py:134-140 | a negative quantity passes the check and lowers the total |
| Wishlists.Dedup | e_commerce/models.py:30 | saving an id list into the relation stores each listed id once, the same set of ids, and a list without repeats unchanged |
| Wishlists.Remaining | e_commerce/views.py:88-92 | the kept ids are the current ids not in the delete list, in their original order, without repeats when the current list has none |
| Wishlists.FirstUnknown | e_commerce/serializers.py:21-24 | the item field refuses a list exactly when some id names no stored item, and it names the first such id |
| Wishlists.FirstUnknownAppend | e_commerce/views.py:76-78 | appending the current, stored ids to the requested ones changes nothing in which id is refused |
| Serializers.ExpandMeaning | e_commerce/serializers.py:48-53 | the expansion has one entry per id, up to the first id without exactly one join row, each carrying that row's qty; it fails at that id and otherwise covers every id |
| Serializers.ExpandStopsAtFailure | e_commerce/serializers.py:50-52 | once the loop fails on a prefix of the ids, it fails the same way on all of them |
| Serializers.ExpandSucceeds | e_commerce/serializers.py:50-52 | the expansion succeeds exactly when every id has exactly one join row |
| Serializers.DetailEntries | e_commerce/serializers.py:49-53 | a successful expansion over `items.all()` lists the parent's join rows as (item, qty) entries, in row order |
| Serializers.CartDetailMeaning | e_commerce/serializers.py:40-55 | the cart detail succeeds exactly when each linked item has one row; it then carries the cart's id, total and owner, and one entry per join row |
| Serializers.OrderDetailMeaning | e_commerce/serializers.py:71-91 | the order detail succeeds exactly when each linked item has one row; it then carries the order's fields unchanged, and one entry per join row |
| Serializers.CartRepresentation | e_commerce/serializers.py:40-55 | the loop computes the cart detail |
| Serializers.OrderRepresentation | e_commerce/serializers.py:71-91 | the loop computes the order detail |
| Responses.ResponseMeaning | e_commerce/responses.py:7-31 | the rewrite keeps id, owner and total, and replaces the id list by entries of the same length and order that carry each id's join-row qty; an id without exactly one row is an error naming it |
| Responses.CustomResponse | e_commerce/responses.py:7-31 | the loop computes that rewrite |
| Permissions.OnlyOwnerGranted | e_commerce/permissions.py:9-10 | the owner of an object is always admitted, and any two users admitted to one object are the same user: exactly the owner is admitted |
| Permissions.PermissionIgnoresView | e_commerce/permissions.py:9-10 | the decision does not depend on the view that asks |
| Views.StatusUpdateAsWritten | e_commerce/views.py:255-266 | as written, the update succeeds whenever a non-empty status is given, whoever the caller is |
| Views.NonOwnerUpdatesStatusAsWritten | e_commerce/views.py:255-266 | as written, a user IsOwner refuses still changes the order's status |
| Views.StatusUpdate | e_commerce/views.py:253-266 | a missing or empty status is refused; a caller IsOwner refuses gets Forbidden; otherwise only the status and the modification time change |
| Views.CopiedRowsOf | e_commerce/views.py:238-240 | rows copied under a new order id are the only rows of that order |
| Views.CopiedMatches | e_commerce/views.py:238-240 | after the copy, every item matches the order's rows as often as it matched the cart's rows |
| Views.CopiedUnique | e_commerce/views.py:238-240 | when each item linked to the cart has one cart row, each item linked to the order has one order row |
| Views.PlacedOrderCopiesCart | e_commerce/views.py:227-244 | the placed order's rows are the cart's rows under the order's id, and its detail lists the cart's entries |
| Views.WishlistSavedValid | e_commerce/models.py:28-31 | saving a wishlist whose ids are stored and without repeats keeps the database valid |
| Views.WishlistCreatedValid | e_commerce/models.py:28-31 | creating the owner's one wishlist keeps the database valid |
| Views.CartCreatedValid | e_commerce/models.py:37-40 | creating the owner's one cart, with rows that name stored items, keeps the database valid |
| Views.CartReplacedValid | e_commerce/models.py:37-40 | replacing a cart's rows by rows that name stored items keeps the database valid |
| Views.OrderCreatedValid | e_commerce/models.py:46-53 | creating an order, with rows that name stored items, keeps the database valid |
| Views.LinesStored | e_commerce/views.py:159-162 | the rows written for accepted lines name stored items and the cart |
| Views.CopiedRowsValid | e_commerce/views.py:229-240 | the order and the rows copied from the cart keep the database valid, whether or not the copy finished |
| Views.Store.GetOwnerWishlist | e_commerce/views.py:55-60 | the caller's wishlist when there is one, and WishlistNotFound otherwise |
| Views.Store.WishlistPost | e_commerce/views.py:62-69 | a missing list, an empty list or an unknown id is refused with no change; otherwise the wishlist becomes the requested ids (each once), created with the next id when the caller has none, and nothing else changes |
| Views.Store.WishlistPut | e_commerce/views.py:71-81 | without a wishlist, with an unknown requested id, or when the requested and current lists are both empty, nothing changes; otherwise the wishlist becomes the requested ids followed by the current ones, each once |
| Views.Store.WishlistDelete | e_commerce/views.py:83-96 | without a wishlist, without a list, or when no id would be left, nothing changes; otherwise the wishlist keeps exactly the current ids not listed, in order |
| Views.Store.CartRetrieve | e_commerce/views.py:114-117 | the caller's cart detail, or CartNotFound |
| Views.Store.InsertCartRows | e_commerce/views.py:202-205 | appends one row per line to the cart rows and changes nothing else |
| Views.Store.CopyCartRows | e_commerce/views.py:236-240 | appends one order row per expanded cart entry and changes nothing else; it stops at the first item without exactly one cart row and reports that failure |
| Views.Store.CartCreate | e_commerce/views.py:119-167 | a missing list, a refused line, an existing cart or an out-of-range total is refused with no change; otherwise a cart with the next id, the line total and one row per line is created |
| Views.Store.CartUpdate | e_commerce/views.py:169-210 | without a cart, without a list, or with a refused line, nothing changes; otherwise the cart's rows become exactly the new lines, other carts' rows are unchanged, and the total becomes the new total |
| Views.Store.PlaceOrder | e_commerce/views.py:227-244 | without a cart, nothing changes; otherwise an order "placed" with the cart's owner and total is created and the cart's rows are copied under it; it succeeds exactly when the cart detail does, listing the same entries |
| Views.Store.UpdateOrderStatus | e_commerce/views.py:253-266 | the handler as its permission classes declare it (the order loaded through `get_object()`, not `objects.get` as at line 260): a missing status, an unknown order or a caller who does not own it is refused with no change; otherwise only that order's status and modification time change, and its detail is returned |

## Left out

- Item and Category create, list, retrieve, update and destroy are left out. They are generic framework views with no logic of their own (`e_commerce/views.py:19-41`). Order list and retrieve are left out for the same reason, and so is the wishlist view's PATCH: it is the inherited `partial_update` of the generic retrieve-update-destroy view (`e_commerce/views.py:45-46`), which does not go through the overridden `put`. Search and ordering filters are left out too. The cascade that deleting an item applies to join rows (`on_delete=CASCADE`) is left out with them, since only the generic item views delete items.
- Authentication (`IsAuthenticated`) is left out. The caller's user id is a parameter of each handler.
- Clocks are left out. `auto_now` and `auto_now_add` values are the `now` parameter.
- Primary-key sequences are counters in the store.
- Transactions and concurrent requests are left out. Each handler runs alone.
- Pricing.PriceLines: the running total is exact integer cents. The source adds Python floats (`float(item.sell_price * quantity)`), so rounding of the float total is not modelled.
- Views.Store.CartCreate: only the checks the cart serializer makes on the fields it is given are modelled: one cart per owner, and the total's range. The HTTP status codes and error messages are not modelled. The source hands the serializer a float total (`e_commerce/views.py:126`, `:140`, `:150`), and the framework's decimal field refuses a value with more than two decimal places. A float sum of cent prices often has more: one item at 0.10 plus one at 0.20 adds up to 0.30000000000000004, and 19.99 + 5.49 to 25.479999999999997. The source then refuses the create. The model adds exact cents and creates the cart (30 cents in the first case), so it does not capture that refusal. Cart update is not affected, because it assigns the float to the model field (`:201`, `:207`) and the database rounds it on save.
- Views.Store.CartCreate: `qty` of ItemCart is a 32-bit IntegerField (`e_commerce/models.py:62`). A quantity below -2^31 passes the stock check (`e_commerce/views.py:134`) and then fails at the row insert, after the cart was saved. The model has unbounded integer quantities and does not capture that failure.
- Views.Store.CartUpdate: no range check is made on the new total, as in the source, which assigns the total and calls `save()` without validation. A database-level overflow error is not modelled.
- Views.Store.UpdateOrderStatus: the 50-character limit on `status` is not enforced. The handler assigns the status and calls `save()` without validation.
- Views.Store.WishlistPost: the refusal of an empty list follows the framework's mapping of a many-to-many field declared without `blank=True` (`e_commerce/models.py:30`) to a list field that may not be empty; the framework's code is not part of this model. Its other field checks are limited to the presence of `items` and unknown ids.
- Views.Store.WishlistPut: same serializer simplification as WishlistPost.
- Views.Store.WishlistDelete: same serializer simplification as WishlistPost.
- Models.LinkedItems: `items.all()` (`e_commerce/serializers.py:49`, `:82`, `e_commerce/views.py:236`) carries no ordering, and `Item` declares none, so the database may return the linked items in any order. The model lists them in join-row order; only the entries as a multiset (one per join row, repeats kept) are the source's. The "in row order" parts of Serializers.DetailEntries, Serializers.CartDetailMeaning, Serializers.OrderDetailMeaning, Views.PlacedOrderCopiesCart and Views.Store.PlaceOrder rest on that choice.
- Wishlists.Dedup: the order in which the database returns a many-to-many relation is not promised by the source. The model keeps first-occurrence order.
- Responses.CustomResponse: the source rewrites the caller's dict in place before handing it to the framework's Response. The model returns the rewritten payload as a new value, so aliasing of that dict is not captured.
- Rendering of responses is not modelled, nor HTTP statuses and error message texts. Each error is one case of the `Error` datatype.

## Findings

| source | as written | input that shows it | evidently intended | confidence | as-written member | corrected member |
|---|---|---|---|---|---|---|
| e_commerce/views.py:255-266 | `update` loads the order with `models.Order.objects.get(pk=...)` instead of `self.get_object()`, so the view's `IsOwner` object permission is never checked | order 1 owned by user 10; user 20 sends `{"status": "cancelled"}`: IsOwner refuses user 20, yet the update succeeds and the status becomes "cancelled" | only the order's owner may change its status (`permission_classes = [IsAuthenticated, IsOwner]`) | high, not executed | Views.NonOwnerUpdatesStatusAsWritten | Views.StatusUpdate, Views.Store.UpdateOrderStatus |
