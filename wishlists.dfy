/** The id-list computations of the wishlist handlers
    (e_commerce/views.py, WishlistRetrieveCreateUpdateAPIView): the list the
    DELETE handler keeps, and what saving a list into the many-to-many
    relation leaves there. */
module Wishlists {
  import opened Outcomes
  import opened Models

  /** `a` is `b` with some entries left out, the rest in the same order. */
  predicate Subsequence(a: seq<ItemId>, b: seq<ItemId>)
    decreases |b|
  {
    if a == [] then true
    else if b == [] then false
    else if a[0] == b[0] then Subsequence(a[1..], b[1..])
    else Subsequence(a, b[1..])
  }

  /** What the relation holds after a list is saved into it: every listed
      id once, in the order it first appears. */
  function Dedup(s: seq<ItemId>): (d: seq<ItemId>)
    ensures NoDup(d)
    ensures forall x :: x in d <==> x in s
    ensures NoDup(s) ==> d == s
  {
    if s == [] then []
    else
      var init, last := s[..|s| - 1], s[|s| - 1];
      assert s == init + [last];
      var d := Dedup(init);
      assert NoDup(s) ==> NoDup(init) && last !in init;
      if last in d then d else d + [last]
  }

  /** The DELETE handler's comprehension: the current ids not in the delete list. */
  function Remaining(current: seq<ItemId>, toDelete: seq<ItemId>): (kept: seq<ItemId>)
    ensures forall x :: x in kept <==> x in current && x !in toDelete
    ensures NoDup(current) ==> NoDup(kept)
    ensures Subsequence(kept, current)
  {
    if current == [] then []
    else
      var rest := Remaining(current[1..], toDelete);
      assert current == [current[0]] + current[1..];
      assert NoDup(current) ==> NoDup(current[1..]) && current[0] !in current[1..];
      if current[0] in toDelete then rest
      else
        assert ([current[0]] + rest)[1..] == rest;
        [current[0]] + rest
  }

  /** The id the serializer's item field refuses: the first one that names no stored item. */
  function FirstUnknown(ids: seq<ItemId>, catalog: map<ItemId, Item>): (u: Option<ItemId>)
    ensures u.None? <==> AllStored(ids, catalog)
    ensures u.Some? ==> exists k :: (0 <= k < |ids| && ids[k] == u.value && u.value !in catalog
      && forall j :: 0 <= j < k ==> ids[j] in catalog)
  {
    if ids == [] then None
    else if ids[0] !in catalog then Some(ids[0])
    else
      var u := FirstUnknown(ids[1..], catalog);
      assert forall x :: x in ids <==> x == ids[0] || x in ids[1..];
      if u.Some? then
        var k :| 0 <= k < |ids[1..]| && ids[1..][k] == u.value && u.value !in catalog
          && forall j :: 0 <= j < k ==> ids[1..][j] in catalog;
        assert ids[k + 1] == u.value;
        assert forall j :: 0 <= j < k + 1 ==> ids[j] in catalog by {
          forall j | 0 <= j < k + 1 ensures ids[j] in catalog {
            if j > 0 { assert ids[j] == ids[1..][j - 1]; }
          }
        }
        u
      else u
  }

  /** Ids appended after the requested ones, all stored, change nothing in what is refused. */
  lemma {:induction false} FirstUnknownAppend(a: seq<ItemId>, b: seq<ItemId>, catalog: map<ItemId, Item>)
    requires AllStored(b, catalog)
    ensures FirstUnknown(a + b, catalog) == FirstUnknown(a, catalog)
  {
    if a == [] {
      assert a + b == b;
    } else {
      assert (a + b)[0] == a[0];
      assert (a + b)[1..] == a[1..] + b;
      FirstUnknownAppend(a[1..], b, catalog);
    }
  }
}
