/** The two wishlist stores: the persisted wishlist store (add only when
    absent, remove every occurrence, toggle, membership, clear, count) and
    the small user store whose toggle tolerates a null list. Saving the list
    to the document store is a side effect the model leaves out. */
module Wishlist {
  import opened Wrappers

  /** No product id appears twice. */
  predicate NoDup(w: seq<string>) {
    forall i, j :: 0 <= i < j < |w| ==> w[i] != w[j]
  }

  /** `wishlist.filter(id => id !== productId)`. */
  function RemoveAll(w: seq<string>, id: string): (r: seq<string>)
    ensures id !in r
    ensures forall x :: x in r <==> x in w && x != id
    ensures |r| <= |w|
    ensures NoDup(w) ==> NoDup(r)
    ensures id !in w ==> r == w
  {
    if w == [] then []
    else
      var rest := RemoveAll(w[1..], id);
      assert w == [w[0]] + w[1..];
      if w[0] == id then rest
      else
        assert NoDup(w) ==> w[0] !in w[1..];
        [w[0]] + rest
  }

  /** The filter works element by element, so the ids it keeps stay in
      their order: it distributes over concatenation... */
  lemma {:induction false} RemoveAllAppend(a: seq<string>, b: seq<string>, id: string)
    ensures RemoveAll(a + b, id) == RemoveAll(a, id) + RemoveAll(b, id)
  {
    if a != [] {
      assert (a + b)[0] == a[0];
      assert (a + b)[1..] == a[1..] + b;
      RemoveAllAppend(a[1..], b, id);
    } else {
      assert a + b == b;
    }
  }

  /** ...and on a single id it keeps exactly the other ids. */
  lemma RemoveAllSingle(x: string, id: string)
    ensures RemoveAll([x], id) == if x == id then [] else [x]
  {
  }

  /** `addToWishlist(id)`: appended only when absent; otherwise the state
      is returned as it is. */
  function AddToWishlist(w: seq<string>, id: string): (r: seq<string>)
    ensures id in w ==> r == w
    ensures id !in w ==> r == w + [id]
    ensures id in r
    ensures NoDup(w) ==> NoDup(r)
  {
    if id in w then w else w + [id]
  }

  /** `removeFromWishlist(id)`. */
  function RemoveFromWishlist(w: seq<string>, id: string): (r: seq<string>)
    ensures id !in r
    ensures forall x :: x in r <==> x in w && x != id
    ensures NoDup(w) ==> NoDup(r)
  {
    RemoveAll(w, id)
  }

  /** `toggleWishlist(id)`: present becomes absent, absent becomes present
      (appended at the end). */
  function ToggleWishlist(w: seq<string>, id: string): (r: seq<string>)
    ensures id in r <==> id !in w
    ensures forall x :: x != id ==> (x in r <==> x in w)
    ensures id !in w ==> r == w + [id]
    ensures NoDup(w) ==> NoDup(r)
  {
    if id in w then RemoveFromWishlist(w, id) else AddToWishlist(w, id)
  }

  /** `isInWishlist(id)`. */
  function IsInWishlist(w: seq<string>, id: string): (b: bool)
    ensures b <==> exists i :: 0 <= i < |w| && w[i] == id
  {
    id in w
  }

  /** `clearWishlist()`. */
  function ClearWishlist(): (r: seq<string>)
    ensures |r| == 0 && NoDup(r)
  {
    []
  }

  /** `getWishlistCount()`: the list length, which for a list without
      duplicates is the number of distinct products in it. */
  function WishlistCount(w: seq<string>): (n: nat)
    ensures n == |w|
    ensures NoDup(w) ==> n == |set x | x in w|
  {
    if NoDup(w) then
      DistinctCount(w);
      |w|
    else
      |w|
  }

  lemma {:induction false} DistinctCount(w: seq<string>)
    requires NoDup(w)
    ensures |w| == |set x | x in w|
  {
    if w != [] {
      var rest := w[1..];
      assert w == [w[0]] + rest;
      assert NoDup(rest) by {
        forall i, j | 0 <= i < j < |rest| ensures rest[i] != rest[j] {
          assert rest[i] == w[i + 1] && rest[j] == w[j + 1];
        }
      }
      DistinctCount(rest);
      assert w[0] !in rest by {
        forall k | 0 <= k < |rest| ensures rest[k] != w[0] {
          assert rest[k] == w[k + 1];
        }
      }
      assert (set x | x in w) == (set x | x in rest) + {w[0]};
    }
  }

  /** Toggling an absent id twice restores the list exactly. */
  lemma ToggleTwiceAbsent(w: seq<string>, id: string)
    requires id !in w
    ensures ToggleWishlist(ToggleWishlist(w, id), id) == w
  {
    RemoveAppendedAbsent(w, id);
  }

  lemma {:induction false} RemoveAppendedAbsent(w: seq<string>, id: string)
    requires id !in w
    ensures RemoveAll(w + [id], id) == w
  {
    if w == [] {
      assert [] + [id] == [id];
    } else {
      assert (w + [id])[0] == w[0];
      assert (w + [id])[1..] == w[1..] + [id];
      RemoveAppendedAbsent(w[1..], id);
      assert w == [w[0]] + w[1..];
    }
  }

  /** Toggling a present id twice, in a list without duplicates, keeps the
      same members but moves the id to the end. */
  lemma ToggleTwicePresent(w: seq<string>, id: string)
    requires id in w && NoDup(w)
    ensures ToggleWishlist(ToggleWishlist(w, id), id) == RemoveAll(w, id) + [id]
  {
  }
}

/** The user store's wishlist: a list that may be null before it is set. */
module UserWishlist {
  import opened Wrappers
  import Wishlist

  /** `toggleWishlist(id)`: a present id is removed everywhere; otherwise
      it is appended to the list, a null list counting as empty. */
  function Toggle(w: Option<seq<string>>, id: string): (r: seq<string>)
    ensures w.Some? && id in w.value ==> id !in r && (forall x :: x in r <==> x in w.value && x != id)
    ensures w.Some? && id !in w.value ==> r == w.value + [id]
    ensures w.None? ==> r == [id]
    ensures Wishlist.NoDup(w.GetOr([])) ==> Wishlist.NoDup(r)
  {
    if w.Some? && id in w.value then Wishlist.RemoveAll(w.value, id)
    else w.GetOr([]) + [id]
  }

  /** `clearWishlist()`. */
  function Clear(): (r: Option<seq<string>>)
    ensures r.Some? && |r.value| == 0
  {
    Some([])
  }

  /** Toggling an absent id twice restores the list exactly; a null list
      comes back as the empty list. */
  lemma ToggleTwiceRestores(w: Option<seq<string>>, id: string)
    requires id !in w.GetOr([])
    ensures Toggle(Some(Toggle(w, id)), id) == w.GetOr([])
  {
    Wishlist.RemoveAppendedAbsent(w.GetOr([]), id);
  }

  /** The user store's toggle and the wishlist store's toggle agree on
      every non-null list. */
  lemma AgreesWithWishlistStore(w: seq<string>, id: string)
    ensures Toggle(Some(w), id) == Wishlist.ToggleWishlist(w, id)
  {
  }
}
