/** The review store: per-product cached review lists, the statistics
    shown with them (average rounded to one decimal, 1–5 distribution),
    whether the user already reviewed, and the cache updates made by adding,
    deleting and marking a review helpful, together with the rating and
    count written back to the product. */
module Reviews {
  import opened Wrappers
  import opened Session

  datatype Review = Review(
    id: string,
    productId: string,
    userId: string,
    userEmail: string,
    userName: string,
    rating: int,
    comment: string,
    title: Option<string>,
    helpful: int,
    verified: bool,
    createdAt: string,
    updatedAt: string)

  /** What the review form submits. */
  datatype ReviewInput = ReviewInput(productId: string, rating: int, comment: string, title: Option<string>)

  /** The stored review document as `markHelpful` reads it. */
  datatype ReviewDoc = ReviewDoc(helpful: Option<int>)

  datatype ReviewStats = ReviewStats(averageRating: real, totalReviews: nat, ratingDistribution: map<int, nat>)

  /** The fields `updateProductRating` writes to the product. */
  datatype RatingWrite = RatingWrite(rating: real, reviewCount: nat)

  /** `productReviews`: product id to cached reviews, newest first. */
  type Cache = map<string, seq<Review>>

  const AnonymousName: string := "Anonymous"

  /** `productReviews[productId] || []`. */
  function Cached(cache: Cache, productId: string): seq<Review> {
    if productId in cache then cache[productId] else []
  }

  // ----------------------------------------------------------- statistics

  function RatingSum(rs: seq<Review>): int {
    if rs == [] then 0 else rs[0].rating + RatingSum(rs[1..])
  }

  function CountRating(rs: seq<Review>, k: int): nat {
    if rs == [] then 0 else (if rs[0].rating == k then 1 else 0) + CountRating(rs[1..], k)
  }

  /** `Math.round(x)`: the nearest integer, halves going up. */
  function RoundHalfUp(x: real): (k: int)
    ensures (k as real) - 0.5 <= x < (k as real) + 0.5
  {
    (x + 0.5).Floor
  }

  /** `{ 5: 0, 4: 0, 3: 0, 2: 0, 1: 0 }`. */
  function EmptyDistribution(): (d: map<int, nat>)
    ensures d.Keys == {1, 2, 3, 4, 5}
    ensures forall k :: k in d ==> d[k] == 0
  {
    map[1 := 0, 2 := 0, 3 := 0, 4 := 0, 5 := 0]
  }

  /** The distribution fold: each review adds one to its rating's count,
      creating the key when the rating is outside 1..5. */
  function Tally(d: map<int, nat>, rs: seq<Review>): (r: map<int, nat>)
    ensures forall k :: k in r <==> k in d || HasRating(rs, k)
    ensures forall k :: k in r ==> r[k] == (if k in d then d[k] else 0) + CountRating(rs, k)
    decreases |rs|
  {
    if rs == [] then d
    else
      var k0 := rs[0].rating;
      var d' := d[k0 := (if k0 in d then d[k0] else 0) + 1];
      var r := Tally(d', rs[1..]);
      assert forall i :: 0 < i < |rs| ==> rs[i] == rs[1..][i - 1];
      assert forall k :: HasRating(rs, k) <==> k == k0 || HasRating(rs[1..], k);
      r
  }

  /** Some review carries rating `k`. */
  predicate HasRating(rs: seq<Review>, k: int) {
    exists i :: 0 <= i < |rs| && rs[i].rating == k
  }

  /** The per-rating counts of `getReviewStats`. */
  function Distribution(rs: seq<Review>): (d: map<int, nat>)
    ensures forall k :: 1 <= k <= 5 ==> k in d
    ensures forall k :: k in d ==> d[k] == CountRating(rs, k)
    ensures forall k :: k in d <==> 1 <= k <= 5 || HasRating(rs, k)
  {
    Tally(EmptyDistribution(), rs)
  }

  /** The exact mean rating. */
  function Mean(rs: seq<Review>): real
    requires rs != []
  {
    (RatingSum(rs) as real) / (|rs| as real)
  }

  /** `getReviewStats(productId)` over the cached list: zeros when there
      are no reviews; otherwise the mean rounded half-up to one decimal,
      the count, and the distribution. */
  function StatsOf(rs: seq<Review>): (s: ReviewStats)
    ensures rs == [] ==> s == ReviewStats(0.0, 0, EmptyDistribution())
    ensures s.totalReviews == |rs|
    ensures forall k :: 1 <= k <= 5 ==> k in s.ratingDistribution && s.ratingDistribution[k] == CountRating(rs, k)
    ensures rs != [] ==>
      && ((s.averageRating * 10.0).Floor as real) == s.averageRating * 10.0
      && Mean(rs) - 0.05 < s.averageRating <= Mean(rs) + 0.05
  {
    if rs == [] then ReviewStats(0.0, 0, EmptyDistribution())
    else
      var t := RoundHalfUp(10.0 * Mean(rs));
      ReviewStats((t as real) / 10.0, |rs|, Distribution(rs))
  }

  /** `getReviewStats(productId)`: the statistics of the product's cached
      reviews; a product with none cached gets zeros. */
  function GetReviewStats(cache: Cache, productId: string): (s: ReviewStats)
    ensures s == StatsOf(Cached(cache, productId))
    ensures s.totalReviews == |Cached(cache, productId)|
    ensures productId !in cache ==> s == ReviewStats(0.0, 0, EmptyDistribution())
  {
    StatsOf(Cached(cache, productId))
  }

  predicate RatingsInRange(rs: seq<Review>) {
    forall i :: 0 <= i < |rs| ==> 1 <= rs[i].rating <= 5
  }

  /** With every rating in 1..5 the five bars add up to the total. */
  lemma {:induction false} DistributionSumsToTotal(rs: seq<Review>)
    requires RatingsInRange(rs)
    ensures CountRating(rs, 1) + CountRating(rs, 2) + CountRating(rs, 3)
          + CountRating(rs, 4) + CountRating(rs, 5) == |rs|
  {
    if rs != [] {
      assert RatingsInRange(rs[1..]) by {
        forall i | 0 <= i < |rs[1..]| ensures 1 <= rs[1..][i].rating <= 5 {
          assert rs[1..][i] == rs[i + 1];
        }
      }
      DistributionSumsToTotal(rs[1..]);
    }
  }

  /** Every rating is at least `lo` and at most `hi`. */
  predicate RatingsWithin(rs: seq<Review>, lo: int, hi: int) {
    forall i :: 0 <= i < |rs| ==> lo <= rs[i].rating <= hi
  }

  lemma {:induction false} SumWithin(rs: seq<Review>, lo: int, hi: int)
    requires RatingsWithin(rs, lo, hi)
    ensures lo * |rs| <= RatingSum(rs) <= hi * |rs|
  {
    if rs != [] {
      assert RatingsWithin(rs[1..], lo, hi) by {
        forall i | 0 <= i < |rs[1..]| ensures lo <= rs[1..][i].rating <= hi {
          assert rs[1..][i] == rs[i + 1];
        }
      }
      SumWithin(rs[1..], lo, hi);
      assert lo * |rs| == lo * |rs[1..]| + lo;
      assert hi * |rs| == hi * |rs[1..]| + hi;
    }
  }

  lemma MeanWithin(s: int, n: int, lo: int, hi: int)
    requires n > 0 && lo * n <= s <= hi * n
    ensures (lo as real) <= (s as real) / (n as real) <= (hi as real)
  {
    var m := (s as real) / (n as real);
    assert m * (n as real) == s as real;
    assert (lo as real) * (n as real) <= m * (n as real);
    assert m * (n as real) <= (hi as real) * (n as real);
  }

  /** The rounded average lies between the lowest and the highest rating;
      with ratings in 1..5 it lies in 1..5. */
  lemma AverageWithinRatings(rs: seq<Review>, lo: int, hi: int)
    requires rs != [] && RatingsWithin(rs, lo, hi)
    ensures (lo as real) <= StatsOf(rs).averageRating <= (hi as real)
  {
    SumWithin(rs, lo, hi);
    MeanWithin(RatingSum(rs), |rs|, lo, hi);
    var t := RoundHalfUp(10.0 * Mean(rs));
    assert (t as real) > 10.0 * (lo as real) - 1.0;
    assert (t as real) < 10.0 * (hi as real) + 1.0;
    assert 10 * lo <= t <= 10 * hi;
  }

  // ------------------------------------------------------- has reviewed

  /** `hasUserReviewed(productId)`: false when logged out; otherwise
      whether some cached review of the product is by this user. */
  function HasUserReviewed(cache: Cache, productId: string, user: Option<User>): (b: bool)
    ensures user.None? ==> !b
    ensures user.Some? ==> (b <==> exists i :: 0 <= i < |Cached(cache, productId)| && Cached(cache, productId)[i].userId == user.value.uid)
  {
    user.Some? && ByUser(Cached(cache, productId), user.value.uid)
  }

  function ByUser(rs: seq<Review>, uid: string): (b: bool)
    ensures b <==> exists i :: 0 <= i < |rs| && rs[i].userId == uid
  {
    if rs == [] then false
    else
      assert forall i :: 0 < i < |rs| ==> rs[i] == rs[1..][i - 1];
      rs[0].userId == uid || ByUser(rs[1..], uid)
  }

  // -------------------------------------------------------- product rating

  /** `updateProductRating(productId)`: nothing is written when the cached
      list is empty; otherwise the rounded average and the count, which
      agree with what `getReviewStats` reports. */
  function UpdateProductRating(cache: Cache, productId: string): (w: Option<RatingWrite>)
    ensures w.None? <==> Cached(cache, productId) == []
    ensures w.Some? ==> w.value.reviewCount == |Cached(cache, productId)|
    ensures w.Some? ==> w.value.rating == GetReviewStats(cache, productId).averageRating
  {
    var rs := Cached(cache, productId);
    if rs == [] then None
    else Some(RatingWrite((RoundHalfUp(10.0 * Mean(rs)) as real) / 10.0, |rs|))
  }

  // ---------------------------------------------------------- add review

  datatype AddedReview = AddedReview(cache: Cache, review: Review, ratingWrite: Option<RatingWrite>)

  /** `currentUser.displayName || 'Anonymous'`. */
  function NameOf(u: User): (n: string)
    ensures u.displayName.Some? && u.displayName.value != [] ==> n == u.displayName.value
    ensures u.displayName.None? || u.displayName.value == [] ==> n == AnonymousName
  {
    if u.displayName.Some? && u.displayName.value != [] then u.displayName.value else AnonymousName
  }

  /** `addReview(input)`: logged out, it throws; otherwise the new review
      (helpful 0, not verified, owned by the user) is put at the front of
      the product's cached list and the product rating is recomputed. */
  function AddReview(cache: Cache, user: Option<User>, input: ReviewInput, newId: string, now: string): (r: Result<AddedReview>)
    ensures user.None? <==> r.Err?
    ensures r.Err? ==> r.message == NotAuthenticated
    ensures r.Ok? ==>
      var rv := r.value.review;
      && rv.id == newId && rv.productId == input.productId
      && rv.rating == input.rating && rv.comment == input.comment && rv.title == input.title
      && rv.userId == user.value.uid && rv.userEmail == user.value.email && rv.userName == NameOf(user.value)
      && rv.helpful == 0 && !rv.verified
      && rv.createdAt == now && rv.updatedAt == now
      && Cached(r.value.cache, input.productId) == [rv] + Cached(cache, input.productId)
      && (forall p :: p in cache && p != input.productId ==> p in r.value.cache && r.value.cache[p] == cache[p])
      && r.value.cache.Keys == cache.Keys + {input.productId}
      && r.value.ratingWrite.Some?
      && r.value.ratingWrite.value.reviewCount == |Cached(cache, input.productId)| + 1
      && r.value.ratingWrite == UpdateProductRating(r.value.cache, input.productId)
  {
    match user
    case None => Err(NotAuthenticated)
    case Some(u) =>
      var rv := Review(newId, input.productId, u.uid, u.email, NameOf(u), input.rating, input.comment,
                       input.title, 0, false, now, now);
      var cache' := cache[input.productId := [rv] + Cached(cache, input.productId)];
      Ok(AddedReview(cache', rv, UpdateProductRating(cache', input.productId)))
  }

  // ------------------------------------------------------- delete review

  /** Drops the review with that id from a list. */
  function WithoutReview(rs: seq<Review>, reviewId: string): (r: seq<Review>)
    ensures forall x :: x in r <==> x in rs && x.id != reviewId
    ensures |r| <= |rs|
  {
    if rs == [] then []
    else
      var rest := WithoutReview(rs[1..], reviewId);
      assert rs == [rs[0]] + rs[1..];
      if rs[0].id == reviewId then rest else [rs[0]] + rest
  }

  /** The filter keeps the surviving reviews in display order: it
      distributes over concatenation... */
  lemma {:induction false} WithoutReviewAppend(a: seq<Review>, b: seq<Review>, reviewId: string)
    ensures WithoutReview(a + b, reviewId) == WithoutReview(a, reviewId) + WithoutReview(b, reviewId)
  {
    if a != [] {
      assert (a + b)[0] == a[0];
      assert (a + b)[1..] == a[1..] + b;
      WithoutReviewAppend(a[1..], b, reviewId);
    } else {
      assert a + b == b;
    }
  }

  /** ...and on one review it keeps it exactly when the id differs. */
  lemma WithoutReviewSingle(x: Review, reviewId: string)
    ensures WithoutReview([x], reviewId) == if x.id == reviewId then [] else [x]
  {
  }

  /** `deleteReview(reviewId, productId)`: logged out, it throws;
      otherwise that product's list loses the review (other lists are not
      touched, even if they hold it) and the product rating is recomputed. */
  function DeleteReview(cache: Cache, user: Option<User>, reviewId: string, productId: string): (r: Result<(Cache, Option<RatingWrite>)>)
    ensures user.None? <==> r.Err?
    ensures r.Err? ==> r.message == NotAuthenticated
    ensures r.Ok? ==>
      && productId in r.value.0
      && (forall x :: x in r.value.0[productId] <==> x in Cached(cache, productId) && x.id != reviewId)
      && (forall p :: p in cache && p != productId ==> p in r.value.0 && r.value.0[p] == cache[p])
      && r.value.0.Keys == cache.Keys + {productId}
      && r.value.1 == UpdateProductRating(r.value.0, productId)
  {
    match user
    case None => Err(NotAuthenticated)
    case Some(_) =>
      var cache' := cache[productId := WithoutReview(Cached(cache, productId), reviewId)];
      Ok((cache', UpdateProductRating(cache', productId)))
  }

  lemma {:induction false} WithoutReviewAbsent(rs: seq<Review>, reviewId: string)
    requires forall x :: x in rs ==> x.id != reviewId
    ensures WithoutReview(rs, reviewId) == rs
  {
    if rs != [] {
      assert rs[0] in rs;
      assert forall x :: x in rs[1..] ==> x in rs;
      WithoutReviewAbsent(rs[1..], reviewId);
      assert rs == [rs[0]] + rs[1..];
    }
  }

  /** Deleting the review just added, under an id the product's list did
      not use, gives back that list and leaves every other product alone. */
  lemma DeleteUndoesAdd(cache: Cache, u: User, input: ReviewInput, newId: string, now: string)
    requires forall x :: x in Cached(cache, input.productId) ==> x.id != newId
    ensures var c := DeleteReview(AddReview(cache, Some(u), input, newId, now).value.cache, Some(u), newId, input.productId).value.0;
      && Cached(c, input.productId) == Cached(cache, input.productId)
      && forall p :: p in cache && p != input.productId ==> p in c && c[p] == cache[p]
  {
    var added := AddReview(cache, Some(u), input, newId, now).value;
    var rest := Cached(cache, input.productId);
    WithoutReviewAppend([added.review], rest, newId);
    WithoutReviewSingle(added.review, newId);
    WithoutReviewAbsent(rest, newId);
    assert [] + rest == rest;
  }

  // -------------------------------------------------------- mark helpful

  function SetHelpful(rs: seq<Review>, reviewId: string, n: int): (r: seq<Review>)
    ensures |r| == |rs|
    ensures forall i :: 0 <= i < |rs| && rs[i].id == reviewId ==> r[i] == rs[i].(helpful := n)
    ensures forall i :: 0 <= i < |rs| && rs[i].id != reviewId ==> r[i] == rs[i]
  {
    seq(|rs|, i requires 0 <= i < |rs| => if rs[i].id == reviewId then rs[i].(helpful := n) else rs[i])
  }

  /** `markHelpful(reviewId)`: when the stored review exists, its count
      becomes the STORED count plus one, both in the document and in every
      cached copy of that review across all products; nothing else changes.
      A missing document changes nothing. */
  function MarkHelpful(cache: Cache, stored: Option<ReviewDoc>, reviewId: string): (r: (Cache, Option<int>))
    ensures stored.None? ==> r == (cache, None)
    ensures stored.Some? ==> r.1 == Some(stored.value.helpful.GetOr(0) + 1)
    ensures r.0.Keys == cache.Keys
    ensures forall p :: p in cache ==> |r.0[p]| == |cache[p]|
    ensures forall p, i :: p in cache && 0 <= i < |cache[p]| ==>
      if stored.Some? && cache[p][i].id == reviewId
      then r.0[p][i] == cache[p][i].(helpful := stored.value.helpful.GetOr(0) + 1)
      else r.0[p][i] == cache[p][i]
  {
    match stored
    case None => (cache, None)
    case Some(d) =>
      var n := d.helpful.GetOr(0) + 1;
      (map p | p in cache :: SetHelpful(cache[p], reviewId, n), Some(n))
  }
}
