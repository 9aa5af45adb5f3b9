/** The decisions inside the review widgets: which stars are filled and
    how the stars react to the mouse, when the review form may submit and
    what it sends, the rating bars, and when the form is offered at all. */
module ReviewSystem {
  import opened Wrappers
  import opened Text
  import opened Session
  import Reviews

  // ---------------------------------------------------------- StarRating

  /** `hoverRating || rating`: the hovered star while there is one. */
  function Shown(hover: int, rating: real): real {
    if hover != 0 then hover as real else rating
  }

  /** Star `star` (1..5) is drawn filled. */
  predicate Filled(star: int, hover: int, rating: real) {
    (star as real) <= Shown(hover, rating)
  }

  /** The five stars, left to right: the filled ones always form a prefix,
      and while a star is hovered exactly the stars up to it are filled. */
  function Fills(hover: int, rating: real): (r: seq<bool>)
    ensures |r| == 5
    ensures forall i, j :: 0 <= i < j < 5 && r[j] ==> r[i]
    ensures 1 <= hover <= 5 ==> forall i :: 0 <= i < 5 ==> (r[i] <==> i < hover)
    ensures hover == 0 ==> forall i :: 0 <= i < 5 ==> (r[i] <==> (i + 1) as real <= rating)
  {
    seq(5, i requires 0 <= i < 5 => Filled(i + 1, hover, rating))
  }

  datatype StarEvent = Enter(star: int) | Leave | Click(star: int)

  /** One mouse event on a star: the new hover value and the rating handed
      to `onRatingChange`, if any. Read-only stars ignore everything. */
  function Handle(readonly: bool, hasHandler: bool, hover: int, e: StarEvent): (r: (int, Option<int>))
    ensures readonly ==> r == (hover, None)
    ensures !readonly && e.Enter? ==> r == (e.star, None)
    ensures !readonly && e.Leave? ==> r == (0, None)
    ensures !readonly && e.Click? ==> r.0 == hover && (r.1.Some? <==> hasHandler) && (r.1.Some? ==> r.1.value == e.star)
  {
    if readonly then (hover, None)
    else
      match e
      case Enter(s) => (s, None)
      case Leave => (0, None)
      case Click(s) => (hover, if hasHandler then Some(s) else None)
  }

  /** A run of events: the final hover value and the ratings chosen. */
  function Run(readonly: bool, hasHandler: bool, hover: int, events: seq<StarEvent>): (r: (int, seq<int>))
    ensures |r.1| <= |events|
    decreases |events|
  {
    if events == [] then (hover, [])
    else
      var (h, c) := Handle(readonly, hasHandler, hover, events[0]);
      var (h', cs) := Run(readonly, hasHandler, h, events[1..]);
      (h', (if c.Some? then [c.value] else []) + cs)
  }

  /** Read-only stars never change what they show and never report a
      rating, whatever the mouse does. */
  lemma {:induction false} ReadonlyIgnoresEvents(hasHandler: bool, hover: int, events: seq<StarEvent>)
    ensures Run(true, hasHandler, hover, events) == (hover, [])
    ensures forall i :: 0 <= i < 5 ==>
      Fills(Run(true, hasHandler, hover, events).0, 0.0)[i] == Fills(hover, 0.0)[i]
  {
    if events != [] {
      ReadonlyIgnoresEvents(hasHandler, hover, events[1..]);
    }
  }

  /** The last click wins: after clicks only, the form's rating is the
      star clicked last. */
  lemma {:induction false} ClicksChooseStars(hover: int, stars: seq<int>)
    ensures Run(false, true, hover, seq(|stars|, i requires 0 <= i < |stars| => Click(stars[i]))) == (hover, stars)
  {
    var events := seq(|stars|, i requires 0 <= i < |stars| => Click(stars[i]));
    if stars != [] {
      assert events[1..] == seq(|stars[1..]|, i requires 0 <= i < |stars[1..]| => Click(stars[1..][i]));
      ClicksChooseStars(hover, stars[1..]);
      assert stars == [stars[0]] + stars[1..];
    }
  }

  // ---------------------------------------------------------- ReviewForm

  datatype FormState = FormState(rating: int, comment: string, title: string)

  const EmptyForm: FormState := FormState(0, "", "")

  /** `!rating || !comment.trim()` fails: the submit guard, which is also
      what disables the button (besides an ongoing submit). */
  function CanSubmit(f: FormState): (b: bool)
    ensures b <==> f.rating != 0 && Trim(f.comment) != []
  {
    f.rating != 0 && !IsBlank(f.comment)
  }

  /** What the form sends: the trimmed comment, and the trimmed title or
      nothing when it is blank. */
  function Input(productId: string, f: FormState): (i: Reviews.ReviewInput)
    ensures i.productId == productId && i.rating == f.rating
    ensures i.comment == Trim(f.comment)
    ensures i.title.None? <==> IsBlank(f.title)
    ensures i.title.Some? ==> i.title.value == Trim(f.title) && !IsBlank(i.title.value)
  {
    var t := Trim(f.title);
    assert t != [] ==> !IsBlank(t) by {
      if t != [] { assert !IsSpace(t[0]); }
    }
    Reviews.ReviewInput(productId, f.rating, Trim(f.comment), if t == [] then None else Some(t))
  }

  /** The form after a submit attempt, the review cache, and whether the
      `onReviewSubmitted` callback ran. */
  datatype Submission = Submission(form: FormState, cache: Reviews.Cache, submitted: bool)

  /** `handleSubmit()`: nothing happens unless the guard passes; a
      successful `addReview` resets all three fields and reports back; a
      failed one (logged out) leaves the form as typed. */
  function SubmitReview(f: FormState, productId: string, cache: Reviews.Cache, user: Option<User>,
                        newId: string, now: string): (r: Submission)
    ensures !CanSubmit(f) ==> r == Submission(f, cache, false)
    ensures CanSubmit(f) && user.None? ==> r == Submission(f, cache, false)
    ensures r.submitted <==> CanSubmit(f) && user.Some?
    ensures r.submitted ==>
      && r.form == EmptyForm
      && |Reviews.Cached(r.cache, productId)| == |Reviews.Cached(cache, productId)| + 1
      && Reviews.Cached(r.cache, productId)[0].comment == Trim(f.comment)
      && Reviews.Cached(r.cache, productId)[0].comment != []
      && Reviews.Cached(r.cache, productId)[0].rating == f.rating
      && Reviews.Cached(r.cache, productId)[0].userId == user.value.uid
  {
    if !CanSubmit(f) then Submission(f, cache, false)
    else
      match Reviews.AddReview(cache, user, Input(productId, f), newId, now)
      case Err(_) => Submission(f, cache, false)
      case Ok(added) => Submission(EmptyForm, added.cache, true)
  }

  // --------------------------------------------------------- ReviewStats

  datatype Bar = Bar(rating: int, count: nat, percentage: real)

  /** `(count / totalReviews) * 100`, or 0 with no reviews. */
  function Percentage(count: nat, total: nat): (p: real)
    ensures total > 0 ==> p * (total as real) == (count as real) * 100.0
    ensures total == 0 ==> p == 0.0
  {
    if total > 0 then (count as real) / (total as real) * 100.0 else 0.0
  }

  /** The stats panel for a product's cached reviews: nothing at all with
      no reviews; otherwise one bar per rating from 5 down to 1. */
  function StatsPanel(rs: seq<Reviews.Review>): (v: Option<seq<Bar>>)
    ensures v.None? <==> rs == []
    ensures v.Some? ==> |v.value| == 5 && forall i :: 0 <= i < 5 ==>
      && v.value[i].rating == 5 - i
      && v.value[i].count == Reviews.CountRating(rs, 5 - i)
      && v.value[i].percentage == Percentage(Reviews.CountRating(rs, 5 - i), |rs|)
  {
    if rs == [] then None
    else
      var stats := Reviews.StatsOf(rs);
      Some(seq(5, i requires 0 <= i < 5 => BarFor(stats, 5 - i)))
  }

  /** The bar for one rating: `ratingDistribution[rating]` and its share. */
  function BarFor(stats: Reviews.ReviewStats, rating: int): (b: Bar)
    requires rating in stats.ratingDistribution
    ensures b.rating == rating && b.count == stats.ratingDistribution[rating]
    ensures b.percentage == Percentage(b.count, stats.totalReviews)
  {
    var count := stats.ratingDistribution[rating];
    Bar(rating, count, Percentage(count, stats.totalReviews))
  }

  /** With every rating in 1..5 the five bars fill exactly 100%. */
  lemma BarsSumToHundred(rs: seq<Reviews.Review>)
    requires rs != [] && Reviews.RatingsInRange(rs)
    ensures var bars := StatsPanel(rs).value;
      bars[0].percentage + bars[1].percentage + bars[2].percentage + bars[3].percentage + bars[4].percentage == 100.0
  {
    var bars := StatsPanel(rs).value;
    Reviews.DistributionSumsToTotal(rs);
    SharesAddUp(bars[0].count, bars[1].count, bars[2].count, bars[3].count, bars[4].count, |rs|);
  }

  lemma SharesAddUp(c0: nat, c1: nat, c2: nat, c3: nat, c4: nat, n: nat)
    requires n > 0 && c0 + c1 + c2 + c3 + c4 == n
    ensures Percentage(c0, n) + Percentage(c1, n) + Percentage(c2, n) + Percentage(c3, n) + Percentage(c4, n) == 100.0
  {
    var q := 100.0 / (n as real);
    ShareIsMultiple(c0, n);
    ShareIsMultiple(c1, n);
    ShareIsMultiple(c2, n);
    ShareIsMultiple(c3, n);
    ShareIsMultiple(c4, n);
    assert Percentage(c0, n) + Percentage(c1, n) + Percentage(c2, n) + Percentage(c3, n) + Percentage(c4, n)
        == ((c0 + c1 + c2 + c3 + c4) as real) * q;
  }

  /** One bar's share is its count times the share of a single review. */
  lemma ShareIsMultiple(c: nat, n: nat)
    requires n > 0
    ensures Percentage(c, n) == (c as real) * (100.0 / (n as real))
  {
  }

  // ------------------------------------------------------------ the gate

  datatype FormArea = Hidden | WriteButton | LoginPrompt | ReviewFormShown

  /** The form area of the widget: hidden once the user has a review of
      this product; otherwise the "Write a Review" button, which opens the
      form, or the login prompt when nobody is signed in. */
  function ReviewArea(cache: Reviews.Cache, productId: string, user: Option<User>, open: bool): (a: FormArea)
    ensures a.Hidden? <==> Reviews.HasUserReviewed(cache, productId, user)
    ensures a.ReviewFormShown? ==> user.Some? && forall i :: 0 <= i < |Reviews.Cached(cache, productId)| ==>
      Reviews.Cached(cache, productId)[i].userId != user.value.uid
    ensures a.LoginPrompt? ==> user.None? && open
    ensures !a.Hidden? ==> (a.WriteButton? <==> !open) && (a.LoginPrompt? <==> open && user.None?)
  {
    if Reviews.HasUserReviewed(cache, productId, user) then Hidden
    else if !open then WriteButton
    else if user.None? then LoginPrompt
    else ReviewFormShown
  }

  /** Once a review goes through, the form area disappears for that user:
      one review per user is what the widget offers. */
  lemma SubmitHidesForm(f: FormState, productId: string, cache: Reviews.Cache, user: Option<User>,
                        newId: string, now: string, open: bool)
    requires SubmitReview(f, productId, cache, user, newId, now).submitted
    ensures ReviewArea(SubmitReview(f, productId, cache, user, newId, now).cache, productId, user, open) == Hidden
  {
    var rs := Reviews.Cached(SubmitReview(f, productId, cache, user, newId, now).cache, productId);
    assert rs[0].userId == user.value.uid;
  }
}

/** The compact star strip shown next to products. */
module ReviewStars {
  import opened Wrappers
  import ReviewSystem

  const FullStar: char := '\U{2605}'
  const EmptyStar: char := '\U{2606}'

  /** `ReviewStars({ rating = 0 })`: five glyphs; the first `floor(rating)`
      are full. The "half" branch draws the same glyph as an empty star. */
  function Glyphs(rating: Option<real>): (g: seq<char>)
    ensures |g| == 5
    ensures forall i :: 0 <= i < 5 ==> g[i] == FullStar || g[i] == EmptyStar
    ensures forall i :: 0 <= i < 5 ==> (g[i] == FullStar <==> i < rating.GetOr(0.0).Floor)
  {
    var r := rating.GetOr(0.0);
    var full := r.Floor;
    var half := r - (full as real) >= 0.5;
    seq(5, i requires 0 <= i < 5 =>
      if i < full then FullStar
      else if i == full && half then EmptyStar
      else EmptyStar)
  }

  /** Half stars are never drawn: 4.5 looks exactly like 4. */
  lemma HalfLooksWhole(k: int)
    ensures Glyphs(Some((k as real) + 0.5)) == Glyphs(Some(k as real))
  {
    assert ((k as real) + 0.5).Floor == k;
  }

  /** Without a rating every glyph is empty. */
  lemma NoRatingNoStars()
    ensures forall i :: 0 <= i < 5 ==> Glyphs(None)[i] == EmptyStar
  {
  }

  /** The strip and the read-only star widget agree on every star. */
  lemma AgreesWithStarRating(rating: real)
    ensures forall i :: 0 <= i < 5 ==>
      (Glyphs(Some(rating))[i] == FullStar <==> ReviewSystem.Fills(0, rating)[i])
  {
    forall i | 0 <= i < 5
      ensures Glyphs(Some(rating))[i] == FullStar <==> ReviewSystem.Fills(0, rating)[i]
    {
      assert i < rating.Floor <==> ((i + 1) as real) <= rating;
    }
  }
}
