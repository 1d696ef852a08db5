/**
 * The decision logic of the reviews screen of a listing: the star filter over
 * the reviews, the sign-in guard in front of the screen, and the row of filter
 * chips. Ratings are held in tenths of a star (4.8 is 48), which is exact for
 * the one-decimal ratings the screen shows; whole stars are then `rating / 10`.
 */
module Reviews {
  import opened JsString

  /** A rating in tenths of a star. */
  datatype Review = Review(id: string, name: string, time: string, rating: nat, body: string)

  type StarCount = n: nat | 1 <= n <= 5 witness 5

  /** `"all"` or one of the star values 5, 4, 3, 2, 1. */
  datatype Filter = All | Stars(n: StarCount)

  /** The filter the screen opens with. */
  const InitialFilter: Filter := All

  /** `Math.floor` of a rating given in tenths: the whole stars in it. */
  function WholeStars(rating: nat): (n: nat)
    ensures 10 * n <= rating < 10 * (n + 1)
  {
    rating / 10
  }

  /** `a` is `b` with some elements left out, the rest in their order. */
  predicate IsSubsequence<T(==)>(a: seq<T>, b: seq<T>) {
    if a == [] then true
    else if b == [] then false
    else if a[0] == b[0] then IsSubsequence(a[1..], b[1..])
    else IsSubsequence(a, b[1..])
  }

  lemma {:induction false} SubsequenceIsShorterAndDrawn<T>(a: seq<T>, b: seq<T>)
    requires IsSubsequence(a, b)
    ensures |a| <= |b|
    ensures forall x :: x in a ==> x in b
  {
    if a != [] {
      if a[0] == b[0] {
        SubsequenceIsShorterAndDrawn(a[1..], b[1..]);
        forall x | x in a ensures x in b {
          if x != a[0] {
            assert x in a[1..];
          }
        }
      } else {
        SubsequenceIsShorterAndDrawn(a, b[1..]);
      }
    }
  }

  /** `reviews.filter(r => Math.floor(r.rating) === n)`: the reviews with
      `n` whole stars, each as often as in the input, in the input's order. */
  function KeepStars(reviews: seq<Review>, n: StarCount): (r: seq<Review>)
    ensures IsSubsequence(r, reviews) && |r| <= |reviews|
    ensures forall x :: multiset(r)[x] == if WholeStars(x.rating) == n then multiset(reviews)[x] else 0
    ensures forall x :: x in r <==> x in reviews && WholeStars(x.rating) == n
  {
    if reviews == [] then []
    else
      var rest := KeepStars(reviews[1..], n);
      assert reviews == [reviews[0]] + reviews[1..];
      if WholeStars(reviews[0].rating) == n then [reviews[0]] + rest else rest
  }

  /** Whether a review passes `filter`: every review passes "all"; a star
      filter `n` takes the ratings from `n` up to, but not including, `n + 1`. */
  predicate Passes(filter: Filter, x: Review)
    ensures Passes(filter, x) <==> filter.All? || 10 * filter.n <= x.rating < 10 * filter.n + 10
  {
    filter.All? || WholeStars(x.rating) == filter.n
  }

  /** The list the screen shows under `filter`: the reviews that pass, in the
      input's order, never more than the input holds. */
  function Filtered(filter: Filter, reviews: seq<Review>): (r: seq<Review>)
    ensures IsSubsequence(r, reviews) && |r| <= |reviews|
    ensures forall x :: x in r <==> x in reviews && Passes(filter, x)
  {
    if filter.All? then
      SubsequenceReflexive(reviews);
      reviews
    else
      KeepStars(reviews, filter.n)
  }

  /** "all" gives back the list as it is. */
  lemma AllKeepsEverything(reviews: seq<Review>)
    ensures Filtered(InitialFilter, reviews) == reviews
  {
  }

  lemma {:induction false} SubsequenceReflexive<T>(s: seq<T>)
    ensures IsSubsequence(s, s)
  {
    if s != [] {
      SubsequenceReflexive(s[1..]);
    }
  }

  /** A star filter keeps each review as often as the input holds it, when it
      passes, and not at all otherwise. */
  lemma StarFilterCounts(n: StarCount, reviews: seq<Review>, x: Review)
    ensures |Filtered(Stars(n), reviews)| <= |reviews|
    ensures multiset(Filtered(Stars(n), reviews))[x]
         == if WholeStars(x.rating) == n then multiset(reviews)[x] else 0
  {
  }

  /** No review is shown under two different star filters. */
  lemma AtMostOneStarFilter(reviews: seq<Review>, x: Review, n: StarCount, m: StarCount)
    requires x in Filtered(Stars(n), reviews) && x in Filtered(Stars(m), reviews)
    ensures n == m
  {
  }

  /** The reviews the screen holds. */
  const R1: Review := Review("r1", "John Dela Cruz", "1 month ago", 48,
    "Comfortable stay and great location. The place was clean and the host was responsive.")
  const R3: Review := Review("r3", "John Dela Cruz", "2 weeks ago", 50,
    "Amazing place! Very clean and comfortable. The host was very accommodating. Would definitely stay here again!")
  const AllReviews: seq<Review> := [R1, R3]

  /** What each chip shows with the screen's own reviews. */
  lemma SampleFilters()
    ensures Filtered(All, AllReviews) == [R1, R3]
    ensures Filtered(Stars(5), AllReviews) == [R3]
    ensures Filtered(Stars(4), AllReviews) == [R1]
    ensures Filtered(Stars(3), AllReviews) == []
    ensures Filtered(Stars(2), AllReviews) == []
    ensures Filtered(Stars(1), AllReviews) == []
  {
    assert AllReviews[1..] == [R3] && [R3][1..] == [];
    assert KeepStars([R3], 5) == [R3];
    assert KeepStars([R3], 4) == [];
  }

  /** The chips, in the order the screen lists them. */
  const ChipOrder: seq<Filter> := [All, Stars(5), Stars(4), Stars(3), Stars(2), Stars(1)]

  /** Where `item` sits in the chip row: every filter value has exactly one
      chip. */
  function ChipIndex(item: Filter): (i: nat)
    ensures i < |ChipOrder| && ChipOrder[i] == item
    ensures forall j :: 0 <= j < |ChipOrder| && ChipOrder[j] == item ==> j == i
  {
    if item.All? then 0 else 6 - item.n
  }

  /** `String(item)`: the list key of a chip. It is "all" only for the "all"
      chip; a star chip's key is the single digit of its value, which reads
      back as that value. */
  function ChipKey(item: Filter): (k: string)
    ensures k == "all" <==> item.All?
    ensures item.Stars? ==> k == [DigitChar(item.n)] && ParseDecimal(k) == item.n
  {
    if item.All? then "all"
    else
      DecimalRoundTrip(item.n);
      assert "all"[0] == 'a';
      DecimalString(item.n)
  }

  /** The text on a chip: "All" for the "all" chip, and otherwise the single
      digit of the star value, which reads back as that value. */
  function ChipLabel(item: Filter): (t: string)
    ensures t == "All" <==> item.All?
    ensures item.Stars? ==> t == [DigitChar(item.n)] && ParseDecimal(t) == item.n
  {
    if item.All? then "All"
    else
      assert "All"[0] == 'A';
      ChipKey(item)
  }

  /** A rendered chip: its key, its text, whether it is highlighted, and the
      filter a press selects. */
  datatype Chip = Chip(key: string, text: string, selected: bool, onPress: Filter)

  /** The chip row for the current filter: six chips keyed "all", "5" … "1",
      labelled "All", "5" … "1", selecting the filter in that order, and
      exactly one of them highlighted, the chip of the current filter. */
  function Chips(current: Filter): (cs: seq<Chip>)
    ensures |cs| == 6
    ensures [cs[0].key, cs[1].key, cs[2].key, cs[3].key, cs[4].key, cs[5].key]
         == ["all", "5", "4", "3", "2", "1"]
    ensures [cs[0].text, cs[1].text, cs[2].text, cs[3].text, cs[4].text, cs[5].text]
         == ["All", "5", "4", "3", "2", "1"]
    ensures [cs[0].onPress, cs[1].onPress, cs[2].onPress, cs[3].onPress, cs[4].onPress, cs[5].onPress]
         == [All, Stars(5), Stars(4), Stars(3), Stars(2), Stars(1)]
    ensures forall i :: 0 <= i < |cs| ==> (cs[i].selected <==> i == ChipIndex(current))
  {
    seq(|ChipOrder|, i requires 0 <= i < |ChipOrder| =>
      Chip(ChipKey(ChipOrder[i]), ChipLabel(ChipOrder[i]), ChipOrder[i] == current, ChipOrder[i]))
  }

  /** Each filter value has exactly one chip, and it is the selected one. */
  lemma ExactlyOneChipSelected(current: Filter) returns (i: nat)
    ensures i < |ChipOrder| && ChipOrder[i] == current && Chips(current)[i].selected
    ensures forall j :: 0 <= j < |ChipOrder| && Chips(current)[j].selected ==> j == i
  {
    i := ChipIndex(current);
  }

  /** No two chips share a label or a list key. */
  lemma ChipsDistinct(current: Filter)
    ensures forall i, j :: 0 <= i < j < |ChipOrder| ==>
      Chips(current)[i].key != Chips(current)[j].key && Chips(current)[i].text != Chips(current)[j].text
  {
  }

  /** Where the sign-in guard sends the screen. */
  const LoginRoute: string := "/login"

  /** What the screen produces. */
  datatype ReviewsView =
    | Blank
    | Redirect(href: string)
    | ReviewList(chips: seq<Chip>, shown: seq<Review>)

  /** The screen as a function of the gate's two flags, the current filter
      and the reviews. */
  function ReviewsScreen(isReady: bool, isSignedIn: bool, filter: Filter, reviews: seq<Review>): (v: ReviewsView)
    ensures v == Blank <==> !isReady
    ensures v == Redirect(LoginRoute) <==> isReady && !isSignedIn
    ensures v.ReviewList? <==> isReady && isSignedIn
    ensures v.ReviewList? ==> v.chips == Chips(filter) && v.shown == Filtered(filter, reviews)
  {
    if !isReady then Blank
    else if !isSignedIn then Redirect(LoginRoute)
    else ReviewList(Chips(filter), Filtered(filter, reviews))
  }

  /** Pressing a chip selects its filter: the next render highlights that
      chip alone and shows what that filter keeps. */
  lemma PressSelects(current: Filter, k: nat, reviews: seq<Review>)
    requires k < |ChipOrder|
    ensures var next := Chips(current)[k].onPress;
      && Chips(next)[k].selected
      && (forall j :: 0 <= j < |ChipOrder| && j != k ==> !Chips(next)[j].selected)
      && ReviewsScreen(true, true, next, reviews).shown == Filtered(ChipOrder[k], reviews)
  {
    var next := Chips(current)[k].onPress;
    var i := ExactlyOneChipSelected(next);
    assert i == k;
  }
}
