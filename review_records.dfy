/** Value-level meaning of the review list kept by `RestaurantReviewer`:
    the review record, case folding of restaurant names, the filter behind
    `get_reviews_for_restaurant` and the mean behind `get_average_rating`. */
module ReviewRecords {

  /** One stored review: the four keys of the dictionary the store appends. */
  datatype Review = Review(restaurantName: string, reviewerName: string, rating: int, comment: string)

  datatype Option<+T> = None | Some(value: T)

  /** The rating check of `add_review`: both bounds are inclusive. */
  predicate ValidRating(rating: int) {
    1 <= rating <= 5
  }

  /** Every review of `rs` carries a rating that `add_review` would accept. */
  predicate AllRatingsValid(rs: seq<Review>) {
    forall r :: r in rs ==> ValidRating(r.rating)
  }

  /** ASCII lower-casing of one character. */
  function LowerChar(c: char): (d: char)
    ensures 'A' <= c <= 'Z' ==> 'a' <= d <= 'z' && d as int - c as int == 'a' as int - 'A' as int
    ensures !('A' <= c <= 'Z') ==> d == c
  {
    if 'A' <= c <= 'Z' then (c as int - 'A' as int + 'a' as int) as char else c
  }

  /** ASCII lower-casing of a string, character by character. */
  function Lower(s: string): (t: string)
    ensures |t| == |s|
  {
    if s == [] then [] else [LowerChar(s[0])] + Lower(s[1..])
  }

  /** Lower-casing a lower-cased string changes nothing. */
  lemma {:induction false} LowerIdempotent(s: string)
    ensures Lower(Lower(s)) == Lower(s)
  {
    if s != [] {
      LowerIdempotent(s[1..]);
      assert Lower(s)[1..] == Lower(s[1..]);
    }
  }

  /** Lower-casing works piece by piece. */
  lemma {:induction false} LowerAppend(a: string, b: string)
    ensures Lower(a + b) == Lower(a) + Lower(b)
  {
    if a != [] {
      assert (a + b)[1..] == a[1..] + b;
      LowerAppend(a[1..], b);
    } else {
      assert a + b == b;
    }
  }

  /** The restaurant name of the example usage matches its lower-case spelling. */
  lemma LowerExample()
    ensures Lower("Pizza Palace") == Lower("pizza palace")
  {
    var first, second := "izza ", "alace";
    assert "Pizza Palace" == "P" + (first + ("P" + second));
    assert "pizza palace" == "p" + (first + ("p" + second));
    LowerAppend("P", first + ("P" + second));
    LowerAppend("p", first + ("p" + second));
    LowerAppend(first, "P" + second);
    LowerAppend(first, "p" + second);
    LowerAppend("P", second);
    LowerAppend("p", second);
    assert Lower("P") == Lower("p");
  }

  /** The comparison in the list comprehension of `get_reviews_for_restaurant`. */
  predicate SameRestaurant(r: Review, name: string) {
    Lower(r.restaurantName) == Lower(name)
  }

  /** The reviews of `rs` whose restaurant name equals `name` ignoring case,
      in the order of `rs`. */
  function Filter(rs: seq<Review>, name: string): (f: seq<Review>)
    ensures |f| <= |rs|
    ensures forall x :: x in f <==> x in rs && SameRestaurant(x, name)
  {
    if rs == [] then []
    else if SameRestaurant(rs[0], name) then [rs[0]] + Filter(rs[1..], name)
    else Filter(rs[1..], name)
  }

  /** A query comes back empty exactly when no stored review matches. */
  lemma FilterEmpty(rs: seq<Review>, name: string)
    ensures Filter(rs, name) == [] <==> forall x :: x in rs ==> !SameRestaurant(x, name)
  {
    if Filter(rs, name) != [] {
      assert Filter(rs, name)[0] in Filter(rs, name);
    }
  }

  /** `a` can be obtained from `b` by deleting elements, keeping the order. */
  ghost predicate IsSubseq<T>(a: seq<T>, b: seq<T>)
    decreases |b|
  {
    if a == [] then true
    else if b == [] then false
    else (a[0] == b[0] && IsSubseq(a[1..], b[1..])) || IsSubseq(a, b[1..])
  }

  /** The filter result is a subsequence of the stored list: same order, no
      element invented. */
  lemma {:induction false} FilterIsSubseq(rs: seq<Review>, name: string)
    ensures IsSubseq(Filter(rs, name), rs)
  {
    if rs != [] {
      FilterIsSubseq(rs[1..], name);
      var f := Filter(rs, name);
      if SameRestaurant(rs[0], name) {
        assert f[0] == rs[0] && f[1..] == Filter(rs[1..], name);
      }
    }
  }

  /** The filter keeps every matching occurrence and drops every other one. */
  lemma {:induction false} FilterMultiplicity(rs: seq<Review>, name: string)
    ensures forall x :: multiset(Filter(rs, name))[x] == if SameRestaurant(x, name) then multiset(rs)[x] else 0
  {
    if rs != [] {
      FilterMultiplicity(rs[1..], name);
      assert rs == [rs[0]] + rs[1..];
    }
  }

  /** Filtering distributes over concatenation. */
  lemma {:induction false} FilterAppend(a: seq<Review>, b: seq<Review>, name: string)
    ensures Filter(a + b, name) == Filter(a, name) + Filter(b, name)
  {
    if a != [] {
      assert (a + b)[1..] == a[1..] + b;
      FilterAppend(a[1..], b, name);
    } else {
      assert a + b == b;
    }
  }

  /** After appending one review, a query sees exactly the old answer plus that
      review when its restaurant name matches. */
  lemma FilterAfterAppend(rs: seq<Review>, r: Review, name: string)
    ensures Filter(rs + [r], name) == Filter(rs, name) + (if SameRestaurant(r, name) then [r] else [])
  {
    FilterAppend(rs, [r], name);
    assert [r][1..] == [];
  }

  /** The query does not depend on case: names that lower-case alike select
      the same reviews. */
  lemma {:induction false} FilterCaseInsensitive(rs: seq<Review>, n1: string, n2: string)
    requires Lower(n1) == Lower(n2)
    ensures Filter(rs, n1) == Filter(rs, n2)
  {
    if rs != [] {
      FilterCaseInsensitive(rs[1..], n1, n2);
    }
  }

  /** Querying with the lower-cased name gives the same answer. */
  lemma FilterLowerName(rs: seq<Review>, name: string)
    ensures Filter(rs, Lower(name)) == Filter(rs, name)
  {
    LowerIdempotent(name);
    FilterCaseInsensitive(rs, Lower(name), name);
  }

  /** `sum(review["rating"] for review in rs)`. */
  function SumRatings(rs: seq<Review>): int
  {
    if rs == [] then 0 else rs[0].rating + SumRatings(rs[1..])
  }

  /** Valid ratings sum to between one and five times the count. */
  lemma {:induction false} SumRatingsBounds(rs: seq<Review>)
    requires AllRatingsValid(rs)
    ensures |rs| <= SumRatings(rs) <= 5 * |rs|
  {
    if rs != [] {
      SumRatingsBounds(rs[1..]);
    }
  }

  /** The arithmetic mean of the ratings, absent for an empty list (the
      `None` of `get_average_rating`); exact, not floating point. */
  function Mean(rs: seq<Review>): (m: Option<real>)
    ensures m.None? <==> rs == []
  {
    if rs == [] then None else Some(SumRatings(rs) as real / |rs| as real)
  }

  /** A present mean, times the number of reviews, gives their rating total. */
  lemma MeanTimesCount(rs: seq<Review>)
    requires rs != []
    ensures Mean(rs).value * (|rs| as real) == SumRatings(rs) as real
  {
  }

  /** The mean of valid ratings is itself a valid rating value. */
  lemma MeanInRange(rs: seq<Review>)
    requires AllRatingsValid(rs)
    requires rs != []
    ensures 1.0 <= Mean(rs).value <= 5.0
  {
    SumRatingsBounds(rs);
    QuotientBounds(SumRatings(rs), |rs|);
    assert Mean(rs).value == SumRatings(rs) as real / |rs| as real;
  }

  /** A total between 1 and 5 times a positive count gives a quotient in [1, 5]. */
  lemma QuotientBounds(s: int, k: int)
    requires 0 < k <= s <= 5 * k
    ensures 1.0 <= s as real / k as real <= 5.0
  {
    var q := s as real / k as real;
    var n := k as real;
    assert q * n == s as real;
    assert (5 * k) as real == 5.0 * n;
    ScaleBound(q, 1.0, n);
    ScaleBound(5.0, q, n);
  }

  /** The average of `get_average_rating` is absent exactly when no stored
      review matches the name. */
  lemma AverageAbsent(rs: seq<Review>, name: string)
    ensures Mean(Filter(rs, name)).None? <==> forall x :: x in rs ==> !SameRestaurant(x, name)
  {
    FilterEmpty(rs, name);
  }

  /** The average of a restaurant whose stored ratings are all valid lies in
      [1, 5]. */
  lemma AverageInRange(rs: seq<Review>, name: string)
    ensures Mean(Filter(rs, name)).Some? && AllRatingsValid(rs) ==> 1.0 <= Mean(Filter(rs, name)).value <= 5.0
  {
    var f := Filter(rs, name);
    if f != [] && AllRatingsValid(rs) {
      MeanInRange(f);
    }
  }

  /** Multiplying by a positive factor keeps the order of two reals. */
  lemma ScaleBound(a: real, b: real, n: real)
    requires 0.0 < n && b * n <= a * n
    ensures b <= a
  {
  }

  /** Ratings 5, 4 and 3 average to exactly 4. */
  lemma MeanExample()
    ensures Mean([Review("X", "A", 5, ""), Review("X", "B", 4, ""), Review("X", "C", 3, "")]) == Some(4.0)
  {
    var rs := [Review("X", "A", 5, ""), Review("X", "B", 4, ""), Review("X", "C", 3, "")];
    assert SumRatings(rs) == 12 by {
      assert rs[1..][1..][1..] == [];
    }
  }
}
