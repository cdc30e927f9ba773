/** The two store classes of the reviewer: the flat review list of
    `RestaurantReviewer`, and `CategorizedRestaurantReviewer`, which adds a
    dictionary of cuisine buckets on top of it. */
module ReviewStore {
  import opened ReviewRecords
  import opened CuisineIndex

  /** The text of the `ValueError` raised for a rating out of range. */
  const RatingError := "Rating must be between 1 and 5."

  /** What `add_review` does: return normally, or raise the rating error. */
  datatype AddOutcome = Added | InvalidRating(message: string)

  class RestaurantReviewer {
    /** `self.reviews`: every review, in insertion order. */
    var reviews: seq<Review>

    constructor ()
      ensures reviews == []
    {
      reviews := [];
    }

    /** Checks the rating before anything changes, then appends the record. */
    method AddReview(restaurantName: string, reviewerName: string, rating: int, comment: string)
      returns (outcome: AddOutcome)
      modifies this
      ensures outcome.Added? <==> ValidRating(rating)
      ensures outcome.InvalidRating? ==> outcome.message == RatingError
      ensures reviews == if ValidRating(rating)
                         then old(reviews) + [Review(restaurantName, reviewerName, rating, comment)]
                         else old(reviews)
      ensures old(AllRatingsValid(reviews)) ==> AllRatingsValid(reviews)
    {
      if !(1 <= rating <= 5) {
        return InvalidRating(RatingError);
      }
      var review := Review(restaurantName, reviewerName, rating, comment);
      reviews := reviews + [review];
      outcome := Added;
    }

    /** The reviews whose restaurant name matches ignoring case, and no other;
        in insertion order and with their multiplicities, as proved about
        `Filter`. */
    function GetReviewsForRestaurant(restaurantName: string): (r: seq<Review>)
      reads this
      ensures forall x :: x in r <==> x in reviews && SameRestaurant(x, restaurantName)
    {
      Filter(reviews, restaurantName)
    }

    /** The mean rating of the matching reviews, or `None` when there is none. */
    function GetAverageRating(restaurantName: string): (r: Option<real>)
      reads this
      ensures r.None? <==> forall x :: x in reviews ==> !SameRestaurant(x, restaurantName)
      ensures r.Some? && AllRatingsValid(reviews) ==> 1.0 <= r.value <= 5.0
    {
      AverageAbsent(reviews, restaurantName);
      AverageInRange(reviews, restaurantName);
      var restaurantReviews := Filter(reviews, restaurantName);
      Mean(restaurantReviews)
    }

    /** The list that `save_reviews_to_file` writes out. */
    method SaveReviewsToFile() returns (snapshot: seq<Review>)
      ensures snapshot == reviews
    {
      snapshot := reviews;
    }

    /** `load_reviews_from_file`: `file` is what the file holds, or `None`
        when it does not exist, in which case the list is kept. */
    method LoadReviewsFromFile(file: Option<seq<Review>>)
      modifies this
      ensures reviews == if file.Some? then file.value else old(reviews)
    {
      if file.Some? {
        reviews := file.value;
      }
    }
  }

  class CategorizedRestaurantReviewer {
    /** The base store whose `add_review` is called first; its list, queries
        and load/save are the inherited ones. */
    const base: RestaurantReviewer
    /** `self.categorized_reviews`: cuisine to the reviews added under it. */
    var categorizedReviews: Buckets
    /** The cuisine of each review in `base.reviews`, in order, as long as
        only this class's `AddReview` was used. */
    ghost var cuisineLog: seq<string>

    /** The flat list and the buckets agree. */
    ghost predicate Synced()
      reads this, base
    {
      SyncedWith(base.reviews, cuisineLog, categorizedReviews)
    }

    constructor ()
      ensures fresh(base) && base.reviews == [] && categorizedReviews == map[]
      ensures Synced()
    {
      base := new RestaurantReviewer();
      categorizedReviews := map[];
      cuisineLog := [];
    }

    /** Delegates the check and the append to the base store, then appends
        an equal record to the cuisine's bucket, creating it on first use. */
    method AddReview(restaurantName: string, reviewerName: string, rating: int, comment: string, cuisineType: string)
      returns (outcome: AddOutcome)
      modifies this, base
      ensures outcome.Added? <==> ValidRating(rating)
      ensures outcome.InvalidRating? ==> outcome.message == RatingError
      ensures base.reviews == if ValidRating(rating)
                              then old(base.reviews) + [Review(restaurantName, reviewerName, rating, comment)]
                              else old(base.reviews)
      ensures categorizedReviews == if ValidRating(rating)
                                    then Bucketed(old(categorizedReviews), cuisineType, Review(restaurantName, reviewerName, rating, comment))
                                    else old(categorizedReviews)
      ensures cuisineLog == if ValidRating(rating) then old(cuisineLog) + [cuisineType] else old(cuisineLog)
      ensures old(Synced()) ==> Synced()
    {
      outcome := base.AddReview(restaurantName, reviewerName, rating, comment);
      if outcome.InvalidRating? {
        return;
      }
      if cuisineType !in categorizedReviews {
        categorizedReviews := categorizedReviews[cuisineType := []];
      }
      var review := Review(restaurantName, reviewerName, rating, comment);
      categorizedReviews := categorizedReviews[cuisineType := categorizedReviews[cuisineType] + [review]];
      if old(Synced()) {
        SyncedAfterAdd(old(base.reviews), cuisineLog, old(categorizedReviews), review, cuisineType);
      }
      cuisineLog := cuisineLog + [cuisineType];
    }

    /** The bucket of a cuisine, or an empty list for one never added. */
    function GetReviewsByCuisine(cuisineType: string): (r: seq<Review>)
      reads this
      ensures cuisineType !in categorizedReviews ==> r == []
      ensures cuisineType in categorizedReviews ==> r == categorizedReviews[cuisineType]
    {
      BucketOf(categorizedReviews, cuisineType)
    }
  }

  /** A restaurant query returns the matching reviews in insertion order, each
      as often as it is stored, and nothing else. */
  lemma RestaurantQueryExact(reviewer: RestaurantReviewer, restaurantName: string)
    ensures IsSubseq(reviewer.GetReviewsForRestaurant(restaurantName), reviewer.reviews)
    ensures forall x :: multiset(reviewer.GetReviewsForRestaurant(restaurantName))[x]
                        == if SameRestaurant(x, restaurantName) then multiset(reviewer.reviews)[x] else 0
  {
    FilterIsSubseq(reviewer.reviews, restaurantName);
    FilterMultiplicity(reviewer.reviews, restaurantName);
  }

  /** While the store is in sync, a cuisine query returns exactly the reviews
      added under that cuisine, in insertion order, all of them taken from the
      flat list; a bucket exists exactly for the cuisines used so far; and the
      bucket sizes add up to the length of the flat list. */
  lemma CuisineQueryWhenSynced(reviewer: CategorizedRestaurantReviewer, cuisineType: string)
    requires reviewer.Synced()
    ensures reviewer.GetReviewsByCuisine(cuisineType) == Tagged(reviewer.base.reviews, reviewer.cuisineLog, cuisineType)
    ensures IsSubseq(reviewer.GetReviewsByCuisine(cuisineType), reviewer.base.reviews)
    ensures cuisineType in reviewer.categorizedReviews <==> cuisineType in reviewer.cuisineLog
    ensures BucketTotal(reviewer.categorizedReviews) == |reviewer.base.reviews|
  {
    ReplayKeys(reviewer.base.reviews, reviewer.cuisineLog);
    ReplayLookup(reviewer.base.reviews, reviewer.cuisineLog, cuisineType);
    TaggedIsSubseq(reviewer.base.reviews, reviewer.cuisineLog, cuisineType);
    SyncedTotal(reviewer.base.reviews, reviewer.cuisineLog, reviewer.categorizedReviews);
  }

  /** The example usage of the module, for any two valid reviews filed under
      two different cuisines: each is found under its own cuisine only, and a
      third cuisine has no reviews. */
  method ExampleUsage(pizza: Review, sushi: Review, italian: string, japanese: string, thai: string)
    requires ValidRating(pizza.rating) && ValidRating(sushi.rating)
    requires italian != japanese && thai != italian && thai != japanese
  {
    var reviewer := new CategorizedRestaurantReviewer();
    var o1 := reviewer.AddReview(pizza.restaurantName, pizza.reviewerName, pizza.rating, pizza.comment, italian);
    var o2 := reviewer.AddReview(sushi.restaurantName, sushi.reviewerName, sushi.rating, sushi.comment, japanese);
    assert o1 == Added && o2 == Added;
    assert reviewer.base.reviews == [pizza, sushi];
    var italianReviews := reviewer.GetReviewsByCuisine(italian);
    var japaneseReviews := reviewer.GetReviewsByCuisine(japanese);
    var thaiReviews := reviewer.GetReviewsByCuisine(thai);
    assert italianReviews == [pizza] && japaneseReviews == [sushi] && thaiReviews == [];
    CuisineQueryWhenSynced(reviewer, italian);
    assert BucketTotal(reviewer.categorizedReviews) == 2;
  }

  /** An out-of-range rating is refused with the rating error and leaves the
      list and the buckets as they were. */
  method RejectedRatingExample(first: Review, bad: Review, cuisine: string)
    requires ValidRating(first.rating) && !ValidRating(bad.rating)
  {
    var reviewer := new CategorizedRestaurantReviewer();
    var o1 := reviewer.AddReview(first.restaurantName, first.reviewerName, first.rating, first.comment, cuisine);
    var reviews, buckets := reviewer.base.reviews, reviewer.categorizedReviews;
    var rejected := reviewer.AddReview(bad.restaurantName, bad.reviewerName, bad.rating, bad.comment, cuisine);
    assert rejected == InvalidRating(RatingError);
    assert reviewer.base.reviews == reviews == [first] && reviewer.categorizedReviews == buckets;
  }

  /** A query finds the reviews of its restaurant, whatever the case of the
      name it is given, and not the others. */
  method QueryExample(pizza: Review, sushi: Review, query: string)
    requires ValidRating(pizza.rating) && ValidRating(sushi.rating)
    requires Lower(query) == Lower(pizza.restaurantName) != Lower(sushi.restaurantName)
  {
    var reviewer := new RestaurantReviewer();
    var o1 := reviewer.AddReview(pizza.restaurantName, pizza.reviewerName, pizza.rating, pizza.comment);
    var o2 := reviewer.AddReview(sushi.restaurantName, sushi.reviewerName, sushi.rating, sushi.comment);
    assert reviewer.reviews == [pizza, sushi];
    assert [pizza, sushi][1..] == [sushi] && [sushi][1..] == [];
    assert Filter([sushi], query) == [];
    assert Filter([pizza, sushi], query) == [pizza];
    var found := reviewer.GetReviewsForRestaurant(query);
    assert found == [pizza];
  }

  /** Saving and loading into a fresh store reproduces the flat list but not
      the cuisine buckets; loading a missing file keeps the list. */
  method SnapshotExample(review: Review, cuisine: string)
    requires ValidRating(review.rating)
  {
    var reviewer := new CategorizedRestaurantReviewer();
    var o1 := reviewer.AddReview(review.restaurantName, review.reviewerName, review.rating, review.comment, cuisine);
    var snapshot := reviewer.base.SaveReviewsToFile();
    var restored := new CategorizedRestaurantReviewer();
    restored.base.LoadReviewsFromFile(Some(snapshot));
    assert restored.base.reviews == reviewer.base.reviews == [review];
    var lost := restored.GetReviewsByCuisine(cuisine);
    assert lost == [] && !restored.Synced();
    reviewer.base.LoadReviewsFromFile(None);
    assert reviewer.base.reviews == snapshot;
  }
}
