# Restaurant reviewer: verified model of the in-memory review store

`restaurant_reviewer.py` keeps restaurant reviews in memory. There are two classes.

`RestaurantReviewer` holds a flat list of review records. Each record has a
restaurant name, a reviewer name, a rating and a comment.

- `add_review` refuses a rating outside 1..5 with a `ValueError`, and otherwise
  appends the record.
- `get_reviews_for_restaurant` returns the records whose restaurant name matches
  the query, ignoring case.
- `get_average_rating` returns their mean rating, or `None` when there is no match.
- `save_reviews_to_file` writes the list out.
- `load_reviews_from_file` replaces the list with what the file holds. When the
  file does not exist, it leaves the list alone.

`CategorizedRestaurantReviewer` extends the base class with a dictionary from
cuisine to a bucket of reviews.

- Its `add_review` first calls the base `add_review`. When that succeeds, it
  appends an equal record to the cuisine's bucket, creating the bucket the first
  time the cuisine is used.
- `get_reviews_by_cuisine` returns a cuisine's bucket, or an empty list for a
  cuisine nobody has used.

The project has three modules.

- `ReviewRecords` (`review_records.dfy`) holds the value-level meaning of the
  flat list. It defines the `Review` record, the rating check, ASCII case
  folding (`Lower`), the case-insensitive `Filter` behind the restaurant
  query, and the exact `Mean` behind the average.
- `CuisineIndex` (`cuisine_index.dfy`) holds the value-level meaning of the
  cuisine dictionary:
  - `Bucketed` is the bucket update of one categorized add.
  - `Replay` is the dictionary that a sequence of adds builds. In `Replay`, each
    review is paired with the cuisine it was filed under.
  - `SyncedWith` is the invariant "the buckets are what the adds built".
- `ReviewStore` (`review_store.dfy`) holds the two classes as Dafny classes.
  - Their mutable state is a `seq<Review>` field and a `map<string, seq<Review>>` field.
  - Their mutating methods carry `modifies` clauses, and their queries are
    functions with `reads` clauses.
  - It also holds client scenarios. `ExampleUsage` follows the module's
    example usage, and three more scenarios exercise a rejected rating, a
    case-insensitive query and a save/load round trip.

Python inheritance is modelled as composition. A `CategorizedRestaurantReviewer`
owns a `base: RestaurantReviewer`, and its `AddReview` delegates to it just as
`super().add_review` does. The inherited queries and load/save are reached
through `base`. Calling `base.AddReview` on a categorized store is the add
without a bucket update, the same as calling `RestaurantReviewer.add_review`
explicitly on a categorized object in Python. It leaves the store out of sync.

The categorized class has a ghost field, `cuisineLog`, which records the cuisine
of each review in the flat list. Its `Synced()` predicate states that the buckets
equal `Replay(base.reviews, cuisineLog)`. The constructor establishes
`Synced()`, and the categorized `AddReview` preserves it. While it holds, each
bucket is exactly the subsequence of the flat list filed under its cuisine, and
the bucket sizes sum to the length of the flat list.

Where the code and its log text disagree, the model follows the code. On a
missing file, the load message says it starts with an empty review list. The
code keeps the current list, which is empty only on a fresh store, and
`LoadReviewsFromFile(None)` models that.

## Model

| member | source | states |
|---|---|---|
| ReviewStore.RestaurantReviewer.constructor | restaurant_reviewer.py:5-6 | a new store has an empty review list |
| ReviewStore.RestaurantReviewer.AddReview | restaurant_reviewer.py:8-21 | the outcome is success exactly when `1 <= rating <= 5`, and the error carries the text "Rating must be between 1 and 5."; on success the list is the old list plus exactly one record at the end holding the four given fields, otherwise the list is unchanged; the list keeps "all ratings valid" |
| ReviewStore.RestaurantReviewer.GetReviewsForRestaurant | restaurant_reviewer.py:24-28 | reads the state without changing it; a review is in the answer exactly when it is stored and its restaurant name lower-cases to the query's lower-cased form |
| ReviewStore.RestaurantReviewer.GetAverageRating | restaurant_reviewer.py:30-39 | the result is `None` exactly when no stored review matches the name; when all stored ratings are valid, a present average lies in [1, 5] |
| ReviewStore.RestaurantReviewer.SaveReviewsToFile | restaurant_reviewer.py:41-47 | what is saved is the current review list |
| ReviewStore.RestaurantReviewer.LoadReviewsFromFile | restaurant_reviewer.py:49-58 | the list becomes the file's contents, or stays as it was when the file is missing |
| ReviewStore.CategorizedRestaurantReviewer.constructor | restaurant_reviewer.py:63-65 | a fresh base store with an empty list, an empty cuisine dictionary, both in sync |
| ReviewStore.CategorizedRestaurantReviewer.AddReview | restaurant_reviewer.py:67-81 | with a valid rating, the flat list gains the record at the end and the cuisine's bucket gains an equal record; a missing bucket is created first, and others are unchanged. With an invalid rating it returns the rating error, and the list and the buckets are unchanged. The sync invariant is preserved |
| ReviewStore.CategorizedRestaurantReviewer.GetReviewsByCuisine | restaurant_reviewer.py:83-87 | an unused cuisine gives the empty list, and a used one gives its bucket |
| ReviewStore.RestaurantQueryExact | restaurant_reviewer.py:24-28 | a restaurant query returns a subsequence of the stored list, in insertion order; each matching record appears as often as it is stored, and non-matching records never appear |
| ReviewStore.CuisineQueryWhenSynced | restaurant_reviewer.py:71-87 | while in sync, a cuisine query returns exactly the reviews filed under that cuisine in insertion order, and it is a subsequence of the flat list; a bucket exists exactly for the cuisines used; the bucket sizes sum to `len(reviews)` |
| ReviewRecords.LowerChar | restaurant_reviewer.py:28 | upper-case ASCII letters map to their lower-case letter, and every other character is unchanged |
| ReviewRecords.Lower | restaurant_reviewer.py:28 | lower-casing keeps the length of the name |
| ReviewRecords.LowerAppend | restaurant_reviewer.py:28 | lower-casing a concatenation is the concatenation of the lower-cased parts |
| ReviewRecords.LowerExample | restaurant_reviewer.py:28 | the example's restaurant name "Pizza Palace" lower-cases like "pizza palace", so by `FilterCaseInsensitive` both spellings select the same reviews |
| ReviewRecords.LowerIdempotent | restaurant_reviewer.py:28 | lower-casing twice is the same as lower-casing once |
| ReviewRecords.Filter | restaurant_reviewer.py:28 | the result is no longer than the list, and holds exactly the stored reviews whose name matches ignoring case |
| ReviewRecords.FilterEmpty | restaurant_reviewer.py:28-36 | the restaurant query is empty exactly when no stored review matches |
| ReviewRecords.FilterIsSubseq | restaurant_reviewer.py:28 | the query result is a subsequence of the stored list, in insertion order |
| ReviewRecords.FilterMultiplicity | restaurant_reviewer.py:28 | each matching record occurs in the result as often as it is stored, and non-matching records never occur |
| ReviewRecords.FilterAppend | restaurant_reviewer.py:28 | filtering distributes over concatenation of review lists |
| ReviewRecords.FilterAfterAppend | restaurant_reviewer.py:21-28 | after an append, a query returns the old answer plus the new record exactly when its name matches |
| ReviewRecords.FilterCaseInsensitive | restaurant_reviewer.py:28 | two queries whose names lower-case alike return the same list |
| ReviewRecords.FilterLowerName | restaurant_reviewer.py:28 | querying with the lower-cased name returns the same list as the original name |
| ReviewRecords.SumRatingsBounds | restaurant_reviewer.py:12-13 | valid ratings sum to between the count and five times the count |
| ReviewRecords.Mean | restaurant_reviewer.py:35-39 | the mean is absent exactly for an empty list |
| ReviewRecords.MeanTimesCount | restaurant_reviewer.py:38-39 | a present mean times the number of reviews equals the rating total, so it is `total_rating / len` |
| ReviewRecords.MeanInRange | restaurant_reviewer.py:38-39 | the mean of a non-empty list of valid ratings lies in [1, 5] |
| ReviewRecords.QuotientBounds | restaurant_reviewer.py:39 | a total between one and five times a positive count, divided by that count, lies in [1, 5] |
| ReviewRecords.AverageAbsent | restaurant_reviewer.py:34-36 | the average of the filtered reviews is absent exactly when no stored review matches |
| ReviewRecords.AverageInRange | restaurant_reviewer.py:34-39 | when all stored ratings are valid, a present average lies in [1, 5] |
| ReviewRecords.MeanExample | restaurant_reviewer.py:38-39 | ratings 5, 4 and 3 average to exactly 4 |
| CuisineIndex.BucketOf | restaurant_reviewer.py:87 | a missing cuisine gives the empty list, and a present one gives its bucket |
| CuisineIndex.Bucketed | restaurant_reviewer.py:74-81 | the keys gain the cuisine; its bucket (empty if new) gains the record at the end; every other bucket is unchanged |
| CuisineIndex.Tagged | restaurant_reviewer.py:74-81 | the reviews filed under a cuisine are no more than the flat list, and each is taken from it |
| CuisineIndex.TaggedAppend | restaurant_reviewer.py:71-81 | one more add extends a cuisine's selection by the new record exactly when it is filed under that cuisine |
| CuisineIndex.TaggedIsSubseq | restaurant_reviewer.py:71-81 | the reviews filed under a cuisine are a subsequence of the flat list |
| CuisineIndex.SyncedAfterAdd | restaurant_reviewer.py:71-81 | appending a record to the flat list and to its cuisine's bucket keeps them in sync |
| CuisineIndex.ReplayLookup | restaurant_reviewer.py:74-87 | each bucket built by the adds is exactly the reviews filed under its cuisine, in insertion order |
| CuisineIndex.ReplayKeys | restaurant_reviewer.py:74-75 | a bucket exists exactly for each cuisine some review was filed under |
| CuisineIndex.BucketTotalRemove | restaurant_reviewer.py:74-81 | the bucket-size total can be computed starting from any bucket |
| CuisineIndex.BucketTotalBucketed | restaurant_reviewer.py:74-81 | one bucket update adds exactly one to the bucket-size total |
| CuisineIndex.SyncedTotal | restaurant_reviewer.py:71-81 | when every review went through the categorized add, the bucket sizes sum to the length of the flat list |
| CuisineIndex.LoadBreaksSync | restaurant_reviewer.py:53-58 | after the flat list is replaced by an empty one while a non-empty bucket remains, no cuisine record puts the store in sync, because load does not rebuild the buckets |

## Left out

- File I/O and JSON in `save_reviews_to_file` and `load_reviews_from_file`. Save returns the list that would be written, and load takes the file's decoded contents as an `Option`, with `None` for a missing file. Other errors that `open` or `json.load` can raise, such as a decode error, are not modelled. The decoded records are taken as `Review` values, unvalidated, just as the code does not check them.
- The `print` messages after each add, save and load, which are output only.
- `__main__` example usage (restaurant_reviewer.py:92-98): modelled by the client method `ExampleUsage`. It adds two valid reviews under two cuisines and reads back both buckets. It takes the reviews and cuisine names as parameters instead of the literal strings. `RejectedRatingExample`, `QueryExample` and `SnapshotExample` are extra scenarios, not part of the example usage. None of the four has a postcondition, so none is a row of the table.
- The Flask files `app/App_routes.py`, `app/Initialization.py` and `app/Flask code.py` are HTTP routing and wiring over a web framework, and they are not part of this model. As written they would not run. `app/App_routes.py` imports a module `reviewer` and constructs a class `CuisinesRestaurantReviewer` that does not exist, and its first route is misindented. `app/Flask code.py` uses `CategorizedRestaurantReviewer` without importing it, and calls `get_reviews_by_cuisine_type`, a method that does not exist. `app/Initialization.py` registers `App_routes.app.route`, which is not a blueprint.
- Unicode `str.lower()`: case folding is ASCII only (`Lower`). Non-ASCII letters compare as written.
- Float division in `get_average_rating`: the mean is an exact `real`, so IEEE rounding is not modelled.
- Ratings are integers. The Python check would also accept floats, and would raise `TypeError` for values that cannot be compared with the bounds.
- ReviewStore.RestaurantReviewer.GetAverageRating: its own contract states only when the result is `None` and the [1, 5] bound. That the value is `total_rating / len` of the matching reviews is stated by `ReviewRecords.MeanTimesCount` about `Mean(Filter(...))`, which is the function's body.
- ReviewStore.CategorizedRestaurantReviewer.GetReviewsByCuisine: returns a value copy of the bucket. The live list that Python hands out, and mutations through that alias, are not modelled.
- Aliasing of returned records: `get_reviews_for_restaurant` returns the very dictionaries stored in `self.reviews`, and the bucket entries returned by `get_reviews_by_cuisine` are live too. Python code can therefore mutate a returned record, for instance set its rating to 0, without the rating check. The model returns `Review` values, so such mutations are not modelled. The rating-validity guarantee of `AddReview` holds only in the absence of them.
- Inheritance: `CategorizedRestaurantReviewer` reaches the inherited queries and load/save through its `base` field rather than by subclassing.
- Sync after load: load replaces the flat list without rebuilding the buckets, and `Synced()` is not claimed after it. `LoadBreaksSync` and `SnapshotExample` show it can be lost.
