/** Value-level meaning of the `categorized_reviews` dictionary kept by
    `CategorizedRestaurantReviewer`: a map from cuisine to the reviews added
    under it, and how it relates to the flat review list. */
module CuisineIndex {
  import opened ReviewRecords

  type Buckets = map<string, seq<Review>>

  /** `categorized_reviews.get(cuisine, [])`. */
  function BucketOf(m: Buckets, cuisine: string): (b: seq<Review>)
    ensures cuisine !in m ==> b == []
    ensures cuisine in m ==> b == m[cuisine]
  {
    if cuisine in m then m[cuisine] else []
  }

  /** The bucket update of the categorized `add_review`: make an empty bucket
      for a new cuisine, then append the review to it. It touches exactly one
      bucket: that one ends with the new review, and every other cuisine keeps
      its bucket, or its absence. */
  function Bucketed(m: Buckets, cuisine: string, r: Review): (m': Buckets)
    ensures m'.Keys == m.Keys + {cuisine}
    ensures BucketOf(m', cuisine) == BucketOf(m, cuisine) + [r]
    ensures forall other :: other != cuisine && other in m ==> m'[other] == m[other]
  {
    var withBucket := if cuisine !in m then m[cuisine := []] else m;
    withBucket[cuisine := withBucket[cuisine] + [r]]
  }

  /** The reviews of `rs` whose cuisine tag (the entry of `tags` at the same
      index) is `cuisine`, in the order of `rs`. */
  function Tagged(rs: seq<Review>, tags: seq<string>, cuisine: string): (t: seq<Review>)
    requires |rs| == |tags|
    ensures |t| <= |rs|
    ensures forall x :: x in t ==> x in rs
  {
    if rs == [] then []
    else (if tags[0] == cuisine then [rs[0]] else []) + Tagged(rs[1..], tags[1..], cuisine)
  }

  lemma {:induction false} TaggedAppend(rs: seq<Review>, tags: seq<string>, r: Review, t: string, cuisine: string)
    requires |rs| == |tags|
    ensures Tagged(rs + [r], tags + [t], cuisine) == Tagged(rs, tags, cuisine) + (if t == cuisine then [r] else [])
  {
    if rs == [] {
      assert rs + [r] == [r] && tags + [t] == [t];
    } else {
      assert (rs + [r])[1..] == rs[1..] + [r];
      assert (tags + [t])[1..] == tags[1..] + [t];
      assert (rs + [r])[0] == rs[0] && (tags + [t])[0] == tags[0];
      TaggedAppend(rs[1..], tags[1..], r, t, cuisine);
      var head := if tags[0] == cuisine then [rs[0]] else [];
      assert Tagged(rs + [r], tags + [t], cuisine) == head + Tagged(rs[1..] + [r], tags[1..] + [t], cuisine);
    }
  }

  /** A cuisine's reviews are a subsequence of the flat list. */
  lemma {:induction false} TaggedIsSubseq(rs: seq<Review>, tags: seq<string>, cuisine: string)
    requires |rs| == |tags|
    ensures IsSubseq(Tagged(rs, tags, cuisine), rs)
  {
    if rs != [] {
      TaggedIsSubseq(rs[1..], tags[1..], cuisine);
      var t := Tagged(rs, tags, cuisine);
      if tags[0] == cuisine {
        assert t[0] == rs[0] && t[1..] == Tagged(rs[1..], tags[1..], cuisine);
      } else {
        assert t == Tagged(rs[1..], tags[1..], cuisine);
      }
    }
  }

  /** The buckets obtained by running the categorized `add_review` bucket
      update for each review of `rs`, in order, under the cuisine at the same
      index of `tags`, starting from the empty dictionary. */
  function Replay(rs: seq<Review>, tags: seq<string>): Buckets
    requires |rs| == |tags|
    decreases |rs|
  {
    if rs == [] then map[]
    else Bucketed(Replay(rs[..|rs| - 1], tags[..|tags| - 1]), tags[|tags| - 1], rs[|rs| - 1])
  }

  /** The sync invariant between the flat list and the buckets: `tags` records
      the cuisine of each review and the buckets are what the adds built. */
  ghost predicate SyncedWith(rs: seq<Review>, tags: seq<string>, m: Buckets) {
    |rs| == |tags| && m == Replay(rs, tags)
  }

  /** Adding a review to both collections keeps them in sync. */
  lemma SyncedAfterAdd(rs: seq<Review>, tags: seq<string>, m: Buckets, r: Review, cuisine: string)
    requires SyncedWith(rs, tags, m)
    ensures SyncedWith(rs + [r], tags + [cuisine], Bucketed(m, cuisine, r))
  {
    assert (rs + [r])[..|rs|] == rs;
    assert (tags + [cuisine])[..|tags|] == tags;
  }

  /** Each replayed bucket holds exactly the reviews tagged with its cuisine,
      in insertion order. */
  lemma {:induction false} ReplayLookup(rs: seq<Review>, tags: seq<string>, cuisine: string)
    requires |rs| == |tags|
    ensures BucketOf(Replay(rs, tags), cuisine) == Tagged(rs, tags, cuisine)
  {
    if rs != [] {
      var n := |rs| - 1;
      ReplayLookup(rs[..n], tags[..n], cuisine);
      TaggedAppend(rs[..n], tags[..n], rs[n], tags[n], cuisine);
      assert rs[..n] + [rs[n]] == rs;
      assert tags[..n] + [tags[n]] == tags;
    }
  }

  /** A bucket exists for exactly the cuisines some review was added under. */
  lemma {:induction false} ReplayKeys(rs: seq<Review>, tags: seq<string>)
    requires |rs| == |tags|
    ensures Replay(rs, tags).Keys == set t | t in tags
  {
    if rs != [] {
      var n := |rs| - 1;
      ReplayKeys(rs[..n], tags[..n]);
      assert tags[..n] + [tags[n]] == tags;
      assert (set t | t in tags) == (set t | t in tags[..n]) + {tags[n]};
    }
  }

  /** The total number of reviews over all buckets. */
  ghost function BucketTotal(m: Buckets): nat
    decreases |m|
  {
    if m == map[] then 0
    else
      var k :| k in m;
      assert |m - {k}| < |m| by { assert (m - {k}).Keys < m.Keys; }
      |m[k]| + BucketTotal(m - {k})
  }

  /** The total does not depend on which bucket is counted first. */
  lemma {:induction false} BucketTotalRemove(m: Buckets, k: string)
    requires k in m
    ensures BucketTotal(m) == |m[k]| + BucketTotal(m - {k})
    decreases |m|
  {
    var j :| j in m && BucketTotal(m) == |m[j]| + BucketTotal(m - {j});
    if j != k {
      assert (m - {j}).Keys < m.Keys && (m - {k}).Keys < m.Keys;
      BucketTotalRemove(m - {j}, k);
      BucketTotalRemove(m - {k}, j);
      assert m - {j} - {k} == m - {k} - {j};
    }
  }

  /** The bucket update adds exactly one review to the total. */
  lemma BucketTotalBucketed(m: Buckets, cuisine: string, r: Review)
    ensures BucketTotal(Bucketed(m, cuisine, r)) == BucketTotal(m) + 1
  {
    var m' := Bucketed(m, cuisine, r);
    BucketTotalRemove(m', cuisine);
    assert m' - {cuisine} == m - {cuisine};
    if cuisine in m {
      BucketTotalRemove(m, cuisine);
    } else {
      assert m - {cuisine} == m;
    }
  }

  /** When every review went through the categorized `add_review`, the bucket
      sizes sum to the length of the flat list. */
  lemma {:induction false} SyncedTotal(rs: seq<Review>, tags: seq<string>, m: Buckets)
    requires SyncedWith(rs, tags, m)
    ensures BucketTotal(m) == |rs|
    decreases |rs|
  {
    if rs != [] {
      var n := |rs| - 1;
      SyncedTotal(rs[..n], tags[..n], Replay(rs[..n], tags[..n]));
      BucketTotalBucketed(Replay(rs[..n], tags[..n]), tags[n], rs[n]);
    }
  }

  /** Replacing the flat list with an empty one (a load) while keeping a
      non-empty bucket leaves no cuisine record that explains the buckets. */
  lemma LoadBreaksSync(m: Buckets, cuisine: string)
    requires cuisine in m && m[cuisine] != []
    ensures forall tags :: !SyncedWith([], tags, m)
  {
  }
}
