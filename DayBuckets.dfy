/** The day-bucket index of the upload calendar (`postsByDate`): the posts
    grouped under the local calendar day of their time, each group in the
    order of the post list. Each grid cell looks its day up, and a day
    without posts gives the empty list. */
module DayBuckets {
  import opened Sequences
  import opened Schedule
  import Calendar

  /** A day key. `format(date, "yyyy-MM-dd")` names each local calendar day
      by a distinct string, so the day number stands for the key. */
  type DayKey = Calendar.Day

  /** `localDay` is the local-time-zone projection of an instant onto its
      calendar day, what `format(new Date(post.scheduledAt), ...)` computes. */
  function OnDay(localDay: Instant -> DayKey, k: DayKey): ScheduleItem -> bool
  {
    (p: ScheduleItem) => localDay(p.scheduledAt) == k
  }

  /** The posts of day `k`, in list order. */
  function PostsOn(posts: seq<ScheduleItem>, localDay: Instant -> DayKey, k: DayKey): seq<ScheduleItem>
  {
    Filter(posts, OnDay(localDay, k))
  }

  function DayKeys(posts: seq<ScheduleItem>, localDay: Instant -> DayKey): set<DayKey>
  {
    set i | 0 <= i < |posts| :: localDay(posts[i].scheduledAt)
  }

  /** `postsByDate[key] ?? []`. */
  function Lookup(index: map<DayKey, seq<ScheduleItem>>, k: DayKey): seq<ScheduleItem>
  {
    if k in index then index[k] else []
  }

  /** `postsByDate`: a left fold over the posts that appends each post to
      the list under its day key, creating the list on first use. */
  method BucketByDay(posts: seq<ScheduleItem>, localDay: Instant -> DayKey)
    returns (index: map<DayKey, seq<ScheduleItem>>)
    ensures index.Keys == DayKeys(posts, localDay)
    ensures forall k :: Lookup(index, k) == PostsOn(posts, localDay, k)
  {
    index := map[];
    var i := 0;
    while i < |posts|
      invariant 0 <= i <= |posts|
      invariant index.Keys == DayKeys(posts[..i], localDay)
      invariant forall k :: Lookup(index, k) == PostsOn(posts[..i], localDay, k)
    {
      var post := posts[i];
      var key := localDay(post.scheduledAt);
      ghost var before := index;
      index := index[key := if key in index then index[key] + [post] else [post]];
      assert posts[..i + 1] == posts[..i] + [post];
      forall k ensures Lookup(index, k) == PostsOn(posts[..i + 1], localDay, k) {
        assert Lookup(before, k) == PostsOn(posts[..i], localDay, k);
        assert Lookup(index, k) == Lookup(before, k) + (if OnDay(localDay, k)(post) then [post] else []);
        FilterSnoc(posts[..i], post, OnDay(localDay, k));
      }
      i := i + 1;
    }
    assert posts[..i] == posts;
  }

  /** Each post is in the bucket of its own day and in no other. */
  lemma BucketMembership(posts: seq<ScheduleItem>, localDay: Instant -> DayKey, i: int, k: DayKey)
    requires 0 <= i < |posts|
    ensures posts[i] in PostsOn(posts, localDay, k) <==> localDay(posts[i].scheduledAt) == k
  {
    var b := PostsOn(posts, localDay, k);
    if posts[i] in b {
      var j :| 0 <= j < |b| && b[j] == posts[i];
    }
  }

  /** A bucket keeps the posts of its day in their list order. */
  lemma BucketKeepsOrder(posts: seq<ScheduleItem>, localDay: Instant -> DayKey, k: DayKey)
    ensures IsSubsequence(PostsOn(posts, localDay, k), posts)
  {
    FilterIsSubsequence(posts, OnDay(localDay, k));
  }

  /** Looking up a day without posts gives the empty list. */
  lemma EmptyBucket(posts: seq<ScheduleItem>, localDay: Instant -> DayKey, k: DayKey)
    ensures PostsOn(posts, localDay, k) == [] <==> k !in DayKeys(posts, localDay)
  {
    if k !in DayKeys(posts, localDay) {
      FilterNone(posts, OnDay(localDay, k));
    } else {
      var i :| 0 <= i < |posts| && localDay(posts[i].scheduledAt) == k;
      BucketMembership(posts, localDay, i, k);
    }
  }

  predicate DistinctKeys(keys: seq<DayKey>)
  {
    forall i, j :: 0 <= i < j < |keys| ==> keys[i] != keys[j]
  }

  function SumOfSizes(posts: seq<ScheduleItem>, localDay: Instant -> DayKey, keys: seq<DayKey>): nat
  {
    if keys == [] then 0
    else |PostsOn(posts, localDay, keys[0])| + SumOfSizes(posts, localDay, keys[1..])
  }

  function OnAnyDay(localDay: Instant -> DayKey, keys: seq<DayKey>): ScheduleItem -> bool
  {
    (p: ScheduleItem) => localDay(p.scheduledAt) in keys
  }

  lemma {:induction false} SumOfSizesCounts(posts: seq<ScheduleItem>, localDay: Instant -> DayKey, keys: seq<DayKey>)
    requires DistinctKeys(keys)
    ensures SumOfSizes(posts, localDay, keys) == |Filter(posts, OnAnyDay(localDay, keys))|
    decreases |keys|
  {
    if keys == [] {
      FilterNone(posts, OnAnyDay(localDay, keys));
    } else {
      var rest := keys[1..];
      assert DistinctKeys(rest);
      SumOfSizesCounts(posts, localDay, rest);
      assert forall x :: OnAnyDay(localDay, keys)(x) == (OnDay(localDay, keys[0])(x) || OnAnyDay(localDay, rest)(x)) by {
        assert keys == [keys[0]] + rest;
      }
      assert keys[0] !in rest;
      FilterDisjointUnion(posts, OnDay(localDay, keys[0]), OnAnyDay(localDay, rest), OnAnyDay(localDay, keys));
    }
  }

  /** The buckets partition the posts: over any list of distinct days that
      includes every post's day, the bucket sizes add up to the number of
      posts. */
  lemma BucketSizesSum(posts: seq<ScheduleItem>, localDay: Instant -> DayKey, keys: seq<DayKey>)
    requires DistinctKeys(keys)
    requires forall i :: 0 <= i < |posts| ==> localDay(posts[i].scheduledAt) in keys
    ensures SumOfSizes(posts, localDay, keys) == |posts|
  {
    SumOfSizesCounts(posts, localDay, keys);
    FilterAll(posts, OnAnyDay(localDay, keys));
  }

  /** A post whose day lies within the month grid shows up in the cell of
      that day, and only there. */
  lemma PostShownInItsCell(today: Calendar.Date, posts: seq<ScheduleItem>, localDay: Instant -> DayKey,
                           index: map<DayKey, seq<ScheduleItem>>, i: int)
    requires Calendar.ValidDate(today)
    requires forall k :: Lookup(index, k) == PostsOn(posts, localDay, k)
    requires 0 <= i < |posts|
    requires var g := Calendar.MonthGrid(today);
      g[0] <= localDay(posts[i].scheduledAt) <= g[|g| - 1]
    ensures var g := Calendar.MonthGrid(today);
      var c := localDay(posts[i].scheduledAt) - g[0];
      0 <= c < |g| && posts[i] in Lookup(index, g[c]) &&
      forall c' :: 0 <= c' < |g| && c' != c ==> posts[i] !in Lookup(index, g[c'])
  {
    var g := Calendar.MonthGrid(today);
    assert forall c :: 0 <= c < |g| ==> g[c] == g[0] + c;
    PostShownInConsecutiveCells(g, posts, localDay, index, i);
  }

  lemma PostShownInConsecutiveCells(g: seq<DayKey>, posts: seq<ScheduleItem>, localDay: Instant -> DayKey,
                                    index: map<DayKey, seq<ScheduleItem>>, i: int)
    requires forall c :: 0 <= c < |g| ==> g[c] == g[0] + c
    requires forall k :: Lookup(index, k) == PostsOn(posts, localDay, k)
    requires 0 <= i < |posts|
    requires |g| > 0 && g[0] <= localDay(posts[i].scheduledAt) <= g[|g| - 1]
    ensures var c := localDay(posts[i].scheduledAt) - g[0];
      0 <= c < |g| && posts[i] in Lookup(index, g[c]) &&
      forall c' :: 0 <= c' < |g| && c' != c ==> posts[i] !in Lookup(index, g[c'])
  {
    var c := localDay(posts[i].scheduledAt) - g[0];
    BucketMembership(posts, localDay, i, g[c]);
    forall c' | 0 <= c' < |g| && c' != c ensures posts[i] !in Lookup(index, g[c']) {
      BucketMembership(posts, localDay, i, g[c']);
    }
  }
}
