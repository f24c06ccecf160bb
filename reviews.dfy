/**
 * The review list of an anime (src/components/ReviewsContainer.tsx): more pages are loaded
 * on demand and merged into the accumulated list without re-adding reviews whose id is
 * already there, and the list is shown sorted by one of four keys.
 */
module Reviews {
  import opened Wrappers
  import Api

  /** One review, with its date already read as a timestamp. */
  datatype Review = Review(malId: int, votes: int, score: int, date: int)

  // ----- Merging a fetched page ---------------------------------------------------------

  /** The ids present in a list (`new Set(prev.map(r => r.mal_id))`). */
  function Ids(s: seq<Review>): (ids: set<int>)
    ensures forall r :: r in s ==> r.malId in ids
    ensures forall id :: id in ids ==> exists r :: r in s && r.malId == id
  {
    set r | r in s :: r.malId
  }

  /** The fetched reviews whose id is not in `ids`, in fetched order. */
  function KeepNew(ids: set<int>, fetched: seq<Review>): (r: seq<Review>)
    ensures |r| <= |fetched|
    ensures forall x :: x in r ==> x in fetched && x.malId !in ids
  {
    if fetched == [] then []
    else (if fetched[0].malId in ids then [] else [fetched[0]]) + KeepNew(ids, fetched[1..])
  }

  /** The list after a non-empty page was fetched: `[...prev, ...uniqueNewReviews]`. */
  function Merge(prev: seq<Review>, fetched: seq<Review>): (r: seq<Review>)
    ensures |prev| <= |r| <= |prev| + |fetched|
    ensures r[..|prev|] == prev
    ensures forall x :: x in r[|prev|..] ==> x in fetched && x.malId !in Ids(prev)
    ensures r[|prev|..] == KeepNew(Ids(prev), fetched)
  {
    prev + KeepNew(Ids(prev), fetched)
  }

  /** How many reviews of `s` carry the id `id`. */
  function IdCount(s: seq<Review>, id: int): nat {
    if s == [] then 0 else (if s[0].malId == id then 1 else 0) + IdCount(s[1..], id)
  }

  // ----- Sorting ------------------------------------------------------------------------

  datatype SortOrder = Helpful | Newest | HighestScore | LowestScore

  /** The sort key chosen in the select box; any other value sorts as "helpful". */
  function OrderOf(sort: string): (order: SortOrder)
    ensures order == Newest <==> sort == "newest"
    ensures order == HighestScore <==> sort == "highest_score"
    ensures order == LowestScore <==> sort == "lowest_score"
    ensures order == Helpful <==> sort !in {"newest", "highest_score", "lowest_score"}
  {
    if sort == "newest" then Newest
    else if sort == "highest_score" then HighestScore
    else if sort == "lowest_score" then LowestScore
    else Helpful
  }

  /** The comparator handed to `Array.prototype.sort`: negative when `a` goes first. */
  function Compare(order: SortOrder, a: Review, b: Review): (r: int)
    ensures r == 0 <==> SortKey(order, a) == SortKey(order, b)
    ensures order != LowestScore ==> (r < 0 <==> SortKey(order, a) > SortKey(order, b))
    ensures order == LowestScore ==> (r < 0 <==> SortKey(order, a) < SortKey(order, b))
  {
    match order
    case Newest => b.date - a.date
    case HighestScore => b.score - a.score
    case LowestScore => a.score - b.score
    case Helpful => b.votes - a.votes
  }

  predicate InOrder(order: SortOrder, a: Review, b: Review) {
    Compare(order, a, b) <= 0
  }

  /** Each review may precede the next one. */
  predicate Sorted(order: SortOrder, s: seq<Review>) {
    forall i :: 0 <= i < |s| - 1 ==> InOrder(order, s[i], s[i + 1])
  }

  /** Puts `x` into a sorted list, before the first review it may precede. */
  function Insert(order: SortOrder, x: Review, s: seq<Review>): (r: seq<Review>)
    requires Sorted(order, s)
    ensures Sorted(order, r)
    ensures multiset(r) == multiset(s) + multiset{x}
    ensures |r| == |s| + 1
    ensures r[0] == x || (s != [] && r[0] == s[0])
  {
    if s == [] || InOrder(order, x, s[0]) then [x] + s
    else
      var t := Insert(order, x, s[1..]);
      assert s == [s[0]] + s[1..];
      assert InOrder(order, s[0], t[0]);
      [s[0]] + t
  }

  /** A stable sort by the comparator: `data.sort(...)` on a copy of the list. */
  function SortReviews(order: SortOrder, s: seq<Review>): (r: seq<Review>)
    ensures Sorted(order, r)
    ensures multiset(r) == multiset(s)
    ensures |r| == |s|
  {
    if s == [] then []
    else
      assert s == [s[0]] + s[1..];
      Insert(order, s[0], SortReviews(order, s[1..]))
  }

  /** The field a sort order compares. */
  function SortKey(order: SortOrder, r: Review): int {
    match order
    case Newest => r.date
    case HighestScore => r.score
    case LowestScore => r.score
    case Helpful => r.votes
  }

  /** The reviews of `s` whose sort key is `k`, in their order in `s`. */
  function WithKey(order: SortOrder, k: int, s: seq<Review>): seq<Review> {
    if s == [] then []
    else (if SortKey(order, s[0]) == k then [s[0]] else []) + WithKey(order, k, s[1..])
  }

  /**
   * `processedReviews`: the loaded reviews, reordered (and nothing else) by the key the
   * sort value names.
   */
  function Processed(reviews: seq<Review>, sort: string): (r: seq<Review>)
    ensures Sorted(OrderOf(sort), r)
    ensures multiset(r) == multiset(reviews)
    ensures |r| == |reviews|
  {
    SortReviews(OrderOf(sort), reviews)
  }

  // ----- The component's state ----------------------------------------------------------

  /** What the fetch of the next page produced: its `data.data || []`, or a thrown error. */
  datatype FetchResult = Fetched(reviews: seq<Review>) | Failed

  /** The component's state. */
  class ReviewsContainer {
    const animeId: string
    var reviews: seq<Review>
    var page: int
    var isLoading: bool
    var hasMore: bool
    var sort: string

    constructor (initialReviews: seq<Review>, animeId: string)
      ensures this.animeId == animeId
      ensures reviews == initialReviews && page == 1 && !isLoading && hasMore && sort == "helpful"
    {
      this.animeId := animeId;
      reviews := initialReviews;
      page := 1;
      isLoading := false;
      hasMore := true;
      sort := "helpful";
    }

    /**
     * The first half of `loadMoreReviews`, up to the request: a call while a load is under
     * way changes nothing; otherwise it marks the load as under way and returns the URL of
     * the next page.
     */
    method BeginLoad() returns (request: Option<string>)
      modifies this
      ensures old(isLoading) ==> request.None? && unchanged(this)
      ensures !old(isLoading) ==> request == Some(Api.ReviewsUrl(animeId, Some(page + 1)))
      ensures !old(isLoading) ==> isLoading
      ensures reviews == old(reviews) && page == old(page) && hasMore == old(hasMore) && sort == old(sort)
    {
      if isLoading {
        return None;
      }
      isLoading := true;
      var nextPage := page + 1;
      request := Some(Api.ReviewsUrl(animeId, Some(nextPage)));
    }

    /**
     * The second half of `loadMoreReviews`, once the request settled: an empty page ends
     * the list, a non-empty one is merged and advances the page, an error changes nothing;
     * in every case loading ends.
     */
    method FinishLoad(result: FetchResult)
      requires isLoading
      modifies this
      ensures !isLoading && sort == old(sort)
      ensures result.Failed? ==> reviews == old(reviews) && page == old(page) && hasMore == old(hasMore)
      ensures result.Fetched? && result.reviews == [] ==>
        reviews == old(reviews) && page == old(page) && !hasMore
      ensures result.Fetched? && result.reviews != [] ==>
        reviews == Merge(old(reviews), result.reviews) && page == old(page) + 1 && hasMore == old(hasMore)
    {
      var nextPage := page + 1;
      match result {
        case Failed =>
        case Fetched(newReviews) =>
          if |newReviews| == 0 {
            hasMore := false;
          } else {
            reviews := Merge(reviews, newReviews);
            page := nextPage;
          }
      }
      isLoading := false;
    }

    /** Choosing a sort key in the select box. */
    method SetSort(value: string)
      modifies this
      ensures sort == value
      ensures reviews == old(reviews) && page == old(page) && isLoading == old(isLoading) && hasMore == old(hasMore)
    {
      sort := value;
    }

    /** The list as displayed; the stored list is not reordered. */
    function Displayed(): (r: seq<Review>)
      reads this
      ensures |r| == |reviews|
      ensures multiset(r) == multiset(reviews)
      ensures Sorted(OrderOf(sort), r)
    {
      Processed(reviews, sort)
    }
  }

  // ----- Properties of the merge --------------------------------------------------------

  /** Each review is kept as often as it was fetched when its id is new, and never otherwise. */
  lemma {:induction false} KeepNewCounts(ids: set<int>, fetched: seq<Review>, x: Review)
    ensures multiset(KeepNew(ids, fetched))[x] == if x.malId in ids then 0 else multiset(fetched)[x]
  {
    if fetched != [] {
      KeepNewCounts(ids, fetched[1..], x);
      assert fetched == [fetched[0]] + fetched[1..];
    }
  }

  /** Filtering distributes over concatenation: the kept reviews stay in fetched order. */
  lemma {:induction false} KeepNewConcat(ids: set<int>, a: seq<Review>, b: seq<Review>)
    ensures KeepNew(ids, a + b) == KeepNew(ids, a) + KeepNew(ids, b)
  {
    if a == [] {
      assert a + b == b;
    } else {
      assert (a + b)[1..] == a[1..] + b;
      KeepNewConcat(ids, a[1..], b);
    }
  }

  /** A page whose ids are all known already adds nothing, and only such a page does. */
  lemma {:induction false} KeepNewEmptyIff(ids: set<int>, fetched: seq<Review>)
    ensures KeepNew(ids, fetched) == [] <==> forall x :: x in fetched ==> x.malId in ids
  {
    if fetched != [] {
      KeepNewEmptyIff(ids, fetched[1..]);
      assert forall x :: x in fetched ==> x == fetched[0] || x in fetched[1..];
    }
  }

  lemma {:induction false} IdCountConcat(a: seq<Review>, b: seq<Review>, id: int)
    ensures IdCount(a + b, id) == IdCount(a, id) + IdCount(b, id)
  {
    if a == [] {
      assert a + b == b;
    } else {
      assert (a + b)[1..] == a[1..] + b;
      IdCountConcat(a[1..], b, id);
    }
  }

  lemma {:induction false} IdCountKeepNew(ids: set<int>, fetched: seq<Review>, id: int)
    requires id in ids
    ensures IdCount(KeepNew(ids, fetched), id) == 0
  {
    if fetched != [] {
      var head := if fetched[0].malId in ids then [] else [fetched[0]];
      IdCountKeepNew(ids, fetched[1..], id);
      IdCountConcat(head, KeepNew(ids, fetched[1..]), id);
    }
  }

  /** A review id already in the list gains no copy from a merge. */
  lemma MergeAddsNoCopies(prev: seq<Review>, fetched: seq<Review>, id: int)
    requires id in Ids(prev)
    ensures IdCount(Merge(prev, fetched), id) == IdCount(prev, id)
  {
    IdCountConcat(prev, KeepNew(Ids(prev), fetched), id);
    IdCountKeepNew(Ids(prev), fetched, id);
  }

  /**
   * The merge keeps the old list as a prefix, then appends exactly the fetched reviews
   * with new ids, each as often as fetched; the list grows by their number.
   */
  lemma MergeCounts(prev: seq<Review>, fetched: seq<Review>, x: Review)
    ensures multiset(Merge(prev, fetched))[x]
      == multiset(prev)[x] + (if x.malId in Ids(prev) then 0 else multiset(fetched)[x])
  {
    KeepNewCounts(Ids(prev), fetched, x);
  }

  /** Merging a page of reviews that are all known already leaves the list as it was. */
  lemma MergeOfKnownIsIdentity(prev: seq<Review>, fetched: seq<Review>)
    requires forall x :: x in fetched ==> x.malId in Ids(prev)
    ensures Merge(prev, fetched) == prev
  {
    KeepNewEmptyIff(Ids(prev), fetched);
  }

  // ----- Properties of the sort ---------------------------------------------------------

  lemma {:induction false} InsertWithKey(order: SortOrder, k: int, x: Review, s: seq<Review>)
    requires Sorted(order, s)
    ensures WithKey(order, k, Insert(order, x, s))
      == (if SortKey(order, x) == k then [x] else []) + WithKey(order, k, s)
  {
    if s == [] || InOrder(order, x, s[0]) {
      WithKeyCons(order, k, x, s);
    } else {
      InsertWithKey(order, k, x, s[1..]);
      var t := Insert(order, x, s[1..]);
      WithKeyCons(order, k, s[0], t);
      WithKeyCons(order, k, s[0], s[1..]);
      assert [s[0]] + s[1..] == s;
      // `x` goes after `s[0]` only when their keys differ, so at most one of them has key `k`.
      assert SortKey(order, x) != SortKey(order, s[0]);
    }
  }

  lemma WithKeyCons(order: SortOrder, k: int, y: Review, s: seq<Review>)
    ensures WithKey(order, k, [y] + s) == (if SortKey(order, y) == k then [y] else []) + WithKey(order, k, s)
  {
    assert ([y] + s)[1..] == s;
  }

  /** The sort is stable: reviews with equal keys keep their relative order. */
  lemma {:induction false} SortIsStable(order: SortOrder, k: int, s: seq<Review>)
    ensures WithKey(order, k, SortReviews(order, s)) == WithKey(order, k, s)
  {
    if s != [] {
      SortIsStable(order, k, s[1..]);
      InsertWithKey(order, k, s[0], SortReviews(order, s[1..]));
    }
  }

  /** In a sorted list every review may precede every later one, not only the next. */
  lemma {:induction false} SortedPairwise(order: SortOrder, s: seq<Review>, i: int, j: int)
    requires Sorted(order, s)
    requires 0 <= i < j < |s|
    ensures InOrder(order, s[i], s[j])
  {
    if j > i + 1 {
      SortedPairwise(order, s, i, j - 1);
    }
  }

  /** What each sort key promises about the displayed list. */
  lemma SortedByKey(sort: string, reviews: seq<Review>, i: int, j: int)
    requires 0 <= i < j < |reviews|
    ensures var r := Processed(reviews, sort);
      && (OrderOf(sort) == Helpful ==> r[i].votes >= r[j].votes)
      && (sort == "newest" ==> r[i].date >= r[j].date)
      && (sort == "highest_score" ==> r[i].score >= r[j].score)
      && (sort == "lowest_score" ==> r[i].score <= r[j].score)
  {
    SortedPairwise(OrderOf(sort), Processed(reviews, sort), i, j);
  }
}
