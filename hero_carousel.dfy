/**
 * The rotating banner of the home page (src/components/HeroCarousel.tsx): an index into the
 * list of featured anime that a timer advances and the indicator dots set, and what is
 * displayed for the anime at that index.
 */
module HeroCarousel {
  import opened Wrappers
  import opened Decimal

  datatype Genre = Genre(malId: int, name: string)

  /** The fields of an upstream anime record that the banner reads. */
  datatype Anime = Anime(
    malId: int,
    title: string,
    largeImageUrl: Option<string>,
    imageUrl: string,
    year: Option<int>,
    genres: Option<seq<Genre>>,
    trailerUrl: Option<string>)

  /** The index after one tick of the timer: `(prev + 1) % animeList.length`. */
  function NextIndex(i: int, n: int): (r: int)
    requires n > 0 && 0 <= i < n
    ensures 0 <= r < n
    ensures i < n - 1 ==> r == i + 1
    ensures i == n - 1 ==> r == 0
  {
    (i + 1) % n
  }

  /** The index after `k` ticks. */
  function AfterTicks(i: int, n: int, k: nat): (r: int)
    requires n > 0 && 0 <= i < n
    ensures 0 <= r < n
  {
    if k == 0 then i else NextIndex(AfterTicks(i, n, k - 1), n)
  }

  /** For each background layer, whether it is the visible one. */
  function ActiveLayers(n: nat, current: int): (r: seq<bool>)
    ensures |r| == n
    ensures forall j :: 0 <= j < n ==> (r[j] <==> j == current)
  {
    if n == 0 then [] else ActiveLayers(n - 1, current) + [n - 1 == current]
  }

  function CountTrue(s: seq<bool>): nat {
    if s == [] then 0 else CountTrue(s[..|s| - 1]) + (if s[|s| - 1] then 1 else 0)
  }

  /** `large_image_url || image_url`: an absent or empty large image falls back. */
  function ImageSource(a: Anime): (src: string)
    ensures src == a.imageUrl || a.largeImageUrl == Some(src)
    ensures a.largeImageUrl.Some? && a.largeImageUrl.value != "" ==> src == a.largeImageUrl.value
    ensures src == "" <==> (a.largeImageUrl.None? || a.largeImageUrl.value == "") && a.imageUrl == ""
  {
    if a.largeImageUrl.Some? && a.largeImageUrl.value != "" then a.largeImageUrl.value else a.imageUrl
  }

  /** `year || "Unknown"`: an absent year, or 0, shows "Unknown". */
  function YearLabel(a: Anime): (shown: string)
    ensures a.year.None? || a.year.value == 0 ==> shown == "Unknown"
    ensures a.year.Some? && a.year.value != 0 ==> shown == IntToString(a.year.value)
    ensures shown != "" && shown != "0"
    ensures shown != "Unknown" ==> a.year.Some? && a.year.value != 0 && shown == IntToString(a.year.value)
    ensures shown != "Unknown" ==> ParseInt(shown) == a.year.value
  {
    ParseIntToString(a.year.GetOr(0));
    if a.year.Some? && a.year.value != 0 then IntToString(a.year.value) else "Unknown"
  }

  /** `genres?.slice(0, 4)`: at most the first four genres, in order. */
  function ShownGenres(a: Anime): (g: seq<Genre>)
    ensures a.genres.None? ==> g == []
    ensures a.genres.Some? ==> |g| == (if |a.genres.value| < 4 then |a.genres.value| else 4)
    ensures a.genres.Some? ==> g <= a.genres.value
  {
    if a.genres.None? then []
    else if |a.genres.value| <= 4 then a.genres.value
    else a.genres.value[..4]
  }

  /** `trailer?.url &&`: the trailer link, shown only when the URL is present and not empty. */
  function TrailerLink(a: Anime): (link: Option<string>)
    ensures link.Some? ==> link == a.trailerUrl && link.value != ""
    ensures link.None? ==> a.trailerUrl.None? || a.trailerUrl.value == ""
  {
    if a.trailerUrl.Some? && a.trailerUrl.value != "" then a.trailerUrl else None
  }

  /** What the banner shows for the current anime. */
  datatype Banner = Banner(
    layers: seq<bool>,
    layerImages: seq<string>,
    title: string,
    year: string,
    genres: seq<Genre>,
    detailPath: string,
    trailer: Option<string>,
    dots: seq<bool>)

  /** The banner for `animeList` at index `current`; nothing when there is no anime there. */
  function Render(animeList: seq<Anime>, current: int): (b: Option<Banner>)
    ensures b.Some? <==> 0 <= current < |animeList|
    ensures b.Some? ==> |b.value.layers| == |b.value.dots| == |b.value.layerImages| == |animeList|
    ensures b.Some? ==> b.value.title == animeList[current].title
    ensures b.Some? ==> b.value.layers == ActiveLayers(|animeList|, current) && b.value.dots == b.value.layers
    ensures b.Some? ==> forall j :: 0 <= j < |animeList| ==> b.value.layerImages[j] == ImageSource(animeList[j])
    ensures b.Some? ==> b.value.year == YearLabel(animeList[current])
    ensures b.Some? ==> b.value.genres == ShownGenres(animeList[current])
    ensures b.Some? ==> b.value.trailer == TrailerLink(animeList[current])
    ensures b.Some? ==> b.value.detailPath == "/anime/" + IntToString(animeList[current].malId)
  {
    if !(0 <= current < |animeList|) then None
    else
      var a := animeList[current];
      Some(Banner(
        ActiveLayers(|animeList|, current),
        seq(|animeList|, j requires 0 <= j < |animeList| => ImageSource(animeList[j])),
        a.title,
        YearLabel(a),
        ShownGenres(a),
        "/anime/" + IntToString(a.malId),
        TrailerLink(a),
        ActiveLayers(|animeList|, current)))
  }

  /** The banner's state. */
  class Carousel {
    const animeList: seq<Anime>
    var currentIndex: int

    /** The index points at an anime, or is the initial 0 of an empty list. */
    predicate Valid()
      reads this
    {
      0 <= currentIndex && (currentIndex < |animeList| || currentIndex == 0)
    }

    constructor (animeList: seq<Anime>)
      ensures this.animeList == animeList && currentIndex == 0 && Valid()
    {
      this.animeList := animeList;
      currentIndex := 0;
    }

    /** One tick of the six-second timer, which needs a non-empty list. */
    method Tick()
      requires Valid() && |animeList| > 0
      modifies this
      ensures Valid()
      ensures currentIndex == NextIndex(old(currentIndex), |animeList|)
    {
      currentIndex := (currentIndex + 1) % |animeList|;
    }

    /** A click on dot `idx`; there is one dot per anime. */
    method SelectDot(idx: int)
      requires Valid() && 0 <= idx < |animeList|
      modifies this
      ensures Valid() && currentIndex == idx
    {
      currentIndex := idx;
    }

    /** The banner, or nothing for an empty list. */
    function View(): (b: Option<Banner>)
      requires Valid()
      reads this
      ensures b.None? <==> |animeList| == 0
    {
      Render(animeList, currentIndex)
    }
  }

  // ----- Properties ---------------------------------------------------------------------

  /** Within one round, `k` ticks move the index `k` places forward, wrapping past the end once. */
  lemma {:induction false} AfterTicksWithinRound(i: int, n: int, k: nat)
    requires n > 0 && 0 <= i < n && k <= n
    ensures AfterTicks(i, n, k) == if i + k < n then i + k else i + k - n
  {
    if k > 0 {
      AfterTicksWithinRound(i, n, k - 1);
    }
  }

  /** After as many ticks as there are anime, the banner is back where it started. */
  lemma FullCycleReturns(i: int, n: int)
    requires n > 0 && 0 <= i < n
    ensures AfterTicks(i, n, n) == i
  {
    AfterTicksWithinRound(i, n, n);
  }

  /** Ticking is periodic: `n` more ticks change nothing. */
  lemma {:induction false} AfterTicksPeriodic(i: int, n: int, k: nat)
    requires n > 0 && 0 <= i < n
    ensures AfterTicks(i, n, k + n) == AfterTicks(i, n, k)
  {
    if k == 0 {
      FullCycleReturns(i, n);
    } else {
      AfterTicksPeriodic(i, n, k - 1);
    }
  }

  /** Every anime gets its turn: each index is reached within `n - 1` ticks. */
  lemma EveryIndexIsReached(i: int, n: int, target: int)
    requires n > 0 && 0 <= i < n && 0 <= target < n
    ensures var k := if target >= i then target - i else target - i + n;
      0 <= k < n && AfterTicks(i, n, k) == target
  {
    var k := if target >= i then target - i else target - i + n;
    AfterTicksWithinRound(i, n, k);
  }

  /** Exactly one background layer is active when the index points at an anime. */
  lemma {:induction false} ExactlyOneLayerActive(n: nat, current: int)
    requires 0 <= current < n
    ensures CountTrue(ActiveLayers(n, current)) == 1
  {
    CountTrueSnoc(ActiveLayers(n - 1, current), n - 1 == current);
    if current < n - 1 {
      ExactlyOneLayerActive(n - 1, current);
    } else {
      NoLayerActive(n - 1, current);
    }
  }

  lemma {:induction false} NoLayerActive(n: nat, current: int)
    requires n <= current
    ensures CountTrue(ActiveLayers(n, current)) == 0
  {
    if n > 0 {
      CountTrueSnoc(ActiveLayers(n - 1, current), false);
      NoLayerActive(n - 1, current);
    }
  }

  /** Adding one flag at the end adds one to the count exactly when the flag is set. */
  lemma CountTrueSnoc(s: seq<bool>, b: bool)
    ensures CountTrue(s + [b]) == CountTrue(s) + (if b then 1 else 0)
  {
    assert (s + [b])[..|s|] == s;
  }
}
