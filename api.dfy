/**
 * The client for the upstream anime REST API (src/lib/api.ts). The HTTP call itself is a
 * parameter: `http` maps a request URL to what `fetch` produced for it. What remains is
 * which URL each accessor requests, and which value or default it returns.
 */
module Api {
  import opened Wrappers
  import opened Decimal

  const ApiBase := "https://api.jikan.moe/v4"
  /** The value of an omitted `page` argument. */
  const DefaultPage := 1
  /** The value of an omitted `limit` argument of the search. */
  const DefaultSearchLimit := 20

  /**
   * What one `fetch(url)` produced: a response with its status and its body read as JSON
   * (`None` when `res.json()` throws), or an error thrown by `fetch` itself.
   */
  datatype HttpOutcome<B> = Response(status: int, body: Option<B>) | NetworkError

  /** `Response.ok`: the status is in the range 200 to 299. */
  predicate IsOk(status: int) {
    200 <= status <= 299
  }

  /** `fetchJSON`: the parsed body of a successful response, `null` on any failure. */
  function FetchJson<B>(outcome: HttpOutcome<B>): (r: Option<B>)
    ensures r.Some? <==> outcome.Response? && IsOk(outcome.status) && outcome.body.Some?
    ensures r.Some? ==> r == outcome.body
  {
    match outcome
    case NetworkError => None
    case Response(status, body) => if !IsOk(status) then None else body
  }

  datatype Pagination = Pagination(currentPage: int, lastVisiblePage: int, hasNextPage: bool)

  /** The pagination `getAnimeEpisodes` reports when the upstream gave none. */
  const DefaultEpisodePagination := Pagination(1, 1, false)

  /**
   * The two fields of a response body that the accessors read. A field is `None` when it is
   * absent or falsy (`null`, `undefined`), so that `x || d` yields `d`.
   */
  datatype Payload<D> = Payload(data: Option<D>, pagination: Option<Pagination>)

  type Http<D> = string -> HttpOutcome<Payload<D>>

  /** The request succeeded and its body carries `data`. */
  predicate Delivered<D>(outcome: HttpOutcome<Payload<D>>) {
    outcome.Response? && IsOk(outcome.status) && outcome.body.Some? && outcome.body.value.data.Some?
  }

  /** `data?.data` of what `fetchJSON` returned. */
  function DataOf<D>(body: Option<Payload<D>>): Option<D> {
    if body.None? then None else body.value.data
  }

  /** `data?.data || []` */
  function ListOrEmpty<T>(outcome: HttpOutcome<Payload<seq<T>>>): (r: seq<T>)
    ensures Delivered(outcome) ==> r == outcome.body.value.data.value
    ensures !Delivered(outcome) ==> r == []
  {
    DataOf(FetchJson(outcome)).GetOr([])
  }

  // ----- Request URLs -------------------------------------------------------------------

  function TopAnimeUrl(): string {
    ApiBase + "/top/anime"
  }

  function AnimeUrl(id: string, resource: string): string {
    ApiBase + "/anime/" + id + resource
  }

  /** The part of `s` after its last occurrence of `c` (all of `s` when `c` does not occur). */
  function AfterLast(s: string, c: char): (r: string)
    ensures |r| <= |s| && r == s[|s| - |r|..]
    ensures c !in r
  {
    if s == [] then []
    else if s[|s| - 1] == c then []
    else AfterLast(s[..|s| - 1], c) + [s[|s| - 1]]
  }

  /** The number written after the last '=' of a URL, if that text is a number. */
  function LastParam(url: string): Option<int> {
    var v := AfterLast(url, '=');
    if IsIntText(v) then Some(ParseInt(v)) else None
  }

  lemma {:induction false} AfterLastOfSuffix(p: string, t: string, c: char)
    requires |p| >= 1 && p[|p| - 1] == c
    requires c !in t
    ensures AfterLast(p + t, c) == t
  {
    if t != [] {
      var s := p + t;
      assert s[..|s| - 1] == p + t[..|t| - 1];
      AfterLastOfSuffix(p, t[..|t| - 1], c);
    } else {
      assert p + t == p;
    }
  }

  lemma IntToStringIsIntText(n: int)
    ensures '=' !in IntToString(n)
    ensures IsIntText(IntToString(n))
  {
  }

  /** The number written after a URL's last '=' is `n`, whatever comes before it. */
  lemma LastParamIs(prefix: string, n: int)
    requires |prefix| >= 1 && prefix[|prefix| - 1] == '='
    ensures LastParam(prefix + IntToString(n)) == Some(n)
  {
    IntToStringIsIntText(n);
    AfterLastOfSuffix(prefix, IntToString(n), '=');
    ParseIntToString(n);
  }

  /** The episodes URL (`.../episodes?page=${page}`); an omitted page is page 1. */
  function EpisodesUrl(id: string, page: Option<int>): (url: string)
    ensures ApiBase <= url
    ensures LastParam(url) == Some(page.GetOr(1))
  {
    var prefix := AnimeUrl(id, "/episodes?page=");
    assert prefix[|prefix| - 1] == '=';
    LastParamIs(prefix, page.GetOr(DefaultPage));
    prefix + IntToString(page.GetOr(DefaultPage))
  }

  /** The reviews URL (`.../reviews?page=${page}`); an omitted page is page 1. */
  function ReviewsUrl(id: string, page: Option<int>): (url: string)
    ensures ApiBase <= url
    ensures LastParam(url) == Some(page.GetOr(1))
  {
    var prefix := AnimeUrl(id, "/reviews?page=");
    assert prefix[|prefix| - 1] == '=';
    LastParamIs(prefix, page.GetOr(DefaultPage));
    prefix + IntToString(page.GetOr(DefaultPage))
  }

  /**
   * The search URL. `encode` stands for `encodeURIComponent`, which this model does not
   * interpret; an omitted limit is 20, and the limit is read back whatever `encode` yields.
   */
  function SearchUrl(query: string, limit: Option<int>, encode: string -> string): (url: string)
    ensures ApiBase <= url
    ensures LastParam(url) == Some(limit.GetOr(20))
  {
    var prefix := ApiBase + "/anime?q=" + encode(query) + "&limit=";
    assert prefix[|prefix| - 1] == '=';
    LastParamIs(prefix, limit.GetOr(DefaultSearchLimit));
    prefix + IntToString(limit.GetOr(DefaultSearchLimit))
  }

  // ----- Accessors ----------------------------------------------------------------------

  /** `getTopAnime` */
  function GetTopAnime<T>(http: Http<seq<T>>): (r: seq<T>)
    ensures Delivered(http(TopAnimeUrl())) ==> r == http(TopAnimeUrl()).body.value.data.value
    ensures !Delivered(http(TopAnimeUrl())) ==> r == []
  {
    ListOrEmpty(http(TopAnimeUrl()))
  }

  /** `getAnimeDetail`: the default is `null`, not an empty list. */
  function GetAnimeDetail<A>(id: string, http: Http<A>): (r: Option<A>)
    ensures var o := http(AnimeUrl(id, ""));
      r.Some? <==> Delivered(o)
    ensures r.Some? ==> r == http(AnimeUrl(id, "")).body.value.data
  {
    DataOf(FetchJson(http(AnimeUrl(id, ""))))
  }

  /** JavaScript's white space and line terminators, the characters `trim` removes. */
  predicate IsJsWhitespace(c: char) {
    var k := c as int;
    k == 0x09 || k == 0x0A || k == 0x0B || k == 0x0C || k == 0x0D || k == 0x20
    || k == 0xA0 || k == 0x1680 || (0x2000 <= k <= 0x200A) || k == 0x2028 || k == 0x2029
    || k == 0x202F || k == 0x205F || k == 0x3000 || k == 0xFEFF
  }

  /** `s` without its leading white space. */
  function TrimStart(s: string): (r: string)
    ensures |r| <= |s| && r == s[|s| - |r|..]
    ensures r != [] ==> !IsJsWhitespace(r[0])
    ensures r == [] <==> forall i :: 0 <= i < |s| ==> IsJsWhitespace(s[i])
  {
    if s != [] && IsJsWhitespace(s[0]) then TrimStart(s[1..]) else s
  }

  /** `s` without its trailing white space. */
  function TrimEnd(s: string): (r: string)
    ensures |r| <= |s| && r == s[..|r|]
    ensures s != [] && !IsJsWhitespace(s[0]) ==> r != []
  {
    if s != [] && IsJsWhitespace(s[|s| - 1]) then TrimEnd(s[..|s| - 1]) else s
  }

  /** `trim` */
  function Trim(s: string): string {
    TrimEnd(TrimStart(s))
  }

  /** `!query.trim()`: the trimmed query is empty, that is, the query is white space only. */
  function IsBlank(query: string): (blank: bool)
    ensures blank <==> forall i :: 0 <= i < |query| ==> IsJsWhitespace(query[i])
  {
    Trim(query) == ""
  }

  /** `searchAnime`: a blank query gives `[]` without a request. */
  function SearchAnime<T>(query: string, limit: Option<int>, encode: string -> string, http: Http<seq<T>>): (r: seq<T>)
    ensures IsBlank(query) ==> r == []
    ensures !IsBlank(query) && Delivered(http(SearchUrl(query, limit, encode))) ==>
      r == http(SearchUrl(query, limit, encode)).body.value.data.value
    ensures !IsBlank(query) && !Delivered(http(SearchUrl(query, limit, encode))) ==> r == []
  {
    if IsBlank(query) then [] else ListOrEmpty(http(SearchUrl(query, limit, encode)))
  }

  /** `getAnimeCharacters` */
  function GetAnimeCharacters<T>(id: string, http: Http<seq<T>>): (r: seq<T>)
    ensures Delivered(http(AnimeUrl(id, "/characters"))) ==> r == http(AnimeUrl(id, "/characters")).body.value.data.value
    ensures !Delivered(http(AnimeUrl(id, "/characters"))) ==> r == []
  {
    ListOrEmpty(http(AnimeUrl(id, "/characters")))
  }

  /** `getAnimeRecommendations` */
  function GetAnimeRecommendations<T>(id: string, http: Http<seq<T>>): (r: seq<T>)
    ensures Delivered(http(AnimeUrl(id, "/recommendations"))) ==> r == http(AnimeUrl(id, "/recommendations")).body.value.data.value
    ensures !Delivered(http(AnimeUrl(id, "/recommendations"))) ==> r == []
  {
    ListOrEmpty(http(AnimeUrl(id, "/recommendations")))
  }

  /** `getAnimeStreaming` */
  function GetAnimeStreaming<T>(id: string, http: Http<seq<T>>): (r: seq<T>)
    ensures Delivered(http(AnimeUrl(id, "/streaming"))) ==> r == http(AnimeUrl(id, "/streaming")).body.value.data.value
    ensures !Delivered(http(AnimeUrl(id, "/streaming"))) ==> r == []
  {
    ListOrEmpty(http(AnimeUrl(id, "/streaming")))
  }

  /** `getAnimeStaff` */
  function GetAnimeStaff<T>(id: string, http: Http<seq<T>>): (r: seq<T>)
    ensures Delivered(http(AnimeUrl(id, "/staff"))) ==> r == http(AnimeUrl(id, "/staff")).body.value.data.value
    ensures !Delivered(http(AnimeUrl(id, "/staff"))) ==> r == []
  {
    ListOrEmpty(http(AnimeUrl(id, "/staff")))
  }

  datatype EpisodesPage<T> = EpisodesPage(episodes: seq<T>, pagination: Pagination)

  /** `getAnimeEpisodes`: the episodes, and the pagination or a single-page default. */
  function GetAnimeEpisodes<T>(id: string, page: Option<int>, http: Http<seq<T>>): (r: EpisodesPage<T>)
    ensures var o := http(EpisodesUrl(id, page));
      r.episodes == (if Delivered(o) then o.body.value.data.value else [])
    ensures var o := http(EpisodesUrl(id, page));
      r.pagination == (if o.Response? && IsOk(o.status) && o.body.Some? && o.body.value.pagination.Some?
                       then o.body.value.pagination.value
                       else DefaultEpisodePagination)
  {
    var body := FetchJson(http(EpisodesUrl(id, page)));
    EpisodesPage(
      DataOf(body).GetOr([]),
      if body.None? then DefaultEpisodePagination else body.value.pagination.GetOr(DefaultEpisodePagination))
  }

  /**
   * What `getAnimeReviews` returns. A `pagination` of `None` is the empty object `{}`
   * that it reports when the upstream gave none.
   */
  datatype ReviewsPage<T> = ReviewsPage(reviews: seq<T>, pagination: Option<Pagination>)

  /** `getAnimeReviews` */
  function GetAnimeReviews<T>(id: string, page: Option<int>, http: Http<seq<T>>): (r: ReviewsPage<T>)
    ensures var o := http(ReviewsUrl(id, page));
      r.reviews == (if Delivered(o) then o.body.value.data.value else [])
    ensures var o := http(ReviewsUrl(id, page));
      r.pagination == (if o.Response? && IsOk(o.status) && o.body.Some? then o.body.value.pagination else None)
  {
    var body := FetchJson(http(ReviewsUrl(id, page)));
    ReviewsPage(DataOf(body).GetOr([]), if body.None? then None else body.value.pagination)
  }

  // ----- Properties ---------------------------------------------------------------------

  /** Different pages are different requests. */
  lemma EpisodesUrlInjective(id: string, p: int, q: int)
    ensures EpisodesUrl(id, Some(p)) == EpisodesUrl(id, Some(q)) <==> p == q
  {
    var prefix := AnimeUrl(id, "/episodes?page=");
    if EpisodesUrl(id, Some(p)) == EpisodesUrl(id, Some(q)) {
      assert (prefix + IntToString(p))[|prefix|..] == IntToString(p);
      assert (prefix + IntToString(q))[|prefix|..] == IntToString(q);
    }
    IntToStringInjective(p, q);
  }

  /** A blank query issues no request: its result does not depend on what the network does. */
  lemma SearchBlankIssuesNoRequest<T>(query: string, limit: Option<int>, encode: string -> string, h1: Http<seq<T>>, h2: Http<seq<T>>)
    requires IsBlank(query)
    ensures SearchAnime(query, limit, encode, h1) == SearchAnime(query, limit, encode, h2) == []
  {
  }

  /** A non-blank query issues exactly the search request: networks that agree on it agree on the result. */
  lemma SearchDependsOnlyOnItsUrl<T>(query: string, limit: Option<int>, encode: string -> string, h1: Http<seq<T>>, h2: Http<seq<T>>)
    requires h1(SearchUrl(query, limit, encode)) == h2(SearchUrl(query, limit, encode))
    ensures SearchAnime(query, limit, encode, h1) == SearchAnime(query, limit, encode, h2)
  {
  }

  /** Every failure of `fetchJSON` (an error status, a body that is not JSON, a network error) looks the same to an accessor. */
  lemma FailuresAreIndistinguishable<B>(o1: HttpOutcome<B>, o2: HttpOutcome<B>)
    requires !(o1.Response? && IsOk(o1.status) && o1.body.Some?)
    requires !(o2.Response? && IsOk(o2.status) && o2.body.Some?)
    ensures FetchJson(o1) == FetchJson(o2) == None
  {
  }
}
