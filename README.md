# Anime browser front-end: the client-side logic, in Dafny

This project models the logic of a server-rendered web front-end that shows anime metadata
from a public REST API. Most of that front-end is markup; the parts with behaviour are:

- **the API client** (`src/lib/api.ts`): `fetchJSON` turns what `fetch` produced into the
  parsed body or `null`, and each accessor requests one URL and turns the result into its
  data or a typed default (`[]`, `null`, a single-page pagination, `{}`); the search issues
  no request for a blank query;
- **the review list** (`src/components/ReviewsContainer.tsx`): "Load More" fetches the next
  page, guarded against re-entry, and merges it into the accumulated list without re-adding
  reviews whose id is already there; the list is displayed sorted by helpfulness, date or
  score;
- **the review card** (`src/components/ReviewCard.tsx`): the badge variant of a review tag,
  and a body longer than 450 characters shown truncated behind a Read More / Show Less toggle;
- **the hero carousel** (`src/components/HeroCarousel.tsx`): an index into the featured list,
  advanced modulo its length by a timer and set by the indicator dots, and what is shown for
  the anime at that index.

Files: `wrappers.dfy` (the `Option` type), `decimal.dfy` (how an integer is written into a
template literal, with its inverse), `api.dfy`, `reviews.dfy`, `review_card.dfy`,
`hero_carousel.dfy`, one module each.

How the model stands to the code:

- The network is a parameter. An accessor receives `http`, a function from request URL to
  what `fetch` produced for it (`Response(status, body)` with the body `None` when it is not
  JSON, or `NetworkError`). "A blank search issues no request" is then the statement that
  its result does not depend on `http`.
- `encodeURIComponent` is a parameter `encode` of the search URL and is not interpreted.
- `loadMoreReviews` is one `async` function whose state changes are split by an `await`. It
  is modelled as two methods of the class `ReviewsContainer`: `BeginLoad` (the `isLoading`
  guard, then `isLoading := true` and the URL of page `page + 1`), and `FinishLoad`, which
  takes the fetch result (`Fetched(data.data || [])` or `Failed` for a thrown error) and
  applies the empty-page, merge and error branches and the `finally`.
- The merge and the sort are functions (`Merge`, `SortReviews`). JavaScript's sort is stable,
  so `SortReviews` is a stable insertion sort driven by the source's own comparator.
- The carousel index and the card's `isExpanded` flag are fields of classes (`Carousel`,
  `Card`). The timer tick is the method `Tick`.
- JavaScript's `x || d` falls back when `x` is absent or falsy. Optional fields are `Option`s.
  Where the empty string or `0` is also falsy, the fallback is written out: an empty large
  image URL, a year of 0 and an empty trailer URL.
- Review dates are integer timestamps, and strings are sequences of characters.
  Lower-casing affects the ASCII letters only.
- `fetchJSON` (`src/lib/api.ts:3-18`) makes one attempt and returns `null` on any failure,
  HTTP 429 included; there is no retry.

## Model

| member | source | states |
|---|---|---|
| `Api.FetchJson` | src/lib/api.ts:3-18 | the body is returned exactly when the status is 2xx and the body parsed; a non-ok status, an unparsable body and a network error all give `null` |
| `Api.FailuresAreIndistinguishable` | src/lib/api.ts:9-16 | every kind of failure yields the same `null` |
| `Api.ListOrEmpty` | src/lib/api.ts:22 | the fallback to `[]`: the delivered list when the request delivered one, `[]` otherwise |
| `Api.GetTopAnime` | src/lib/api.ts:20-23 | the top list is the payload's `data` when delivered, else `[]` |
| `Api.GetAnimeDetail` | src/lib/api.ts:25-28 | the detail is present exactly when the request delivered `data`; the default is `null`, not a list |
| `Api.SearchAnime` | src/lib/api.ts:30-34 | a blank (empty or white-space) query gives `[]`; otherwise the delivered `data` or `[]` |
| `Api.SearchBlankIssuesNoRequest` | src/lib/api.ts:31 | for a blank query the result is `[]` whatever the network does, so no request matters |
| `Api.SearchDependsOnlyOnItsUrl` | src/lib/api.ts:32-33 | a non-blank search depends only on the response to its one search URL |
| `Api.IsBlank` | src/lib/api.ts:31 | a query is blank exactly when every character of it is JavaScript white space (so the empty query is blank) |
| `Api.SearchUrl` | src/lib/api.ts:30-32 | the search URL is under the API base and the number after its last `=` is the limit given, or 20, whatever the encoded query |
| `Api.GetAnimeCharacters` | src/lib/api.ts:36-39 | delivered `data` or `[]` |
| `Api.GetAnimeRecommendations` | src/lib/api.ts:41-44 | delivered `data` or `[]` |
| `Api.GetAnimeEpisodes` | src/lib/api.ts:46-57 | episodes are the delivered `data` or `[]`; pagination is the delivered one or `{current_page: 1, last_visible_page: 1, has_next_page: false}` |
| `Api.EpisodesUrl` | src/lib/api.ts:46-47 | the episodes URL is under the API base and the number after its last `=` is the page asked for, or 1 |
| `Api.EpisodesUrlInjective` | src/lib/api.ts:46-47 | two pages give the same episodes URL only if they are the same page |
| `Api.GetAnimeStreaming` | src/lib/api.ts:59-62 | delivered `data` or `[]` |
| `Api.GetAnimeReviews` | src/lib/api.ts:65-72 | reviews are the delivered `data` or `[]`; pagination is the delivered one, or `{}` when the fetch failed or gave none |
| `Api.ReviewsUrl` | src/lib/api.ts:65-66 | the reviews URL is under the API base and the number after its last `=` is the page asked for, or 1 |
| `Api.GetAnimeStaff` | src/lib/api.ts:75-78 | delivered `data` or `[]` |
| `Decimal.IntToString` | src/lib/api.ts:47 | an integer is written as at least one character: a '-' exactly for a negative number, followed by decimal digits |
| `Decimal.IntToStringInjective` | src/lib/api.ts:47 | two integers are written the same way exactly when they are equal, so different pages give different URLs |
| `Decimal.ParseIntToString` | src/lib/api.ts:47 | an integer written into a URL reads back as the same integer |
| `Reviews.Ids` | src/components/ReviewsContainer.tsx:47 | the id set holds exactly the ids of the reviews in the list |
| `Reviews.KeepNew` | src/components/ReviewsContainer.tsx:48 | the kept reviews are fetched reviews whose id is not in the set |
| `Reviews.KeepNewCounts` | src/components/ReviewsContainer.tsx:47-48 | each fetched review with a new id is kept as often as it was fetched, every other one not at all |
| `Reviews.KeepNewConcat` | src/components/ReviewsContainer.tsx:48 | the filter distributes over concatenation, so kept reviews stay in fetched order |
| `Reviews.KeepNewEmptyIff` | src/components/ReviewsContainer.tsx:48 | nothing is kept exactly when every fetched id is already known |
| `Reviews.Merge` | src/components/ReviewsContainer.tsx:46-49 | the old list is kept unchanged as a prefix, followed by exactly the fetched reviews with new ids, in fetched order |
| `Reviews.MergeCounts` | src/components/ReviewsContainer.tsx:46-49 | each review occurs after the merge as often as before, plus as often as fetched when its id was new; so the list grows by the number of fetched reviews with new ids |
| `Reviews.MergeAddsNoCopies` | src/components/ReviewsContainer.tsx:47-49 | a review id already in the list occurs after the merge exactly as often as before |
| `Reviews.MergeOfKnownIsIdentity` | src/components/ReviewsContainer.tsx:46-49 | a page of already known reviews leaves the list unchanged |
| `Reviews.Insert` | src/components/ReviewsContainer.tsx:60-74 | inserting into a sorted list keeps it sorted and adds exactly the one review |
| `Reviews.SortReviews` | src/components/ReviewsContainer.tsx:60-74 | the sorted copy is ordered by the comparator and is a permutation of the list |
| `Reviews.SortIsStable` | src/components/ReviewsContainer.tsx:60-74 | reviews with equal sort keys keep their relative order |
| `Reviews.SortedPairwise` | src/components/ReviewsContainer.tsx:63-73 | in the sorted copy every review may precede every later one |
| `Reviews.SortedByKey` | src/components/ReviewsContainer.tsx:63-73 | "helpful" (and any unknown key) gives non-increasing votes, "newest" non-increasing dates, "highest_score" non-increasing and "lowest_score" non-decreasing scores |
| `Reviews.OrderOf` | src/components/ReviewsContainer.tsx:63-73 | "newest", "highest_score" and "lowest_score" each select their own order, and every other sort value (the initial "helpful" included) selects "helpful" |
| `Reviews.Compare` | src/components/ReviewsContainer.tsx:63-73 | the comparator is zero exactly on equal sort keys and negative exactly when the first review has the larger key (the smaller score for "lowest_score"), so it puts it first |
| `Reviews.Processed` | src/components/ReviewsContainer.tsx:60-74 | the processed list is the loaded list reordered, ordered by the key the sort value names |
| `Reviews.ReviewsContainer.constructor` | src/components/ReviewsContainer.tsx:24-28 | the list starts as the initial reviews, page 1, not loading, more to load, sorted by "helpful" |
| `Reviews.ReviewsContainer.BeginLoad` | src/components/ReviewsContainer.tsx:30-38 | while loading, nothing changes and no request is made; otherwise loading starts and page `page + 1` is requested |
| `Reviews.ReviewsContainer.FinishLoad` | src/components/ReviewsContainer.tsx:41-57 | an empty page ends the list and keeps reviews and page; a non-empty page is merged and advances the page by one even if every review was known; an error changes neither; loading always ends |
| `Reviews.ReviewsContainer.SetSort` | src/components/ReviewsContainer.tsx:87 | choosing a sort key changes only the key |
| `Reviews.ReviewsContainer.Displayed` | src/components/ReviewsContainer.tsx:60-61 | the displayed list has the stored list's length (the count shown) and elements, sorted by the chosen key |
| `ReviewCard.ToLower` | src/components/ReviewCard.tsx:13 | lower-casing keeps the length and maps each character to its lower-case form |
| `ReviewCard.Contains` | src/components/ReviewCard.tsx:14-15 | a text includes each of its prefixes, and includes nothing longer than itself |
| `ReviewCard.ContainsIff` | src/components/ReviewCard.tsx:14-15 | `includes` holds exactly when the pattern occurs at some position |
| `ReviewCard.TagVariantCases` | src/components/ReviewCard.tsx:12-17 | every tag gets exactly one of "default", "destructive", "secondary": default exactly when the lower-cased tag has "recommended" and no "not"; destructive exactly when it has "not recommended"; secondary otherwise |
| `ReviewCard.TagVariantIgnoresCase` | src/components/ReviewCard.tsx:13 | upper- or lower-casing the tag does not change its variant |
| `ReviewCard.TagVariant` | src/components/ReviewCard.tsx:12-17 | a tag is destructive exactly when its lower-cased form contains "not recommended" (the first rule, which excludes "not", never claims it), and default only when it contains "recommended" |
| `ReviewCard.RecommendedTag` | src/components/ReviewCard.tsx:14 | "Recommended" is default |
| `ReviewCard.NotRecommendedTag` | src/components/ReviewCard.tsx:15 | "Not Recommended" is destructive |
| `ReviewCard.MixedFeelingsTag` | src/components/ReviewCard.tsx:16 | "Mixed Feelings" is secondary |
| `ReviewCard.Badges` | src/components/ReviewCard.tsx:58-65 | one badge per tag, in order, with that tag's variant, then a destructive one for a spoiler |
| `ReviewCard.BodyText` | src/components/ReviewCard.tsx:23 | a missing body is the empty text |
| `ReviewCard.DisplayedText` | src/components/ReviewCard.tsx:21-25 | a long, collapsed text shows its first 450 characters and "...", 453 in all; otherwise the whole text |
| `ReviewCard.DisplayedIsFaithful` | src/components/ReviewCard.tsx:24-25 | what is shown always starts with the text, and is at most 453 characters while collapsed |
| `ReviewCard.MissingBodyIsShort` | src/components/ReviewCard.tsx:23-25 | a missing body is never long, has no toggle and shows the empty text |
| `ReviewCard.ToggleLabel` | src/components/ReviewCard.tsx:72-80 | the toggle exists exactly for a text over 450 characters and reads "Show Less" when expanded, "Read More" when not |
| `ReviewCard.Card.constructor` | src/components/ReviewCard.tsx:20-23 | a card starts collapsed with the body or the empty text |
| `ReviewCard.Card.Displayed` | src/components/ReviewCard.tsx:25 | a long, collapsed card shows the first 450 characters of its text followed by "..."; an expanded or short card shows the whole text |
| `ReviewCard.Card.Label` | src/components/ReviewCard.tsx:72-80 | the card has a toggle exactly when its text is long, reading "Show Less" when expanded and "Read More" when collapsed |
| `ReviewCard.Card.Toggle` | src/components/ReviewCard.tsx:76 | a press flips `isExpanded` |
| `HeroCarousel.NextIndex` | src/components/HeroCarousel.tsx:21 | a tick stays within `[0, length)`, moves one forward and wraps from the last slide to 0 |
| `HeroCarousel.AfterTicksWithinRound` | src/components/HeroCarousel.tsx:21 | `k` ticks (k at most the length) move `k` places forward, wrapping once |
| `HeroCarousel.FullCycleReturns` | src/components/HeroCarousel.tsx:21 | as many ticks as slides bring the index back |
| `HeroCarousel.AfterTicksPeriodic` | src/components/HeroCarousel.tsx:21 | the tick sequence repeats with period `length` |
| `HeroCarousel.EveryIndexIsReached` | src/components/HeroCarousel.tsx:21 | every slide is shown within `length - 1` ticks |
| `HeroCarousel.ActiveLayers` | src/components/HeroCarousel.tsx:35-40 | there is one layer per anime and a layer is active exactly when its position is the index |
| `HeroCarousel.ExactlyOneLayerActive` | src/components/HeroCarousel.tsx:35-40 | exactly one layer is active when the index points at an anime |
| `HeroCarousel.ImageSource` | src/components/HeroCarousel.tsx:44 | the source is one of the two image URLs, the large one whenever it is present and not empty; it is empty only when both are |
| `HeroCarousel.YearLabel` | src/components/HeroCarousel.tsx:69 | the label is never empty and never "0": it is "Unknown" for an absent or 0 year, and otherwise the year in decimal, which reads back as the year |
| `HeroCarousel.ShownGenres` | src/components/HeroCarousel.tsx:85 | a prefix of the genres of length at most 4 (all of them when fewer), none when absent |
| `HeroCarousel.TrailerLink` | src/components/HeroCarousel.tsx:99-105 | a shown trailer link is the trailer URL and never empty; it is hidden only when the URL is absent or empty |
| `HeroCarousel.Render` | src/components/HeroCarousel.tsx:27-124 | the banner exists exactly when there is an anime at the index; it has one layer and one dot per anime, the active layer and the active dot are both exactly the one at the index; each layer shows its own anime's image; title, year label, genres, trailer link and the "More Info" path `/anime/<id>` are those of the current anime |
| `HeroCarousel.Carousel.constructor` | src/components/HeroCarousel.tsx:16 | the index starts at 0 |
| `HeroCarousel.Carousel.Tick` | src/components/HeroCarousel.tsx:19-22 | a tick sets the index to the next one modulo the length and keeps it in range |
| `HeroCarousel.Carousel.SelectDot` | src/components/HeroCarousel.tsx:112-115 | clicking dot `idx` (one exists per anime) sets the index to `idx` |
| `HeroCarousel.Carousel.View` | src/components/HeroCarousel.tsx:27-29 | the component renders nothing exactly when the list is empty |

## Left out

- The HTTP call, the JSON parser and the `revalidate: 3600` caching directive of `fetchJSON`: the outcome of a request is an input.
- The 500 ms delay before loading reviews, the 6000 ms interval of the carousel and its cleanup: timing, not logic.
- The search page's debounce and its asynchronous effect (`src/components/SearchClient.tsx`): timer-driven concurrency. `src/components/SearchClient.tsx` is not part of this model.
- `Reviews.ReviewsContainer.BeginLoad`: React reads `isLoading` from the last render, so two clicks before a re-render could both pass the guard. The model runs each half of `loadMoreReviews` atomically and does not capture that race; the button is also disabled while loading.
- `Reviews.ReviewsContainer.FinishLoad`: the review list fetches without checking `res.ok`. An HTTP error whose body is JSON without `data` therefore arrives as an empty page and ends the list. The model takes the fetch result as `Fetched(data.data || [])` or `Failed` and does not model the HTTP status on this path.
- `Api.GetAnimeEpisodes`: pages and limits are modelled as unbounded integers; NaN (as from `Number("abc")`), fractional pages, the exponent notation JavaScript uses from 1e21 and double-precision rounding above 2^53 are not modelled.
- `Api.SearchUrl`: `encodeURIComponent` is an uninterpreted parameter, so the model does not state what the query part of the search URL is.
- Date parsing (`new Date(...).getTime()`) and date formatting (`toLocaleDateString`): dates are integer timestamps; invalid dates (NaN) are not modelled.
- Unicode: `length` counts characters, not UTF-16 code units, and `toLowerCase` is modelled for ASCII letters only.
- `HeroCarousel.Carousel.Tick`: a tick requires a non-empty list; on an empty list the source computes `NaN` (`% 0`), which the model does not represent. A change of the `animeList` prop after mounting, which keeps the old index, is not modelled.
- The `Tick` remainder is Dafny's; it agrees with JavaScript's `%` because both operands are non-negative.
- Falsy values other than absence, the empty string and 0 (for example `NaN` or `false` in a JSON field) are not modelled.
- Markup, styling, icons, `Image` and `Link`, the avatar, score and vote display, and `console` logging.
- The detail and reviews pages (`src/app/anime/[id]/page.tsx`, `src/app/anime/[id]/reviews/page.tsx`), with their ordering of characters and their pagination links, and the presentation-only files (`src/app/layout.tsx`, `src/app/page.tsx`, `src/app/search/page.tsx`, `src/components/Navbar.tsx`, `src/components/AnimeCard.tsx`) are not part of this model.
