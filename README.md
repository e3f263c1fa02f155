# Podcast browser — verified model of its list and view logic

The application is a browser-based podcast directory built with React. It
fetches a list of shows, lets the user narrow it by genre and by a title
search, sort it, and page through it ten shows at a time, with the whole
query kept in the URL (`genre`, `search`, `sort`, `page`). A show page lists
the seasons of one show, each expandable into episode cards. A favourites
page groups favourited episodes by show and orders the groups. A carousel
shows eight recommended shows. A global audio player plays the current
episode and shows an `m:ss` clock.

This project models that logic in Dafny and proves what the components
promise:

- `Home` (home.dfy) is the home page's list pipeline. The genre and search
  filters, the four sort orders, page normalisation, `ceil(n/10)` pages and
  the page slice are modelled. So is the URL update rule of
  `updateSearchParams` and the page component's state (`HomePage`).
- `Favourites` (favourites.dfy) is `groupByShow`, built as a loop over a
  dictionary accumulator. It also holds `sortShows` over the grouped
  entries and the page's sort-order state.
- `Carousel`, `PodcastDetails`, `AudioPlayer`, `EpisodeCard` and
  `Pagination` cover the smaller components. These are the carousel's
  wrap-around index, the per-season expand flags, the play/pause flag and
  `formatTime`, the episode record and description shortening, and the
  page-button strip.
- Shared pieces:
  - `Catalog` holds the API entities and genre labels.
  - `Decimal` holds `toString`, `parseInt` and `Number` on integers.
  - `Text` holds ASCII `toLowerCase` and `includes`.
  - `Sequences` holds `filter`, sub-sequences and de-duplication.
  - `Sorting` holds `Array.prototype.sort` as an in-place insertion sort on
    an array.

Conventions of the model:

- `localeCompare` is a parameter `collate(a, b)`, read as
  `a.localeCompare(b) <= 0`. The sort needs only that it is total. The
  "any two positions are in order" lemmas also assume it is transitive.
- Dates are integer timestamps.
- Missing optional string fields are the empty string. JavaScript treats
  both as falsy.
- `NaN` is `None` (or `NotANumber` for the player's clock).
- The favourites store, the current episode and `isFavorite` come from a
  shared context whose value is empty in this code base. The model never
  invents their behaviour:
  - the favourites list and the current episode are inputs;
  - `isFavorite` is a function parameter.

The code replaces only non-positive or unreadable page numbers by 1. There is
no upper clamp, so a page past `totalPages` shows an empty slice
(`Home.PageShows`, `Home.NormalisePage`).

## Model

| member | source | states |
|---|---|---|
| Home.ByGenre | my-podcast-project/src/Pages/Home.jsx:58-62 | the genre step keeps a sub-sequence of the shows; an empty genre keeps all of them; otherwise a show stays, as often as it occurs, exactly when it has a `genres` list containing `Number(genre)`, and shows without `genres` are dropped |
| Home.BySearch | my-podcast-project/src/Pages/Home.jsx:64-68 | the search step keeps a sub-sequence; an empty term keeps all shows; otherwise a show stays exactly when its lower-cased title contains the lower-cased term |
| Home.SelectedIsSubseq | my-podcast-project/src/Pages/Home.jsx:56-68 | the two filter steps together keep the shows in their original relative order |
| Home.SelectedCount | my-podcast-project/src/Pages/Home.jsx:56-68 | a show survives both filters, with its multiplicity, exactly when it passes each active filter |
| Home.GenreMenuChoice | my-podcast-project/src/Pages/Home.jsx:58-61 | selecting genre id `n` (written as its decimal string) keeps exactly the shows whose `genres` contains `n` |
| Home.ComparatorTotal | my-podcast-project/src/Pages/Home.jsx:70-82 | each of the page's comparators, and the no-sort case, relates every pair of shows one way or the other when the collation does |
| Home.ComparatorTransitive | my-podcast-project/src/Pages/Home.jsx:70-82 | each comparator is transitive when the collation is |
| Home.ArrangeShows | my-podcast-project/src/Pages/Home.jsx:56-82 | the effect's filtered list is a permutation of the selected shows, sorted by the comparator for the sort order, and in the selected order when the sort value is not one of the four known ones |
| Home.ArrangedInOrder | my-podcast-project/src/Pages/Home.jsx:70-82 | in the arranged list any earlier show precedes any later one: titles ascending or descending by collation, `updated` newest first or oldest first |
| Home.NormalisePage | my-podcast-project/src/Pages/Home.jsx:85 | the page is the parsed `page` parameter when that is a number above 0, and 1 otherwise (including NaN); it is never below 1 and has no upper clamp |
| Home.TotalPages | my-podcast-project/src/Pages/Home.jsx:110 | the page count is the least `t` with `10 t >= n`, that is `ceil(n/10)` |
| Home.PageShows | my-podcast-project/src/Pages/Home.jsx:111-114 | a page holds at most 10 shows, is the run of the filtered list starting at `(page-1)*10`, is empty exactly when the page is beyond `totalPages`, is full on every page before the last, and on any page up to `totalPages` ends at `min(page*10, n)`, so the last page holds every remaining show |
| Home.PagesPrefix | my-podcast-project/src/Pages/Home.jsx:110-114 | pages 1 to `k` laid end to end are the first `min(10k, n)` filtered shows |
| Home.PagesCover | my-podcast-project/src/Pages/Home.jsx:110-114 | pages 1 to `totalPages` together are the whole filtered list, each show once and in order |
| Home.UpdatedSearchParams | my-podcast-project/src/Pages/Home.jsx:92-100 | the loop over the update object yields the merged parameters: entries applied in order, then `page` dropped unless the update gives it a non-empty value |
| Home.ApplyEntriesAt | my-podcast-project/src/Pages/Home.jsx:94-97 | after the `forEach`, a key whose last given value is non-empty holds that value, a key last given the empty value is absent, and an unmentioned key is as before |
| Home.MergedAt | my-podcast-project/src/Pages/Home.jsx:92-100 | each key given a truthy value is set, each given a falsy value is deleted, other keys except `page` are unchanged, and `page` is present exactly when the update carries a truthy `page` |
| Home.GoToPageReadsBack | my-podcast-project/src/Pages/Home.jsx:106-108 | `goToPage(n)` for `n >= 1` makes the next render show page `n` and keeps the search, genre and sort parameters |
| Home.FilterChangeResetsPage | my-podcast-project/src/Pages/Home.jsx:122-135 | changing the genre, search term or sort order through its control sends the list back to page 1 |
| Home.FilterChangeSetsOne | my-podcast-project/src/Pages/Home.jsx:122-135 | that change sets the chosen parameter and leaves the other two untouched |
| Home.HomePage.constructor | my-podcast-project/src/Pages/Home.jsx:21-27 | the page starts with no shows, an empty filtered list and page 1 |
| Home.HomePage.ShowsFetched | my-podcast-project/src/Pages/Home.jsx:39-42 | the fetched data becomes the show list |
| Home.HomePage.Refresh | my-podcast-project/src/Pages/Home.jsx:53-86 | with no shows the effect changes nothing; otherwise the filtered list is the arranged selection for the current URL and the page is the normalised page parameter |
| Home.HomePage.UpdateSearchParams | my-podcast-project/src/Pages/Home.jsx:92-100 | the URL becomes the merged parameters |
| Home.HomePage.GoToPage | my-podcast-project/src/Pages/Home.jsx:106-108 | the URL becomes the current parameters with `page` set to the decimal form of the new page |
| Home.HomePage.PageButtonsShown | my-podcast-project/src/Pages/Home.jsx:142-157 | the page strip is drawn only when there is more than one page, with one button per page |
| Home.HomePage.PageButtonLeadsToItsPage | my-podcast-project/src/Pages/Home.jsx:142-157 | clicking the strip's button for page `p` makes the page read back `p` |
| Home.HomePage.NoShowsNoPages | my-podcast-project/src/Pages/Home.jsx:110-114 | before any show has arrived there are 0 pages and the page shown is empty |
| Decimal.ParseInt | my-podcast-project/src/Pages/Home.jsx:32 | `parseInt` yields NaN exactly when no digit follows the leading white space and optional sign |
| Decimal.ParseIntOfIntToString | my-podcast-project/src/Pages/Home.jsx:32 | every integer written with `toString` reads back unchanged through `parseInt` |
| Decimal.ToNumberOfIntToString | my-podcast-project/src/Pages/Home.jsx:60 | every integer written with `toString` reads back unchanged through `Number` |
| Text.ContainsIff | my-podcast-project/src/Pages/Home.jsx:66 | `includes` holds exactly when the term occurs at some position of the title |
| Sorting.SortBy | my-podcast-project/src/Pages/Home.jsx:70-82 | the in-place sort leaves the array sorted by the comparator and a permutation of what it held |
| Sorting.SortedPairwise | my-podcast-project/src/Pages/Favorites.jsx:40-55 | with a transitive comparator, neighbour-wise order gives order between any two positions |
| Catalog.GenreLabelFallback | my-podcast-project/src/components/Podcast/PodcastDetails.jsx:22-32 | ids 1 to 9 get their fixed names, and exactly the other ids get "Genre " followed by the id, from which the id reads back |
| Catalog.GenreLabelInjective | my-podcast-project/src/components/UI/Carousel.jsx:16-26 | different genre ids never share a label |
| Favourites.GroupOfNonEmpty | my-podcast-project/src/Pages/Favorites.jsx:22-29 | a group is non-empty exactly when some favourite carries its key |
| Favourites.GroupByShow | my-podcast-project/src/Pages/Favorites.jsx:21-30 | the accumulator's keys are the group keys in order of first appearance, each with the favourites of that key in list order, never empty |
| Favourites.GroupByShowAsWritten | my-podcast-project/src/Pages/Favorites.jsx:22-29 | over a plain object the reduce throws exactly when some key is an inherited property name; otherwise it groups as `GroupByShow` does |
| Favourites.ConstructorTitleThrows | my-podcast-project/src/Pages/Favorites.jsx:24-27 | a favourite from a show titled "constructor" makes the grouping throw, although its intended group is just that favourite |
| Favourites.FiledOnce | my-podcast-project/src/Pages/Favorites.jsx:22-29 | every favourite lands, as often as it occurs, in the group for its show title (or "Unknown Show") and in no other |
| Favourites.GroupKeepsOrder | my-podcast-project/src/Pages/Favorites.jsx:27 | within a group the episodes keep their relative order from the favourites list |
| Favourites.GroupSizesSum | my-podcast-project/src/Pages/Favorites.jsx:22-29 | the sizes of the groups add up to the number of favourites |
| Favourites.Latest | my-podcast-project/src/Pages/Favorites.jsx:46-47 | a group's date is the largest `addedAt` among its episodes: no episode is later, and one has it |
| Favourites.GroupComparatorTotal | my-podcast-project/src/Pages/Favorites.jsx:40-55 | each group comparator relates every pair of entries one way or the other when the collation does |
| Favourites.GroupComparatorTransitive | my-podcast-project/src/Pages/Favorites.jsx:40-55 | each group comparator is transitive when the collation is |
| Favourites.SortShows | my-podcast-project/src/Pages/Favorites.jsx:37-59 | the result is a permutation of the entries, sorted for the chosen order, and the entries in first-appearance order for an unknown order |
| Favourites.SortedGroupsInOrder | my-podcast-project/src/Pages/Favorites.jsx:40-55 | in the sorted entries any earlier group precedes any later one: title ascending or descending, latest date descending or ascending |
| Favourites.FavouritesPage.constructor | my-podcast-project/src/Pages/Favorites.jsx:15 | the sort order starts as "date-desc" |
| Favourites.FavouritesPage.SelectSortOrder | my-podcast-project/src/Pages/Favorites.jsx:84-88 | the selector's value becomes the sort order |
| Favourites.FavouritesPage.Render | my-podcast-project/src/Pages/Favorites.jsx:61-76 | an empty favourites list gives the empty message; otherwise the page shows a permutation of the grouped entries in the selected order |
| Carousel.Recommended | my-podcast-project/src/components/UI/Carousel.jsx:31 | the recommended shows are the first `min(8, n)` shows, in order |
| Carousel.Next | my-podcast-project/src/components/UI/Carousel.jsx:36-38 | the next index stays below the card count, and is the following card, or the first after the last |
| Carousel.Prev | my-podcast-project/src/components/UI/Carousel.jsx:43-47 | the previous index stays in range, is one less for any card but the first, and is the last card (`len - 1`) for the first |
| Carousel.PrevAfterNext | my-podcast-project/src/components/UI/Carousel.jsx:36-47 | going back after going forward returns to the same card |
| Carousel.NextAfterPrev | my-podcast-project/src/components/UI/Carousel.jsx:36-47 | going forward after going back returns to the same card |
| Carousel.NextTimesIsShift | my-podcast-project/src/components/UI/Carousel.jsx:36-38 | `k` forward steps within one round move `k` cards on, wrapping past the last card |
| Carousel.NextFullCircle | my-podcast-project/src/components/UI/Carousel.jsx:36-38 | as many forward steps as there are cards return to the starting card |
| Carousel.ScrollOffset | my-podcast-project/src/components/UI/Carousel.jsx:54-55 | the scroll offset is a whole number of 280-pixel cards, namely the current index |
| Carousel.GenreTags | my-podcast-project/src/components/UI/Carousel.jsx:94-96 | a card shows the labels of exactly the first `min(2, n)` genres, in order, and none when `genres` is missing |
| Carousel.Render | my-podcast-project/src/components/UI/Carousel.jsx:28-125 | nothing is rendered for a missing or empty list; otherwise one card and one indicator per recommended show, active exactly at the current index |
| Carousel.CarouselState.constructor | my-podcast-project/src/components/UI/Carousel.jsx:13 | the carousel starts at the first card |
| Carousel.CarouselState.GoToNext | my-podcast-project/src/components/UI/Carousel.jsx:36-38 | the next arrow moves the index to `Next` of the old one |
| Carousel.CarouselState.GoToPrev | my-podcast-project/src/components/UI/Carousel.jsx:43-47 | the previous arrow moves the index to `Prev` of the old one |
| Carousel.CarouselState.GoTo | my-podcast-project/src/components/UI/Carousel.jsx:121 | an indicator click jumps to its card |
| Carousel.CarouselState.OneActiveCard | my-podcast-project/src/components/UI/Carousel.jsx:82-84 | with the index in range exactly one card is active |
| PodcastDetails.Toggled | my-podcast-project/src/components/Podcast/PodcastDetails.jsx:43-46 | the toggled season's status flips and every other recorded season keeps its flag |
| PodcastDetails.ToggleOnlyOne | my-podcast-project/src/components/Podcast/PodcastDetails.jsx:42-47 | toggling one season leaves every other season's status unchanged |
| PodcastDetails.ToggleTwice | my-podcast-project/src/components/Podcast/PodcastDetails.jsx:45 | toggling a season twice restores the status of every season |
| PodcastDetails.SeasonToggles.constructor | my-podcast-project/src/components/Podcast/PodcastDetails.jsx:20 | every season starts collapsed |
| PodcastDetails.SeasonToggles.ToggleSeason | my-podcast-project/src/components/Podcast/PodcastDetails.jsx:42-47 | a header click replaces the flags by their toggled form |
| PodcastDetails.ImageContext | my-podcast-project/src/components/Podcast/PodcastDetails.jsx:101 | the image handed to episode cards is the season's when it has one, else the show's |
| PodcastDetails.CardImageFallback | my-podcast-project/src/components/Podcast/PodcastDetails.jsx:97-103 | an episode card's image is the episode's, else its season's, else its show's |
| PodcastDetails.GenreTags | my-podcast-project/src/components/Podcast/PodcastDetails.jsx:61-69 | the header lists one label per genre id, in order, and none when `genres` is missing |
| PodcastDetails.Render | my-podcast-project/src/components/Podcast/PodcastDetails.jsx:34-108 | a missing show gives "Show not found."; otherwise every season gets a block, and only an expanded block lists one card per episode |
| AudioPlayer.PadTwo | my-podcast-project/src/components/UI/AudioPlayer.jsx:65 | padding keeps strings of two or more characters and left-fills shorter ones with "0" to length 2 |
| AudioPlayer.FormatTime | my-podcast-project/src/components/UI/AudioPlayer.jsx:61-66 | NaN formats as "0:00" |
| AudioPlayer.SecondsField | my-podcast-project/src/components/UI/AudioPlayer.jsx:64-65 | the seconds field is exactly two digits that read as `n mod 60` |
| AudioPlayer.FormatTimeParts | my-podcast-project/src/components/UI/AudioPlayer.jsx:63-65 | a formatted time is `floor(n/60)` in digits, a colon, and two digits reading as `n mod 60`, below 60 |
| AudioPlayer.FormatTimeReadsBack | my-podcast-project/src/components/UI/AudioPlayer.jsx:61-66 | reading a formatted clock back as `60 m + ss` gives the original whole seconds |
| AudioPlayer.Player.constructor | my-podcast-project/src/components/UI/AudioPlayer.jsx:14-16 | the player starts paused with both times at 0 and no episode |
| AudioPlayer.Player.TogglePlayPause | my-podcast-project/src/components/UI/AudioPlayer.jsx:21-30 | the play flag flips while there is a current episode (so the audio element exists) and is untouched otherwise |
| AudioPlayer.Player.EpisodeChanged | my-podcast-project/src/components/UI/AudioPlayer.jsx:86-94 | a new current episode sets the play flag; clearing the episode leaves it as it was |
| AudioPlayer.Player.Ended | my-podcast-project/src/components/UI/AudioPlayer.jsx:103 | the end of the audio clears the play flag |
| AudioPlayer.Player.TimeUpdate | my-podcast-project/src/components/UI/AudioPlayer.jsx:45-47 | the current time becomes the element's time |
| AudioPlayer.Player.LoadedMetadata | my-podcast-project/src/components/UI/AudioPlayer.jsx:52-54 | the duration becomes the element's duration |
| AudioPlayer.Player.View | my-podcast-project/src/components/UI/AudioPlayer.jsx:94-137 | nothing is rendered without a current episode; otherwise the button reads Pause while playing and Play otherwise, and both clocks are formatted |
| EpisodeCard.Record | my-podcast-project/src/components/Podcast/EpisodeCard.jsx:17-22 | the record copies the episode's fields, takes the show title and season number from the props even when the episode has its own, and uses the episode image or else the show image |
| EpisodeCard.LookupMatchesRecord | my-podcast-project/src/components/Podcast/EpisodeCard.jsx:33 | the card looks up favourite status under the same (episode, season, show title) key as the record it hands over, not under the episode's own show title |
| EpisodeCard.Shorten | my-podcast-project/src/components/Podcast/EpisodeCard.jsx:45-47 | a description of at most 120 characters is shown unchanged; a longer one as its first 120 characters followed by "..." |
| EpisodeCard.ShortenBounds | my-podcast-project/src/components/Podcast/EpisodeCard.jsx:45-47 | the shown text has at most 123 characters and begins with the first `min(len, 120)` characters of the description |
| EpisodeCard.ShortenIdempotent | my-podcast-project/src/components/Podcast/EpisodeCard.jsx:45-47 | shortening an already shortened description changes nothing |
| EpisodeCard.Card | my-podcast-project/src/components/Podcast/EpisodeCard.jsx:35-66 | the card shows the record's image, the shortened description, and the favourite mark of the record's key |
| Pagination.Buttons | my-podcast-project/src/components/UI/Pagination.jsx:13-29 | nothing is rendered when there is at most one page; otherwise there is one button per page |
| Pagination.ButtonsCoverPages | my-podcast-project/src/components/UI/Pagination.jsx:18 | the buttons request the pages 1 to `totalPages`, each exactly once, in ascending order |
| Pagination.ActiveButton | my-podcast-project/src/components/UI/Pagination.jsx:21-25 | a button is active exactly when its page is the current page, so at most one is, and one is exactly when the current page is in range |
| Pagination.CaptionIsTarget | my-podcast-project/src/components/UI/Pagination.jsx:24-27 | each button's caption reads as the page number its click hands to `onPageChange` |

## Left out

- The shared context (my-podcast-project/src/context/PodcastContext.jsx:15) provides an empty object. The favourites store, `toggleFavourite`/`isFavorite`, `playEpisode`, `clearCurrentEpisode` and the theme have no behaviour to model. The model takes the favourites list and the current episode as inputs and `isFavorite` as a function parameter. The names also differ: the episode card asks for `toggleFavorite`/`isFavorite`, the favourites page for `toggleFavourite`.
- Fetching the show list and a show's detail is network I/O, so it is left out. This covers the loading and error states, the show-details page's fetch lifecycle, and router navigation. `ShowsFetched` stands for a successful fetch.
- Route wiring, the header, the theme toggle and purely presentational components are not part of this model. They have no list or state logic.
- Home.ArrangeShows, Favourites.SortShows: `Array.prototype.sort` is stable, which the model does not state. Equal elements may end up in any order.
- EpisodeCard.Shorten: lengths are counted in characters, not UTF-16 code units. Text outside the Basic Multilingual Plane is cut earlier by the page, possibly inside a surrogate pair.
- Favourites.FavouritesPage.Render: renders the corrected grouping of `Favourites.GroupByShow`. On a favourite whose show title is an inherited `Object.prototype` name, the page as written throws before rendering; that behaviour is modelled only by `Favourites.GroupByShowAsWritten`.
- Home.BySearch: `toLowerCase` is modelled on ASCII letters only, with no Unicode case mapping.
- Decimal.ParseInt: only ASCII white space is skipped. `Number` is modelled for an optional sign followed by decimal digits, and for the empty string. Its other forms (hexadecimal, exponents, fractions, `Infinity`) are not modelled.
- Favourites.GroupByShow: `Object.entries` lists integer-like keys in numeric order before the others. The model keeps plain insertion order for every key.
- Home.UpdatedSearchParams: a URL parameter holds at most one value here. The position of a re-set parameter within the query string is not modelled.
- Home.HomePage.Refresh: React's scheduling of state updates and effects is abstracted into explicit method calls.
- Carousel.CarouselState: when the `shows` prop changes length, the index is not brought back into range. The model states in-range results only for an in-range index.
- AudioPlayer.FormatTime: times are whole seconds or NaN. Fractional seconds from `currentTime` and `duration`, and an infinite duration, are not modelled.
- AudioPlayer.Player: the media element's `play`/`pause`/`load` calls, seeking (`handleSeek`) and the `beforeunload` prompt are browser I/O, so they are left out.
- Carousel: `scrollTo` with smooth scrolling is browser I/O. Only the offset it is given is modelled.
- The favourites page's per-episode play and remove buttons call into the unimplemented context, so they are not modelled.

## Findings

| source | as written | input that shows it | evidently intended | confidence | as-written member | corrected member |
|---|---|---|---|---|---|---|
| my-podcast-project/src/Pages/Favorites.jsx:22-29 | the accumulator is a plain `{}`, so `acc[showTitle]` is truthy for names inherited from `Object.prototype` and `acc[showTitle].push` is not a function | one favourite whose `showTitle` is "constructor" (or "toString", "__proto__", ...) | every title gets its own group, like any other | high, not executed | Favourites.GroupByShowAsWritten, Favourites.ConstructorTitleThrows | Favourites.GroupByShow |
