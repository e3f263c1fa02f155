/**
 * The home page: the fetched show list is narrowed by genre and by a title
 * search, sorted, and cut into pages of ten, all driven by the URL query
 * parameters `genre`, `search`, `sort` and `page`.
 */
module Home {
  import opened Base
  import opened Catalog
  import Decimal
  import Text
  import opened Sequences
  import opened Sorting
  import Pagination

  const PageSize: nat := 10

  /** The URL query string: at most one value per parameter name. */
  type Params = map<string, string>

  /** One `[key, value]` pair of the object handed to `updateSearchParams`. */
  type Update = (string, string)

  /** `searchParams.get(name) || ""`. */
  function Param(params: Params, name: string): string
  {
    if name in params then params[name] else ""
  }

  /** The four query parameters as the page reads them on each render. */
  datatype Query = Query(search: string, genre: string, sort: string, pageParam: Option<int>)

  /** Reads the query from the URL; `pageParam` is `parseInt(get("page") || "1", 10)`. */
  function ReadQuery(params: Params): Query
  {
    var page := Param(params, "page");
    Query(Param(params, "search"), Param(params, "genre"), Param(params, "sort"),
          Decimal.ParseInt(if page == "" then "1" else page))
  }

  // ---------------------------------------------------------------- filters

  /** `show.genres ? show.genres.includes(Number(genre)) : false`. */
  predicate HasGenre(show: Show, genre: string)
  {
    match (show.genres, Decimal.ToNumber(genre))
    case (Some(ids), Some(n)) => n in ids
    case _ => false
  }

  function GenreIs(genre: string): Show -> bool
  {
    show => HasGenre(show, genre)
  }

  /** The genre step: a no-op for the empty genre, otherwise keeps the shows of that genre. */
  function ByGenre(shows: seq<Show>, genre: string): (r: seq<Show>)
    ensures IsSubseq(r, shows)
    ensures genre == "" ==> r == shows
    ensures genre != "" ==> forall x :: multiset(r)[x] == if HasGenre(x, genre) then multiset(shows)[x] else 0
  {
    if genre == "" then SubseqReflexive(shows); shows
    else
      FilterIsSubseq(shows, GenreIs(genre));
      FilterCount(shows, GenreIs(genre));
      Filter(shows, GenreIs(genre))
  }

  /** `show.title.toLowerCase().includes(term.toLowerCase())`. */
  predicate MatchesSearch(show: Show, term: string)
  {
    Text.Contains(Text.Lower(show.title), Text.Lower(term))
  }

  function SearchIs(term: string): Show -> bool
  {
    show => MatchesSearch(show, term)
  }

  /** The search step: a no-op for the empty term, otherwise keeps the shows whose title contains it. */
  function BySearch(shows: seq<Show>, term: string): (r: seq<Show>)
    ensures IsSubseq(r, shows)
    ensures term == "" ==> r == shows
    ensures term != "" ==> forall x :: multiset(r)[x] == if MatchesSearch(x, term) then multiset(shows)[x] else 0
  {
    if term == "" then SubseqReflexive(shows); shows
    else
      FilterIsSubseq(shows, SearchIs(term));
      FilterCount(shows, SearchIs(term));
      Filter(shows, SearchIs(term))
  }

  /** The shows both filter steps keep, before sorting. */
  function Selected(shows: seq<Show>, q: Query): seq<Show>
  {
    BySearch(ByGenre(shows, q.genre), q.search)
  }

  /** The two filter steps keep the relative order of the shows they keep. */
  lemma SelectedIsSubseq(shows: seq<Show>, q: Query)
    ensures IsSubseq(Selected(shows, q), shows)
  {
    SubseqTransitive(Selected(shows, q), ByGenre(shows, q.genre), shows);
  }

  /** A show is kept, as often as it occurs, exactly when it passes both active filters. */
  lemma SelectedCount(shows: seq<Show>, q: Query, x: Show)
    ensures multiset(Selected(shows, q))[x] ==
      if (q.genre == "" || HasGenre(x, q.genre)) && (q.search == "" || MatchesSearch(x, q.search))
      then multiset(shows)[x] else 0
  {
  }

  /** Selecting a genre offered by the genre menu keeps exactly the shows listing that genre id. */
  lemma GenreMenuChoice(show: Show, id: int)
    ensures HasGenre(show, Decimal.IntToString(id)) <==> show.genres.Some? && id in show.genres.value
  {
    Decimal.ToNumberOfIntToString(id);
  }

  // ------------------------------------------------------------------ sort

  predicate IsSortOrder(order: string)
  {
    order == "title-asc" || order == "title-desc" || order == "updated-desc" || order == "updated-asc"
  }

  /**
   * Whether `a` may precede `b` under the comparator the page passes to `sort`
   * for `order`; `collate(x, y)` stands for `x.localeCompare(y) <= 0`.
   * Unrecognised orders do not sort, so every pair is allowed.
   */
  predicate Before(order: string, collate: (string, string) -> bool, a: Show, b: Show)
  {
    if order == "title-asc" then collate(a.title, b.title)
    else if order == "title-desc" then collate(b.title, a.title)
    else if order == "updated-desc" then b.updated <= a.updated
    else if order == "updated-asc" then a.updated <= b.updated
    else true
  }

  function Comparator(order: string, collate: (string, string) -> bool): (Show, Show) -> bool
  {
    (a, b) => Before(order, collate, a, b)
  }

  lemma ComparatorTotal(order: string, collate: (string, string) -> bool)
    requires Total(collate)
    ensures Total(Comparator(order, collate))
  {
    forall a: Show, b: Show
      ensures Comparator(order, collate)(a, b) || Comparator(order, collate)(b, a)
    {
      assert collate(a.title, b.title) || collate(b.title, a.title);
    }
  }

  lemma ComparatorTransitive(order: string, collate: (string, string) -> bool)
    requires Transitive(collate)
    ensures Transitive(Comparator(order, collate))
  {
    forall a: Show, b: Show, c: Show | Comparator(order, collate)(a, b) && Comparator(order, collate)(b, c)
      ensures Comparator(order, collate)(a, c)
    {
      if order == "title-asc" {
        assert collate(a.title, b.title) && collate(b.title, c.title);
      } else if order == "title-desc" {
        assert collate(c.title, b.title) && collate(b.title, a.title);
      }
    }
  }

  /**
   * `r` is the page's `filtered` list after the sort step for `order`: a
   * permutation of the selected shows, in comparator order, and untouched
   * when the order is not one of the four the page knows.
   */
  ghost predicate Arranged(r: seq<Show>, selected: seq<Show>, order: string, collate: (string, string) -> bool)
  {
    && multiset(r) == multiset(selected)
    && Sorted(r, Comparator(order, collate))
    && (!IsSortOrder(order) ==> r == selected)
  }

  /** The filter, search and sort steps of the page's effect, on a fresh copy of the shows. */
  method ArrangeShows(shows: seq<Show>, q: Query, collate: (string, string) -> bool) returns (filtered: seq<Show>)
    requires Total(collate)
    ensures Arranged(filtered, Selected(shows, q), q.sort, collate)
  {
    filtered := shows;
    if q.genre != "" {
      filtered := Filter(filtered, GenreIs(q.genre));
    }
    if q.search != "" {
      filtered := Filter(filtered, SearchIs(q.search));
    }
    assert filtered == Selected(shows, q);
    ComparatorTotal(q.sort, collate);
    if q.sort == "title-asc" {
      filtered := SortedCopy(filtered, Comparator("title-asc", collate));
    } else if q.sort == "title-desc" {
      filtered := SortedCopy(filtered, Comparator("title-desc", collate));
    } else if q.sort == "updated-desc" {
      filtered := SortedCopy(filtered, Comparator("updated-desc", collate));
    } else if q.sort == "updated-asc" {
      filtered := SortedCopy(filtered, Comparator("updated-asc", collate));
    }
  }

  /**
   * With a transitive collation, the arranged list is ordered between any two
   * positions: titles non-decreasing for `title-asc`, non-increasing for
   * `title-desc`, timestamps newest first for `updated-desc`, oldest first for
   * `updated-asc`.
   */
  lemma ArrangedInOrder(r: seq<Show>, selected: seq<Show>, order: string, collate: (string, string) -> bool, i: int, j: int)
    requires Arranged(r, selected, order, collate) && Transitive(collate)
    requires 0 <= i < j < |r|
    ensures Before(order, collate, r[i], r[j])
  {
    ComparatorTransitive(order, collate);
    SortedPairwise(r, Comparator(order, collate), i, j);
  }

  // ------------------------------------------------------------ pagination

  /** `pageParam > 0 ? pageParam : 1`, where `NaN > 0` is false. */
  function NormalisePage(pageParam: Option<int>): (page: int)
    ensures page >= 1
    ensures pageParam.Some? && pageParam.value > 0 ==> page == pageParam.value
    ensures !(pageParam.Some? && pageParam.value > 0) ==> page == 1
  {
    if pageParam.Some? && pageParam.value > 0 then pageParam.value else 1
  }

  /** `Math.ceil(n / PAGE_SIZE)`. */
  function TotalPages(n: nat): (t: nat)
    ensures t * PageSize >= n
    ensures t == 0 || (t - 1) * PageSize < n
  {
    (n + PageSize - 1) / PageSize
  }

  function Min(a: int, b: int): int { if a < b then a else b }

  /** `s.slice(start, end)` for non-negative bounds. */
  function Slice<T>(s: seq<T>, start: nat, end: nat): seq<T>
  {
    var lo := Min(start, |s|);
    var hi := Min(end, |s|);
    if hi <= lo then [] else s[lo..hi]
  }

  /** `filteredShows.slice((page - 1) * PAGE_SIZE, page * PAGE_SIZE)`. */
  function PageShows(filtered: seq<Show>, page: int): (r: seq<Show>)
    requires page >= 1
    ensures |r| <= PageSize
    ensures r != [] ==> (page - 1) * PageSize + |r| <= |filtered|
    ensures forall k :: 0 <= k < |r| ==> r[k] == filtered[(page - 1) * PageSize + k]
    ensures r == [] <==> page > TotalPages(|filtered|)
    ensures page < TotalPages(|filtered|) ==> |r| == PageSize
    ensures page <= TotalPages(|filtered|) ==> (page - 1) * PageSize + |r| == Min(page * PageSize, |filtered|)
  {
    Slice(filtered, (page - 1) * PageSize, page * PageSize)
  }

  /** Pages 1 to `count`, concatenated. */
  function Pages(filtered: seq<Show>, count: nat): seq<Show>
  {
    if count == 0 then [] else Pages(filtered, count - 1) + PageShows(filtered, count)
  }

  lemma {:induction false} PagesPrefix(filtered: seq<Show>, count: nat)
    ensures Pages(filtered, count) == filtered[..Min(count * PageSize, |filtered|)]
  {
    if count > 0 {
      PagesPrefix(filtered, count - 1);
      var lo := Min((count - 1) * PageSize, |filtered|);
      var hi := Min(count * PageSize, |filtered|);
      assert filtered[..hi] == filtered[..lo] + filtered[lo..hi];
    }
  }

  /** Pages 1 to `totalPages` together hold every filtered show exactly once, in order. */
  lemma PagesCover(filtered: seq<Show>)
    ensures Pages(filtered, TotalPages(|filtered|)) == filtered
  {
    PagesPrefix(filtered, TotalPages(|filtered|));
  }

  // ---------------------------------------------------- URL parameter update

  /** The value the update object gives for `name`, if it names it. */
  function Lookup(updates: seq<Update>, name: string): Option<string>
  {
    if updates == [] then None
    else if updates[|updates| - 1].0 == name then Some(updates[|updates| - 1].1)
    else Lookup(updates[..|updates| - 1], name)
  }

  /** The `forEach` loop: a truthy value sets its key, a falsy one deletes it. */
  function ApplyEntries(params: Params, updates: seq<Update>): Params
  {
    if updates == [] then params
    else
      var p := ApplyEntries(params, updates[..|updates| - 1]);
      var (key, value) := updates[|updates| - 1];
      if value != "" then p[key := value] else p - {key}
  }

  /** `params.page` is truthy. */
  predicate PageGiven(updates: seq<Update>)
  {
    Lookup(updates, "page").Some? && Lookup(updates, "page").value != ""
  }

  /** The query string `updateSearchParams` installs. */
  function Merged(params: Params, updates: seq<Update>): Params
  {
    var p := ApplyEntries(params, updates);
    if PageGiven(updates) then p else p - {"page"}
  }

  /** The body of `updateSearchParams`: copies the current parameters and applies the update object to the copy. */
  method UpdatedSearchParams(params: Params, updates: seq<Update>) returns (next: Params)
    ensures next == Merged(params, updates)
  {
    next := params;
    for i := 0 to |updates|
      invariant next == ApplyEntries(params, updates[..i])
    {
      assert updates[..i + 1][..i] == updates[..i];
      var (key, value) := updates[i];
      if value != "" {
        next := next[key := value];
      } else {
        next := next - {key};
      }
    }
    assert updates[..|updates|] == updates;
    if !PageGiven(updates) {
      next := next - {"page"};
    }
  }

  lemma {:induction false} ApplyEntriesAt(params: Params, updates: seq<Update>, name: string)
    ensures Lookup(updates, name).Some? && Lookup(updates, name).value != "" ==>
      name in ApplyEntries(params, updates) && ApplyEntries(params, updates)[name] == Lookup(updates, name).value
    ensures Lookup(updates, name) == Some("") ==> name !in ApplyEntries(params, updates)
    ensures Lookup(updates, name).None? ==>
      (name in ApplyEntries(params, updates) <==> name in params) &&
      (name in params ==> ApplyEntries(params, updates)[name] == params[name])
  {
    if updates != [] {
      ApplyEntriesAt(params, updates[..|updates| - 1], name);
    }
  }

  /**
   * The effect of an update on one parameter: a key given a non-empty value is
   * set to it, a key given the empty value is removed, any other key except
   * `page` is unchanged, and `page` is removed unless the update gives it a
   * non-empty value.
   */
  lemma MergedAt(params: Params, updates: seq<Update>, name: string)
    ensures Lookup(updates, name).Some? && Lookup(updates, name).value != "" ==>
      name in Merged(params, updates) && Merged(params, updates)[name] == Lookup(updates, name).value
    ensures Lookup(updates, name) == Some("") ==> name !in Merged(params, updates)
    ensures Lookup(updates, name).None? && name != "page" ==>
      (name in Merged(params, updates) <==> name in params) &&
      (name in params ==> Merged(params, updates)[name] == params[name])
    ensures name == "page" ==> ("page" in Merged(params, updates) <==> PageGiven(updates))
  {
    ApplyEntriesAt(params, updates, name);
  }

  /** A page button's `goToPage(n)` leads the page to show page `n`, with the other parameters kept. */
  lemma GoToPageReadsBack(params: Params, n: int)
    requires n >= 1
    ensures var q := ReadQuery(Merged(params, [("page", Decimal.IntToString(n))]));
      && NormalisePage(q.pageParam) == n
      && q.search == ReadQuery(params).search
      && q.genre == ReadQuery(params).genre
      && q.sort == ReadQuery(params).sort
  {
    var updates := [("page", Decimal.IntToString(n))];
    assert updates[..0] == [];
    assert Lookup(updates, "search") == None by { assert "search"[0] != 'p'; }
    assert Lookup(updates, "genre") == None by { assert "genre"[0] != 'p'; }
    assert Lookup(updates, "sort") == None by { assert "sort"[0] != 'p'; }
    MergedAt(params, updates, "page");
    MergedAt(params, updates, "search");
    MergedAt(params, updates, "genre");
    MergedAt(params, updates, "sort");
    Decimal.ParseIntOfIntToString(n);
  }

  /** Changing the genre, the search term or the sort order sends the list back to page 1. */
  lemma FilterChangeResetsPage(params: Params, name: string, value: string)
    requires name == "genre" || name == "search" || name == "sort"
    ensures NormalisePage(ReadQuery(Merged(params, [(name, value), ("page", "1")])).pageParam) == 1
  {
    var updates := [(name, value), ("page", "1")];
    assert updates[..1] == [(name, value)] && updates[..1][..0] == [];
    assert Lookup(updates, "page") == Some("1");
    var m := Merged(params, updates);
    MergedAt(params, updates, "page");
    assert Param(m, "page") == "1";
    Decimal.ParseIntOne();
    assert ReadQuery(m).pageParam == Some(1);
  }

  /** Changing one of the genre, the search term or the sort order sets it and keeps the other two. */
  lemma FilterChangeSetsOne(params: Params, name: string, value: string, other: string)
    requires name == "genre" || name == "search" || name == "sort"
    requires other == "genre" || other == "search" || other == "sort"
    ensures Param(Merged(params, [(name, value), ("page", "1")]), other) ==
      if other == name then value else Param(params, other)
  {
    var updates := [(name, value), ("page", "1")];
    assert updates[..1] == [(name, value)] && updates[..1][..0] == [];
    assert other != "page" by {
      assert other[0] != 'p';
    }
    assert Lookup(updates, other) == Lookup(updates[..1], other);
    MergedAt(params, updates, other);
    if other == name {
      assert Lookup(updates, other) == Some(value);
    } else {
      var first := updates[..1];
      assert first[|first| - 1].0 != other;
      assert Lookup(first, other) == Lookup(first[..0], other);
    }
  }

  // ------------------------------------------------------------ page state

  /** The page component's state: the fetched shows, the derived list, the current page and the URL. */
  class HomePage {
    var shows: seq<Show>
    var filteredShows: seq<Show>
    var page: int
    var searchParams: Params
    /** The locale's string collation used by the title sorts. */
    const collate: (string, string) -> bool

    ghost predicate Valid()
      reads this
    {
      && page >= 1
      && Total(collate)
      && (shows == [] ==> filteredShows == [])
    }

    constructor (params: Params, collate: (string, string) -> bool)
      requires Total(collate)
      ensures Valid()
      ensures shows == [] && filteredShows == [] && page == 1
      ensures searchParams == params && this.collate == collate
    {
      shows := [];
      filteredShows := [];
      page := 1;
      searchParams := params;
      this.collate := collate;
    }

    /** The mount-time fetch resolves with `data`. */
    method ShowsFetched(data: seq<Show>)
      requires Valid() && shows == []
      modifies this`shows
      ensures Valid() && shows == data
    {
      shows := data;
    }

    /** The effect that recomputes the list whenever the shows or the query change. */
    method Refresh()
      requires Valid()
      modifies this`filteredShows, this`page
      ensures Valid()
      ensures shows == [] ==> filteredShows == old(filteredShows) && page == old(page)
      ensures shows != [] ==>
        && Arranged(filteredShows, Selected(shows, ReadQuery(searchParams)), ReadQuery(searchParams).sort, collate)
        && page == NormalisePage(ReadQuery(searchParams).pageParam)
    {
      if |shows| != 0 {
        var q := ReadQuery(searchParams);
        var arranged := ArrangeShows(shows, q, collate);
        filteredShows := arranged;
        page := NormalisePage(q.pageParam);
      }
    }

    /** `updateSearchParams(params)` followed by `setSearchParams`. */
    method UpdateSearchParams(updates: seq<Update>)
      requires Valid()
      modifies this`searchParams
      ensures Valid() && searchParams == Merged(old(searchParams), updates)
    {
      searchParams := UpdatedSearchParams(searchParams, updates);
    }

    /** `goToPage(newPage)`. */
    method GoToPage(newPage: int)
      requires Valid()
      modifies this`searchParams
      ensures Valid() && searchParams == Merged(old(searchParams), [("page", Decimal.IntToString(newPage))])
    {
      UpdateSearchParams([("page", Decimal.IntToString(newPage))]);
    }

    function TotalPagesShown(): nat
      reads this
    {
      TotalPages(|filteredShows|)
    }

    function PageShown(): seq<Show>
      requires Valid()
      reads this
    {
      PageShows(filteredShows, page)
    }

    /** The page strip the home page draws itself, by the same rule as the pagination component. */
    function PageButtonsShown(): (r: Option<seq<Pagination.PageButton>>)
      reads this
      ensures r.None? <==> TotalPagesShown() <= 1
      ensures r.Some? ==> |r.value| == TotalPagesShown()
    {
      Pagination.Buttons(page, TotalPagesShown())
    }

    /** A click on a button of the strip leads the page to show the page that button names. */
    lemma PageButtonLeadsToItsPage(i: int)
      requires PageButtonsShown().Some? && 0 <= i < TotalPagesShown()
      ensures var b := PageButtonsShown().value[i];
        NormalisePage(ReadQuery(Merged(searchParams, [("page", Decimal.IntToString(b.target))])).pageParam) == b.target
    {
      GoToPageReadsBack(searchParams, i + 1);
    }

    /** Before any show has arrived there is nothing to page through. */
    lemma NoShowsNoPages()
      requires Valid() && shows == []
      ensures TotalPagesShown() == 0 && PageShown() == []
    {
    }
  }
}
