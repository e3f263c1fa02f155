/**
 * The favourites page: favourited episodes are grouped by show title and the
 * groups are ordered by title or by the latest time an episode of the group
 * was added.
 */
module Favourites {
  import opened Sequences
  import opened Sorting

  /** A favourited episode as the favourites list stores it; `addedAt` is a timestamp. */
  datatype Favourite = Favourite(
    showTitle: string,
    seasonNumber: int,
    episode: int,
    title: string,
    image: string,
    file: string,
    addedAt: int)

  const UnknownShow: string := "Unknown Show"

  /** `fav.showTitle || "Unknown Show"`. */
  function GroupKey(f: Favourite): string
  {
    if f.showTitle == "" then UnknownShow else f.showTitle
  }

  function KeyIs(key: string): Favourite -> bool
  {
    f => GroupKey(f) == key
  }

  /** The favourites filed under `key`, in their original order. */
  function GroupOf(favs: seq<Favourite>, key: string): seq<Favourite>
  {
    Filter(favs, KeyIs(key))
  }

  /** The group key of each favourite, position by position. */
  function KeysOf(favs: seq<Favourite>): (keys: seq<string>)
    ensures |keys| == |favs|
  {
    seq(|favs|, i requires 0 <= i < |favs| => GroupKey(favs[i]))
  }

  /** A group of the page is never empty: it is created for the favourite that names it. */
  type Group = g: seq<Favourite> | g != [] witness [Favourite("", 0, 0, "", "", "", 0)]

  /** One `[showTitle, episodes]` entry of `Object.entries(grouped)`. */
  type Entry = (string, Group)

  lemma GroupOfAppend(favs: seq<Favourite>, f: Favourite, key: string)
    ensures GroupOf(favs + [f], key) == GroupOf(favs, key) + (if GroupKey(f) == key then [f] else [])
  {
    FilterAppend(favs, f, KeyIs(key));
  }

  /** A key names a non-empty group exactly when some favourite carries it. */
  lemma GroupOfNonEmpty(favs: seq<Favourite>, key: string)
    ensures GroupOf(favs, key) != [] <==> key in KeysOf(favs)
  {
    FilterMembers(favs, KeyIs(key));
    if key in KeysOf(favs) {
      var i :| 0 <= i < |favs| && KeysOf(favs)[i] == key;
      assert favs[i] in GroupOf(favs, key);
    }
    if GroupOf(favs, key) != [] {
      var f := GroupOf(favs, key)[0];
      assert f in favs && GroupKey(f) == key;
      var i :| 0 <= i < |favs| && favs[i] == f;
      assert KeysOf(favs)[i] == key;
    }
  }

  /** What one more favourite does to the keys, their first appearances and the groups. */
  lemma GroupStep(favs: seq<Favourite>, i: int)
    requires 0 <= i < |favs|
    ensures var key := GroupKey(favs[i]);
      && Dedup(KeysOf(favs[..i + 1])) ==
         Dedup(KeysOf(favs[..i])) + (if key in KeysOf(favs[..i]) then [] else [key])
      && (key !in KeysOf(favs[..i]) ==> GroupOf(favs[..i], key) == [])
      && (HitsInheritedName(favs[..i + 1]) <==> HitsInheritedName(favs[..i]) || key in InheritedNames)
      && forall k :: GroupOf(favs[..i + 1], k) == GroupOf(favs[..i], k) + (if key == k then [favs[i]] else [])
  {
    var fav := favs[i];
    var key := GroupKey(fav);
    var prefix := favs[..i];
    assert favs[..i + 1] == prefix + [fav];
    var keys := KeysOf(favs[..i + 1]);
    assert keys == KeysOf(prefix) + [key];
    assert keys[..i] == KeysOf(prefix);
    GroupOfNonEmpty(prefix, key);
    forall k
      ensures GroupOf(favs[..i + 1], k) == GroupOf(prefix, k) + (if key == k then [fav] else [])
    {
      GroupOfAppend(prefix, fav, k);
    }
    if HitsInheritedName(favs[..i + 1]) && !(key in InheritedNames) {
      var j :| 0 <= j < i + 1 && GroupKey(favs[..i + 1][j]) in InheritedNames;
      assert favs[..i + 1][j] == prefix[j];
    }
    if HitsInheritedName(prefix) {
      var j :| 0 <= j < i && GroupKey(prefix[j]) in InheritedNames;
      assert favs[..i + 1][j] == prefix[j];
    }
    if key in InheritedNames {
      assert favs[..i + 1][i] == fav;
    }
  }

  /**
   * `groupByShow`: the reduce over the favourites with an object accumulator.
   * `order` is the order in which the accumulator gained its keys, which is
   * the order `Object.entries` reports them in.
   */
  method GroupByShow(favs: seq<Favourite>) returns (order: seq<string>, groups: map<string, seq<Favourite>>)
    ensures order == Dedup(KeysOf(favs))
    ensures forall key :: key in groups <==> key in order
    ensures forall key :: key in groups ==> groups[key] == GroupOf(favs, key) && groups[key] != []
  {
    order := [];
    groups := map[];
    for i := 0 to |favs|
      invariant order == Dedup(KeysOf(favs[..i]))
      invariant forall key :: key in groups <==> key in order
      invariant forall key :: key in groups ==> groups[key] == GroupOf(favs[..i], key) && groups[key] != []
    {
      var fav := favs[i];
      var key := GroupKey(fav);
      GroupStep(favs, i);
      if key !in groups {
        groups := groups[key := []];
        order := order + [key];
      }
      groups := groups[key := groups[key] + [fav]];
    }
    assert favs[..|favs|] == favs;
  }

  // ----------------------------------------------- grouping as written

  /**
   * The names every plain object inherits from `Object.prototype`. Read on
   * the empty accumulator `{}`, each gives a truthy value that is not an
   * array, so `acc[showTitle].push` throws a TypeError.
   */
  const InheritedNames: set<string> := {
    "constructor", "toString", "toLocaleString", "valueOf", "hasOwnProperty",
    "isPrototypeOf", "propertyIsEnumerable", "__proto__", "__defineGetter__",
    "__defineSetter__", "__lookupGetter__", "__lookupSetter__"}

  /** Some favourite's group key is an inherited property name. */
  predicate HitsInheritedName(favs: seq<Favourite>)
  {
    exists i :: 0 <= i < |favs| && GroupKey(favs[i]) in InheritedNames
  }

  /**
   * `groupByShow` as written, over an accumulator that also answers the
   * inherited names: it throws (`threw`) at the first favourite whose key is
   * one of them, and otherwise groups exactly as `GroupByShow` does.
   */
  method GroupByShowAsWritten(favs: seq<Favourite>) returns (threw: bool, order: seq<string>, groups: map<string, seq<Favourite>>)
    ensures threw <==> HitsInheritedName(favs)
    ensures !threw ==>
      && order == Dedup(KeysOf(favs))
      && (forall key :: key in groups <==> key in order)
      && (forall key :: key in groups ==> groups[key] == GroupOf(favs, key))
  {
    threw := false;
    order := [];
    groups := map[];
    for i := 0 to |favs|
      invariant !HitsInheritedName(favs[..i])
      invariant order == Dedup(KeysOf(favs[..i]))
      invariant forall key :: key in groups <==> key in order
      invariant forall key :: key in groups ==> groups[key] == GroupOf(favs[..i], key)
    {
      var fav := favs[i];
      var key := GroupKey(fav);
      if key !in groups && key in InheritedNames {
        threw := true;
        return;
      }
      GroupStep(favs, i);
      if key !in groups {
        groups := groups[key := []];
        order := order + [key];
      }
      groups := groups[key := groups[key] + [fav]];
    }
    assert favs[..|favs|] == favs;
  }

  /**
   * A single favourite from a show titled "constructor" makes the page throw,
   * although its intended group, the one `GroupByShow` builds, is plain.
   */
  lemma ConstructorTitleThrows(f: Favourite)
    requires f.showTitle == "constructor"
    ensures HitsInheritedName([f])
    ensures GroupOf([f], "constructor") == [f]
  {
    assert GroupKey([f][0]) in InheritedNames;
    assert [f] == [] + [f];
    GroupOfAppend([], f, "constructor");
  }

  /** The entry for a key that some favourite carries. */
  function EntryFor(favs: seq<Favourite>, key: string): Entry
    requires key in KeysOf(favs)
  {
    GroupOfNonEmpty(favs, key);
    (key, GroupOf(favs, key))
  }

  /** The grouped favourites as `Object.entries` lists them: one entry per key, by first appearance. */
  function Grouped(favs: seq<Favourite>): seq<Entry>
  {
    var keys := Dedup(KeysOf(favs));
    seq(|keys|, i requires 0 <= i < |keys| => EntryFor(favs, keys[i]))
  }

  // ------------------------------------------------------ grouping lemmas

  /**
   * Each favourite is filed in exactly one group, the one for its show title
   * (or "Unknown Show"), as often as it occurs in the list.
   */
  lemma FiledOnce(favs: seq<Favourite>, f: Favourite, key: string)
    ensures multiset(GroupOf(favs, key))[f] == if key == GroupKey(f) then multiset(favs)[f] else 0
  {
    FilterCount(favs, KeyIs(key));
  }

  /** Within a group, episodes keep their relative order from the favourites list. */
  lemma GroupKeepsOrder(favs: seq<Favourite>, key: string)
    ensures IsSubseq(GroupOf(favs, key), favs)
  {
    FilterIsSubseq(favs, KeyIs(key));
  }

  /** The total size of the groups named by `keys`. */
  function SizeOfGroups(favs: seq<Favourite>, keys: seq<string>): nat
  {
    if keys == [] then 0
    else SizeOfGroups(favs, keys[..|keys| - 1]) + |GroupOf(favs, keys[|keys| - 1])|
  }

  lemma {:induction false} SizeOfGroupsAppend(favs: seq<Favourite>, f: Favourite, keys: seq<string>)
    requires forall i, j :: 0 <= i < j < |keys| ==> keys[i] != keys[j]
    ensures SizeOfGroups(favs + [f], keys) == SizeOfGroups(favs, keys) + (if GroupKey(f) in keys then 1 else 0)
  {
    if keys != [] {
      var init := keys[..|keys| - 1];
      SizeOfGroupsAppend(favs, f, init);
      GroupOfAppend(favs, f, keys[|keys| - 1]);
      assert keys == init + [keys[|keys| - 1]];
      if GroupKey(f) == keys[|keys| - 1] {
        assert GroupKey(f) !in init;
      }
    }
  }

  /** The group sizes add up to the number of favourites: nothing is lost or duplicated. */
  lemma {:induction false} GroupSizesSum(favs: seq<Favourite>)
    ensures SizeOfGroups(favs, Dedup(KeysOf(favs))) == |favs|
  {
    if favs != [] {
      var init := favs[..|favs| - 1];
      var f := favs[|favs| - 1];
      var key := GroupKey(f);
      assert favs == init + [f];
      GroupSizesSum(init);
      var keys := Dedup(KeysOf(init));
      assert KeysOf(favs) == KeysOf(init) + [key];
      assert KeysOf(favs)[..|favs| - 1] == KeysOf(init);
      SizeOfGroupsAppend(init, f, keys);
      if key !in keys {
        GroupOfNonEmpty(init, key);
        GroupOfAppend(init, f, key);
        assert Dedup(KeysOf(favs)) == keys + [key];
        assert (keys + [key])[..|keys|] == keys;
      }
    }
  }

  // ------------------------------------------------------------- ordering

  /** `Math.max(...group.map(ep => ep.addedAt))`: the latest time an episode of the group was added. */
  function Latest(g: Group): (m: int)
    ensures forall f :: f in g ==> f.addedAt <= m
    ensures exists f :: f in g && f.addedAt == m
  {
    if |g| == 1 then g[0].addedAt
    else
      var rest := Latest(g[1..]);
      assert g == [g[0]] + g[1..];
      if g[0].addedAt < rest then rest else g[0].addedAt
  }

  predicate IsSortOrder(order: string)
  {
    order == "title-asc" || order == "title-desc" || order == "date-desc" || order == "date-asc"
  }

  /**
   * Whether entry `a` may precede entry `b` under the comparator `sortShows`
   * uses for `order`; `collate(x, y)` stands for `x.localeCompare(y) <= 0`.
   */
  predicate GroupBefore(order: string, collate: (string, string) -> bool, a: Entry, b: Entry)
  {
    if order == "title-asc" then collate(a.0, b.0)
    else if order == "title-desc" then collate(b.0, a.0)
    else if order == "date-desc" then Latest(b.1) <= Latest(a.1)
    else if order == "date-asc" then Latest(a.1) <= Latest(b.1)
    else true
  }

  function GroupComparator(order: string, collate: (string, string) -> bool): (Entry, Entry) -> bool
  {
    (a, b) => GroupBefore(order, collate, a, b)
  }

  lemma GroupComparatorTotal(order: string, collate: (string, string) -> bool)
    requires Total(collate)
    ensures Total(GroupComparator(order, collate))
  {
    forall a: Entry, b: Entry
      ensures GroupComparator(order, collate)(a, b) || GroupComparator(order, collate)(b, a)
    {
      assert collate(a.0, b.0) || collate(b.0, a.0);
    }
  }

  lemma GroupComparatorTransitive(order: string, collate: (string, string) -> bool)
    requires Transitive(collate)
    ensures Transitive(GroupComparator(order, collate))
  {
    forall a: Entry, b: Entry, c: Entry | GroupComparator(order, collate)(a, b) && GroupComparator(order, collate)(b, c)
      ensures GroupComparator(order, collate)(a, c)
    {
      if order == "title-asc" {
        assert collate(a.0, b.0) && collate(b.0, c.0);
      } else if order == "title-desc" {
        assert collate(c.0, b.0) && collate(b.0, a.0);
      }
    }
  }

  /**
   * `sortShows`: sorts the entries array in place for the four known orders
   * and returns it unchanged for any other.
   */
  method SortShows(entries: seq<Entry>, order: string, collate: (string, string) -> bool) returns (r: seq<Entry>)
    requires Total(collate)
    ensures multiset(r) == multiset(entries)
    ensures Sorted(r, GroupComparator(order, collate))
    ensures !IsSortOrder(order) ==> r == entries
  {
    GroupComparatorTotal(order, collate);
    if order == "title-asc" {
      r := SortedCopy(entries, GroupComparator("title-asc", collate));
    } else if order == "title-desc" {
      r := SortedCopy(entries, GroupComparator("title-desc", collate));
    } else if order == "date-desc" {
      r := SortedCopy(entries, GroupComparator("date-desc", collate));
    } else if order == "date-asc" {
      r := SortedCopy(entries, GroupComparator("date-asc", collate));
    } else {
      r := entries;
    }
  }

  /**
   * With a transitive collation, sorted entries are in order between any two
   * positions: by title, or by latest addition time, as `order` asks.
   */
  lemma SortedGroupsInOrder(r: seq<Entry>, order: string, collate: (string, string) -> bool, i: int, j: int)
    requires Sorted(r, GroupComparator(order, collate)) && Transitive(collate)
    requires 0 <= i < j < |r|
    ensures GroupBefore(order, collate, r[i], r[j])
  {
    GroupComparatorTransitive(order, collate);
    SortedPairwise(r, GroupComparator(order, collate), i, j);
  }

  // ----------------------------------------------------------- page state

  /** What the page shows: the empty-list message, or the ordered groups. */
  datatype FavouritesView = NoFavourites | ShowGroups(entries: seq<Entry>)

  /** The page's own state: the selected sort order. */
  class FavouritesPage {
    var sortOrder: string

    constructor ()
      ensures sortOrder == "date-desc"
    {
      sortOrder := "date-desc";
    }

    /** The sort selector's change handler. */
    method SelectSortOrder(order: string)
      modifies this
      ensures sortOrder == order
    {
      sortOrder := order;
    }

    /** One render: group, order, and show the empty message when there are no favourites. */
    method Render(favourites: seq<Favourite>, collate: (string, string) -> bool) returns (view: FavouritesView)
      requires Total(collate)
      ensures favourites == [] <==> view.NoFavourites?
      ensures view.ShowGroups? ==>
        && multiset(view.entries) == multiset(Grouped(favourites))
        && Sorted(view.entries, GroupComparator(sortOrder, collate))
        && (!IsSortOrder(sortOrder) ==> view.entries == Grouped(favourites))
    {
      var order, groups := GroupByShow(favourites);
      var entries: seq<Entry> := seq(|order|, i requires 0 <= i < |order| => (order[i], groups[order[i]]));
      assert entries == Grouped(favourites);
      var sorted := SortShows(entries, sortOrder, collate);
      if |favourites| == 0 {
        view := NoFavourites;
      } else {
        view := ShowGroups(sorted);
      }
    }
  }
}
