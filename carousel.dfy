/**
 * The recommended-shows carousel: the first eight shows, a current index that
 * wraps around in both directions, and a scroll offset of one card width per
 * index step.
 */
module Carousel {
  import opened Base
  import opened Catalog

  const RecommendedCount: nat := 8
  const CardWidth: nat := 280

  /** `shows.slice(0, 8)`. */
  function Recommended(shows: seq<Show>): (r: seq<Show>)
    ensures r <= shows
    ensures |r| == if |shows| < RecommendedCount then |shows| else RecommendedCount
  {
    if |shows| < RecommendedCount then shows else shows[..RecommendedCount]
  }

  /** `goToNext`'s update `(prev + 1) % len`. */
  function Next(i: nat, len: nat): (r: nat)
    requires len > 0
    ensures r < len
    ensures i < len ==> r == if i == len - 1 then 0 else i + 1
  {
    (i + 1) % len
  }

  /** `goToPrev`'s update: the first card goes to the last, any other to the one before. */
  function Prev(i: nat, len: nat): (r: nat)
    requires len > 0
    ensures i < len ==> r < len
    ensures i == 0 ==> r == len - 1
    ensures i > 0 ==> r + 1 == i
  {
    if i == 0 then len - 1 else i - 1
  }

  lemma PrevAfterNext(i: nat, len: nat)
    requires i < len
    ensures Prev(Next(i, len), len) == i
  {
  }

  lemma NextAfterPrev(i: nat, len: nat)
    requires i < len
    ensures Next(Prev(i, len), len) == i
  {
  }

  /** The index after `k` presses of the next arrow. */
  function NextTimes(i: nat, len: nat, k: nat): nat
    requires len > 0
  {
    if k == 0 then i else Next(NextTimes(i, len, k - 1), len)
  }

  /** Within one round, `k` presses move `k` cards on, wrapping past the last card to the first. */
  lemma {:induction false} NextTimesIsShift(i: nat, len: nat, k: nat)
    requires i < len && k <= len
    ensures NextTimes(i, len, k) == if i + k < len then i + k else i + k - len
  {
    if k > 0 {
      NextTimesIsShift(i, len, k - 1);
    }
  }

  /** Pressing the next arrow as many times as there are cards comes back to the starting card. */
  lemma NextFullCircle(i: nat, len: nat)
    requires i < len
    ensures NextTimes(i, len, len) == i
  {
    NextTimesIsShift(i, len, len);
  }

  /** The horizontal scroll position for a card index. */
  function ScrollOffset(index: nat): (offset: nat)
    ensures offset % CardWidth == 0 && offset / CardWidth == index
  {
    index * CardWidth
  }

  /** One card: the show's link target, title and image, its first two genre labels, and whether it is the active card. */
  datatype Card = Card(showId: string, title: string, image: string, genreTags: seq<string>, active: bool)

  /** What the carousel renders: nothing, or the cards with one indicator flag per card. */
  datatype CarouselView = Hidden | Cards(cards: seq<Card>, indicators: seq<bool>)

  /** `show.genres?.slice(0, 2)` mapped to their labels. */
  function GenreTags(show: Show): (tags: seq<string>)
    ensures show.genres.None? ==> tags == []
    ensures show.genres.Some? ==> |tags| == if |show.genres.value| < 2 then |show.genres.value| else 2
    ensures forall k :: 0 <= k < |tags| ==> tags[k] == GenreLabel(show.genres.value[k])
  {
    match show.genres
    case None => []
    case Some(ids) =>
      var first := if |ids| < 2 then ids else ids[..2];
      seq(|first|, k requires 0 <= k < |first| => GenreLabel(first[k]))
  }

  function Render(shows: Option<seq<Show>>, currentIndex: nat): (v: CarouselView)
    ensures v.Hidden? <==> shows.None? || shows.value == []
    ensures v.Cards? ==>
      && |v.cards| == |v.indicators| == |Recommended(shows.value)|
      && forall k :: 0 <= k < |v.cards| ==>
        && v.cards[k].showId == shows.value[k].id
        && v.cards[k].genreTags == GenreTags(shows.value[k])
        && (v.cards[k].active <==> k == currentIndex)
        && (v.indicators[k] <==> k == currentIndex)
  {
    if shows.None? || shows.value == [] then Hidden
    else
      var shown := Recommended(shows.value);
      Cards(
        seq(|shown|, k requires 0 <= k < |shown| =>
          Card(shown[k].id, shown[k].title, shown[k].image, GenreTags(shown[k]), k == currentIndex)),
        seq(|shown|, k requires 0 <= k < |shown| => k == currentIndex))
  }

  /** The carousel's state: the index of the current card. */
  class CarouselState {
    var currentIndex: nat

    constructor ()
      ensures currentIndex == 0
    {
      currentIndex := 0;
    }

    /** The next arrow, over `count` recommended cards. */
    method GoToNext(count: nat)
      requires count > 0
      modifies this
      ensures currentIndex == Next(old(currentIndex), count)
    {
      currentIndex := (currentIndex + 1) % count;
    }

    /** The previous arrow, over `count` recommended cards. */
    method GoToPrev(count: nat)
      requires count > 0
      modifies this
      ensures currentIndex == Prev(old(currentIndex), count)
    {
      currentIndex := if currentIndex == 0 then count - 1 else currentIndex - 1;
    }

    /** An indicator click jumps to that card. */
    method GoTo(index: nat)
      modifies this
      ensures currentIndex == index
    {
      currentIndex := index;
    }

    /** With the index in range, exactly one card of a non-empty carousel is active. */
    lemma OneActiveCard(shows: seq<Show>)
      requires shows != [] && currentIndex < |Recommended(shows)|
      ensures var v := Render(Some(shows), currentIndex);
        && v.Cards?
        && (exists k :: 0 <= k < |v.cards| && v.cards[k].active)
        && (forall j, k :: 0 <= j < |v.cards| && 0 <= k < |v.cards| && v.cards[j].active && v.cards[k].active ==> j == k)
    {
      var v := Render(Some(shows), currentIndex);
      assert v.cards[currentIndex].active;
    }
  }
}
