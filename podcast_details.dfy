/**
 * The show detail view: header with genre labels, and one collapsible block
 * per season whose expanded flags live in a map keyed by season number.
 */
module PodcastDetails {
  import opened Base
  import opened Catalog
  import EpisodeCard

  /** `expandedSeasons`: season number to flag; a missing key reads as collapsed. */
  type Flags = map<int, bool>

  /** `!!expandedSeasons[season]`. */
  predicate Expanded(flags: Flags, season: int)
  {
    season in flags && flags[season]
  }

  /** The functional update `toggleSeason` hands to the state setter. */
  function Toggled(flags: Flags, season: int): (r: Flags)
    ensures r.Keys == flags.Keys + {season}
    ensures Expanded(r, season) == !Expanded(flags, season)
    ensures forall s :: s in flags && s != season ==> r[s] == flags[s]
  {
    flags[season := !Expanded(flags, season)]
  }

  /** Toggling one season leaves every other season as it was. */
  lemma ToggleOnlyOne(flags: Flags, season: int, other: int)
    requires other != season
    ensures Expanded(Toggled(flags, season), other) == Expanded(flags, other)
  {
  }

  /** Toggling the same season twice restores every season's status. */
  lemma ToggleTwice(flags: Flags, season: int, s: int)
    ensures Expanded(Toggled(Toggled(flags, season), season), s) == Expanded(flags, s)
  {
    if s != season {
      ToggleOnlyOne(flags, season, s);
      ToggleOnlyOne(Toggled(flags, season), season, s);
    }
  }

  /** The component's own state. */
  class SeasonToggles {
    var expandedSeasons: Flags

    /** Every season starts collapsed. */
    constructor ()
      ensures expandedSeasons == map[]
      ensures forall s :: !Expanded(expandedSeasons, s)
    {
      expandedSeasons := map[];
    }

    /** A click on a season's header. */
    method ToggleSeason(season: int)
      modifies this
      ensures expandedSeasons == Toggled(old(expandedSeasons), season)
    {
      expandedSeasons := expandedSeasons[season := !(season in expandedSeasons && expandedSeasons[season])];
    }
  }

  /** `season.image || show.image`: the image an episode card falls back to. */
  function ImageContext(season: Season, show: ShowDetail): (image: string)
    ensures season.image != "" ==> image == season.image
    ensures season.image == "" ==> image == show.image
  {
    if season.image != "" then season.image else show.image
  }

  /** An episode card shows the episode's image, else its season's, else its show's. */
  lemma CardImageFallback(ep: Episode, season: Season, show: ShowDetail)
    ensures var d := EpisodeCard.Record(ep, show.title, ImageContext(season, show), season.season);
      d.image == if ep.image != "" then ep.image else if season.image != "" then season.image else show.image
  {
  }

  /** One season block: its number, its episode count, whether it is open, and its cards when it is. */
  datatype SeasonView = SeasonView(season: int, episodeCount: nat, expanded: bool, cards: seq<EpisodeCard.CardView>)

  datatype DetailView =
    | NotFound
    | Detail(title: string, description: string, image: string, genreTags: seq<string>, updated: int, seasons: seq<SeasonView>)

  /** The genre labels of the header; none when `genres` is missing or empty. */
  function GenreTags(genres: Option<seq<int>>): (tags: seq<string>)
    ensures genres.None? ==> tags == []
    ensures genres.Some? ==> |tags| == |genres.value| && forall k :: 0 <= k < |tags| ==> tags[k] == GenreLabel(genres.value[k])
  {
    match genres
    case None => []
    case Some(ids) => seq(|ids|, k requires 0 <= k < |ids| => GenreLabel(ids[k]))
  }

  function SeasonBlock(show: ShowDetail, season: Season, flags: Flags,
                       isFavourite: EpisodeCard.FavouriteKey -> bool): SeasonView
  {
    var open := Expanded(flags, season.season);
    var eps := season.episodes;
    SeasonView(season.season, |eps|, open,
      if open
      then seq(|eps|, k requires 0 <= k < |eps| =>
        EpisodeCard.Card(eps[k], show.title, ImageContext(season, show), season.season, isFavourite))
      else [])
  }

  /**
   * The whole view. A missing show gives the not-found message; otherwise
   * every season gets a block, and only an expanded one lists its episodes.
   */
  function Render(show: Option<ShowDetail>, flags: Flags, isFavourite: EpisodeCard.FavouriteKey -> bool): (v: DetailView)
    ensures v.NotFound? <==> show.None?
    ensures v.Detail? ==>
      && v.genreTags == GenreTags(show.value.genres)
      && |v.seasons| == |show.value.seasons|
      && forall i :: 0 <= i < |v.seasons| ==>
        var season := show.value.seasons[i];
        && v.seasons[i].season == season.season
        && v.seasons[i].expanded == Expanded(flags, season.season)
        && |v.seasons[i].cards| == (if v.seasons[i].expanded then |season.episodes| else 0)
        && forall k :: 0 <= k < |v.seasons[i].cards| ==>
          v.seasons[i].cards[k] ==
            EpisodeCard.Card(season.episodes[k], show.value.title, ImageContext(season, show.value), season.season, isFavourite)
  {
    match show
    case None => NotFound
    case Some(s) =>
      Detail(s.title, s.description, s.image, GenreTags(s.genres), s.updated,
        seq(|s.seasons|, i requires 0 <= i < |s.seasons| => SeasonBlock(s, s.seasons[i], flags, isFavourite)))
  }
}
