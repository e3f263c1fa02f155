/**
 * One episode card: the record it hands to the player and the favourites
 * store, the key under which it asks whether the episode is a favourite, and
 * the shortened description it shows.
 */
module EpisodeCard {
  import opened Catalog

  /**
   * `episodeData`: the episode's own fields, with the show title and season
   * number of the card's props and the image with its fallback.
   */
  datatype EpisodeData = EpisodeData(
    episode: int,
    title: string,
    description: string,
    image: string,
    file: string,
    showTitle: string,
    seasonNumber: int)

  /** The triple the favourites store identifies an episode by. */
  datatype FavouriteKey = FavouriteKey(episode: int, seasonNumber: int, showTitle: string)

  /**
   * `{ ...episode, showTitle, seasonNumber, image: episode.image || showImage }`:
   * the props override whatever the episode itself carries under those names.
   */
  function Record(ep: Episode, showTitle: string, showImage: string, seasonNumber: int): (d: EpisodeData)
    ensures d.image == if ep.image != "" then ep.image else showImage
    ensures d.showTitle == showTitle && d.seasonNumber == seasonNumber
    ensures d.episode == ep.episode && d.title == ep.title && d.description == ep.description && d.file == ep.file
  {
    EpisodeData(ep.episode, ep.title, ep.description, if ep.image != "" then ep.image else showImage,
      ep.file, showTitle, seasonNumber)
  }

  /** The key of a record as handed to the store. */
  function KeyOf(d: EpisodeData): FavouriteKey
  {
    FavouriteKey(d.episode, d.seasonNumber, d.showTitle)
  }

  /** `isFavorite(episode.episode, seasonNumber, showTitle)`: the key the card looks up. */
  function LookupKey(ep: Episode, showTitle: string, seasonNumber: int): FavouriteKey
  {
    FavouriteKey(ep.episode, seasonNumber, showTitle)
  }

  /**
   * The card looks its favourite status up under the same key as the record
   * it hands over when toggled, whatever title and season the episode itself
   * carries.
   */
  lemma LookupMatchesRecord(ep: Episode, showTitle: string, showImage: string, seasonNumber: int)
    ensures KeyOf(Record(ep, showTitle, showImage, seasonNumber)) == LookupKey(ep, showTitle, seasonNumber)
    ensures ep.showTitle.Some? && ep.showTitle.value != showTitle ==>
      KeyOf(Record(ep, showTitle, showImage, seasonNumber)).showTitle != ep.showTitle.value
  {
  }

  const DescriptionLimit: nat := 120
  const Ellipsis: string := "..."

  /** The description as the card shows it: unchanged up to 120 characters, else cut to 120 and marked. */
  function Shorten(description: string): (r: string)
    ensures |description| <= DescriptionLimit ==> r == description
    ensures |description| > DescriptionLimit ==>
      |r| == DescriptionLimit + |Ellipsis| && r[..DescriptionLimit] == description[..DescriptionLimit] && r[DescriptionLimit..] == Ellipsis
  {
    if |description| > DescriptionLimit then description[..DescriptionLimit] + Ellipsis else description
  }

  /** The shown text is at most 123 characters and starts with the first `min(len, 120)` characters of the original. */
  lemma ShortenBounds(description: string)
    ensures |Shorten(description)| <= DescriptionLimit + |Ellipsis|
    ensures var n := if |description| < DescriptionLimit then |description| else DescriptionLimit;
      description[..n] <= Shorten(description)
  {
  }

  /** Shortening what is already shortened changes nothing. */
  lemma ShortenIdempotent(description: string)
    ensures Shorten(Shorten(description)) == Shorten(description)
  {
    var r := Shorten(description);
    if |description| > DescriptionLimit {
      assert r[..DescriptionLimit] == description[..DescriptionLimit];
      assert r[..DescriptionLimit] + Ellipsis == r;
    }
  }

  /** What one card shows: image, episode number, title, shortened description, and the favourite mark. */
  datatype CardView = CardView(image: string, episode: int, title: string, description: string, favourite: bool)

  /**
   * One card. The favourites store is not implemented in this application, so
   * its `isFavorite` is a parameter.
   */
  function Card(ep: Episode, showTitle: string, showImage: string, seasonNumber: int,
                isFavourite: FavouriteKey -> bool): (v: CardView)
    ensures v.image == Record(ep, showTitle, showImage, seasonNumber).image
    ensures v.description == Shorten(ep.description)
    ensures v.favourite == isFavourite(KeyOf(Record(ep, showTitle, showImage, seasonNumber)))
  {
    var d := Record(ep, showTitle, showImage, seasonNumber);
    CardView(d.image, ep.episode, ep.title, Shorten(ep.description), isFavourite(LookupKey(ep, showTitle, seasonNumber)))
  }
}
