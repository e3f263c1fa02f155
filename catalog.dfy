/**
 * The catalogue entities as the remote API delivers them, and the genre names
 * the views show for genre ids. A string field that the API may leave out is
 * the empty string here (JavaScript treats both as falsy); dates are integer
 * timestamps.
 */
module Catalog {
  import opened Base
  import Decimal

  /** A show preview from the list endpoint; `genres` may be missing. */
  datatype Show = Show(
    id: string,
    title: string,
    description: string,
    image: string,
    updated: int,
    genres: Option<seq<int>>)

  /**
   * An episode as the show endpoint delivers it. `showTitle` and
   * `seasonNumber` are present only if the catalogue happens to send them.
   */
  datatype Episode = Episode(
    episode: int,
    title: string,
    description: string,
    image: string,
    file: string,
    showTitle: Option<string>,
    seasonNumber: Option<int>)

  datatype Season = Season(season: int, image: string, episodes: seq<Episode>)

  /** A full show from the show endpoint, with its seasons. */
  datatype ShowDetail = ShowDetail(
    id: string,
    title: string,
    description: string,
    image: string,
    updated: int,
    genres: Option<seq<int>>,
    seasons: seq<Season>)

  /** The fixed names of genres 1 to 9, in id order. */
  const GenreNames: seq<string> := [
    "Personal Growth", "Investigative Journalism", "History", "Comedy",
    "Entertainment", "Business", "Fiction", "News", "Kids and Family"]

  const FallbackPrefix: string := "Genre "

  /** `genreMap[id] || `Genre ${id}``: the fixed name, or a label built from the id. */
  function GenreLabel(id: int): string
  {
    if 1 <= id <= |GenreNames| then GenreNames[id - 1] else FallbackPrefix + Decimal.IntToString(id)
  }

  /**
   * The fallback form is used exactly for the ids without a fixed name, and
   * the id can be read back from it.
   */
  lemma GenreLabelFallback(id: int)
    ensures !(1 <= id <= 9) <==> FallbackPrefix <= GenreLabel(id)
    ensures !(1 <= id <= 9) ==> Decimal.ParseInt(GenreLabel(id)[|FallbackPrefix|..]) == Some(id)
  {
    var tag := GenreLabel(id);
    if 1 <= id <= 9 {
      assert tag[0] != 'G' by {
        assert tag == GenreNames[id - 1];
      }
    } else {
      assert tag[|FallbackPrefix|..] == Decimal.IntToString(id);
      Decimal.ParseIntOfIntToString(id);
    }
  }

  /** Different genre ids never share a label. */
  lemma GenreLabelInjective(i: int, j: int)
    requires GenreLabel(i) == GenreLabel(j)
    ensures i == j
  {
    GenreLabelFallback(i);
    GenreLabelFallback(j);
    if !(1 <= i <= 9) && !(1 <= j <= 9) {
      assert GenreLabel(i)[|FallbackPrefix|..] == GenreLabel(j)[|FallbackPrefix|..];
    }
  }
}
