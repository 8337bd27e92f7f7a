/** The records the remote movie catalog hands to the application. */
module Catalog {
  import opened Wrappers

  /** A catalog identifier such as "tt0372784". */
  type Id = string

  /** One row of a title search, kept in the order the catalog returned. */
  datatype Movie = Movie(imdbID: Id, title: string, year: string, poster: string)

  /** The fields of a detail payload that a watched entry is built from.
      A field the payload lacks is `None` (JavaScript `undefined`); the
      empty object a detail view starts with has every field `None`. */
  datatype Details = Details(
    title: Option<string>,
    year: Option<string>,
    poster: Option<string>,
    imdbRating: Option<string>,
    runtime: Option<string>)

  const NoDetails: Details := Details(None, None, None, None, None)

  /** The identifiers of a result list, in order. */
  function MovieIds(ms: seq<Movie>): (r: seq<Id>)
    ensures |r| == |ms|
    ensures forall i :: 0 <= i < |ms| ==> r[i] == ms[i].imdbID
  {
    if ms == [] then [] else [ms[0].imdbID] + MovieIds(ms[1..])
  }
}
