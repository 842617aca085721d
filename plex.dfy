/** The media-server objects the monitor reads, as plain values. Only the
    attributes the monitor touches are kept. A list attribute that the
    server leaves unset is the empty sequence: the monitor treats a missing
    list and an empty one alike. Timestamps arrive already formatted as
    `YYYY-MM-DD HH:MM:SS` text. */
module Plex {
  import opened Wrappers

  /** An external identifier such as `imdb://tt0111161` or `tmdb://278`. */
  datatype Guid = Guid(id: string)

  /** A genre, director or actor tag. */
  datatype Tag = Tag(tag: string)

  /** One file of a media version, with its size in bytes. */
  datatype Part = Part(size: int)

  /** One media version of an item: its files and its video resolution. */
  datatype Media = Media(parts: seq<Part>, videoResolution: Option<string>)

  datatype Movie = Movie(
    title: string,
    year: Option<int>,
    rating: Option<real>,
    contentRating: Option<string>,
    duration: Option<int>,   // milliseconds
    studio: Option<string>,
    summary: Option<string>,
    genres: seq<Tag>,
    directors: seq<Tag>,
    roles: seq<Tag>,
    addedAt: Option<string>,
    lastViewedAt: Option<string>,
    viewCount: Option<int>,
    locations: seq<string>,
    media: seq<Media>,
    guids: seq<Guid>,
    key: string)

  datatype Episode = Episode(
    title: string,
    seasonNumber: Option<int>,
    episodeNumber: Option<int>,
    year: Option<int>,
    rating: Option<real>,
    contentRating: Option<string>,
    duration: Option<int>,   // milliseconds
    summary: Option<string>,
    directors: seq<Tag>,
    addedAt: Option<string>,
    lastViewedAt: Option<string>,
    viewCount: Option<int>,
    locations: seq<string>,
    media: seq<Media>,
    guids: seq<Guid>,
    key: string)

  /** A show and the enumeration of its episodes. `raisesAt == Some(k)`
      says that enumerating or reading episode number `k` (counting from
      0) raises; the episodes before it are delivered normally. */
  datatype Show = Show(
    title: string,
    studio: Option<string>,
    genres: seq<Tag>,
    roles: seq<Tag>,
    episodes: seq<Episode>,
    raisesAt: Option<nat>)

  /** An item of a library section: a movie, a show, or any other kind. */
  datatype Item = MovieItem(movie: Movie) | ShowItem(show: Show) | OtherItem
}
