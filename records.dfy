/** Flattening of movies and shows into CSV records. A record is the
    dictionary the monitor hands to the CSV writer; here it has one field
    per column, in header order. */
module Records {
  import opened Wrappers
  import opened Strings
  import opened Plex
  import opened Imdb

  /** A cell value. `SizeGb(bytes)` stands for the file size in gigabytes,
      rounded to two decimals, of a total of `bytes` bytes. */
  datatype Cell = Null | Str(s: string) | Int(i: int) | Num(x: real) | SizeGb(bytes: int)

  datatype Record = Record(
    kind: Cell,             // type
    title: Cell,
    showTitle: Cell,        // show_title
    season: Cell,
    episode: Cell,
    year: Cell,
    rating: Cell,
    contentRating: Cell,    // content_rating
    durationMinutes: Cell,  // duration_minutes
    studio: Cell,
    summary: Cell,
    genres: Cell,
    directors: Cell,
    actors: Cell,
    addedAt: Cell,          // added_at
    lastViewedAt: Cell,     // last_viewed_at
    viewCount: Cell,        // view_count
    filePath: Cell,         // file_path
    fileSizeGb: Cell,       // file_size_gb
    videoResolution: Cell,  // video_resolution
    imdbId: Cell,           // imdb_id
    imdbUrl: Cell,          // imdb_url
    plexKey: Cell)          // plex_key

  /** The CSV header, in column order. */
  const FieldNames: seq<string> := [
    "type", "title", "show_title", "season", "episode", "year",
    "rating", "content_rating", "duration_minutes", "studio",
    "summary", "genres", "directors", "actors", "added_at",
    "last_viewed_at", "view_count", "file_path", "file_size_gb",
    "video_resolution", "imdb_id", "imdb_url", "plex_key"]

  const TagSeparator := ", "
  const MaxActors := 5
  const MsPerMinute := 60000

  function OptStr(o: Option<string>): Cell {
    match o
    case None => Null
    case Some(s) => Str(s)
  }

  function OptInt(o: Option<int>): Cell {
    match o
    case None => Null
    case Some(n) => Int(n)
  }

  function OptNum(o: Option<real>): Cell {
    match o
    case None => Null
    case Some(x) => Num(x)
  }

  function TagNames(tags: seq<Tag>): (r: seq<string>)
    ensures |r| == |tags| && forall i :: 0 <= i < |tags| ==> r[i] == tags[i].tag
  {
    seq(|tags|, i requires 0 <= i < |tags| => tags[i].tag)
  }

  /** `', '.join(t.tag for t in tags) if tags else ''`. */
  function JoinTags(tags: seq<Tag>): (r: string)
    ensures tags == [] ==> r == ""
    ensures |tags| == 1 ==> r == tags[0].tag
  {
    if tags == [] then "" else Join(TagNames(tags), TagSeparator)
  }

  /** Each further tag adds a separator and its name at the end. */
  lemma JoinTagsAppend(tags: seq<Tag>, t: Tag)
    ensures JoinTags(tags + [t]) == if tags == [] then t.tag else JoinTags(tags) + TagSeparator + t.tag
  {
    if tags != [] {
      assert TagNames(tags + [t]) == TagNames(tags) + [t.tag];
      JoinAppend(TagNames(tags), t.tag, TagSeparator);
    }
  }

  /** A joined tag column splits back into the tag names, in order, when no
      tag name contains the separator. */
  lemma JoinTagsSplits(tags: seq<Tag>)
    requires tags != []
    requires forall i :: 0 <= i < |tags| ==> !Contains(tags[i].tag, TagSeparator)
    ensures Split(JoinTags(tags), TagSeparator) == TagNames(tags)
  {
    assert TagSeparator[1..][0] != TagSeparator[..1][0];
    assert Unbordered(TagSeparator);
    SplitJoin(TagNames(tags), TagSeparator);
  }

  /** `roles[:5]`: the first five roles, or all of them when there are fewer. */
  function TopActors(roles: seq<Tag>): (r: seq<Tag>)
    ensures |r| == if |roles| < MaxActors then |roles| else MaxActors
    ensures r <= roles
  {
    if |roles| < MaxActors then roles else roles[..MaxActors]
  }

  /** The actors column names at most five actors: the first ones of the
      role list, in order (read back by splitting when no name holds the
      separator). */
  lemma ActorsColumn(roles: seq<Tag>)
    requires roles != []
    requires forall i :: 0 <= i < |roles| && i < MaxActors ==> !Contains(roles[i].tag, TagSeparator)
    ensures var names := Split(JoinTags(TopActors(roles)), TagSeparator);
      && |names| == (if |roles| < MaxActors then |roles| else MaxActors)
      && forall i :: 0 <= i < |names| ==> names[i] == roles[i].tag
  {
    var top := TopActors(roles);
    assert forall i :: 0 <= i < |top| ==> top[i] == roles[i];
    JoinTagsSplits(top);
  }

  function Abs(n: int): nat {
    if n < 0 then -n else n
  }

  /** `round(ms / 60000)`: the nearest whole number of minutes, with halves
      going to the even neighbour. */
  function RoundMinutes(ms: int): (r: int)
    ensures 2 * Abs(ms - MsPerMinute * r) <= MsPerMinute
    ensures 2 * Abs(ms - MsPerMinute * r) == MsPerMinute ==> r % 2 == 0
  {
    var q := ms / MsPerMinute;
    var rem := ms % MsPerMinute;
    if 2 * rem < MsPerMinute then q
    else if 2 * rem > MsPerMinute then q + 1
    else if q % 2 == 0 then q
    else q + 1
  }

  /** The two properties of RoundMinutes pin the result down. */
  lemma RoundMinutesUnique(ms: int, r: int)
    requires 2 * Abs(ms - MsPerMinute * r) <= MsPerMinute
    requires 2 * Abs(ms - MsPerMinute * r) == MsPerMinute ==> r % 2 == 0
    ensures r == RoundMinutes(ms)
  {
  }

  /** The `duration_minutes` column: None for a missing or zero duration. */
  function DurationMinutes(duration: Option<int>): (c: Cell)
    ensures c == Null <==> duration.None? || duration == Some(0)
    ensures c != Null ==> c.Int? && c.i == RoundMinutes(duration.value)
  {
    match duration
    case None => Null
    case Some(ms) => if ms == 0 then Null else Int(RoundMinutes(ms))
  }

  lemma DurationExamples()
    ensures DurationMinutes(Some(125000)) == Int(2)
    ensures DurationMinutes(Some(90000)) == Int(2)
    ensures DurationMinutes(Some(150000)) == Int(2)
    ensures DurationMinutes(Some(0)) == Null
  {
  }

  /** The `file_path` column: the first location, or '' when there is none. */
  function FirstLocation(locations: seq<string>): (r: string)
    ensures locations == [] ==> r == ""
    ensures locations != [] ==> r == locations[0]
  {
    if locations == [] then "" else locations[0]
  }

  /** Sum of the part sizes. */
  function TotalSize(parts: seq<Part>): (total: int)
    ensures parts == [] ==> total == 0
    ensures |parts| == 1 ==> total == parts[0].size
    ensures (forall i :: 0 <= i < |parts| ==> parts[i].size >= 0) ==> total >= 0
    ensures (forall i :: 0 <= i < |parts| ==> parts[i].size >= 0) ==>
      forall i :: 0 <= i < |parts| ==> parts[i].size <= total
  {
    if parts == [] then 0 else parts[0].size + TotalSize(parts[1..])
  }

  /** The sum over two runs of parts is the sum of the two sums, whatever
      way the parts of a media version are grouped. */
  lemma {:induction false} TotalSizeAppend(a: seq<Part>, b: seq<Part>)
    ensures TotalSize(a + b) == TotalSize(a) + TotalSize(b)
    decreases |a|
  {
    if a == [] {
      assert a + b == b;
    } else {
      TotalSizeAppend(a[1..], b);
      assert (a + b)[1..] == a[1..] + b;
    }
  }

  /** The `file_size_gb` column, from the parts of the first media version. */
  function FileSize(media: seq<Media>): (c: Cell)
    ensures c == Null <==> media == [] || media[0].parts == []
    ensures c != Null ==> c == SizeGb(TotalSize(media[0].parts))
  {
    if media != [] && media[0].parts != [] then SizeGb(TotalSize(media[0].parts)) else Null
  }

  /** The `video_resolution` column: '' when there is no media version,
      otherwise the first version's resolution (None when it has none). */
  function Resolution(media: seq<Media>): (c: Cell)
    ensures media == [] ==> c == Str("")
    ensures media != [] ==> (c == Null <==> media[0].videoResolution.None?)
    ensures media != [] && media[0].videoResolution.Some? ==> c == Str(media[0].videoResolution.value)
  {
    if media != [] then OptStr(media[0].videoResolution) else Str("")
  }

  /** `_get_movie_data`: the one record of a movie. */
  function MovieRecord(m: Movie): (r: Record)
    ensures r.kind == Str("Movie")
    ensures r.season == Str("") && r.episode == Str("") && r.showTitle == Str("")
    ensures r.imdbId == Null <==> forall j :: 0 <= j < |m.guids| ==> !IsImdbGuid(m.guids[j])
    ensures r.durationMinutes == Null <==> m.duration.None? || m.duration == Some(0)
    ensures m.genres == [] ==> r.genres == Str("")
    ensures m.roles == [] ==> r.actors == Str("")
    ensures m.locations == [] ==> r.filePath == Str("")
    ensures m.locations != [] ==> r.filePath == Str(m.locations[0])
    ensures r.genres == Str(JoinTags(m.genres)) && r.directors == Str(JoinTags(m.directors))
    ensures r.actors == Str(JoinTags(TopActors(m.roles)))
    ensures r.imdbId == OptStr(ImdbInfoOf(m.guids).imdbId) && r.imdbUrl == OptStr(ImdbInfoOf(m.guids).imdbUrl)
    ensures r.durationMinutes == DurationMinutes(m.duration)
    ensures r.videoResolution == Resolution(m.media) && r.fileSizeGb == FileSize(m.media)
    ensures r.title == Str(m.title) && r.year == OptInt(m.year) && r.rating == OptNum(m.rating)
    ensures r.contentRating == OptStr(m.contentRating) && r.studio == OptStr(m.studio)
    ensures r.summary == OptStr(m.summary) && r.addedAt == OptStr(m.addedAt)
    ensures r.lastViewedAt == OptStr(m.lastViewedAt) && r.viewCount == OptInt(m.viewCount)
    ensures r.plexKey == Str(m.key)
  {
    var imdb := ImdbInfoOf(m.guids);
    Record(
      kind := Str("Movie"),
      title := Str(m.title),
      showTitle := Str(""),
      season := Str(""),
      episode := Str(""),
      year := OptInt(m.year),
      rating := OptNum(m.rating),
      contentRating := OptStr(m.contentRating),
      durationMinutes := DurationMinutes(m.duration),
      studio := OptStr(m.studio),
      summary := OptStr(m.summary),
      genres := Str(JoinTags(m.genres)),
      directors := Str(JoinTags(m.directors)),
      actors := Str(JoinTags(TopActors(m.roles))),
      addedAt := OptStr(m.addedAt),
      lastViewedAt := OptStr(m.lastViewedAt),
      viewCount := OptInt(m.viewCount),
      filePath := Str(FirstLocation(m.locations)),
      fileSizeGb := FileSize(m.media),
      videoResolution := Resolution(m.media),
      imdbId := OptStr(imdb.imdbId),
      imdbUrl := OptStr(imdb.imdbUrl),
      plexKey := Str(m.key))
  }

  /** One episode of a show as a record: show title, studio, genres and
      top actors come from the show, everything else from the episode. */
  function EpisodeRecord(show: Show, e: Episode): (r: Record)
    ensures r.kind == Str("Episode") && r.showTitle == Str(show.title)
    ensures r.studio == OptStr(show.studio) && r.genres == Str(JoinTags(show.genres))
    ensures r.actors == Str(JoinTags(TopActors(show.roles)))
    ensures r.imdbId == Null <==> forall j :: 0 <= j < |e.guids| ==> !IsImdbGuid(e.guids[j])
    ensures r.durationMinutes == Null <==> e.duration.None? || e.duration == Some(0)
    ensures r.durationMinutes == DurationMinutes(e.duration)
    ensures r.imdbId == OptStr(ImdbInfoOf(e.guids).imdbId) && r.imdbUrl == OptStr(ImdbInfoOf(e.guids).imdbUrl)
    ensures r.season == OptInt(e.seasonNumber) && r.episode == OptInt(e.episodeNumber)
    ensures r.directors == Str(JoinTags(e.directors))
  {
    var imdb := ImdbInfoOf(e.guids);
    Record(
      kind := Str("Episode"),
      title := Str(e.title),
      showTitle := Str(show.title),
      season := OptInt(e.seasonNumber),
      episode := OptInt(e.episodeNumber),
      year := OptInt(e.year),
      rating := OptNum(e.rating),
      contentRating := OptStr(e.contentRating),
      durationMinutes := DurationMinutes(e.duration),
      studio := OptStr(show.studio),
      summary := OptStr(e.summary),
      genres := Str(JoinTags(show.genres)),
      directors := Str(JoinTags(e.directors)),
      actors := Str(JoinTags(TopActors(show.roles))),
      addedAt := OptStr(e.addedAt),
      lastViewedAt := OptStr(e.lastViewedAt),
      viewCount := OptInt(e.viewCount),
      filePath := Str(FirstLocation(e.locations)),
      fileSizeGb := FileSize(e.media),
      videoResolution := Resolution(e.media),
      imdbId := OptStr(imdb.imdbId),
      imdbUrl := OptStr(imdb.imdbUrl),
      plexKey := Str(e.key))
  }

  /** An episode's own attributes seen as a movie's. */
  function AsMovie(e: Episode): Movie {
    Movie(e.title, e.year, e.rating, e.contentRating, e.duration, None, e.summary,
          [], e.directors, [], e.addedAt, e.lastViewedAt, e.viewCount,
          e.locations, e.media, e.guids, e.key)
  }

  /** The columns an episode record does not take from its show are computed
      exactly as for a movie with the episode's attributes. */
  lemma EpisodeRecordAsMovie(show: Show, e: Episode)
    ensures EpisodeRecord(show, e) == MovieRecord(AsMovie(e)).(
      kind := Str("Episode"),
      showTitle := Str(show.title),
      season := OptInt(e.seasonNumber),
      episode := OptInt(e.episodeNumber),
      studio := OptStr(show.studio),
      genres := Str(JoinTags(show.genres)),
      actors := Str(JoinTags(TopActors(show.roles))))
  {
  }

  /** The records of the given episodes of a show, in order. */
  function EpisodeRecords(show: Show, episodes: seq<Episode>): (r: seq<Record>)
    ensures |r| == |episodes|
    ensures forall i :: 0 <= i < |episodes| ==> r[i] == EpisodeRecord(show, episodes[i])
  {
    if episodes == [] then []
    else [EpisodeRecord(show, episodes[0])] + EpisodeRecords(show, episodes[1..])
  }

  /** How many episodes are delivered before the enumeration raises. */
  function Delivered(show: Show): (n: nat)
    ensures n <= |show.episodes|
    ensures forall k :: 0 <= k < n ==> show.raisesAt != Some(k)
    ensures n < |show.episodes| ==> show.raisesAt == Some(n)
  {
    match show.raisesAt
    case None => |show.episodes|
    case Some(k) => if k < |show.episodes| then k else |show.episodes|
  }

  /** The enumeration delivers episodes until the one that raises or the
      end: any count with that description is the delivered count. */
  lemma DeliveredUnique(show: Show, n: nat)
    requires n <= |show.episodes|
    requires forall k :: 0 <= k < n ==> show.raisesAt != Some(k)
    requires n < |show.episodes| ==> show.raisesAt == Some(n)
    ensures n == Delivered(show)
  {
  }

  /** `_get_show_data`: the records of the episodes delivered before any
      failure; a failure keeps what was already collected. */
  function ShowRecords(show: Show): (r: seq<Record>)
    ensures |r| == Delivered(show)
    ensures forall i :: 0 <= i < |r| ==> r[i] == EpisodeRecord(show, show.episodes[i])
  {
    EpisodeRecords(show, show.episodes[..Delivered(show)])
  }

  /** A failing enumeration yields a prefix of what a complete one yields;
      one that fails at the start yields nothing. */
  lemma ShowRecordsPartial(show: Show)
    ensures ShowRecords(show) <= ShowRecords(show.(raisesAt := None))
    ensures show.raisesAt == Some(0) ==> ShowRecords(show) == []
  {
    var full := ShowRecords(show.(raisesAt := None));
    var part := ShowRecords(show);
    assert forall i :: 0 <= i < |part| ==> part[i] == full[i];
  }

  /** A sequence that has one record per delivered episode, each the
      record of that episode, is the result of `_get_show_data`. */
  lemma ShowRecordsCharacterized(show: Show, data: seq<Record>)
    requires |data| == Delivered(show)
    requires forall j :: 0 <= j < |data| ==> data[j] == EpisodeRecord(show, show.episodes[j])
    ensures data == ShowRecords(show)
  {
  }

  /** `_get_show_data` as the loop the monitor runs. */
  method GetShowData(show: Show) returns (episodesData: seq<Record>)
    ensures episodesData == ShowRecords(show)
  {
    episodesData := [];
    var i := 0;
    while i < |show.episodes|
      invariant 0 <= i <= Delivered(show)
      invariant |episodesData| == i
      invariant forall j :: 0 <= j < i ==> episodesData[j] == EpisodeRecord(show, show.episodes[j])
    {
      if show.raisesAt == Some(i) {
        break;
      }
      episodesData := episodesData + [EpisodeRecord(show, show.episodes[i])];
      i := i + 1;
    }
    ShowRecordsCharacterized(show, episodesData);
  }

  /** The record read as the dictionary the monitor builds: the value
      stored under a key, None for a key it does not have. */
  function Lookup(r: Record, key: string): Option<Cell> {
    if key == "type" then Some(r.kind)
    else if key == "title" then Some(r.title)
    else if key == "show_title" then Some(r.showTitle)
    else if key == "season" then Some(r.season)
    else if key == "episode" then Some(r.episode)
    else if key == "year" then Some(r.year)
    else if key == "rating" then Some(r.rating)
    else if key == "content_rating" then Some(r.contentRating)
    else if key == "duration_minutes" then Some(r.durationMinutes)
    else if key == "studio" then Some(r.studio)
    else if key == "summary" then Some(r.summary)
    else if key == "genres" then Some(r.genres)
    else if key == "directors" then Some(r.directors)
    else if key == "actors" then Some(r.actors)
    else if key == "added_at" then Some(r.addedAt)
    else if key == "last_viewed_at" then Some(r.lastViewedAt)
    else if key == "view_count" then Some(r.viewCount)
    else if key == "file_path" then Some(r.filePath)
    else if key == "file_size_gb" then Some(r.fileSizeGb)
    else if key == "video_resolution" then Some(r.videoResolution)
    else if key == "imdb_id" then Some(r.imdbId)
    else if key == "imdb_url" then Some(r.imdbUrl)
    else if key == "plex_key" then Some(r.plexKey)
    else None
  }

  /** The row the CSV writer emits for a record: for each header name in
      turn, the value the record holds under that name. */
  function Row(r: Record): (row: seq<Cell>)
    ensures |row| == |FieldNames|
    ensures forall i :: 0 <= i < |FieldNames| ==> Lookup(r, FieldNames[i]) == Some(row[i])
  {
    [r.kind, r.title, r.showTitle, r.season, r.episode, r.year,
     r.rating, r.contentRating, r.durationMinutes, r.studio,
     r.summary, r.genres, r.directors, r.actors, r.addedAt,
     r.lastViewedAt, r.viewCount, r.filePath, r.fileSizeGb,
     r.videoResolution, r.imdbId, r.imdbUrl, r.plexKey]
  }

  /** Every record has exactly the header's keys, so the writer neither
      misses a column nor meets a key it does not know. */
  lemma KeysAreHeader(r: Record, key: string)
    ensures Lookup(r, key).Some? <==> key in FieldNames
  {
  }
}
