# Plex library monitor — a Dafny model of its record shaping

The Plex library monitor (`plex_monitor.py`) connects to a Plex media
server. For each configured library section it reads every movie and every
episode of every show, and flattens each one into a 23-column record. It then
writes the records of the library to two CSV files: a timestamped snapshot,
and a `plex_library_<library>_latest.csv` copy.

This project models the part of the monitor that decides what is written.
The server's objects become plain values (module `Plex`). The Python string
operations the monitor uses become verified functions (module `Strings`):
`in`, `split`, `join` and single-character `replace`. On top of these the
model has:

- `Imdb`: `_get_imdb_info`, as a first-match function and as the loop the
  monitor runs. The identifier is `id.split('imdb://')[1]`. The URL is
  `https://www.imdb.com/title/<id>/`.
- `Records`: `_get_movie_data` and `_get_show_data`. Tags are joined with
  `", "`, actors are truncated to five, durations are rounded to minutes,
  and episodes inherit show columns. A failing episode enumeration keeps
  the records collected so far. The model also covers the row the CSV
  writer produces from a record.
- `Naming`: file names from the `csv_filename` template and the fixed
  "latest" name.
- `Setup`: the settings and the placeholder-token check of `_connect_plex`.
- `Library`: the pure part of `monitor_library`. Items are dispatched by
  kind, and records are gathered in enumeration order. Nothing is written
  for an empty library. Otherwise the same header and rows go to both files.

Some behaviour of the code worth knowing, all of it modelled as written:

- The identifier is not the whole suffix after `imdb://`. It is the text up
  to the next `imdb://`, if there is one (`Imdb.ImdbIdBetweenMarkers`).
- `monitor_library` returns the timestamped path even when the library has
  no records and nothing is written (`Library.PlanExport`: `csvPath` is set
  in both cases).
- The "latest" name always has the shape `plex_library_<slug>_latest.csv`,
  whatever `csv_filename` says.
- A settings file without `plex_url` or `plex_token` does not fall back to
  a default. The lookup raises, and the monitor stops
  (`Setup.MissingSetting`).

## Model

| member | source | states |
|---|---|---|
| `Strings.ContainsOccurs` | plex_monitor.py:88 | Python's `p in s` holds exactly when `p` occurs in `s` at some index |
| `Strings.FindFrom` | plex_monitor.py:88 | the result is the least index at or after `from` where the pattern occurs; None exactly when it occurs nowhere from there |
| `Strings.Split` | plex_monitor.py:89 | a split has at least one piece; at least two when the separator occurs; just the whole string when it does not |
| `Strings.FirstPiece` | plex_monitor.py:89 | the first piece holds no separator; the string is the first piece followed by the separator and the text the remaining pieces are split from, or followed by nothing |
| `Strings.JoinSplit` | plex_monitor.py:89 | joining the pieces of a split with the separator gives back the string |
| `Strings.SplitPiecesFree` | plex_monitor.py:89 | no piece of a split contains the separator |
| `Strings.SecondPiece` | plex_monitor.py:89 | when the separator occurs, the string is `before + sep + piece[1] + after`: `before` is piece 0, neither holds the separator, and `after` is empty or starts with the separator |
| `Strings.Join` | plex_monitor.py:111-113 | no parts join to `''` and a single part joins to itself; a longer join starts with the first part and the separator (`JoinAppend` gives the rest) |
| `Strings.JoinAppend` | plex_monitor.py:111 | joining one more part adds the separator and the part at the end |
| `Strings.SplitJoin` | plex_monitor.py:111-113 | for a separator whose occurrences cannot overlap, splitting a join gives back the parts when no part contains the separator |
| `Strings.ReplaceChar` | plex_monitor.py:186 | same length; each occurrence of the replaced character becomes the replacement; every other character is kept |
| `Strings.ReplaceCharRemoves` | plex_monitor.py:186 | after the replacement the replaced character is gone, and replacing again changes nothing |
| `Imdb.ImdbGuidMentionsMarker` | plex_monitor.py:88 | a guid is taken as an IMDb guid exactly when `imdb://` occurs somewhere in its id |
| `Imdb.FirstImdbGuid` | plex_monitor.py:87-88 | the index of the first guid whose id contains `imdb://`: it matches and none before it does; None exactly when no guid matches |
| `Imdb.ImdbIdOf` | plex_monitor.py:89 | the extracted identifier never contains `imdb://` |
| `Imdb.ImdbUrlOf` | plex_monitor.py:90 | the URL is the IMDb title prefix, then exactly the identifier, then `/` |
| `Imdb.ImdbInfoOf` | plex_monitor.py:83-96 | identifier and URL are both None or both present; None exactly when no guid contains `imdb://` (also for an empty or missing guid list); the URL is the title URL of the identifier |
| `Imdb.ImdbIdBetweenMarkers` | plex_monitor.py:89 | the guid id is `before + "imdb://" + identifier + after`; `before` and the identifier hold no marker; `after` is empty or starts with the next marker |
| `Imdb.FirstImdbGuidAt` | plex_monitor.py:87-91 | a matching guid preceded only by non-matching guids is the one found, whatever follows it |
| `Imdb.FirstMatchWins` | plex_monitor.py:87-91 | guids before the first match and all guids after it (matching or not) do not change the result; the identifier is that guid's `split('imdb://')[1]` |
| `Imdb.GetImdbInfo` | plex_monitor.py:81-96 | the scan-and-break loop returns exactly `ImdbInfoOf` of the guids |
| `Records.JoinTags` | plex_monitor.py:111-112 | an empty tag list gives `''`; a single tag gives its name unchanged |
| `Records.JoinTagsAppend` | plex_monitor.py:111 | each further tag appends `", "` and its name |
| `Records.JoinTagsSplits` | plex_monitor.py:111-113 | a joined tag column splits back on `", "` into the tag names, in order, when no name contains `", "` |
| `Records.TopActors` | plex_monitor.py:113 | `roles[:5]` is a prefix of the roles of length min(5, n) |
| `Records.ActorsColumn` | plex_monitor.py:113 | the actors column reads back as exactly the first min(5, n) role names, in their original order |
| `Records.RoundMinutes` | plex_monitor.py:108 | the result is within half a minute of the duration, and an exact half goes to the even neighbour |
| `Records.RoundMinutesUnique` | plex_monitor.py:108 | any whole number with those two properties is the rounded value |
| `Records.DurationMinutes` | plex_monitor.py:108 | None exactly for a missing or zero duration; otherwise the rounded number of minutes |
| `Records.DurationExamples` | plex_monitor.py:145 | 125000 ms gives 2, 90000 ms gives 2 and 150000 ms gives 2 (halves go to even); 0 gives None |
| `Records.TotalSize` | plex_monitor.py:118 | no parts total 0 and a single part totals its own size (with `TotalSizeAppend` this fixes the sum); with sizes that are not negative, the total is not negative and no smaller than any one part |
| `Records.TotalSizeAppend` | plex_monitor.py:118 | the total of two runs of parts is the sum of their totals |
| `Records.FileSize` | plex_monitor.py:118 | None exactly when there is no media version or its part list is empty; otherwise the size cell (`SizeGb`) of the total size of the first version's parts |
| `Records.Resolution` | plex_monitor.py:119 | `''` when there is no media version; otherwise None exactly when the first version has no resolution, and that resolution when it has one |
| `Records.MovieRecord` | plex_monitor.py:98-126 | type `Movie`; season, episode and show title `''`; the IMDb id is None exactly when no guid matches; the duration is None exactly when it is missing or zero; empty genres or roles give `''`; the file path is the first location, or `''` when there is none; genres and directors are the joined tag names, actors the joined names of the first five roles; the IMDb id and URL are those of the first matching guid; the duration is the rounded minutes of the duration; resolution and file size are those of the media versions; title, year, rating, content rating, studio, summary, added and last viewed times, view count and key are copied from the movie |
| `Records.EpisodeRecord` | plex_monitor.py:136-160 | type `Episode`; show title, studio, genres and top-five actors come from the show; the IMDb id and URL are those of the episode's first matching guid, and None exactly when none matches; the duration is the episode's rounded minutes, None exactly when missing or zero; season, episode number and directors are the episode's own |
| `Records.EpisodeRecordAsMovie` | plex_monitor.py:136-160 | apart from the columns taken from the show, season and episode, an episode record is computed exactly as a movie record with the episode's attributes |
| `Records.EpisodeRecords` | plex_monitor.py:133-161 | one record per episode, in episode order |
| `Records.Delivered` | plex_monitor.py:132-164 | no episode before the delivered count raises, and when the count stops short of the end, the next episode is the one that raises |
| `Records.DeliveredUnique` | plex_monitor.py:132-164 | any count with those properties is the delivered count |
| `Records.ShowRecords` | plex_monitor.py:128-165 | one record per delivered episode, record i being that of episode i |
| `Records.ShowRecordsPartial` | plex_monitor.py:162-165 | the records of a failing enumeration are a prefix of those of a complete one; a failure at the first episode gives none |
| `Records.ShowRecordsCharacterized` | plex_monitor.py:130-165 | any sequence with one correct record per delivered episode is the result of `_get_show_data` |
| `Records.GetShowData` | plex_monitor.py:128-165 | the append loop that stops at the failure returns exactly `ShowRecords` |
| `Records.Row` | plex_monitor.py:193-204 | the row has one cell per header name, and cell i is the value the record dictionary holds under header name i |
| `Records.KeysAreHeader` | plex_monitor.py:102-126 | a record dictionary (`Lookup`) has a value under a key exactly when the key is one of the 23 header names |
| `Naming.RenderAppend` | plex_monitor.py:185-188 | formatting a concatenated template concatenates the formatted parts |
| `Naming.RenderIgnoresDate` | plex_monitor.py:185-188 | a template without a `{date}` field gives the same name on every run |
| `Naming.RenderAvoids` | plex_monitor.py:185-188 | a character found in no literal of the template, nor in the library or the date, is not in the formatted name |
| `Naming.CsvFileName` | plex_monitor.py:185-189 | with space-free literals and date, the timestamped name contains no space, whatever the library name |
| `Naming.LibrarySlug` | plex_monitor.py:186 | the slug has the name's length, contains no space, and keeps every non-space character |
| `Naming.SlugIgnoresSpaceVersusUnderscore` | plex_monitor.py:186 | two names that differ only by spaces against underscores get the same slug, so they share output files |
| `Naming.LatestFileName` | plex_monitor.py:209 | the "latest" name contains no space and is the name the default template gives for the date text `latest`, that is `plex_library_<slug>_latest.csv` |
| `Naming.DefaultFileName` | plex_monitor.py:184-188 | with the default template the name is `plex_library_` + slug + `_` + date + `.csv` |
| `Naming.DefaultNamesDistinct` | plex_monitor.py:183-209 | with the default template, different dates give different snapshot names, and a snapshot name is the "latest" name exactly when the date text is `latest` |
| `Setup.ConnectPlex` | plex_monitor.py:64-73 | credentials are accepted exactly when URL and token are present and the token is not the placeholder; the rejection for the placeholder happens exactly when the URL is present and the token is the placeholder |
| `Setup.DefaultConfigRejected` | plex_monitor.py:52-73 | the settings file the monitor creates never passes the token check |
| `Setup.OutputDir` | plex_monitor.py:41 | the configured output directory, or `./data` when the key is absent |
| `Setup.FilenameTemplate` | plex_monitor.py:184 | the configured file name template, or `plex_library_{library}_{date}.csv` when the key is absent |
| `Setup.DefaultConfigMatchesFallbacks` | plex_monitor.py:52-58 | the settings file the monitor creates names the same output directory and template as the built-in fallbacks |
| `Library.ItemRecords` | plex_monitor.py:177-180 | a movie gives exactly its movie record, of type `Movie`; a show gives one record per delivered episode, record k being the episode record of episode k; any other item gives none |
| `Library.FlatMapEmpty` | plex_monitor.py:176-192 | the gathered records are empty exactly when every item contributes none |
| `Library.CollectRecords` | plex_monitor.py:173-180 | no records exactly when no item contributes a record |
| `Library.CollectAppend` | plex_monitor.py:176-180 | the records of two runs of items are those of the first followed by those of the second |
| `Library.CollectStep` | plex_monitor.py:176-180 | one more item appends exactly that item's records |
| `Library.OtherItemsSkipped` | plex_monitor.py:177-180 | an item that is neither a movie nor a show contributes nothing |
| `Library.CollectedKinds` | plex_monitor.py:176-180 | every gathered record is a movie record or an episode record |
| `Library.MoviesOnly` | plex_monitor.py:176-178 | a library of movies only gives one record per movie, in order |
| `Library.Rows` | plex_monitor.py:204 | one row per record, each of header length |
| `Library.PlanExport` | plex_monitor.py:182-219 | the reported path is always the templated one; nothing is written exactly when there are no records; otherwise two files, the timestamped one then the "latest" one, with the 23-name header and identical rows, one per record |
| `Library.MonitorLibrary` | plex_monitor.py:167-219 | a missing section is an error; otherwise the gather loop yields exactly `PlanExport` of the records of the items, using the configured or default output directory and template |

## Left out

- The server client (`PlexServer`, `library.section`, `library.all()`,
  `show.episodes()`) is a foreign library. Its results are inputs: a section
  is an optional item list, and `Show.raisesAt` marks the episode at which
  enumeration or reading raises. A connection failure after the token check
  is not modelled.
- Reading, creating and writing the JSON settings file and `exit(1)` are
  file I/O and process control. The default settings are kept as a value,
  and the stops are error results.
- CSV quoting, escaping, UTF-8 encoding, `mkdir` and the file writes
  themselves are I/O. The model stops at the header and rows handed to the
  writer.
- `Records.FileSize`: the gigabyte division and `round(..., 2)` are
  floating point. The column keeps the byte total (`SizeGb`) instead.
- `datetime.now()` and the `strftime` formatting of `addedAt`,
  `lastViewedAt` and the file date depend on the clock and on library
  formatting. These values are opaque, already formatted strings.
- `Records.RoundMinutes` rounds the exact quotient, not the float
  `duration / 60000`. The two agree for durations below 2^53 ms.
- `str.format` parsing of a user-supplied `csv_filename` is not modelled:
  unknown fields, escaped braces, and the error for a missing field. The
  template arrives as literal pieces and the `{library}` and `{date}` fields.
- Path joining with `pathlib` is kept as a directory and file-name pair,
  without normalisation.
- Logging is a side effect only. `monitor_all_libraries` and `main` are
  orchestration and are not part of this model.
- An exception raised while a movie is flattened aborts the whole library
  in the monitor. The model has no such failure: movie attributes are plain
  values.
