# melon-api extraction and freshness core, in Dafny

This project models the data-shaping core of the melon-api service and proves
properties of that model. The service reads Melon pages for charts, songs and
albums and returns JSON. It sits behind a TTL cache, and a background
prefetcher keeps the chart entries warm.

The model covers:

- **Chart rows** (`Chart`, after `src/services/chart.ts`). This covers the
  five-entry chart table, validation of the chart type, and the per-row
  extraction of a track. The extraction recovers the song id from the
  `playSong` link, the album id from the `goAlbumDetail` link, the placeholders
  for missing anchors, and the up / down / static rank change. A row that
  throws is skipped.
- **The older chart service** (`LegacyChart`, after `src/services/charts.ts`).
  It has the same row rules, throws instead of returning errors, and keeps an
  inline one-minute cache keyed by the bare chart type.
- **Song pages** (`Song`, `Artists`, `Markup`, after `src/services/song.ts`):
  - the title with the first `곡명` label removed;
  - artists de-duplicated by name;
  - album, release date and genre read from the info list by position;
  - lyrics normalised: comments stripped, `<br>` turned into a newline, each
    fragment trimmed, the fragments concatenated, then five entities decoded
    in order;
  - producer credits merged by name, with their roles accumulated.
- **Album pages** (`Album`, after `src/services/album.ts`):
  - the type with its brackets stripped;
  - the title, falling back to `og:title` cut at the first `" - "`;
  - the four `dt` labels dispatched to their fields, the last one winning;
  - the introduction, normalised like the lyrics;
  - track rows with the id from the checkbox or from `goSongDetail('…')`.
    Rows without an id are skipped. A row that throws fails the whole album.
- **The TTL cache** (`Cache`, after `src/utils/cache.ts`). This covers
  `getOrFetch` with a strict freshness test, the timestamp taken before the
  fetch, failed fetches that write nothing, and `setDefaultTTL`, `clear` and
  `invalidate`.
- **The chart prefetcher** (`Prefetch`, after `src/utils/prefetch.ts`). It is
  a running / stopped state machine that holds one repeating timer per chart
  type. `start`, `stop` and `updateConfig` are pure steps that return the
  effects they issue. `prefetchChart` chooses which callback to invoke.
- **The error table** (`Errors`, after `src/types/errors.ts`). This is the
  closed set of sixteen target ids and the `<Category>: <detail>` message for
  each one.

The document is abstracted away. Each extractor takes a record of the strings
its selectors pick out, in document order (`Document.Page`, `Document.Row`,
`Document.Link`). A row whose traversal throws is `Throws(message)`. A page
whose traversal throws outside any per-row handler is `Broken(message)`.

Page fetching is a parameter, `Fetcher`, which maps a path to an outcome. The
result cache that the newer services call (`getOrFetchResult`) is also a
parameter, `CachedFetch`, because its definition is not part of this model.
Time is an explicit `now`. Timers are handles drawn from a counter.

JavaScript's `trim`, `split`, `join`, `includes`, `indexOf`, global `replace`
and the small regular expressions used by the services are written out in
`Strings` and `Markup`.

## Model

| member | source | states |
|---|---|---|
| Chart.ChartKeysListed | src/services/chart.ts:14-20 | the table's keys are top100, hot100, day, week and month in declaration order; the error message lists them joined by ", "; the default type is among them |
| Chart.ChartTable | src/services/chart.ts:31 | a chart type is accepted exactly when the table has a path for it |
| Chart.ChartPaths | src/services/chart.ts:14-20 | each of the five chart types maps to the path declared beside it |
| Chart.LookupPath | src/services/chart.ts:41 | a path is found iff some table entry has the type, and the path found belongs to such an entry |
| Chart.GetChart | src/services/chart.ts:28-39 | an unknown chart type yields the error that lists the valid types |
| Chart.InvalidTypeFetchesNothing | src/services/chart.ts:166-176 | an unknown type is rejected with the same error whatever the fetcher and the cache would do, so neither is consulted; `getMelonChart` quotes the rejected type |
| Chart.ValidTypeFetchesTablePath | src/services/chart.ts:41-42 | for a valid type, the result depends only on what the fetcher returns for the table path followed by "/" |
| Chart.ReadsTablePath | src/services/chart.ts:41-47 | a type with table path p reads the page at p + "/", and its rows become the tracks |
| Chart.DayChartPath | src/services/chart.ts:41 | the daily chart is read from "/chart/day/" |
| Chart.GetMelonChart | src/services/chart.ts:166-203 | an unknown type gives the quoted error without using the cache; a valid type hands `getChart` to the result cache under the key chart_<type> |
| Chart.SongId | src/services/chart.ts:55-67 | a song id holds only digits, and there is none without a `playSong` link |
| Chart.SongIdCharacterized | src/services/chart.ts:55-65 | for every link that mentions `playSong` anywhere, written `<pre>,<mid><rest>` with no comma in pre and mid running to the next comma or quote, the song id is mid with its non-digits deleted; an empty mid gives no id, and a mid without digits gives "" rather than none |
| Chart.SongIdExists | src/services/chart.ts:55-67 | for every link, a song id exists iff the link mentions `playSong` and the character right after its first comma exists and is neither a comma nor a quote; without `playSong` or without a comma there is none |
| Chart.SongIdOfPlaySongCall | src/services/chart.ts:56-65 | the usual link `…playSong('<menu>',<digits>);` yields exactly the digits |
| Chart.AlbumId | src/services/chart.ts:88-95 | an album id is non-empty and holds no quote, and there is none without an album anchor |
| Chart.AlbumIdCharacterized | src/services/chart.ts:88-94 | for every link that mentions `goAlbumDetail` anywhere, written `<pre>'<mid>'…` or `<pre>'<mid>` with no quote in pre or mid, the album id is the second quote-separated piece mid, or none when mid is empty |
| Chart.AlbumIdExists | src/services/chart.ts:88-95 | for every album anchor, an album id exists iff its link mentions `goAlbumDetail` and the character right after the first quote exists and is not a quote; without an anchor, a link, `goAlbumDetail` or a quote there is none |
| Chart.NumberOr0 | src/services/chart.ts:110-111 | `Number(text) \|\| 0` is never negative, and it is 0 for text that is not a digit string |
| Chart.RankChangeOf | src/services/chart.ts:102-123 | a rank change exists iff some marker is present; up wins over down, which wins over static; an up or down change carries `Number(text) \|\| 0` of its trimmed marker text; static has value 0; values are never negative |
| Chart.UpMarkerWithoutNumber | src/services/chart.ts:108-113 | an up marker whose trimmed text is not a digit string still gives an up change, with value 0 |
| Chart.MarkerWithNumber | src/services/chart.ts:108-118 | an up marker, or a down marker without an up marker, whose trimmed text is a digit string carries that number |
| Chart.NumberOr0Examples | src/services/chart.ts:110-111 | `3` reads as 3, `12` as 12, and `new` as 0 |
| Chart.Placeholders | src/services/chart.ts:70-95 | a missing title anchor gives "Unknown Title"; a missing album anchor gives "Unknown Album" and no album id; a missing song link gives no song id |
| Chart.ArtistsNotDeduplicated | src/services/chart.ts:75-79 | chart artists are every anchor's trimmed text in order: duplicate and empty names are kept |
| Chart.ExtractRows | src/services/chart.ts:50-147 | there are never more tracks than rows, and exactly as many when no row throws |
| Chart.ExtractRowsAppend | src/services/chart.ts:50-145 | extraction is row by row: the tracks of a + b are the tracks of a followed by those of b |
| Chart.ThrowingRowSkipped | src/services/chart.ts:138-144 | a row that throws contributes nothing, and its neighbours are kept in order |
| Chart.GoodRowKept | src/services/chart.ts:126-137 | a row that does not throw contributes exactly its track, in its place |
| LegacyChart.GetChart | src/services/charts.ts:25-32 | an unknown chart type throws the unquoted error that lists the valid types |
| LegacyChart.AgreesWithChart | src/services/charts.ts:34-133 | the older `getChart` returns the same tracks as the newer one, or throws the error the newer one returns |
| LegacyChart.InvalidTypeThrows | src/services/charts.ts:152-160 | both older entry points throw for an unknown type, and the inline cache is untouched |
| LegacyChart.GetMelonChart | src/services/charts.ts:152-160 | an unknown type throws the unquoted error and leaves the inline cache as it was |
| LegacyChart.InlineCacheHit | src/services/charts.ts:162-168 | an entry under the bare chart type that is younger than 60000 ms is returned as is, and `getChart` is not run |
| LegacyChart.InlineCacheMissStores | src/services/charts.ts:174-180 | on a miss, the tracks are stored under the bare type, stamped with the time read before the fetch, and no other entry changes |
| LegacyChart.InlineCacheKeptOnThrow | src/services/charts.ts:174-180 | when `getChart` throws on a miss, the error propagates and the inline cache is not modified |
| Cache.Init | src/utils/cache.ts:18-19 | the cache starts empty, with a default TTL of 60000 ms |
| Cache.EffectiveTTL | src/utils/cache.ts:31 | a call uses its own TTL when one is given, and otherwise the default current at call time |
| Cache.GetOrFetch | src/utils/cache.ts:28-55 | the fetch runs iff there is no entry younger than the TTL. A hit returns the stored data and changes nothing. A successful fetch is returned and stored under the key, stamped with `now`. A failed fetch propagates and changes nothing. No other key changes, and the default TTL is kept |
| Cache.FreshnessBoundary | src/utils/cache.ts:36-38 | freshness is strict: an entry stamped ts is a hit at ts + ttl - 1 and a miss at ts + ttl |
| Cache.HitIgnoresFetch | src/utils/cache.ts:36-42 | on a hit, the outcome does not depend on what the fetch would produce |
| Cache.RereadWithinTTL | src/utils/cache.ts:33-54 | a value fetched at now is served to a later read with the same TTL exactly when less than the TTL has elapsed |
| Cache.SlowFetchStoresStaleEntry | src/utils/cache.ts:33-52 | the stamp is taken before the fetch, so a fetch that takes at least the TTL stores an entry that is already stale when it completes |
| Cache.FailedFetchKeepsStaleEntry | src/utils/cache.ts:46-52 | a failed fetch leaves a stale or absent entry exactly as it was, so the next read fetches again |
| Cache.SetDefaultTTL | src/utils/cache.ts:60-62 | only the default TTL changes |
| Cache.DefaultTTLGovernsLaterCalls | src/utils/cache.ts:31 | after `setDefaultTTL(d)`, a call without its own TTL judges freshness by d |
| Cache.Clear | src/utils/cache.ts:67-69 | every entry is dropped and the default TTL is kept |
| Cache.ClearThenMiss | src/utils/cache.ts:67-69 | after `clear()`, every read fetches |
| Cache.Invalidate | src/utils/cache.ts:74-80 | the result is true iff the key was present; afterwards the key is absent and every other entry and the default TTL are unchanged |
| Cache.InvalidateThenMiss | src/utils/cache.ts:74-80 | after `invalidate(key)`, the next read of key fetches |
| Cache.InvalidateIdempotent | src/utils/cache.ts:74-80 | a second `invalidate` of the same key returns false and changes nothing |
| Song.Title | src/services/song.ts:39 | the title never starts or ends with white space |
| Song.TitleDropsFirstLabelOnly | src/services/song.ts:39 | a leading 곡명 is removed and the rest trimmed; only the first occurrence is removed, so a title that itself reads 곡명 survives |
| Artists.ArtistId | src/services/song.ts:45-53 | an artist id holds only digits, and it is "" when the anchor has no href |
| Artists.ArtistIdOfCall | src/services/song.ts:47-53 | a link `goArtistDetail('<digits>')…` yields exactly the digits |
| Artists.DedupByName | src/services/song.ts:55-57 | the kept artists have distinct, non-empty names and come from the input; a name is kept iff it is non-empty and occurs in the input |
| Artists.DedupStep | src/services/song.ts:55-57 | each step appends the next artist exactly when its name is non-empty and not yet listed |
| Artists.DedupKeepsFirstOccurrences | src/services/song.ts:43-58 | each kept artist is the first occurrence of its name, so it carries the first id, and the kept artists follow document order |
| Artists.CollectArtists | src/services/album.ts:69-83 | the artist list of a page has distinct, non-empty names |
| Artists.DuplicateNameKeepsFirstId | src/services/song.ts:55-57 | two anchors with the same trimmed name give one artist, which carries the first anchor's id |
| Song.DdAt | src/services/song.ts:77-84 | the dd at position i exists iff the list is longer than i, and it is the i-th entry |
| Song.AlbumOf | src/services/song.ts:61-74 | the album id holds only digits; the name has no surrounding white space; without a first dd or an anchor in it both name and id are "" |
| Song.AlbumNameJoinsAnchors | src/services/song.ts:64-72 | with several anchors in the first dd, the album name is the trimmed text of all of them joined, and the id is read from the first anchor's link |
| Song.InfoByPosition | src/services/song.ts:61-84 | album, release date and genre come from dd positions 0, 1 and 2 |
| Song.InfoDefaults | src/services/song.ts:61-84 | without an info list, album, release date and genre are all "" |
| Markup.StripComments | src/services/song.ts:92 | stripping comments never lengthens the text |
| Markup.StripCommentsPlainText | src/services/song.ts:92 | text without a `<` is left unchanged |
| Markup.StripOneComment | src/services/song.ts:92 | a comment `<!--c--->` after plain text disappears, and stripping continues after it |
| Markup.CommentEndsAtFirstClose | src/services/song.ts:92 | matching is lazy: the first `-->` ends the comment, and a later one stays in the text |
| Markup.BreakAt | src/services/song.ts:93 | a break match starts with `<`, ends with `>` and is at least four characters long |
| Markup.BreakAtIff | src/services/song.ts:93 | a break match of length n is found at the start iff the first n characters are `<br`, in either case, then white space, then `>` or `/>` |
| Markup.BreakTagReplaced | src/services/song.ts:93 | a break tag at the start becomes one newline, and the replacement continues after it |
| Markup.BreakSpellings | src/services/song.ts:93 | `<br>`, `<br/>`, `<BR />` and `<br \n>` each become one newline |
| Markup.OtherTagsKept | src/services/song.ts:93 | a tag that is not a break, such as `<b>`, is left alone |
| Markup.ReplaceBreaksPlainPrefix | src/services/song.ts:93 | text before the first `<` passes through unchanged |
| Markup.NormalizeFragment | src/services/song.ts:89-94 | a fragment without inner HTML contributes ""; a normalised fragment never starts or ends with white space |
| Markup.ConcatFragmentsAppend | src/services/song.ts:88-95 | fragments are concatenated one by one in document order, with no separator |
| Markup.DecodeEntities | src/services/song.ts:98-103 | text without `&` is unchanged by the entity decode |
| Markup.EntitiesDecode | src/services/song.ts:98-103 | each of `&amp;`, `&lt;`, `&gt;`, `&quot;` and `&#39;`, standing alone, decodes to its character |
| Markup.PassPlain | src/services/song.ts:99-103 | one decode pass leaves a prefix without `&` as it is and continues after it |
| Markup.PassOther | src/services/song.ts:99-103 | one decode pass skips an entity that differs from its own in the second character |
| Markup.PassMatch | src/services/song.ts:99-103 | one decode pass replaces its entity after a prefix without `&` and continues after it |
| Markup.LtStep | src/services/song.ts:98-103 | `&lt;` after text without `&` becomes `<`, and the decode continues after it |
| Markup.GtStep | src/services/song.ts:98-103 | `&gt;` after text without `&` becomes `>`, and the decode continues after it |
| Markup.QuotStep | src/services/song.ts:98-103 | `&quot;` after text without `&` becomes a double quote, and the decode continues after it |
| Markup.AposStep | src/services/song.ts:98-103 | `&#39;` after text without `&` becomes an apostrophe, and the decode continues after it |
| Markup.EntityStep | src/services/song.ts:98-103 | for each entity other than `&amp;`, the decode of p + entity + t is p + its character + the decode of t, for p without `&` |
| Markup.LoneAmpersand | src/services/song.ts:100-103 | a decode pass leaves a lone `&` alone unless the text after it completes the pass's entity |
| Markup.AmpStep | src/services/song.ts:98-103 | `&amp;` after text without `&` becomes `&`, and a rest without `&` that does not continue it into another entity is kept as it is |
| Markup.AmpersandDecodedFirst | src/services/song.ts:98-103 | because `&amp;` is decoded first, `&amp;lt;` comes out as `<` |
| Markup.LongTextOfPlainFragment | src/services/album.ts:111-129 | a single fragment without markup or entities comes out trimmed and otherwise unchanged |
| Song.ProducerId | src/services/song.ts:114-122 | a producer id holds only digits |
| Song.ProducerIdOfBareCall | src/services/song.ts:118-121 | `goArtistDetail(<digits>)` without quotes yields the digits |
| Song.ProducerIdOfQuotedCall | src/services/song.ts:118 | a quoted link `goArtistDetail('<digits>')` yields "", because the producer pattern has no quotes |
| Song.FindProducer | src/services/song.ts:125 | finds a producer with the name iff one is listed |
| Song.AppendProducer | src/services/song.ts:131-133 | a counted credit for an unlisted name appends one producer with that single role, and the list stays well formed |
| Song.AddRole | src/services/song.ts:127-130 | a new role is appended to that producer's roles only; names, ids and the other producers are unchanged |
| Song.AddCredit | src/services/song.ts:124-134 | one loop step keeps the list well formed. A credit counts only with a non-empty name and role. Names and ids already listed never change. A role is added only for the credit's own name. A new producer appears only for a new name |
| Song.MergeCredits | src/services/song.ts:105-135 | producers have distinct, non-empty names and non-empty roles without repeats; a producer is listed iff some counted credit names it; its roles are exactly those credited to it; its id is that of its first credit |
| Song.TwoRolesOneProducer | src/services/song.ts:124-134 | two credits for one name merge into one producer with both roles and the first credit's id |
| Song.RepeatedRoleOnce | src/services/song.ts:127-129 | a repeated role is recorded once |
| Song.ExtractSong | src/services/song.ts:37-148 | a song's artists have distinct names, its producers are well formed, and its album id holds only digits |
| Song.FetchSong | src/services/song.ts:30-36 | a failed fetch gives its error; a parsed page gives its song data |
| Song.GetSongData | src/services/song.ts:26-36 | with a cache that passes results through, the result is that of fetching and extracting the song page |
| Song.SongCachedUnderKey | src/services/song.ts:29 | the result is what the result cache yields under the key `song_<songId>` for this song's fetch: two caches that agree there give the same result |
| Song.SongReadsDetailPage | src/services/song.ts:26-36 | the only page consulted is the song's detail page: two fetchers that agree on it give the same result, whatever the cache does |
| Album.AlbumType | src/services/album.ts:43-44 | the type holds no bracket and does not start or end with white space |
| Album.AlbumTypeIdempotent | src/services/album.ts:43-44 | normalising the type twice gives the same result as once |
| Album.BracketedType | src/services/album.ts:43-44 | `[EP]` with surrounding white space comes out as `EP` |
| Album.Title | src/services/album.ts:48-66 | the direct text, trimmed, wins when non-empty; otherwise, with no og:title, the title is "" |
| Album.OgTitleCut | src/services/album.ts:61-65 | with no direct text, an og:title containing " - " is cut at its first occurrence and trimmed |
| Album.OgTitleUncut | src/services/album.ts:61-66 | with no direct text, an og:title without " - " is taken as is, untrimmed |
| Album.LastIndex | src/services/album.ts:92-105 | the reference for "last": none iff no entry has the label; otherwise an entry with the label and no later one |
| Album.LastEntryWins | src/services/album.ts:92-105 | after the dt loop, each of the four fields holds the value of the last entry with its label, or its earlier value when the label never occurs |
| Album.MetaFields | src/services/album.ts:86-105 | release date, genre, publisher and agency are the trimmed values of the last trimmed dt with their label, or "" |
| Album.RepeatedLabelLastWins | src/services/album.ts:96-97 | a repeated 발매일 keeps the later value |
| Album.SongIdOf | src/services/album.ts:136-150 | without a checkbox value, the id holds only digits, and it is "" when there is also no song link |
| Album.CheckboxWins | src/services/album.ts:136-141 | a non-empty checkbox value is the id, whatever the link says |
| Album.IdFromSongLink | src/services/album.ts:141-150 | without a checkbox value, a `goSongDetail('<digits>')` link yields the digits |
| Album.SongOf | src/services/album.ts:152-205 | a row gives a track iff its id is non-empty; the track carries that id and artists with distinct names |
| Album.SongsHaveIds | src/services/album.ts:152 | every track built has a non-empty id |
| Album.SongsOfAppend | src/services/album.ts:133-207 | tracks are built row by row, in document order |
| Album.RowFields | src/services/album.ts:133-207 | the rows' fields are all read iff no row throws, in the same order |
| Album.ExtractSongs | src/services/album.ts:132-207 | the track list fails iff some row throws; otherwise it has at most one track per row, each with an id |
| Album.ExtractSongsAppend | src/services/album.ts:133-207 | without throwing rows, the tracks of a + b are those of a followed by those of b |
| Album.FirstThrowAborts | src/services/album.ts:222-228 | the error is the message of the first row that throws |
| Album.SingleRow | src/services/album.ts:152-205 | a single row gives its track, or nothing when it has no id |
| Album.ExtractAlbum | src/services/album.ts:41-228 | the album fails iff some track row throws; otherwise it carries the requested id, artists with distinct names, a bracket-free type, and "" as image URL without an image |
| Album.AlbumFields | src/services/album.ts:209-221 | when no row throws the album succeeds; its release date, genre, publisher and agency are the trimmed values of the last dt with their label, and its songs are the tracks of its rows |
| Album.ThrowingRowFailsAlbum | src/services/album.ts:222-228 | a single throwing row makes the whole album an error, whatever the other rows hold |
| Album.FetchAlbum | src/services/album.ts:36-41 | a failed fetch or a broken page gives its error; a parsed page gives the extracted album |
| Album.GetAlbumData | src/services/album.ts:31-41 | with a cache that passes results through, the result is that of fetching and extracting the album page |
| Album.AlbumCachedUnderKey | src/services/album.ts:34 | the result is what the result cache yields under the key `album_<albumId>` for this album's fetch: two caches that agree there give the same result |
| Album.AlbumReadsDetailPage | src/services/album.ts:31-41 | the only page consulted is the album's detail page: two fetchers that agree on it give the same result, whatever the cache does |
| Document.CacheKeyInjective | src/services/song.ts:29 | the cache keys `song_<id>`, `album_<id>` and `chart_<type>` are equal only for the same service and id, so no two requests share an entry |
| Prefetch.Merge | src/utils/prefetch.ts:118 | each property present in the partial configuration overrides the current one, and the others are kept |
| Prefetch.New | src/utils/prefetch.ts:29-31 | a new prefetcher is stopped, has no timers, and uses the defaults overridden by its argument |
| Prefetch.NewIsValid | src/utils/prefetch.ts:16-31 | a new prefetcher satisfies the invariant and is not active; by default it is enabled with a 50000 ms period |
| Prefetch.DefaultIntervalBeforeExpiry | src/utils/prefetch.ts:18 | the default period is shorter than the cache's default TTL |
| Prefetch.PrefetchedTypesAreValid | src/utils/prefetch.ts:5 | every prefetched chart type is accepted by the chart service |
| Prefetch.Start | src/utils/prefetch.ts:36-56 | disabled or already running, nothing happens. Otherwise the prefetcher runs, prefetches every chart type at once, and appends one timer per type with the configured period |
| Prefetch.StartKeepsValid | src/utils/prefetch.ts:36-51 | starting keeps the invariant: one timer per chart type while running, with fresh distinct handles |
| Prefetch.StartSchedulesEachTypeOnce | src/utils/prefetch.ts:39-51 | a start prefetches each of the five types once and then sets exactly one interval per type |
| Prefetch.StartTwice | src/utils/prefetch.ts:37 | a second start without a stop does nothing, so there are never more than five timers |
| Prefetch.Stop | src/utils/prefetch.ts:61-69 | stopped, nothing happens; running, every timer is cancelled, the list is emptied and the prefetcher stops |
| Prefetch.StopKeepsValid | src/utils/prefetch.ts:61-66 | stopping keeps the invariant |
| Prefetch.StopCancelsItsTimers | src/utils/prefetch.ts:61-66 | a stop cancels exactly the timers it held, in order, and a second stop does nothing |
| Prefetch.RestartUsesFreshHandles | src/utils/prefetch.ts:46-50 | after a stop, a start never reuses a cancelled handle |
| Prefetch.UpdateConfig | src/utils/prefetch.ts:111-123 | the new configuration is the old one overridden by the argument |
| Prefetch.UpdateConfigRunning | src/utils/prefetch.ts:111-123 | afterwards the prefetcher is active iff it was running and the merged configuration is enabled; a stopped prefetcher is never started and issues nothing |
| Prefetch.UpdateConfigKeepsValid | src/utils/prefetch.ts:111-123 | the update keeps the invariant, and a running prefetcher cancels all its old timers before anything else |
| Prefetch.DisableStops | src/utils/prefetch.ts:114-121 | disabling a running prefetcher cancels every timer and leaves it stopped |
| Prefetch.PrefetchChart | src/utils/prefetch.ts:74-90 | the first callback is onSuccess iff the call settled ok and onSuccess is present, and onError iff it settled with an error or threw and onError is present, with that error's message. At most two callbacks run, always with the chart type. A second one runs iff the first ran inside the `try`, threw, and onError is present: it is onError with the thrown message. An error escapes iff the last callback run is onError and it throws |
| Prefetch.ExactlyOneCallback | src/utils/prefetch.ts:74-90 | with both callbacks present and neither throwing, every completion invokes exactly one of them and nothing escapes |
| Prefetch.ThrowingSuccessAlsoReportsError | src/utils/prefetch.ts:76-88 | an onSuccess that throws after an ok result is followed by onError with the thrown message |
| Prefetch.ThrowingErrorRunsTwice | src/utils/prefetch.ts:79-88 | an onError that throws after an error result runs a second time with the thrown message, and a second throw escapes |
| Errors.SixteenTargets | src/types/errors.ts:4-20 | the tag set has exactly sixteen distinct members, and every id is one of them |
| Errors.ParseTag | src/types/errors.ts:4-20 | a recognised spelling names the id it was read as |
| Errors.TagNamesRoundTrip | src/types/errors.ts:4-20 | reading back the spelling of an id gives that id |
| Errors.MessagesHaveCategory | src/types/errors.ts:25-43 | every message has the form `<Category>: <detail>`, and its category is the text before the first colon, which names the id |
| Errors.MessagesInjective | src/types/errors.ts:26-42 | no two ids share a message |
| Errors.CategoryIdentifiesTarget | src/types/errors.ts:26-42 | categories and details are non-empty, and each category identifies its id |
| Errors.CategoryColonFree | src/types/errors.ts:26-42 | no category holds a colon |
| Errors.CategoryOfJoined | src/types/errors.ts:26-42 | the text before the first colon of `c: d` is c, for a colon-free c |
| Errors.SampleMessages | src/types/errors.ts:27-36 | the album entry reads "Album not found: The requested album does not exist", and the private entry reads "Fan-only content: This content is only available to fans" |
| Strings.TrimIsInfix | src/services/chart.ts:52 | `trim` returns the infix of its input left between a leading and a trailing run of white space |
| Strings.TrimIdempotent | src/services/album.ts:44 | a trimmed string is its own trim |
| Strings.TrimEmptyIffAllSpace | src/services/album.ts:61 | the trim is "" iff the text is all white space |
| Strings.IndexOf | src/services/album.ts:63 | the index found is an occurrence with none before it; none is found iff there is no occurrence |
| Strings.Split | src/services/chart.ts:60 | a split has at least one piece, and at least two when the separator occurs |
| Strings.SplitWhole | src/services/chart.ts:59-60 | a split gives the single piece s iff the separator does not occur |
| Strings.JoinSplit | src/services/chart.ts:60 | joining the pieces of a split with the separator gives the original text back |
| Strings.SplitPiecesLackSeparator | src/services/chart.ts:92 | no piece of a split holds the separator |
| Strings.SplitHeadIsBefore | src/services/chart.ts:60 | the first piece of a split is the text before the first separator |
| Strings.ReplaceFirst | src/services/song.ts:39 | without an occurrence the text is unchanged; otherwise the result differs from the text only at the first occurrence, which is replaced |
| Strings.ReplaceFirstAsSplit | src/services/song.ts:39 | replacing the first occurrence equals splitting on the pattern, joining the first two pieces with the replacement and the rest with the pattern |
| Strings.ReplaceAllSkip | src/services/song.ts:99-103 | a global replace leaves a prefix in which no occurrence starts as it is and continues after it |
| Strings.ReplaceAllIsSplitJoin | src/services/song.ts:99-103 | a global replace equals splitting on the pattern and joining with the replacement |
| Strings.KeepDigits | src/services/chart.ts:64 | only digits are kept, and a digit string is unchanged |
| Strings.FilterAppend | src/services/album.ts:44 | deleting characters works character by character, keeping the order |
| Strings.CallArgument | src/services/song.ts:49-52 | the captured text holds only digits, and it is non-empty iff the link exists and the call pattern matches in it |
| Strings.CallArgumentOfCall | src/services/song.ts:49-52 | a call written as open + digits + close at the start yields exactly the digits |
| Strings.QuotedCallNeverMatchesBare | src/services/song.ts:118 | where every occurrence of the call's opening is followed by a quote, a pattern with bare digits never matches |

## Left out

- Page fetching (`src/services/scraper.ts`) is left out. This covers network access, headers, the request timeout and response parsing. Each service takes the fetcher as a parameter: a function from a path to a failed fetch, a parsed page, or a page whose traversal throws.
- The selector engine and HTML parsing are left out. Each extractor receives the strings its selectors return, in document order. Selector semantics, including `:not(.rank02)` and the removal of child nodes for the album title, are trusted.
- `getOrFetchResult` is left out because it is called but not defined in `src/utils/cache.ts`. The newer services hand it their key and the result their fetch would produce, as a parameter. Whether it caches error results is not stated.
- Single-flight de-duplication of concurrent fetches, and an upstream error-page detector with a generic "invalid request" fallback, are left out. Neither exists in the code. The error table is modelled, and nothing looks it up.
- Real time, `setInterval` and `clearInterval` are left out. `now` is a parameter, timers are handles from a counter, and the scheduler's actions are returned as a list of effects. Interleavings of timer callbacks with other calls are not modelled.
- Concurrency and `async` ordering are left out. Every operation is one atomic step, and the cache's pre-fetch timestamp is the `now` parameter.
- `prefetchAllCharts` and `Promise.allSettled` are reduced to one immediate prefetch effect per chart type inside `Prefetch.Start`. What each prefetch then does is `Prefetch.PrefetchChart`.
- Prefetch.Merge: the `enabled` and `intervalMs` properties cannot be passed as an explicit `undefined`. In JavaScript that would override the current value with `undefined`.
- Prefetch.PrefetchChart: a callback is modelled by whether it is present, which invocations it receives, and whether each invocation returns or throws. Its other effects are left out. A thrown value is modelled by its message, so the conversion of a non-`Error` value with `String(error)` is not modelled.
- Cache.Invalidate: the store is a plain object, so a key that names an `Object.prototype` member (such as `toString`) is found by `cache[key]` without an entry. `invalidate` then returns true, on every call. Such keys are not modelled. The services' keys always carry a `chart_`, `song_` or `album_` prefix.
- Cache.InvalidateIdempotent: for a key that names an `Object.prototype` member, the source returns true on every call. As for Cache.Invalidate, such keys are not modelled.
- Chart.NumberOr0: `Number(text) || 0` is modelled only for digit strings. Signs, decimal points, exponents, hexadecimal and `Infinity` give 0 in the model, though JavaScript would parse some of them. Digit strings are read exactly, as unbounded integers. JavaScript returns the nearest double instead. It rounds values above 2^53, so `9007199254740993` gives 9007199254740992. A digit string above about 1.8e308 gives `Infinity`, which `|| 0` keeps.
- Every `console.log` and `console.error` call is left out.
- Error objects are modelled by their message. Because of that, the `instanceof Error` fallbacks "Failed to parse chart data", "Failed to parse song data", "Failed to parse album data", "Failed to fetch <type> chart" and "Cache service failed" are not modelled.
- Album.FetchAlbum: the album's row loop is modelled in two phases. All rows are read first, then the tracks are built. A row that throws discards every track either way, so the result is the same as reading row by row.
- Strings.IsSpace: the white-space set of JavaScript's `trim` is written out for the Basic Multilingual Plane. Characters outside it are not white space in either.
- The HTTP routes, the analytics middleware, process start-up and the `^\d+$` checks on ids are left out. The ids are taken as given.
