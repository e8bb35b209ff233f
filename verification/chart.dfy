/**
 * The chart service: validation of the chart type against the fixed table of
 * five charts, the per-row extraction of a track from a chart table row, and
 * the cached entry point that hands the fetch to the result cache.
 */
module Chart {
  import opened Wrappers
  import opened Strings
  import opened Document

  /** The chart table, in declaration order: chart type and the path of its page. */
  const CHART_TYPES: seq<(string, string)> := [
    ("top100", "/chart"),
    ("hot100", "/chart/hot100"),
    ("day", "/chart/day"),
    ("week", "/chart/week"),
    ("month", "/chart/month")
  ]

  /** The chart type used when none is given. */
  const DEFAULT_CHART_TYPE: string := "top100"

  const UNKNOWN_TITLE: string := "Unknown Title"
  const UNKNOWN_ALBUM: string := "Unknown Album"

  const PLAY_SONG: string := "playSong"
  const GO_ALBUM_DETAIL: string := "goAlbumDetail"

  datatype Direction = Up | Down | Static

  datatype RankChange = RankChange(direction: Direction, value: int)

  /** A chart entry; `rankChange` is built by the service although the declared track type omits it. */
  datatype Track = Track(
    rank: string,
    songId: Option<string>,
    title: string,
    artists: seq<string>,
    album: string,
    albumId: Option<string>,
    imageUrl: string,
    rankChange: Option<RankChange>)

  /**
   * What the selectors pick out of one `tbody > tr`. An anchor or image that is
   * present but lacks the attribute is given the attribute value "" (the
   * `attr(...) || ""` of the service); the three `has…` flags say whether the
   * rank-change markers are present, and `upText`/`downText` are the texts of
   * the `span.up`/`span.down` elements.
   */
  datatype ChartRow = ChartRow(
    rankText: string,
    playSongHref: Option<string>,
    titleText: Option<string>,
    artistTexts: seq<string>,
    albumAnchor: Option<Link>,
    imgSrc: Option<string>,
    hasUp: bool,
    hasDown: bool,
    hasStatic: bool,
    upText: string,
    downText: string)

  // ---------------------------------------------------------------------------
  // the chart table

  /** The path of the first table entry for `t`, if any. */
  function LookupPath(table: seq<(string, string)>, t: string): (r: Option<string>)
    ensures r.Some? <==> exists i :: 0 <= i < |table| && table[i].0 == t
    ensures r.Some? ==> exists i :: 0 <= i < |table| && table[i] == (t, r.value)
  {
    if |table| == 0 then None
    else if table[0].0 == t then Some(table[0].1)
    else
      var r := LookupPath(table[1..], t);
      assert forall i :: 0 < i < |table| ==> table[i] == table[1..][i - 1];
      r
  }

  /** `Object.keys(CHART_TYPES)`: the chart types in declaration order. */
  function ChartKeys(): (ks: seq<string>)
    ensures |ks| == |CHART_TYPES|
    ensures forall i :: 0 <= i < |ks| ==> ks[i] == CHART_TYPES[i].0
  {
    seq(|CHART_TYPES|, i requires 0 <= i < |CHART_TYPES| => CHART_TYPES[i].0)
  }

  predicate IsChartType(t: string) {
    t in ChartKeys()
  }

  /** The chart types as the error messages list them. */
  function KeyList(): string {
    Join(ChartKeys(), ", ")
  }

  /** The error of `getChart` for a type outside the table. */
  function InvalidTypeMessage(): string {
    "Invalid chart type. Choose from: " + KeyList()
  }

  /** The error of `getMelonChart` for a type outside the table; it quotes the rejected type. */
  function InvalidQuotedTypeMessage(t: string): string {
    "Invalid chart type '" + t + "'. Choose from: " + KeyList()
  }

  /** The table holds exactly the five charts, in this order. */
  lemma ChartKeysAre()
    ensures ChartKeys() == ["top100", "hot100", "day", "week", "month"]
  {
    var ks := ChartKeys();
    assert ks[0] == "top100" && ks[1] == "hot100" && ks[2] == "day";
    assert ks[3] == "week" && ks[4] == "month";
  }

  /** The messages list the five charts in table order, and the default type is one of them. */
  lemma ChartKeysListed()
    ensures ChartKeys() == ["top100", "hot100", "day", "week", "month"]
    ensures KeyList() == "top100, hot100, day, week, month"
    ensures IsChartType(DEFAULT_CHART_TYPE)
  {
    ChartKeysAre();
    JoinedKeys();
  }

  /** The five chart types joined with `", "`, one step of the join at a time. */
  lemma JoinedKeys()
    ensures Join(["top100", "hot100", "day", "week", "month"], ", ") == "top100, hot100, day, week, month"
  {
    JoinedLastFour();
    var ks: seq<string> := ["top100", "hot100", "day", "week", "month"];
    assert ks[1..] == ["hot100", "day", "week", "month"];
  }

  lemma JoinedLastFour()
    ensures Join(["hot100", "day", "week", "month"], ", ") == "hot100, day, week, month"
  {
    JoinedLastThree();
    var ks: seq<string> := ["hot100", "day", "week", "month"];
    assert ks[1..] == ["day", "week", "month"];
  }

  lemma JoinedLastThree()
    ensures Join(["day", "week", "month"], ", ") == "day, week, month"
  {
    var ks: seq<string> := ["day", "week", "month"];
    assert ks[1..] == ["week", "month"];
    assert ks[1..][1..] == ["month"];
  }

  /** A type is valid exactly when the table has a path for it. */
  lemma ChartTable(t: string)
    ensures IsChartType(t) <==> LookupPath(CHART_TYPES, t).Some?
  {
    var ks := ChartKeys();
    if IsChartType(t) {
      var i :| 0 <= i < |ks| && ks[i] == t;
      assert CHART_TYPES[i].0 == t;
    }
    if LookupPath(CHART_TYPES, t).Some? {
      var i :| 0 <= i < |CHART_TYPES| && CHART_TYPES[i].0 == t;
      assert ks[i] == t;
    }
  }

  /** Each chart type has the path declared beside it. */
  lemma ChartPaths()
    ensures LookupPath(CHART_TYPES, "top100") == Some("/chart")
    ensures LookupPath(CHART_TYPES, "hot100") == Some("/chart/hot100")
    ensures LookupPath(CHART_TYPES, "day") == Some("/chart/day")
    ensures LookupPath(CHART_TYPES, "week") == Some("/chart/week")
    ensures LookupPath(CHART_TYPES, "month") == Some("/chart/month")
  {
    var t := CHART_TYPES;
    assert t[1..][1..] == t[2..];
    assert t[2..][1..] == t[3..];
    assert t[3..][1..] == t[4..];
    assert LookupPath(t[4..], "month") == Some("/chart/month");
    assert LookupPath(t[3..], "week") == Some("/chart/week");
    assert LookupPath(t[3..], "month") == Some("/chart/month");
    assert LookupPath(t[2..], "day") == Some("/chart/day");
    assert LookupPath(t[2..], "week") == Some("/chart/week");
    assert LookupPath(t[2..], "month") == Some("/chart/month");
  }

  // ---------------------------------------------------------------------------
  // one row

  /**
   * The song id of the `playSong` link: the text between the first `,` and the
   * following `'` of the first-comma piece, with every non-digit deleted;
   * `None` unless the link mentions `playSong`, has a comma, and that text is
   * non-empty.
   */
  function SongId(href: Option<string>): (r: Option<string>)
    ensures r.Some? ==> AllDigits(r.value)
    ensures href.None? ==> r.None?
  {
    match href
    case None => None
    case Some(h) =>
      if Contains(h, PLAY_SONG) && Contains(h, ",") then
        var segment := Split(Split(h, ",")[1], "'")[0];
        if segment != "" then Some(KeepDigits(segment)) else None
      else None
  }

  /** The album id: the second `'`-separated piece of a `goAlbumDetail` link, unless it is empty. */
  function AlbumId(anchor: Option<Link>): (r: Option<string>)
    ensures r.Some? ==> r.value != "" && '\'' !in r.value
    ensures anchor.None? ==> r.None?
  {
    match anchor
    case None => None
    case Some(a) =>
      var h := a.href.GetOr("");
      if Contains(h, GO_ALBUM_DETAIL) && Contains(h, "'") then
        var piece := Split(h, "'")[1];
        SplitPiecesLackSeparator(h, "'");
        assert '\'' !in piece by {
          if '\'' in piece {
            var k :| 0 <= k < |piece| && piece[k] == '\'';
            assert OccursAt(piece, "'", k) by {
              assert piece[k..k + 1] == "'";
            }
          }
        }
        if piece != "" then Some(piece) else None
      else None
  }

  /** `Number(text) || 0` for the texts this model covers: a digit string's value, and 0 otherwise. */
  function NumberOr0(text: string): (n: int)
    ensures n >= 0
    ensures !AllDigits(text) ==> n == 0
  {
    if AllDigits(text) then DigitsValue(text) else 0
  }

  /** The rank change: the up marker wins over the down marker, which wins over the static one. */
  function RankChangeOf(row: ChartRow): (r: Option<RankChange>)
    ensures r.Some? <==> row.hasUp || row.hasDown || row.hasStatic
    ensures r.Some? ==> (r.value.direction == Up <==> row.hasUp)
    ensures r.Some? ==> (r.value.direction == Down <==> !row.hasUp && row.hasDown)
    ensures r.Some? ==> (r.value.direction == Static <==> !row.hasUp && !row.hasDown)
    ensures r.Some? && r.value.direction == Up ==> r.value.value == NumberOr0(Trim(row.upText))
    ensures r.Some? && r.value.direction == Down ==> r.value.value == NumberOr0(Trim(row.downText))
    ensures r.Some? && r.value.direction == Static ==> r.value.value == 0
    ensures r.Some? ==> r.value.value >= 0
  {
    if row.hasUp then Some(RankChange(Up, NumberOr0(Trim(row.upText))))
    else if row.hasDown then Some(RankChange(Down, NumberOr0(Trim(row.downText))))
    else if row.hasStatic then Some(RankChange(Static, 0))
    else None
  }

  /** The text of an element that may be missing, trimmed, or the placeholder. */
  function TextOr(text: Option<string>, placeholder: string): string {
    match text
    case Some(t) => Trim(t)
    case None => placeholder
  }

  /** The artist anchors' texts, each trimmed, in order: one entry per anchor, duplicates and empty names included. */
  function ArtistNames(texts: seq<string>): (r: seq<string>)
    ensures |r| == |texts|
    ensures forall i :: 0 <= i < |r| ==> r[i] == Trim(texts[i])
  {
    seq(|texts|, i requires 0 <= i < |texts| => Trim(texts[i]))
  }

  /** The track built from one row. */
  function ExtractTrack(row: ChartRow): (t: Track)
    ensures t.artists == ArtistNames(row.artistTexts)
  {
    Track(
      Trim(row.rankText),
      SongId(row.playSongHref),
      TextOr(row.titleText, UNKNOWN_TITLE),
      ArtistNames(row.artistTexts),
      TextOr(if row.albumAnchor.Some? then Some(row.albumAnchor.value.text) else None, UNKNOWN_ALBUM),
      AlbumId(row.albumAnchor),
      row.imgSrc.GetOr(""),
      RankChangeOf(row))
  }

  /** The tracks of the rows in order; a row whose extraction throws contributes nothing. */
  function ExtractRows(rows: seq<Row<ChartRow>>): (ts: seq<Track>)
    ensures |ts| <= |rows|
    ensures (forall i :: 0 <= i < |rows| ==> rows[i].Row?) ==> |ts| == |rows|
  {
    if |rows| == 0 then []
    else
      var head := match rows[0] case Row(f) => [ExtractTrack(f)] case Throws(_) => [];
      head + ExtractRows(rows[1..])
  }

  // ---------------------------------------------------------------------------
  // the service

  /**
   * `getChart(chartType)`: an unknown type is rejected before anything is
   * fetched; otherwise the page at the table path followed by `/` is fetched,
   * a failed fetch or a page that throws outside the rows becomes the error, and
   * the rows become tracks.
   */
  function GetChart(chartType: Option<string>, fetch: Fetcher<seq<Row<ChartRow>>>): (r: Result<seq<Track>, string>)
    ensures !IsChartType(chartType.GetOr(DEFAULT_CHART_TYPE)) ==> r == Err(InvalidTypeMessage())
  {
    var t := chartType.GetOr(DEFAULT_CHART_TYPE);
    match LookupPath(CHART_TYPES, t)
    case None =>
      ChartTable(t);
      Err(InvalidTypeMessage())
    case Some(path) =>
      match fetch(path + "/")
      case Err(e) => Err(e)
      case Ok(Broken(m)) => Err(m)
      case Ok(Parsed(rows)) => Ok(ExtractRows(rows))
  }

  /**
   * `getMelonChart(chartType)`: an unknown type is rejected with a message that
   * quotes it; otherwise `getChart` is handed to the result cache under the key
   * `chart_<type>`.
   */
  function GetMelonChart(chartType: string, fetch: Fetcher<seq<Row<ChartRow>>>, cached: CachedFetch<seq<Track>>): (r: Result<seq<Track>, string>)
    ensures !IsChartType(chartType) ==> r == Err(InvalidQuotedTypeMessage(chartType))
    ensures IsChartType(chartType) ==> r == cached(CacheKey(ChartEntry, chartType), GetChart(Some(chartType), fetch))
  {
    if !IsChartType(chartType) then Err(InvalidQuotedTypeMessage(chartType))
    else cached(CacheKey(ChartEntry, chartType), GetChart(Some(chartType), fetch))
  }

  // ---------------------------------------------------------------------------
  // properties

  /** An unknown chart type is rejected without consulting the fetcher or the cache. */
  lemma InvalidTypeFetchesNothing(t: string, f1: Fetcher<seq<Row<ChartRow>>>, f2: Fetcher<seq<Row<ChartRow>>>,
                                  c1: CachedFetch<seq<Track>>, c2: CachedFetch<seq<Track>>)
    requires !IsChartType(t)
    ensures GetChart(Some(t), f1) == GetChart(Some(t), f2) == Err(InvalidTypeMessage())
    ensures GetMelonChart(t, f1, c1) == GetMelonChart(t, f2, c2) == Err(InvalidQuotedTypeMessage(t))
  {
  }

  /** For a valid type, the only page consulted is the table path followed by `/`. */
  lemma ValidTypeFetchesTablePath(t: string, f1: Fetcher<seq<Row<ChartRow>>>, f2: Fetcher<seq<Row<ChartRow>>>)
    requires IsChartType(t)
    ensures LookupPath(CHART_TYPES, t).Some?
    ensures f1(LookupPath(CHART_TYPES, t).value + "/") == f2(LookupPath(CHART_TYPES, t).value + "/") ==>
      GetChart(Some(t), f1) == GetChart(Some(t), f2)
  {
    ChartTable(t);
  }

  /** A type with a table path reads the page at that path followed by `/`. */
  lemma ReadsTablePath(t: string, path: string, f: Fetcher<seq<Row<ChartRow>>>, rows: seq<Row<ChartRow>>)
    requires LookupPath(CHART_TYPES, t) == Some(path)
    requires f(path + "/") == Ok(Parsed(rows))
    ensures GetChart(Some(t), f) == Ok(ExtractRows(rows))
  {
  }

  /** The daily chart is read from `/chart/day/`. */
  lemma DayChartPath(f: Fetcher<seq<Row<ChartRow>>>, rows: seq<Row<ChartRow>>)
    requires f("/chart/day/") == Ok(Parsed(rows))
    ensures GetChart(Some("day"), f) == Ok(ExtractRows(rows))
  {
    var path := "/chart/day";
    assert LookupPath(CHART_TYPES, "day") == Some(path) by { ChartPaths(); }
    assert f(path + "/") == Ok(Parsed(rows)) by { assert path + "/" == "/chart/day/"; }
    ReadsTablePath("day", path, f, rows);
  }

  /** Row extraction is per row: the tracks of `a + b` are those of `a` followed by those of `b`. */
  lemma {:induction false} ExtractRowsAppend(a: seq<Row<ChartRow>>, b: seq<Row<ChartRow>>)
    ensures ExtractRows(a + b) == ExtractRows(a) + ExtractRows(b)
    decreases |a|
  {
    if |a| == 0 {
      assert a + b == b;
    } else {
      assert (a + b)[0] == a[0];
      assert (a + b)[1..] == a[1..] + b;
      ExtractRowsAppend(a[1..], b);
    }
  }

  /** A row that throws is skipped and its neighbours are kept, in order. */
  lemma ThrowingRowSkipped(a: seq<Row<ChartRow>>, m: string, b: seq<Row<ChartRow>>)
    ensures ExtractRows(a + [Throws(m)] + b) == ExtractRows(a) + ExtractRows(b)
  {
    var ra := ExtractRows(a);
    var thrown: seq<Row<ChartRow>> := [Throws(m)];
    assert ExtractRows(thrown) == [] by {
      assert thrown[1..] == [];
    }
    ExtractRowsAppend(a, [Throws(m)]);
    assert ExtractRows(a + [Throws(m)]) == ra by {
      assert ra + [] == ra;
    }
    ExtractRowsAppend(a + [Throws(m)], b);
  }

  /** A row that does not throw yields exactly its track, in its place. */
  lemma GoodRowKept(a: seq<Row<ChartRow>>, f: ChartRow, b: seq<Row<ChartRow>>)
    ensures ExtractRows(a + [Row(f)] + b) == ExtractRows(a) + [ExtractTrack(f)] + ExtractRows(b)
  {
    ExtractRowsAppend(a + [Row(f)], b);
    ExtractRowsAppend(a, [Row(f)]);
    assert ExtractRows([Row(f)]) == [ExtractTrack(f)];
  }

  /** Missing anchors give the placeholders and no album id. */
  lemma Placeholders(row: ChartRow)
    ensures row.titleText.None? ==> ExtractTrack(row).title == UNKNOWN_TITLE
    ensures row.albumAnchor.None? ==> ExtractTrack(row).album == UNKNOWN_ALBUM && ExtractTrack(row).albumId.None?
    ensures row.playSongHref.None? ==> ExtractTrack(row).songId.None?
  {
  }

  /** Artists are neither de-duplicated nor filtered: two anchors with the same name give two entries. */
  lemma ArtistsNotDeduplicated(name: string)
    ensures ArtistNames([name, name]) == [Trim(name), Trim(name)]
    ensures ArtistNames(["", name]) == ["", Trim(name)]
  {
  }

  /** A present marker always yields a rank change, even when its text is not a number (value 0). */
  lemma UpMarkerWithoutNumber(row: ChartRow)
    requires row.hasUp && !AllDigits(Trim(row.upText))
    ensures RankChangeOf(row) == Some(RankChange(Up, 0))
  {
  }

  /** A marker whose trimmed text is a digit string carries that number. */
  lemma MarkerWithNumber(row: ChartRow)
    ensures row.hasUp && AllDigits(Trim(row.upText)) ==>
      RankChangeOf(row) == Some(RankChange(Up, DigitsValue(Trim(row.upText))))
    ensures !row.hasUp && row.hasDown && AllDigits(Trim(row.downText)) ==>
      RankChangeOf(row) == Some(RankChange(Down, DigitsValue(Trim(row.downText))))
  {
  }

  /** Marker texts read as numbers: `3` is 3, `12` is 12, and `new` is 0. */
  lemma NumberOr0Examples()
    ensures NumberOr0("3") == 3
    ensures NumberOr0("12") == 12
    ensures NumberOr0("new") == 0
  {
    assert "3"[..0] == "";
    assert "12"[..1] == "1" && "1"[..0] == "";
    assert !IsDigit("new"[0]);
  }

  /** A comma-free prefix before the first comma leaves the text after it to the song id. */
  lemma SongIdSegment(pre: string, mid: string, rest: string)
    requires ',' !in pre && ',' !in mid && '\'' !in mid
    requires rest == "" || rest[0] == ',' || rest[0] == '\''
    ensures var parts := Split(pre + "," + mid + rest, ",");
      |parts| >= 2 && Split(parts[1], "'")[0] == mid
  {
    var h := pre + "," + mid + rest;
    assert h == pre + [','] + (mid + rest);
    IndexOfAfterFree(pre, ',', mid + rest);
    SplitSecond(h, ",");
    assert h[|pre| + 1..] == mid + rest;
    SplitHeadIsBefore(mid + rest, ',');
    BeforeAppend(mid, rest, ',');
    var x := Before(rest, ',');
    SplitHeadIsBefore(mid + x, '\'');
    BeforeAppend(mid, x, '\'');
    if rest != "" && rest[0] == '\'' {
      assert x[0] == '\'';
    }
    assert Before(x, '\'') == "";
  }

  /**
   * The song id of a link `<pre>,<mid><rest>` that mentions `playSong`
   * anywhere, where `pre` holds no comma and `mid` runs to the next comma or
   * quote: the digits of `mid`, or `None` when `mid` is empty. Every link with
   * a comma has this form. A `mid` with no digits gives `Some("")`, not `None`.
   */
  lemma SongIdCharacterized(pre: string, mid: string, rest: string)
    requires Contains(pre + "," + mid + rest, PLAY_SONG)
    requires ',' !in pre && ',' !in mid && '\'' !in mid
    requires rest == "" || rest[0] == ',' || rest[0] == '\''
    ensures SongId(Some(pre + "," + mid + rest)) == if mid == "" then None else Some(KeepDigits(mid))
  {
    var h := pre + "," + mid + rest;
    assert h == pre + ("," + mid + rest);
    assert Contains(h, ",") by {
      assert OccursAt(h, ",", |pre|) by {
        assert h[|pre|..|pre| + 1] == ",";
      }
    }
    SongIdSegment(pre, mid, rest);
  }

  /** Keeping the digits of `d + ");"` gives `d`, and that text holds no comma or quote. */
  lemma DigitsBeforeCallEnd(d: string)
    requires AllDigits(d)
    ensures KeepDigits(d + ");") == d
    ensures ',' !in d + ");" && '\'' !in d + ");"
  {
    var tail := ");";
    assert KeepDigits(tail) == "" by {
      assert !IsDigit(tail[0]) && !IsDigit(tail[1]);
      assert tail[1..][1..] == "";
    }
    FilterAppend(d, tail, IsDigit);
    assert d + "" == d;
    DigitCallHasNoSeparator(d);
  }

  lemma DigitCallHasNoSeparator(d: string)
    requires AllDigits(d)
    ensures ',' !in d + ");" && '\'' !in d + ");"
  {
    var s := d + ");";
    forall k | 0 <= k < |s|
      ensures s[k] != ',' && s[k] != '\''
    {
      if k < |d| {
        assert s[k] == d[k] && IsDigit(d[k]);
      } else {
        assert s[k] == ");"[k - |d|];
      }
    }
  }

  /** The usual link `…playSong('<menu>',<digits>);` yields exactly the digits. */
  lemma SongIdOfPlaySongCall(pre: string, d: string)
    requires Contains(pre, PLAY_SONG) && ',' !in pre
    requires |d| > 0 && AllDigits(d)
    ensures SongId(Some(pre + "," + d + ");")) == Some(d)
  {
    var mid := d + ");";
    DigitsBeforeCallEnd(d);
    ContainsInPrefix(pre, "," + mid, PLAY_SONG);
    assert pre + "," + mid + "" == pre + ("," + mid);
    SongIdCharacterized(pre, mid, "");
    assert pre + "," + mid + "" == pre + "," + d + ");";
  }

  /** The second `'`-separated piece of `<pre>'<mid><rest>` is `mid` when neither holds a quote. */
  lemma AlbumIdPiece(pre: string, mid: string, rest: string)
    requires '\'' !in pre && '\'' !in mid
    requires rest == "" || rest[0] == '\''
    ensures var parts := Split(pre + "'" + mid + rest, "'");
      |parts| >= 2 && parts[1] == mid
  {
    var h := pre + "'" + mid + rest;
    assert h == pre + ['\''] + (mid + rest);
    IndexOfAfterFree(pre, '\'', mid + rest);
    SplitSecond(h, "'");
    assert h[|pre| + 1..] == mid + rest;
    SplitHeadIsBefore(mid + rest, '\'');
    BeforeAppend(mid, rest, '\'');
    assert Before(rest, '\'') == "";
  }

  /**
   * The album id of a link `<pre>'<mid>'…` or `<pre>'<mid>` that mentions
   * `goAlbumDetail` anywhere, where `pre` and `mid` hold no quote: `mid`, or
   * `None` when it is empty. Every link with a quote has this form.
   */
  lemma AlbumIdCharacterized(text: string, pre: string, mid: string, rest: string)
    requires Contains(pre + "'" + mid + rest, GO_ALBUM_DETAIL)
    requires '\'' !in pre && '\'' !in mid
    requires rest == "" || rest[0] == '\''
    ensures AlbumId(Some(Link(text, Some(pre + "'" + mid + rest)))) == if mid == "" then None else Some(mid)
  {
    var h := pre + "'" + mid + rest;
    assert h == pre + ("'" + mid + rest);
    assert Contains(h, "'") by {
      assert OccursAt(h, "'", |pre|) by {
        assert h[|pre|..|pre| + 1] == "'";
      }
    }
    AlbumIdPiece(pre, mid, rest);
  }

  /** The character right after the first occurrence of `sep` in `h`, if both exist. */
  function AfterFirst(h: string, sep: string): Option<char> {
    match IndexOf(h, sep)
    case Some(i) => if i + |sep| < |h| then Some(h[i + |sep|]) else None
    case None => None
  }

  /** The first `c`-free piece of `tail` is non-empty exactly when `tail` starts with a character other than `c`. */
  lemma BeforeNonEmpty(tail: string, c: char)
    ensures Before(tail, c) != "" <==> |tail| > 0 && tail[0] != c
  {
  }

  /**
   * For every link: a song id exists exactly when the link mentions `playSong`
   * and the character right after its first comma exists and is neither a
   * comma nor a quote. Without `playSong` or without a comma there is none.
   */
  lemma SongIdExists(h: string)
    ensures SongId(Some(h)).Some? <==>
      Contains(h, PLAY_SONG) && AfterFirst(h, ",").Some? && AfterFirst(h, ",").value != ',' && AfterFirst(h, ",").value != '\''
    ensures !Contains(h, PLAY_SONG) || !Contains(h, ",") ==> SongId(Some(h)).None?
  {
    if Contains(h, PLAY_SONG) && Contains(h, ",") {
      var i := IndexOf(h, ",").value;
      var tail := h[i + 1..];
      SplitSecond(h, ",");
      SplitHeadIsBefore(tail, ',');
      var x := Before(tail, ',');
      SplitHeadIsBefore(x, '\'');
      BeforeNonEmpty(tail, ',');
      BeforeNonEmpty(x, '\'');
      assert |x| > 0 ==> x[0] == tail[0];
    }
  }

  /**
   * For every album anchor: an album id exists exactly when the link mentions
   * `goAlbumDetail` and the character right after its first quote exists and is
   * not a quote. Without an anchor, a link, `goAlbumDetail` or a quote there is none.
   */
  lemma AlbumIdExists(text: string, href: Option<string>)
    ensures var h := href.GetOr("");
      AlbumId(Some(Link(text, href))).Some? <==>
      Contains(h, GO_ALBUM_DETAIL) && AfterFirst(h, "'").Some? && AfterFirst(h, "'").value != '\''
    ensures var h := href.GetOr("");
      !Contains(h, GO_ALBUM_DETAIL) || !Contains(h, "'") ==> AlbumId(Some(Link(text, href))).None?
    ensures AlbumId(None).None?
  {
    var h := href.GetOr("");
    if Contains(h, GO_ALBUM_DETAIL) && Contains(h, "'") {
      var i := IndexOf(h, "'").value;
      var tail := h[i + 1..];
      SplitSecond(h, "'");
      SplitHeadIsBefore(tail, '\'');
      BeforeNonEmpty(tail, '\'');
    }
  }
}
