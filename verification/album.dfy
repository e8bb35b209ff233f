/**
 * The album page extractor: the album's type, title, artists, metadata list,
 * cover image, introduction and track listing. Unlike the chart, a track row
 * that throws is not skipped: the exception leaves the traversal and the whole
 * album becomes an error.
 */
module Album {
  import opened Wrappers
  import opened Strings
  import opened Markup
  import opened Document
  import opened Artists

  /** The call a track's detail link makes: `goSongDetail('<digits>')`. */
  const SONG_CALL: string := "goSongDetail('"

  /** The metadata labels: 발매일 (release date), 장르 (genre), 발매사 (publisher), 기획사 (agency). */
  const RELEASE_DATE_LABEL: string := "\U{BC1C}\U{B9E4}\U{C77C}"
  const GENRE_LABEL: string := "\U{C7A5}\U{B974}"
  const PUBLISHER_LABEL: string := "\U{BC1C}\U{B9E4}\U{C0AC}"
  const AGENCY_LABEL: string := "\U{AE30}\U{D68D}\U{C0AC}"

  /** What separates the album title from the artist in the `og:title` meta tag. */
  const TITLE_SEPARATOR: string := " - "

  /**
   * One row of the track table, as selected: the checkbox value, the `href` of
   * the first `goSongDetail` link, whether a title-track bullet is present, the
   * title anchor's text (if there is a title anchor), the title span's text with
   * its bullets removed, and the artist anchors.
   */
  datatype SongRow = SongRow(
    checkboxValue: Option<string>,
    songLinkHref: Option<string>,
    isTitle: bool,
    titleAnchorText: Option<string>,
    spanText: string,
    artistLinks: seq<Link>)

  /**
   * The album page, as selected: the `.gubun` text, the direct text of the title
   * element (children removed), the `og:title` content, the album artist anchors,
   * the metadata list as (dt text, text of the following dd) pairs, the cover
   * image's `src`, the introduction `div`s' inner HTML, and the track rows.
   */
  datatype AlbumPage = AlbumPage(
    gubunText: string,
    songNameOwnText: string,
    ogTitle: Option<string>,
    artistLinks: seq<Link>,
    metaEntries: seq<(string, string)>,
    imageSrc: Option<string>,
    introHtml: seq<Option<string>>,
    songRows: seq<Row<SongRow>>)

  datatype AlbumSong = AlbumSong(songId: string, title: string, artists: seq<Artist>, isTitle: bool)

  /** The four metadata fields the list can set. */
  datatype Meta = Meta(releaseDate: string, genre: string, publisher: string, agency: string)

  datatype AlbumData = AlbumData(
    albumId: string,
    albumType: string,
    title: string,
    artists: seq<Artist>,
    releaseDate: string,
    genre: string,
    publisher: string,
    agency: string,
    imageUrl: string,
    songs: seq<AlbumSong>,
    introduction: string)

  // ---------------------------------------------------------------------------
  // type and title

  predicate NotBracket(c: char) {
    c != '[' && c != ']'
  }

  predicate NoBrackets(s: string) {
    forall k :: 0 <= k < |s| ==> NotBracket(s[k])
  }

  /** Trimming only removes characters, so it keeps a string free of brackets. */
  lemma TrimKeepsNoBrackets(s: string)
    requires NoBrackets(s)
    ensures NoBrackets(Trim(s))
  {
    var t := TrimStart(s);
    assert t == s[|s| - |t|..];
    assert NoBrackets(t);
    var r := TrimEnd(t);
    assert r == t[..|r|];
    assert NoBrackets(r);
  }

  /** The `.gubun` text trimmed, every `[` and `]` removed, and trimmed again. */
  function AlbumType(gubun: string): (r: string)
    ensures NoBrackets(r)
    ensures |r| > 0 ==> !IsSpace(r[0]) && !IsSpace(r[|r| - 1])
  {
    var f := Filter(Trim(gubun), NotBracket);
    assert NoBrackets(f);
    TrimKeepsNoBrackets(f);
    Trim(f)
  }

  /**
   * The album title: the trimmed direct text of the title element; when that is
   * empty, the `og:title` content (or ""), cut at its first `" - "` and trimmed
   * when it has one, and taken as is otherwise.
   */
  function Title(ownText: string, ogTitle: Option<string>): (r: string)
    ensures Trim(ownText) != "" ==> r == Trim(ownText)
    ensures Trim(ownText) == "" && ogTitle.None? ==> r == ""
  {
    var own := Trim(ownText);
    if own != "" then own
    else
      var og := ogTitle.GetOr("");
      if og != "" && Contains(og, TITLE_SEPARATOR) then Trim(Split(og, TITLE_SEPARATOR)[0]) else og
  }

  // ---------------------------------------------------------------------------
  // the metadata list

  /** The four labels are pairwise different. */
  lemma LabelsDistinct()
    ensures RELEASE_DATE_LABEL != GENRE_LABEL && RELEASE_DATE_LABEL != PUBLISHER_LABEL && RELEASE_DATE_LABEL != AGENCY_LABEL
    ensures GENRE_LABEL != PUBLISHER_LABEL && GENRE_LABEL != AGENCY_LABEL && PUBLISHER_LABEL != AGENCY_LABEL
  {
    assert |RELEASE_DATE_LABEL| == 3 && |GENRE_LABEL| == 2 && |PUBLISHER_LABEL| == 3 && |AGENCY_LABEL| == 3;
    assert RELEASE_DATE_LABEL[2] != PUBLISHER_LABEL[2];
    assert RELEASE_DATE_LABEL[0] != AGENCY_LABEL[0];
    assert PUBLISHER_LABEL[0] != AGENCY_LABEL[0];
  }

  predicate IsMetaLabel(tag: string) {
    tag == RELEASE_DATE_LABEL || tag == GENRE_LABEL || tag == PUBLISHER_LABEL || tag == AGENCY_LABEL
  }

  /** The field a metadata label sets. */
  function Field(m: Meta, tag: string): string
    requires IsMetaLabel(tag)
  {
    if tag == RELEASE_DATE_LABEL then m.releaseDate
    else if tag == GENRE_LABEL then m.genre
    else if tag == PUBLISHER_LABEL then m.publisher
    else m.agency
  }

  /** The list as the loop reads it: each `dt` text and the text of the `dd` after it, both trimmed. */
  function TrimEntries(entries: seq<(string, string)>): (r: seq<(string, string)>)
    ensures |r| == |entries|
    ensures forall k :: 0 <= k < |r| ==> r[k] == (Trim(entries[k].0), Trim(entries[k].1))
  {
    seq(|entries|, k requires 0 <= k < |entries| => (Trim(entries[k].0), Trim(entries[k].1)))
  }

  /** One step of the `dt` loop on a trimmed entry: a known label sets its field; any other label is ignored. */
  function ApplyEntry(m: Meta, entry: (string, string)): Meta {
    var (tag, value) := entry;
    if tag == RELEASE_DATE_LABEL then m.(releaseDate := value)
    else if tag == GENRE_LABEL then m.(genre := value)
    else if tag == PUBLISHER_LABEL then m.(publisher := value)
    else if tag == AGENCY_LABEL then m.(agency := value)
    else m
  }

  /** The `dt` loop over trimmed entries, in document order, starting from `m`. */
  function ReadMeta(m: Meta, entries: seq<(string, string)>): Meta
    decreases |entries|
  {
    if |entries| == 0 then m else ReadMeta(ApplyEntry(m, entries[0]), entries[1..])
  }

  /** The position of the last entry labelled `tag`, if there is one. */
  function LastIndex(entries: seq<(string, string)>, tag: string): (r: Option<nat>)
    decreases |entries|
    ensures r.None? <==> forall k :: 0 <= k < |entries| ==> entries[k].0 != tag
    ensures r.Some? ==> r.value < |entries| && entries[r.value].0 == tag
    ensures r.Some? ==> forall k :: r.value < k < |entries| ==> entries[k].0 != tag
  {
    if |entries| == 0 then None
    else
      var prev := entries[..|entries| - 1];
      assert forall k :: 0 <= k < |prev| ==> prev[k] == entries[k];
      if entries[|entries| - 1].0 == tag then Some(|entries| - 1) else LastIndex(prev, tag)
  }

  /** The value of the last entry labelled `tag`, if there is one. */
  function LastValue(entries: seq<(string, string)>, tag: string): Option<string> {
    match LastIndex(entries, tag)
    case Some(i) => Some(entries[i].1)
    case None => None
  }

  /** A step sets the field of its own label and leaves the other three alone. */
  lemma ApplyEntryField(m: Meta, e: (string, string), tag: string)
    requires IsMetaLabel(tag)
    ensures Field(ApplyEntry(m, e), tag) == if e.0 == tag then e.1 else Field(m, tag)
  {
    LabelsDistinct();
  }

  /** Looking from the end, an entry in front matters only when no later entry has the label. */
  lemma {:induction false} LastIndexCons(e: (string, string), rest: seq<(string, string)>, tag: string)
    ensures LastIndex([e] + rest, tag) ==
      if LastIndex(rest, tag).Some? then Some(LastIndex(rest, tag).value + 1)
      else if e.0 == tag then Some(0) else None
    decreases |rest|
  {
    var s := [e] + rest;
    if |rest| > 0 {
      assert s[|s| - 1] == rest[|rest| - 1];
      assert s[..|s| - 1] == [e] + rest[..|rest| - 1];
      LastIndexCons(e, rest[..|rest| - 1], tag);
    } else {
      assert s[..|s| - 1] == [];
    }
  }

  /** The same, for the value: a later entry with the label hides every earlier one. */
  lemma LastValueCons(e: (string, string), rest: seq<(string, string)>, tag: string)
    ensures LastValue([e] + rest, tag) ==
      if LastValue(rest, tag).Some? then LastValue(rest, tag)
      else if e.0 == tag then Some(e.1) else None
  {
    LastIndexCons(e, rest, tag);
    if LastIndex(rest, tag).Some? {
      var i := LastIndex(rest, tag).value;
      assert ([e] + rest)[i + 1] == rest[i];
    }
  }

  /** The last entry with a known label wins; a label that never occurs leaves its field as it was. */
  lemma {:induction false} LastEntryWins(m: Meta, entries: seq<(string, string)>, tag: string)
    requires IsMetaLabel(tag)
    ensures Field(ReadMeta(m, entries), tag) == LastValue(entries, tag).GetOr(Field(m, tag))
    decreases |entries|
  {
    if |entries| > 0 {
      var e := entries[0];
      var rest := entries[1..];
      assert entries == [e] + rest;
      LastEntryWins(ApplyEntry(m, e), rest, tag);
      ApplyEntryField(m, e, tag);
      LastValueCons(e, rest, tag);
    }
  }

  /** The metadata of a page: every field starts as "". */
  function ExtractMeta(entries: seq<(string, string)>): Meta {
    ReadMeta(Meta("", "", "", ""), TrimEntries(entries))
  }

  // ---------------------------------------------------------------------------
  // the track listing

  /**
   * A track's id: the checkbox value when it is non-empty, else the digits of
   * the first `goSongDetail('<digits>')` in the detail link, else "".
   */
  function SongIdOf(row: SongRow): (id: string)
    ensures row.checkboxValue.GetOr("") == "" ==> AllDigits(id)
    ensures row.checkboxValue.GetOr("") == "" && row.songLinkHref.None? ==> id == ""
  {
    var v := row.checkboxValue.GetOr("");
    if v != "" then v else CallArgument(row.songLinkHref, SONG_CALL, QUOTED_CALL_END)
  }

  /** A track's title: the title anchor's trimmed text, or the trimmed span text when there is no anchor. */
  function SongTitle(row: SongRow): string {
    match row.titleAnchorText
    case Some(t) => Trim(t)
    case None => Trim(row.spanText)
  }

  /** The track of a row, or nothing when no id was found. */
  function SongOf(row: SongRow): (s: Option<AlbumSong>)
    ensures s.None? <==> SongIdOf(row) == ""
    ensures s.Some? ==> s.value.songId == SongIdOf(row) && DistinctNames(s.value.artists)
  {
    var id := SongIdOf(row);
    if id == "" then None
    else Some(AlbumSong(id, SongTitle(row), CollectArtists(row.artistLinks), row.isTitle))
  }

  /** The defined results of `f` over `xs`, in order. */
  function FilterMap<A, B>(xs: seq<A>, f: A -> Option<B>): (r: seq<B>)
    decreases |xs|
    ensures |r| <= |xs|
  {
    if |xs| == 0 then []
    else (match f(xs[0]) case Some(y) => [y] case None => []) + FilterMap(xs[1..], f)
  }

  /** Filter-mapping distributes over concatenation. */
  lemma {:induction false} FilterMapAppend<A, B>(a: seq<A>, b: seq<A>, f: A -> Option<B>)
    ensures FilterMap(a + b, f) == FilterMap(a, f) + FilterMap(b, f)
    decreases |a|
  {
    if |a| == 0 {
      assert a + b == b;
    } else {
      assert (a + b)[0] == a[0];
      assert (a + b)[1..] == a[1..] + b;
      FilterMapAppend(a[1..], b, f);
    }
  }

  /** The tracks of rows that did not throw: a row without an id is skipped, the others kept in order. */
  function SongsOf(fs: seq<SongRow>): (r: seq<AlbumSong>)
    ensures |r| <= |fs|
  {
    FilterMap(fs, SongOf)
  }

  /** Every track built has an id. */
  lemma {:induction false} SongsHaveIds(fs: seq<SongRow>)
    ensures forall k :: 0 <= k < |SongsOf(fs)| ==> SongsOf(fs)[k].songId != ""
    decreases |fs|
  {
    if |fs| > 0 {
      SongsHaveIds(fs[1..]);
      var head := match SongOf(fs[0]) case Some(y) => [y] case None => [];
      assert SongsOf(fs) == head + SongsOf(fs[1..]);
    }
  }

  /** The rows' fields in order, or the message of the first row that throws. */
  function RowFields(rows: seq<Row<SongRow>>): (r: Result<seq<SongRow>, string>)
    decreases |rows|
    ensures r.Err? <==> exists i :: 0 <= i < |rows| && rows[i].Throws?
    ensures r.Ok? ==> |r.value| == |rows| && forall k :: 0 <= k < |rows| ==> rows[k] == Row(r.value[k])
  {
    if |rows| == 0 then Ok([])
    else
      assert forall i :: 0 < i < |rows| ==> rows[i] == rows[1..][i - 1];
      match rows[0]
      case Throws(m) => Err(m)
      case Row(f) =>
        match RowFields(rows[1..])
        case Err(e) => Err(e)
        case Ok(fs) => Ok([f] + fs)
  }

  /**
   * The row loop: the first row that throws aborts it with its message;
   * otherwise rows without an id are skipped and the others become tracks in
   * order. Collecting the fields before building the tracks gives the same
   * outcome as the interleaved loop, since a throw discards every track built.
   */
  function ExtractSongs(rows: seq<Row<SongRow>>): (r: Result<seq<AlbumSong>, string>)
    ensures r.Err? <==> exists i :: 0 <= i < |rows| && rows[i].Throws?
    ensures r.Ok? ==> |r.value| <= |rows|
    ensures r.Ok? ==> forall k :: 0 <= k < |r.value| ==> r.value[k].songId != ""
  {
    match RowFields(rows)
    case Err(e) => Err(e)
    case Ok(fs) => SongsHaveIds(fs); Ok(SongsOf(fs))
  }

  // ---------------------------------------------------------------------------
  // the service

  /**
   * The album of a page, or the message of the first track row that throws.
   * The album id is the one requested, not one read from the page.
   */
  function ExtractAlbum(albumId: string, page: AlbumPage): (r: Result<AlbumData, string>)
    ensures r.Err? <==> exists i :: 0 <= i < |page.songRows| && page.songRows[i].Throws?
    ensures r.Ok? ==> r.value.albumId == albumId
    ensures r.Ok? ==> DistinctNames(r.value.artists)
    ensures r.Ok? ==> NoBrackets(r.value.albumType)
    ensures r.Ok? ==> page.imageSrc.None? ==> r.value.imageUrl == ""
  {
    var songs :- ExtractSongs(page.songRows);
    var meta := ExtractMeta(page.metaEntries);
    Ok(AlbumData(
      albumId,
      AlbumType(page.gubunText),
      Title(page.songNameOwnText, page.ogTitle),
      CollectArtists(page.artistLinks),
      meta.releaseDate,
      meta.genre,
      meta.publisher,
      meta.agency,
      page.imageSrc.GetOr(""),
      songs,
      LongText(page.introHtml)))
  }

  function AlbumPath(albumId: string): string {
    "/album/detail.htm?albumId=" + albumId
  }

  /** What the fetch handed to the cache produces: the page's album, or the fetch, traversal or row error. */
  function FetchAlbum(albumId: string, fetch: Fetcher<AlbumPage>): (r: Result<AlbumData, string>)
    ensures fetch(AlbumPath(albumId)).Err? ==> r == Err(fetch(AlbumPath(albumId)).error)
    ensures fetch(AlbumPath(albumId)).Ok? && fetch(AlbumPath(albumId)).value.Broken? ==>
      r == Err(fetch(AlbumPath(albumId)).value.message)
    ensures fetch(AlbumPath(albumId)).Ok? && fetch(AlbumPath(albumId)).value.Parsed? ==>
      r == ExtractAlbum(albumId, fetch(AlbumPath(albumId)).value.content)
  {
    match fetch(AlbumPath(albumId))
    case Err(e) => Err(e)
    case Ok(Broken(m)) => Err(m)
    case Ok(Parsed(page)) => ExtractAlbum(albumId, page)
  }

  /** `getAlbumData(albumId)`: the fetch is handed to the result cache under the key `album_<albumId>`. */
  function GetAlbumData(albumId: string, fetch: Fetcher<AlbumPage>, cached: CachedFetch<AlbumData>): (r: Result<AlbumData, string>)
    ensures (forall k, v :: cached(k, v) == v) ==> r == FetchAlbum(albumId, fetch)
  {
    cached(CacheKey(AlbumEntry, albumId), FetchAlbum(albumId, fetch))
  }

  /**
   * The result is what the cache yields for the key `album_<albumId>` and this
   * album's fetch: two caches that agree there give the same result.
   */
  lemma AlbumCachedUnderKey(albumId: string, fetch: Fetcher<AlbumPage>, c1: CachedFetch<AlbumData>, c2: CachedFetch<AlbumData>)
    requires c1(CacheKey(AlbumEntry, albumId), FetchAlbum(albumId, fetch)) == c2(CacheKey(AlbumEntry, albumId), FetchAlbum(albumId, fetch))
    ensures GetAlbumData(albumId, fetch, c1) == GetAlbumData(albumId, fetch, c2)
  {
  }

  /**
   * The only page consulted is the album's detail page: two fetchers that agree
   * on it give the same result, whatever the cache does.
   */
  lemma AlbumReadsDetailPage(albumId: string, f1: Fetcher<AlbumPage>, f2: Fetcher<AlbumPage>, cached: CachedFetch<AlbumData>)
    ensures f1(AlbumPath(albumId)) == f2(AlbumPath(albumId)) ==> GetAlbumData(albumId, f1, cached) == GetAlbumData(albumId, f2, cached)
  {
  }

  // ---------------------------------------------------------------------------
  // properties

  /** Cleaning the type twice changes nothing more. */
  lemma AlbumTypeIdempotent(gubun: string)
    ensures AlbumType(AlbumType(gubun)) == AlbumType(gubun)
  {
    var r := AlbumType(gubun);
    TrimIdempotent(Filter(Trim(gubun), NotBracket));
    assert Trim(r) == r;
    assert Filter(r, NotBracket) == r;
  }

  /** A string that neither starts nor ends with white space is its own trim. */
  lemma TrimmedIsFixed(s: string)
    requires |s| > 0 && !IsSpace(s[0]) && !IsSpace(s[|s| - 1])
    ensures Trim(s) == s
  {
    assert TrimStart(s) == s;
    assert TrimEnd(s) == s;
  }

  /** Filtering out brackets undoes adding a pair of them around a bracket-free string. */
  lemma FilterBracketed(t: string)
    requires NoBrackets(t)
    ensures Filter("[" + t + "]", NotBracket) == t
  {
    FilterAppend("[" + t, "]", NotBracket);
    FilterAppend("[", t, NotBracket);
    assert Filter("]", NotBracket) == "" by {
      assert "]"[1..] == "";
    }
    assert Filter("[", NotBracket) == "" by {
      assert "["[1..] == "";
    }
    assert Filter(t, NotBracket) == t;
  }

  /** A bracketed type such as `[정규]` loses its brackets and surrounding spaces. */
  lemma BracketedType(t: string)
    requires NoBrackets(t)
    ensures AlbumType("[" + t + "]") == Trim(t)
  {
    var g := "[" + t + "]";
    assert g[0] == '[' && g[|g| - 1] == ']';
    TrimmedIsFixed(g);
    FilterBracketed(t);
  }

  /** With no direct text, a meta title holding `" - "` is cut at its first occurrence and trimmed. */
  lemma OgTitleCut(ownText: string, og: string, i: nat)
    requires Trim(ownText) == "" && IndexOf(og, TITLE_SEPARATOR) == Some(i)
    ensures Title(ownText, Some(og)) == Trim(og[..i])
  {
    SplitHead(og, TITLE_SEPARATOR);
  }

  /** With no direct text, a meta title without `" - "` is taken untrimmed. */
  lemma OgTitleUncut(ownText: string, og: string)
    requires Trim(ownText) == "" && !Contains(og, TITLE_SEPARATOR)
    ensures Title(ownText, Some(og)) == og
  {
  }

  /** Each metadata field holds the trimmed value of the last entry with its label, or "" when none has it. */
  lemma MetaFields(entries: seq<(string, string)>)
    ensures ExtractMeta(entries).releaseDate == LastValue(TrimEntries(entries), RELEASE_DATE_LABEL).GetOr("")
    ensures ExtractMeta(entries).genre == LastValue(TrimEntries(entries), GENRE_LABEL).GetOr("")
    ensures ExtractMeta(entries).publisher == LastValue(TrimEntries(entries), PUBLISHER_LABEL).GetOr("")
    ensures ExtractMeta(entries).agency == LastValue(TrimEntries(entries), AGENCY_LABEL).GetOr("")
  {
    var m0 := Meta("", "", "", "");
    var t := TrimEntries(entries);
    LastEntryWins(m0, t, RELEASE_DATE_LABEL);
    LastEntryWins(m0, t, GENRE_LABEL);
    LastEntryWins(m0, t, PUBLISHER_LABEL);
    LastEntryWins(m0, t, AGENCY_LABEL);
  }

  /** The release-date label is already trimmed. */
  lemma ReleaseLabelTrimmed()
    ensures Trim(RELEASE_DATE_LABEL) == RELEASE_DATE_LABEL
  {
    TrimmedIsFixed(RELEASE_DATE_LABEL);
  }

  /** Of two entries with the same label, the second is the last. */
  lemma LastOfTwo(x: (string, string), y: (string, string), tag: string)
    requires x.0 == tag && y.0 == tag
    ensures LastValue([x, y], tag) == Some(y.1)
  {
    assert [x, y][1] == y;
  }

  /** A repeated label keeps the later value. */
  lemma RepeatedLabelLastWins(d1: string, d2: string)
    ensures ExtractMeta([(RELEASE_DATE_LABEL, d1), (RELEASE_DATE_LABEL, d2)]).releaseDate == Trim(d2)
  {
    var entries := [(RELEASE_DATE_LABEL, d1), (RELEASE_DATE_LABEL, d2)];
    var t := TrimEntries(entries);
    ReleaseLabelTrimmed();
    assert t == [(RELEASE_DATE_LABEL, Trim(d1)), (RELEASE_DATE_LABEL, Trim(d2))];
    LastOfTwo(t[0], t[1], RELEASE_DATE_LABEL);
    LastEntryWins(Meta("", "", "", ""), t, RELEASE_DATE_LABEL);
  }

  /** A non-empty checkbox value is the id, whatever the link says. */
  lemma CheckboxWins(row: SongRow, v: string)
    requires row.checkboxValue == Some(v) && v != ""
    ensures SongIdOf(row) == v
  {
  }

  /** Without a checkbox value, the id is read from a `goSongDetail('<digits>')` link. */
  lemma IdFromSongLink(row: SongRow, d: string, rest: string)
    requires row.checkboxValue.GetOr("") == ""
    requires |d| > 0 && AllDigits(d)
    requires row.songLinkHref == Some(SONG_CALL + d + QUOTED_CALL_END + rest)
    ensures SongIdOf(row) == d
  {
    CallArgumentOfCall(SONG_CALL, d, QUOTED_CALL_END, rest);
  }

  /** Building tracks is per row: the tracks of `a + b` are those of `a` followed by those of `b`. */
  lemma SongsOfAppend(a: seq<SongRow>, b: seq<SongRow>)
    ensures SongsOf(a + b) == SongsOf(a) + SongsOf(b)
  {
    FilterMapAppend(a, b, SongOf);
  }

  /** Reading rows composes over concatenation, an error in `a` winning over one in `b`. */
  lemma {:induction false} RowFieldsAppend(a: seq<Row<SongRow>>, b: seq<Row<SongRow>>)
    ensures RowFields(a + b) ==
      match RowFields(a)
      case Err(e) => Err(e)
      case Ok(x) => (match RowFields(b) case Err(e) => Err(e) case Ok(y) => Ok(x + y))
    decreases |a|
  {
    if |a| == 0 {
      assert a + b == b;
      if RowFields(b).Ok? {
        assert [] + RowFields(b).value == RowFields(b).value;
      }
    } else {
      assert (a + b)[0] == a[0];
      assert (a + b)[1..] == a[1..] + b;
      RowFieldsAppend(a[1..], b);
      match a[0]
      case Throws(m) =>
        assert RowFields(a + b) == Err(m);
      case Row(f) =>
        var ra := RowFields(a[1..]);
        var rb := RowFields(b);
        if ra.Ok? && rb.Ok? {
          assert RowFields(a + b) == Ok([f] + (ra.value + rb.value));
          assert [f] + (ra.value + rb.value) == ([f] + ra.value) + rb.value;
        }
    }
  }

  /**
   * Track extraction composes over concatenation: the rows of `a + b` give the
   * tracks of `a` followed by those of `b`, and an error in `a` wins over one in `b`.
   */
  lemma ExtractSongsAppend(a: seq<Row<SongRow>>, b: seq<Row<SongRow>>)
    ensures ExtractSongs(a + b) ==
      match ExtractSongs(a)
      case Err(e) => Err(e)
      case Ok(x) => (match ExtractSongs(b) case Err(e) => Err(e) case Ok(y) => Ok(x + y))
  {
    RowFieldsAppend(a, b);
    if RowFields(a).Ok? && RowFields(b).Ok? {
      SongsOfAppend(RowFields(a).value, RowFields(b).value);
    }
  }

  /** The first row that throws decides the error, whatever follows it. */
  lemma FirstThrowAborts(a: seq<Row<SongRow>>, m: string, b: seq<Row<SongRow>>)
    requires forall i :: 0 <= i < |a| ==> a[i].Row?
    ensures ExtractSongs(a + [Throws(m)] + b) == Err(m)
  {
    assert a + [Throws(m)] + b == a + ([Throws(m)] + b);
    RowFieldsAppend(a, [Throws(m)] + b);
  }

  /** A row without an id adds no track; a row with one adds exactly its track. */
  lemma SingleRow(f: SongRow)
    ensures SongIdOf(f) == "" ==> ExtractSongs([Row(f)]) == Ok([])
    ensures SongIdOf(f) != "" ==>
      ExtractSongs([Row(f)]) == Ok([AlbumSong(SongIdOf(f), SongTitle(f), CollectArtists(f.artistLinks), f.isTitle)])
  {
    assert [Row(f)][1..] == [];
    assert [f] + [] == [f];
    assert RowFields([Row(f)]) == Ok([f]);
    assert [f][1..] == [];
    var h := match SongOf(f) case Some(s) => [s] case None => [];
    assert SongsOf([f]) == h + FilterMap([], SongOf);
    assert h + [] == h;
  }

  /** The album's metadata, cover and introduction, when no row throws. */
  lemma AlbumFields(albumId: string, page: AlbumPage)
    requires forall i :: 0 <= i < |page.songRows| ==> page.songRows[i].Row?
    ensures ExtractAlbum(albumId, page).Ok?
    ensures var d := ExtractAlbum(albumId, page).value;
      d.releaseDate == LastValue(TrimEntries(page.metaEntries), RELEASE_DATE_LABEL).GetOr("") &&
      d.genre == LastValue(TrimEntries(page.metaEntries), GENRE_LABEL).GetOr("") &&
      d.publisher == LastValue(TrimEntries(page.metaEntries), PUBLISHER_LABEL).GetOr("") &&
      d.agency == LastValue(TrimEntries(page.metaEntries), AGENCY_LABEL).GetOr("") &&
      d.songs == ExtractSongs(page.songRows).value
  {
    MetaFields(page.metaEntries);
  }

  /** Rows are not skipped on error here: one throwing row turns the whole album into that row's error. */
  lemma ThrowingRowFailsAlbum(albumId: string, page: AlbumPage, a: seq<Row<SongRow>>, m: string, b: seq<Row<SongRow>>)
    requires forall i :: 0 <= i < |a| ==> a[i].Row?
    requires page.songRows == a + [Throws(m)] + b
    ensures ExtractAlbum(albumId, page) == Err(m)
  {
    FirstThrowAborts(a, m, b);
  }
}
