/**
 * The song detail extractor: title, de-duplicated artists, album / release
 * date / genre read from the info list by position, the normalised lyrics, and
 * the producer credits merged by name with their roles accumulated.
 */
module Song {
  import opened Wrappers
  import opened Strings
  import opened Markup
  import opened Document
  import opened Artists

  /** The label `곡명` ("song name") that precedes the title in the page. */
  const TITLE_LABEL: string := "\U{ACE1}\U{BA85}"

  const ALBUM_CALL: string := "goAlbumDetail('"

  /** The producer links are matched without quotes around the digits. */
  const PRODUCER_CALL: string := "goArtistDetail("
  const BARE_CALL_END: string := ")"

  /** One `<dd>` of the info list: its text and its anchors, in document order. */
  datatype InfoDd = InfoDd(text: string, anchors: seq<Link>)

  /** One producer list item: the artist-name text and link, and the role text. */
  datatype ProducerItem = ProducerItem(nameText: string, nameHref: Option<string>, roleText: string)

  /** What the selectors pick out of a song page. */
  datatype SongPage = SongPage(
    songNameText: string,
    artistLinks: seq<Link>,
    infoDds: seq<InfoDd>,
    lyricHtml: seq<Option<string>>,
    producerItems: seq<ProducerItem>)

  datatype AlbumRef = AlbumRef(name: string, id: string)

  /** One credit as read from a producer item: trimmed name, id and trimmed role. */
  datatype Credit = Credit(name: string, id: string, role: string)

  datatype Producer = Producer(name: string, id: string, roles: seq<string>)

  datatype SongData = SongData(
    title: string,
    artists: seq<Artist>,
    album: AlbumRef,
    releaseDate: string,
    genre: string,
    lyrics: string,
    producers: seq<Producer>)

  // ---------------------------------------------------------------------------
  // title and info list

  /** The title: the first `곡명` removed, then trimmed. */
  function Title(songNameText: string): (t: string)
    ensures |t| > 0 ==> !IsSpace(t[0]) && !IsSpace(t[|t| - 1])
  {
    Trim(ReplaceFirst(songNameText, TITLE_LABEL, ""))
  }

  /** The `<dd>` at position `i`, if the list is that long. */
  function DdAt(dds: seq<InfoDd>, i: nat): (d: Option<InfoDd>)
    ensures d.Some? <==> i < |dds|
    ensures d.Some? ==> d.value == dds[i]
  {
    if i < |dds| then Some(dds[i]) else None
  }

  /** The trimmed text of the `<dd>` at position `i`, or "". */
  function DdText(dds: seq<InfoDd>, i: nat): string {
    match DdAt(dds, i)
    case Some(d) => Trim(d.text)
    case None => ""
  }

  function AnchorText(link: Link): string {
    link.text
  }

  /**
   * The album of the first `<dd>`: as a selection's `.text()` and `.attr()` do,
   * the name is the text of all its anchors joined, trimmed, and the id comes
   * from the first anchor's link. Both are "" when it has no anchor.
   */
  function AlbumOf(dds: seq<InfoDd>): (a: AlbumRef)
    ensures AllDigits(a.id)
    ensures (|dds| == 0 || dds[0].anchors == []) ==> a == AlbumRef("", "")
    ensures |a.name| > 0 ==> !IsSpace(a.name[0]) && !IsSpace(a.name[|a.name| - 1])
  {
    match DdAt(dds, 0)
    case Some(InfoDd(_, links)) =>
      if |links| == 0 then AlbumRef("", "")
      else AlbumRef(Trim(ConcatMap(links, AnchorText)), CallArgument(links[0].href, ALBUM_CALL, QUOTED_CALL_END))
    case None => AlbumRef("", "")
  }

  // ---------------------------------------------------------------------------
  // producers

  /** The id of a producer link: the digits of the first `goArtistDetail(<digits>)`, with no quotes, or "". */
  function ProducerId(href: Option<string>): (id: string)
    ensures AllDigits(id)
  {
    CallArgument(href, PRODUCER_CALL, BARE_CALL_END)
  }

  function CreditOf(item: ProducerItem): Credit {
    Credit(Trim(item.nameText), ProducerId(item.nameHref), Trim(item.roleText))
  }

  /** A credit is kept only with both a name and a role. */
  predicate Counted(c: Credit) {
    c.name != "" && c.role != ""
  }

  predicate HasProducer(ps: seq<Producer>, n: string) {
    exists k :: 0 <= k < |ps| && ps[k].name == n
  }

  predicate DistinctRoles(roles: seq<string>) {
    forall i, j :: 0 <= i < j < |roles| ==> roles[i] != roles[j]
  }

  /** Names are non-empty and distinct; each role list is non-empty, without "" and without repeats. */
  predicate WellFormed(ps: seq<Producer>) {
    && (forall i, j :: 0 <= i < j < |ps| ==> ps[i].name != ps[j].name)
    && (forall k :: 0 <= k < |ps| ==> ps[k].name != "" && |ps[k].roles| > 0 && "" !in ps[k].roles && DistinctRoles(ps[k].roles))
  }

  /** Some counted credit is for the name `n`. */
  predicate Named(cs: seq<Credit>, n: string) {
    exists i :: 0 <= i < |cs| && Counted(cs[i]) && cs[i].name == n
  }

  /** Some counted credit gives `n` the role `role`. */
  predicate Credited(cs: seq<Credit>, n: string, role: string) {
    exists i :: 0 <= i < |cs| && Counted(cs[i]) && cs[i].name == n && cs[i].role == role
  }

  /** `i` is the first counted credit for the name `n`. */
  predicate IsFirstCredit(cs: seq<Credit>, n: string, i: int) {
    && 0 <= i < |cs| && Counted(cs[i]) && cs[i].name == n
    && forall j :: 0 <= j < i ==> !(Counted(cs[j]) && cs[j].name == n)
  }

  /** The index of the producer named `n`, if there is one. */
  function FindProducer(ps: seq<Producer>, n: string): (k: Option<nat>)
    ensures k.Some? ==> k.value < |ps| && ps[k.value].name == n
    ensures k.None? <==> !HasProducer(ps, n)
  {
    if |ps| == 0 then None
    else if ps[0].name == n then Some(0)
    else
      match FindProducer(ps[1..], n)
      case None => None
      case Some(k) => Some(k + 1)
  }

  /** The names listed after appending `p` are those listed before and `p`'s own. */
  lemma HasProducerAppend(ps: seq<Producer>, p: Producer)
    ensures forall n :: HasProducer(ps + [p], n) <==> HasProducer(ps, n) || p.name == n
  {
    var r := ps + [p];
    forall n | HasProducer(r, n)
      ensures HasProducer(ps, n) || p.name == n
    {
      var k :| 0 <= k < |r| && r[k].name == n;
      if k < |ps| {
        assert r[k] == ps[k];
      }
    }
    forall n | HasProducer(ps, n)
      ensures HasProducer(r, n)
    {
      var k :| 0 <= k < |ps| && ps[k].name == n;
      assert r[k] == ps[k];
    }
    assert r[|ps|] == p;
  }

  /** Appending a well-formed producer under a new name keeps the list well formed. */
  lemma AppendWellFormed(ps: seq<Producer>, p: Producer)
    requires WellFormed(ps) && WellFormed([p]) && !HasProducer(ps, p.name)
    ensures WellFormed(ps + [p])
  {
    var r := ps + [p];
    assert [p][0] == p;
    forall i, j | 0 <= i < j < |r|
      ensures r[i].name != r[j].name
    {
      if j == |ps| {
        assert r[i] == ps[i];
      }
    }
  }

  /** A counted credit for a name not yet listed appends a producer with that one role. */
  function AppendProducer(ps: seq<Producer>, c: Credit): (r: seq<Producer>)
    requires WellFormed(ps) && Counted(c) && !HasProducer(ps, c.name)
    ensures WellFormed(r)
    ensures forall n :: HasProducer(r, n) <==> HasProducer(ps, n) || c.name == n
    ensures |r| == |ps| + 1 && r[..|ps|] == ps && r[|ps|] == Producer(c.name, c.id, [c.role])
  {
    var p := Producer(c.name, c.id, [c.role]);
    assert WellFormed([p]);
    HasProducerAppend(ps, p);
    AppendWellFormed(ps, p);
    assert (ps + [p])[..|ps|] == ps;
    ps + [p]
  }

  /** A new non-empty role for the producer at `k` is appended to its roles; nothing else changes. */
  function AddRole(ps: seq<Producer>, k: nat, role: string): (r: seq<Producer>)
    requires WellFormed(ps) && k < |ps| && role != "" && role !in ps[k].roles
    ensures WellFormed(r)
    ensures forall n :: HasProducer(r, n) <==> HasProducer(ps, n)
    ensures |r| == |ps|
    ensures forall j :: 0 <= j < |ps| ==> r[j].name == ps[j].name && r[j].id == ps[j].id
    ensures forall j :: 0 <= j < |ps| && j != k ==> r[j].roles == ps[j].roles
    ensures r[k].roles == ps[k].roles + [role]
  {
    var p := ps[k].(roles := ps[k].roles + [role]);
    var r := ps[k := p];
    assert forall n :: HasProducer(r, n) <==> HasProducer(ps, n) by {
      forall n | HasProducer(r, n)
        ensures HasProducer(ps, n)
      {
        var j :| 0 <= j < |r| && r[j].name == n;
        assert ps[j].name == n;
      }
      forall n | HasProducer(ps, n)
        ensures HasProducer(r, n)
      {
        var j :| 0 <= j < |ps| && ps[j].name == n;
        assert r[j].name == n;
      }
    }
    r
  }

  /**
   * One iteration of the producer loop: a counted credit for a new name appends
   * a producer with that one role; for a known name the role is appended when new.
   */
  function AddCredit(ps: seq<Producer>, c: Credit): (r: seq<Producer>)
    requires WellFormed(ps)
    ensures WellFormed(r)
    ensures forall n :: HasProducer(r, n) <==> HasProducer(ps, n) || (Counted(c) && c.name == n)
    ensures |ps| <= |r| <= |ps| + 1
    ensures forall k :: 0 <= k < |ps| ==> r[k].name == ps[k].name && r[k].id == ps[k].id
    ensures forall k, role :: 0 <= k < |ps| ==>
      (role in r[k].roles <==> role in ps[k].roles || (Counted(c) && c.name == ps[k].name && c.role == role))
    ensures |r| == |ps| + 1 ==> Counted(c) && !HasProducer(ps, c.name) && r[|ps|] == Producer(c.name, c.id, [c.role])
  {
    if !Counted(c) then ps
    else
      match FindProducer(ps, c.name)
      case None =>
        var r := AppendProducer(ps, c);
        assert forall k :: 0 <= k < |ps| ==> r[k] == r[..|ps|][k] == ps[k];
        r
      case Some(k) =>
        if c.role in ps[k].roles then ps
        else
          assert forall j :: 0 <= j < |ps| && j != k ==> ps[j].name != c.name;
          AddRole(ps, k, c.role)
  }

  /** The producer list the loop builds from the credits, in document order. */
  function MergeCredits(cs: seq<Credit>): (r: seq<Producer>)
    decreases |cs|
    ensures WellFormed(r)
    ensures forall n :: HasProducer(r, n) <==> Named(cs, n)
    ensures forall k, role :: 0 <= k < |r| ==> (role in r[k].roles <==> Credited(cs, r[k].name, role))
    ensures forall k, i :: 0 <= k < |r| && IsFirstCredit(cs, r[k].name, i) ==> r[k].id == cs[i].id
  {
    if |cs| == 0 then []
    else
      var prev := MergeCredits(cs[..|cs| - 1]);
      MergeStepNames(cs, prev);
      MergeStepRoles(cs, prev);
      MergeStepIds(cs, cs[..|cs| - 1], prev);
      AddCredit(prev, cs[|cs| - 1])
  }

  /** The names credited in `cs` are those of all but its last credit, and the last one's if it counts. */
  lemma MergeStepNames(cs: seq<Credit>, prev: seq<Producer>)
    requires |cs| > 0 && WellFormed(prev)
    requires forall n :: HasProducer(prev, n) <==> Named(cs[..|cs| - 1], n)
    ensures forall n :: HasProducer(AddCredit(prev, cs[|cs| - 1]), n) <==> Named(cs, n)
  {
    var init, c := cs[..|cs| - 1], cs[|cs| - 1];
    forall n | Named(cs, n)
      ensures Named(init, n) || (Counted(c) && c.name == n)
    {
      var i :| 0 <= i < |cs| && Counted(cs[i]) && cs[i].name == n;
      if i < |init| {
        assert init[i] == cs[i];
      }
    }
    forall n | Named(init, n)
      ensures Named(cs, n)
    {
      var i :| 0 <= i < |init| && Counted(init[i]) && init[i].name == n;
      assert cs[i] == init[i];
    }
    assert cs[|cs| - 1] == c;
  }

  /** The roles credited in `cs`: those of all but its last credit, and the last one's if it counts. */
  lemma CreditedStep(cs: seq<Credit>)
    requires |cs| > 0
    ensures forall n, role :: Credited(cs, n, role) <==>
      Credited(cs[..|cs| - 1], n, role) || (Counted(cs[|cs| - 1]) && cs[|cs| - 1].name == n && cs[|cs| - 1].role == role)
  {
    var init := cs[..|cs| - 1];
    forall n, role | Credited(cs, n, role)
      ensures Credited(init, n, role) || (Counted(cs[|cs| - 1]) && cs[|cs| - 1].name == n && cs[|cs| - 1].role == role)
    {
      var i :| 0 <= i < |cs| && Counted(cs[i]) && cs[i].name == n && cs[i].role == role;
      if i < |init| {
        assert init[i] == cs[i];
      }
    }
    forall n, role | Credited(init, n, role)
      ensures Credited(cs, n, role)
    {
      var i :| 0 <= i < |init| && Counted(init[i]) && init[i].name == n && init[i].role == role;
      assert cs[i] == init[i];
    }
  }

  /** Each producer's roles after the last credit are exactly the roles credited to its name. */
  lemma MergeStepRoles(cs: seq<Credit>, prev: seq<Producer>)
    requires |cs| > 0 && WellFormed(prev)
    requires forall n :: HasProducer(prev, n) <==> Named(cs[..|cs| - 1], n)
    requires forall k, role :: 0 <= k < |prev| ==> (role in prev[k].roles <==> Credited(cs[..|cs| - 1], prev[k].name, role))
    ensures var r := AddCredit(prev, cs[|cs| - 1]);
      forall k, role :: 0 <= k < |r| ==> (role in r[k].roles <==> Credited(cs, r[k].name, role))
  {
    var init, c := cs[..|cs| - 1], cs[|cs| - 1];
    var r := AddCredit(prev, c);
    CreditedStep(cs);
    forall k, role | 0 <= k < |r|
      ensures role in r[k].roles <==> Credited(cs, r[k].name, role)
    {
      if k == |prev| {
      }
    }
  }

  /** Each producer's id after the last credit is the id of the first credit for its name. */
  lemma MergeStepIds(cs: seq<Credit>, init: seq<Credit>, prev: seq<Producer>)
    requires |cs| > 0 && init == cs[..|cs| - 1] && WellFormed(prev)
    requires forall n :: HasProducer(prev, n) <==> Named(init, n)
    requires forall k, i :: 0 <= k < |prev| && IsFirstCredit(init, prev[k].name, i) ==> prev[k].id == init[i].id
    ensures var r := AddCredit(prev, cs[|cs| - 1]);
      forall k, i :: 0 <= k < |r| && IsFirstCredit(cs, r[k].name, i) ==> r[k].id == cs[i].id
  {
    var c := cs[|cs| - 1];
    var r := AddCredit(prev, c);
    forall k, i | 0 <= k < |r| && IsFirstCredit(cs, r[k].name, i)
      ensures r[k].id == cs[i].id
    {
      if i < |init| {
        assert init[i] == cs[i];
        assert IsFirstCredit(init, r[k].name, i) by {
          forall j | 0 <= j < i
            ensures !(Counted(init[j]) && init[j].name == r[k].name)
          {
            assert init[j] == cs[j];
          }
        }
      }
    }
  }

  // ---------------------------------------------------------------------------
  // the service

  /** The song data of one page. */
  function ExtractSong(page: SongPage): (d: SongData)
    ensures DistinctNames(d.artists)
    ensures WellFormed(d.producers)
    ensures AllDigits(d.album.id)
  {
    SongData(
      Title(page.songNameText),
      CollectArtists(page.artistLinks),
      AlbumOf(page.infoDds),
      DdText(page.infoDds, 1),
      DdText(page.infoDds, 2),
      LongText(page.lyricHtml),
      MergeCredits(seq(|page.producerItems|, i requires 0 <= i < |page.producerItems| => CreditOf(page.producerItems[i]))))
  }

  /** The path of a song's detail page. */
  function SongPath(songId: string): string {
    "/song/detail.htm?songId=" + songId
  }

  /** What the fetch handed to the cache produces: the page's song data, or the fetch or traversal error. */
  function FetchSong(songId: string, fetch: Fetcher<SongPage>): (r: Result<SongData, string>)
    ensures fetch(SongPath(songId)).Err? ==> r == Err(fetch(SongPath(songId)).error)
    ensures fetch(SongPath(songId)).Ok? && fetch(SongPath(songId)).value.Parsed? ==>
      r == Ok(ExtractSong(fetch(SongPath(songId)).value.content))
  {
    match fetch(SongPath(songId))
    case Err(e) => Err(e)
    case Ok(Broken(m)) => Err(m)
    case Ok(Parsed(page)) => Ok(ExtractSong(page))
  }

  /** `getSongData(songId)`: the fetch is handed to the result cache under the key `song_<songId>`. */
  function GetSongData(songId: string, fetch: Fetcher<SongPage>, cached: CachedFetch<SongData>): (r: Result<SongData, string>)
    ensures (forall k, v :: cached(k, v) == v) ==> r == FetchSong(songId, fetch)
  {
    cached(CacheKey(SongEntry, songId), FetchSong(songId, fetch))
  }

  /**
   * The result is what the cache yields for the key `song_<songId>` and this
   * song's fetch: two caches that agree there give the same result.
   */
  lemma SongCachedUnderKey(songId: string, fetch: Fetcher<SongPage>, c1: CachedFetch<SongData>, c2: CachedFetch<SongData>)
    requires c1(CacheKey(SongEntry, songId), FetchSong(songId, fetch)) == c2(CacheKey(SongEntry, songId), FetchSong(songId, fetch))
    ensures GetSongData(songId, fetch, c1) == GetSongData(songId, fetch, c2)
  {
  }

  /**
   * The only page consulted is the song's detail page: two fetchers that agree
   * on it give the same result, whatever the cache does.
   */
  lemma SongReadsDetailPage(songId: string, f1: Fetcher<SongPage>, f2: Fetcher<SongPage>, cached: CachedFetch<SongData>)
    ensures f1(SongPath(songId)) == f2(SongPath(songId)) ==> GetSongData(songId, f1, cached) == GetSongData(songId, f2, cached)
  {
  }

  // ---------------------------------------------------------------------------
  // properties

  /** Only the first `곡명` is removed: a title that itself reads `곡명` survives the label before it. */
  lemma TitleDropsFirstLabelOnly(rest: string)
    ensures Title(TITLE_LABEL + rest) == Trim(rest)
    ensures Title(TITLE_LABEL + TITLE_LABEL) == TITLE_LABEL
  {
    ReplaceFirstAtStart(TITLE_LABEL, rest);
    ReplaceFirstAtStart(TITLE_LABEL, TITLE_LABEL);
    LabelIsTrimmed();
  }

  lemma LabelIsTrimmed()
    ensures Trim(TITLE_LABEL) == TITLE_LABEL
  {
    assert !IsSpace(TITLE_LABEL[0]) && !IsSpace(TITLE_LABEL[1]);
    assert TrimStart(TITLE_LABEL) == TITLE_LABEL;
    assert TrimEnd(TITLE_LABEL) == TITLE_LABEL;
  }

  /** A pattern at the very start is the first occurrence, so it is the one replaced. */
  lemma ReplaceFirstAtStart(p: string, rest: string)
    ensures ReplaceFirst(p + rest, p, "") == rest
  {
    var s := p + rest;
    assert OccursAt(s, p, 0) by {
      assert s[..|p|] == p;
    }
    assert s[|p|..] == rest;
  }

  /** Album, release date and genre come from positions 0, 1 and 2 of the info list. */
  lemma InfoByPosition(page: SongPage, a: Link, date: string, genre: string, d0: string, d1: seq<Link>, d2: seq<Link>)
    requires page.infoDds == [InfoDd(d0, [a]), InfoDd(date, d1), InfoDd(genre, d2)]
    ensures ExtractSong(page).album == AlbumRef(Trim(a.text), CallArgument(a.href, ALBUM_CALL, QUOTED_CALL_END))
    ensures ExtractSong(page).releaseDate == Trim(date)
    ensures ExtractSong(page).genre == Trim(genre)
  {
    AnchorTexts(a, a);
    assert AlbumOf(page.infoDds) == AlbumRef(Trim(a.text), CallArgument(a.href, ALBUM_CALL, QUOTED_CALL_END));
  }

  lemma AnchorTexts(x: Link, y: Link)
    ensures ConcatMap([x], AnchorText) == x.text
    ensures ConcatMap([x, y], AnchorText) == x.text + y.text
  {
    assert [x][..0] == [];
    assert [x, y][..1] == [x];
  }

  /**
   * A first `<dd>` with two anchors names the album after both texts joined,
   * and takes the id from the first anchor only.
   */
  lemma AlbumNameJoinsAnchors(dds: seq<InfoDd>, x: Link, y: Link)
    requires |dds| > 0 && dds[0].anchors == [x, y]
    ensures AlbumOf(dds) == AlbumRef(Trim(x.text + y.text), CallArgument(x.href, ALBUM_CALL, QUOTED_CALL_END))
  {
    AnchorTexts(x, y);
  }

  /** Without an info list, album, release date and genre are all "". */
  lemma InfoDefaults(page: SongPage)
    requires page.infoDds == []
    ensures ExtractSong(page).album == AlbumRef("", "")
    ensures ExtractSong(page).releaseDate == "" && ExtractSong(page).genre == ""
  {
  }

  /** Two credits for one name merge into one producer: both roles, the first credit's id. */
  lemma TwoRolesOneProducer(n: string, id1: string, id2: string, r1: string, r2: string)
    requires n != "" && r1 != "" && r2 != "" && r1 != r2
    ensures MergeCredits([Credit(n, id1, r1), Credit(n, id2, r2)]) == [Producer(n, id1, [r1, r2])]
  {
    var cs := [Credit(n, id1, r1), Credit(n, id2, r2)];
    var p := Producer(n, id1, [r1]);
    assert cs[..1] == [Credit(n, id1, r1)];
    assert cs[..1][..0] == [];
    assert MergeCredits(cs[..1]) == AddCredit([], Credit(n, id1, r1)) == [p];
    assert FindProducer([p], n) == Some(0);
    assert [r1] + [r2] == [r1, r2];
    assert AddCredit([p], Credit(n, id2, r2)) == [Producer(n, id1, [r1, r2])];
  }

  /** A repeated role is recorded once. */
  lemma RepeatedRoleOnce(n: string, id1: string, id2: string, role: string)
    requires n != "" && role != ""
    ensures MergeCredits([Credit(n, id1, role), Credit(n, id2, role)]) == [Producer(n, id1, [role])]
  {
    var cs := [Credit(n, id1, role), Credit(n, id2, role)];
    var p := Producer(n, id1, [role]);
    assert cs[..1] == [Credit(n, id1, role)];
    assert cs[..1][..0] == [];
    assert MergeCredits(cs[..1]) == AddCredit([], Credit(n, id1, role)) == [p];
    assert FindProducer([p], n) == Some(0);
  }

  /** A producer link with the digits unquoted yields them. */
  lemma ProducerIdOfBareCall(d: string)
    requires |d| > 0 && AllDigits(d)
    ensures ProducerId(Some(PRODUCER_CALL + d + BARE_CALL_END)) == d
  {
    CallArgumentOfCall(PRODUCER_CALL, d, BARE_CALL_END, "");
    assert PRODUCER_CALL + d + BARE_CALL_END + "" == PRODUCER_CALL + d + BARE_CALL_END;
  }

  /** A producer link written like the artist links, with quoted digits, yields "". */
  lemma ProducerIdOfQuotedCall(d: string)
    requires AllDigits(d)
    ensures ProducerId(Some(PRODUCER_CALL + "'" + d + "')")) == ""
  {
    var s := PRODUCER_CALL + "'" + d + "')";
    assert forall j :: 0 < j < |s| ==> s[j] != 'g' by {
      assert forall j :: 0 < j < |PRODUCER_CALL| ==> s[j] == PRODUCER_CALL[j];
      assert forall j :: |PRODUCER_CALL| <= j < |s| ==> s[j] == ("'" + d + "')")[j - |PRODUCER_CALL|];
    }
    forall i | OccursAt(s, PRODUCER_CALL, i)
      ensures i + |PRODUCER_CALL| < |s| && s[i + |PRODUCER_CALL|] == '\''
    {
      assert s[i] == s[i..i + |PRODUCER_CALL|][0];
      assert s[|PRODUCER_CALL|] == '\'';
    }
    QuotedCallNeverMatchesBare(s, PRODUCER_CALL, BARE_CALL_END);
  }
}
