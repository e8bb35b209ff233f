/**
 * The error-page vocabulary: the closed set of target ids an upstream error page
 * can carry, and the human-readable message for each. Every message is a category
 * and a detail joined by `": "`; the table below keeps the two parts apart so
 * that the shape of the messages can be stated and proved.
 */
module Errors {
  import opened Wrappers

  datatype ErrorTargetId =
    | Artist | Album | Song | Video | HiddenVideo | Playlist | HiddenPlaylist | Perf
    | Mstory | Entnews | Private | Theme | Story | Nowplaying | FanMagaz | TsSong

  /** Every target id, in declaration order. */
  function AllTargets(): seq<ErrorTargetId> {
    [Artist, Album, Song, Video, HiddenVideo, Playlist, HiddenPlaylist, Perf,
     Mstory, Entnews, Private, Theme, Story, Nowplaying, FanMagaz, TsSong]
  }

  /** The position of a target id in `AllTargets()`. */
  function TargetIndex(t: ErrorTargetId): nat {
    match t
    case Artist => 0
    case Album => 1
    case Song => 2
    case Video => 3
    case HiddenVideo => 4
    case Playlist => 5
    case HiddenPlaylist => 6
    case Perf => 7
    case Mstory => 8
    case Entnews => 9
    case Private => 10
    case Theme => 11
    case Story => 12
    case Nowplaying => 13
    case FanMagaz => 14
    case TsSong => 15
  }

  /** The id as it is spelled on the page. */
  function TagName(t: ErrorTargetId): string {
    match t
    case Artist => "artist"
    case Album => "album"
    case Song => "song"
    case Video => "video"
    case HiddenVideo => "hidden_video"
    case Playlist => "playlist"
    case HiddenPlaylist => "hidden_playlist"
    case Perf => "perf"
    case Mstory => "mstory"
    case Entnews => "entnews"
    case Private => "private"
    case Theme => "theme"
    case Story => "story"
    case Nowplaying => "nowplaying"
    case FanMagaz => "fanMagaz"
    case TsSong => "tsSong"
  }

  /** The target id spelled `s`, if `s` is one of the sixteen spellings. */
  function ParseTag(s: string): (r: Option<ErrorTargetId>)
    ensures r.Some? ==> TagName(r.value) == s
  {
    if s == "artist" then Some(Artist)
    else if s == "album" then Some(Album)
    else if s == "song" then Some(Song)
    else if s == "video" then Some(Video)
    else if s == "hidden_video" then Some(HiddenVideo)
    else if s == "playlist" then Some(Playlist)
    else if s == "hidden_playlist" then Some(HiddenPlaylist)
    else if s == "perf" then Some(Perf)
    else if s == "mstory" then Some(Mstory)
    else if s == "entnews" then Some(Entnews)
    else if s == "private" then Some(Private)
    else if s == "theme" then Some(Theme)
    else if s == "story" then Some(Story)
    else if s == "nowplaying" then Some(Nowplaying)
    else if s == "fanMagaz" then Some(FanMagaz)
    else if s == "tsSong" then Some(TsSong)
    else None
  }

  /** The part of the message before `": "`. */
  function Category(t: ErrorTargetId): string {
    match t
    case Artist => "Artist not found"
    case Album => "Album not found"
    case Song => "Song not found"
    case Video => "Video not found"
    case HiddenVideo => "Private content"
    case Playlist => "Playlist not found"
    case HiddenPlaylist => "Private playlist"
    case Perf => "Performance not found"
    case Mstory => "Deleted page"
    case Entnews => "Deleted article"
    case Private => "Fan-only content"
    case Theme => "Theme not found"
    case Story => "Story not found"
    case Nowplaying => "Now Playing not found"
    case FanMagaz => "Mobile only"
    case TsSong => "Temporarily unavailable"
  }

  /** The part of the message after `": "`. */
  function Detail(t: ErrorTargetId): string {
    match t
    case Artist => "The requested artist does not exist"
    case Album => "The requested album does not exist"
    case Song => "The requested song does not exist"
    case Video => "The requested video does not exist"
    case HiddenVideo => "This content is private"
    case Playlist => "The requested playlist does not exist"
    case HiddenPlaylist => "This playlist is private"
    case Perf => "The requested performance does not exist"
    case Mstory => "This page has been deleted"
    case Entnews => "This article has been deleted"
    case Private => "This content is only available to fans"
    case Theme => "The requested theme does not exist"
    case Story => "The requested story does not exist"
    case Nowplaying => "The requested Now Playing does not exist"
    case FanMagaz => "This content is only available on mobile"
    case TsSong => "This song is temporarily unavailable due to a rights violation report"
  }

  /** `ERROR_MESSAGES[t]`: the table is a total function of the target id. */
  function Message(t: ErrorTargetId): string {
    Category(t) + ": " + Detail(t)
  }

  /** The target id a category belongs to, read from its length and first character. */
  function TargetOfCategory(c: string): Option<ErrorTargetId> {
    if |c| == 0 then None
    else if |c| == 16 && c[0] == 'A' then Some(Artist)
    else if |c| == 15 && c[0] == 'A' then Some(Album)
    else if |c| == 14 && c[0] == 'S' then Some(Song)
    else if |c| == 15 && c[0] == 'V' then Some(Video)
    else if |c| == 15 && c[0] == 'P' then Some(HiddenVideo)
    else if |c| == 18 && c[0] == 'P' then Some(Playlist)
    else if |c| == 16 && c[0] == 'P' then Some(HiddenPlaylist)
    else if |c| == 21 && c[0] == 'P' then Some(Perf)
    else if |c| == 12 && c[0] == 'D' then Some(Mstory)
    else if |c| == 15 && c[0] == 'D' then Some(Entnews)
    else if |c| == 16 && c[0] == 'F' then Some(Private)
    else if |c| == 15 && c[0] == 'T' then Some(Theme)
    else if |c| == 15 && c[0] == 'S' then Some(Story)
    else if |c| == 21 && c[0] == 'N' then Some(Nowplaying)
    else if |c| == 11 && c[0] == 'M' then Some(FanMagaz)
    else if |c| == 23 && c[0] == 'T' then Some(TsSong)
    else None
  }

  /** The tag set is closed and has exactly sixteen members. */
  lemma SixteenTargets()
    ensures |AllTargets()| == 16
    ensures forall t :: t in AllTargets()
    ensures forall i, j :: 0 <= i < j < |AllTargets()| ==> AllTargets()[i] != AllTargets()[j]
  {
    forall t: ErrorTargetId
      ensures t in AllTargets()
    {
      assert AllTargets()[TargetIndex(t)] == t;
    }
  }

  /** Spellings and ids correspond one to one. */
  lemma TagNamesRoundTrip(t: ErrorTargetId)
    ensures ParseTag(TagName(t)) == Some(t)
  {
  }

  /** No colon among the first `n` characters of `s`. */
  predicate ColonFree(s: string, n: nat)
    requires n <= |s|
  {
    forall k :: 0 <= k < n ==> s[k] != ':'
  }

  /** Categories and details are non-empty, and each category names its target. */
  lemma CategoryIdentifiesTarget(t: ErrorTargetId)
    ensures |Category(t)| > 0 && |Detail(t)| > 0
    ensures TargetOfCategory(Category(t)) == Some(t)
  {
    if TargetIndex(t) < 4 {
      CategoryIdentifiesTargetA(t);
    } else if TargetIndex(t) < 8 {
      CategoryIdentifiesTargetB(t);
    } else if TargetIndex(t) < 12 {
      CategoryIdentifiesTargetC(t);
    } else if TargetIndex(t) < 14 {
      CategoryIdentifiesTargetD(t);
    } else {
      CategoryIdentifiesTargetE(t);
    }
  }

  lemma CategoryIdentifiesTargetA(t: ErrorTargetId)
    requires TargetIndex(t) < 4
    ensures |Category(t)| > 0 && |Detail(t)| > 0
    ensures TargetOfCategory(Category(t)) == Some(t)
  {
  }

  lemma CategoryIdentifiesTargetB(t: ErrorTargetId)
    requires 4 <= TargetIndex(t) < 8
    ensures |Category(t)| > 0 && |Detail(t)| > 0
    ensures TargetOfCategory(Category(t)) == Some(t)
  {
  }

  lemma CategoryIdentifiesTargetC(t: ErrorTargetId)
    requires 8 <= TargetIndex(t) < 12
    ensures |Category(t)| > 0 && |Detail(t)| > 0
    ensures TargetOfCategory(Category(t)) == Some(t)
  {
  }

  lemma CategoryIdentifiesTargetD(t: ErrorTargetId)
    requires 12 <= TargetIndex(t) < 14
    ensures |Category(t)| > 0 && |Detail(t)| > 0
    ensures TargetOfCategory(Category(t)) == Some(t)
  {
  }

  lemma CategoryIdentifiesTargetE(t: ErrorTargetId)
    requires TargetIndex(t) >= 14
    ensures |Category(t)| > 0 && |Detail(t)| > 0
    ensures TargetOfCategory(Category(t)) == Some(t)
  {
  }

  /** No category holds a colon. */
  lemma CategoryColonFree(t: ErrorTargetId)
    ensures ColonFree(Category(t), |Category(t)|)
  {
    if TargetIndex(t) < 4 {
      CategoryColonFreeA(t);
    } else if TargetIndex(t) < 8 {
      CategoryColonFreeB(t);
    } else if TargetIndex(t) < 12 {
      CategoryColonFreeC(t);
    } else {
      CategoryColonFreeD(t);
    }
  }

  lemma CategoryColonFreeA(t: ErrorTargetId)
    requires TargetIndex(t) < 4
    ensures ColonFree(Category(t), |Category(t)|)
  {
    match t
    case Artist => assert ColonFree(Category(Artist), |Category(Artist)|);
    case Album => assert ColonFree(Category(Album), |Category(Album)|);
    case Song => assert ColonFree(Category(Song), |Category(Song)|);
    case Video => assert ColonFree(Category(Video), |Category(Video)|);
  }

  lemma CategoryColonFreeB(t: ErrorTargetId)
    requires 4 <= TargetIndex(t) < 8
    ensures ColonFree(Category(t), |Category(t)|)
  {
    match t
    case HiddenVideo => assert ColonFree(Category(HiddenVideo), |Category(HiddenVideo)|);
    case Playlist => assert ColonFree(Category(Playlist), |Category(Playlist)|);
    case HiddenPlaylist => assert ColonFree(Category(HiddenPlaylist), |Category(HiddenPlaylist)|);
    case Perf => assert ColonFree(Category(Perf), |Category(Perf)|);
  }

  lemma CategoryColonFreeC(t: ErrorTargetId)
    requires 8 <= TargetIndex(t) < 12
    ensures ColonFree(Category(t), |Category(t)|)
  {
    match t
    case Mstory => assert ColonFree(Category(Mstory), |Category(Mstory)|);
    case Entnews => assert ColonFree(Category(Entnews), |Category(Entnews)|);
    case Private => assert ColonFree(Category(Private), |Category(Private)|);
    case Theme => assert ColonFree(Category(Theme), |Category(Theme)|);
  }

  lemma CategoryColonFreeD(t: ErrorTargetId)
    requires TargetIndex(t) >= 12
    ensures ColonFree(Category(t), |Category(t)|)
  {
    match t
    case Story => assert ColonFree(Category(Story), |Category(Story)|);
    case Nowplaying => assert ColonFree(Category(Nowplaying), |Category(Nowplaying)|);
    case FanMagaz => assert ColonFree(Category(FanMagaz), |Category(FanMagaz)|);
    case TsSong => assert ColonFree(Category(TsSong), |Category(TsSong)|);
  }

  /** A message of the form `<Category>: <detail>`, both parts non-empty and the category colon-free. */
  predicate CategoryForm(m: string) {
    exists i :: 0 < i && i + 2 < |m| && m[i] == ':' && m[i + 1] == ' ' && ColonFree(m, i)
  }

  /** Joining a colon-free category and a detail with `": "` gives a message of category form. */
  lemma JoinedHasCategoryForm(c: string, d: string)
    requires |c| > 0 && |d| > 0 && ColonFree(c, |c|)
    ensures CategoryForm(c + ": " + d)
  {
    var m := c + ": " + d;
    assert m[|c|] == ':' && m[|c| + 1] == ' ';
    assert forall k :: 0 <= k < |c| ==> m[k] == c[k];
    assert ColonFree(m, |c|);
  }

  /** The text before the first colon of `m` (all of `m` when it has none). */
  function CategoryOf(m: string): (c: string)
    ensures |c| <= |m| && c == m[..|c|]
    ensures ColonFree(c, |c|)
    ensures |c| < |m| ==> m[|c|] == ':'
  {
    if |m| == 0 || m[0] == ':' then "" else [m[0]] + CategoryOf(m[1..])
  }

  /** The category of a joined message is the colon-free category it was joined from. */
  lemma {:induction false} CategoryOfJoined(c: string, d: string)
    requires ColonFree(c, |c|)
    ensures CategoryOf(c + ": " + d) == c
  {
    if |c| > 0 {
      assert (c + ": " + d)[1..] == c[1..] + ": " + d;
      assert ColonFree(c[1..], |c[1..]|) by {
        forall k | 0 <= k < |c[1..]| ensures c[1..][k] != ':' {
          assert c[1..][k] == c[k + 1];
        }
      }
      CategoryOfJoined(c[1..], d);
    }
  }

  /** Every message has the form `<Category>: <detail>`, and its category is the text before the first colon. */
  lemma MessagesHaveCategory(t: ErrorTargetId)
    ensures CategoryForm(Message(t))
    ensures CategoryOf(Message(t)) == Category(t)
    ensures TargetOfCategory(CategoryOf(Message(t))) == Some(t)
  {
    CategoryIdentifiesTarget(t);
    CategoryColonFree(t);
    JoinedHasCategoryForm(Category(t), Detail(t));
    CategoryOfJoined(Category(t), Detail(t));
  }

  /** Two entries of the table, spelled out as category, separator and detail. */
  lemma SampleMessages()
    ensures Message(Album) == "Album not found" + ": " + "The requested album does not exist"
    ensures Message(Private) == "Fan-only content" + ": " + "This content is only available to fans"
  {
  }

  /** No two target ids share a message. */
  lemma MessagesInjective(a: ErrorTargetId, b: ErrorTargetId)
    requires Message(a) == Message(b)
    ensures a == b
  {
    CategoryColonFree(a);
    CategoryColonFree(b);
    CategoryOfJoined(Category(a), Detail(a));
    CategoryOfJoined(Category(b), Detail(b));
    CategoryIdentifiesTarget(a);
    CategoryIdentifiesTarget(b);
  }
}
