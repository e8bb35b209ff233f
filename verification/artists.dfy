/**
 * Artist references shared by the song and album extractors: the id recovered
 * from a `goArtistDetail('<digits>')` link, and de-duplication by display name
 * (empty names dropped, first occurrence kept, document order preserved).
 */
module Artists {
  import opened Wrappers
  import opened Strings
  import opened Document

  datatype Artist = Artist(name: string, id: string)

  const ARTIST_CALL: string := "goArtistDetail('"
  const QUOTED_CALL_END: string := "')"

  /** The digits of the first `goArtistDetail('<digits>')` in the link, or "". */
  function ArtistId(href: Option<string>): (id: string)
    ensures AllDigits(id)
    ensures href.None? ==> id == ""
  {
    CallArgument(href, ARTIST_CALL, QUOTED_CALL_END)
  }

  /** A link `goArtistDetail('<digits>')…` yields exactly the digits. */
  lemma ArtistIdOfCall(d: string, rest: string)
    requires |d| > 0 && AllDigits(d)
    ensures ArtistId(Some(ARTIST_CALL + d + QUOTED_CALL_END + rest)) == d
  {
    CallArgumentOfCall(ARTIST_CALL, d, QUOTED_CALL_END, rest);
  }

  /** One artist anchor: its trimmed text and the id from its link. */
  function ArtistOf(link: Link): Artist {
    Artist(Trim(link.text), ArtistId(link.href))
  }

  predicate HasName(xs: seq<Artist>, n: string) {
    exists k :: 0 <= k < |xs| && xs[k].name == n
  }

  predicate DistinctNames(xs: seq<Artist>) {
    forall i, j :: 0 <= i < j < |xs| ==> xs[i].name != xs[j].name
  }

  /**
   * The artist list built by the extractors' `each` loops: an artist is appended
   * when its name is non-empty and not already in the list.
   */
  function DedupByName(xs: seq<Artist>): (r: seq<Artist>)
    decreases |xs|
    ensures DistinctNames(r)
    ensures forall k :: 0 <= k < |r| ==> r[k].name != "" && r[k] in xs
    ensures forall n :: HasName(r, n) <==> n != "" && HasName(xs, n)
  {
    if |xs| == 0 then []
    else
      var prev := DedupByName(xs[..|xs| - 1]);
      var x := xs[|xs| - 1];
      assert forall n :: HasName(xs, n) <==> HasName(xs[..|xs| - 1], n) || x.name == n by {
        forall n | HasName(xs, n)
          ensures HasName(xs[..|xs| - 1], n) || x.name == n
        {
          var k :| 0 <= k < |xs| && xs[k].name == n;
          if k < |xs| - 1 {
            assert xs[..|xs| - 1][k] == xs[k];
          }
        }
        forall n | HasName(xs[..|xs| - 1], n)
          ensures HasName(xs, n)
        {
          var k :| 0 <= k < |xs| - 1 && xs[..|xs| - 1][k].name == n;
          assert xs[k] == xs[..|xs| - 1][k];
        }
      }
      if x.name != "" && !HasName(prev, x.name) then
        var r := prev + [x];
        assert forall n :: HasName(r, n) <==> HasName(prev, n) || x.name == n by {
          forall n | HasName(r, n)
            ensures HasName(prev, n) || x.name == n
          {
            var k :| 0 <= k < |r| && r[k].name == n;
            if k < |prev| {
              assert r[k] == prev[k];
            }
          }
          forall n | HasName(prev, n)
            ensures HasName(r, n)
          {
            var k :| 0 <= k < |prev| && prev[k].name == n;
            assert r[k] == prev[k];
          }
          assert r[|prev|] == x;
        }
        r
      else
        prev
  }

  /** One artist per anchor, in document order, before de-duplication. */
  function ArtistList(links: seq<Link>): (r: seq<Artist>)
    ensures |r| == |links| && forall i :: 0 <= i < |links| ==> r[i] == ArtistOf(links[i])
  {
    if |links| == 0 then [] else [ArtistOf(links[0])] + ArtistList(links[1..])
  }

  /** The artists of a list of anchors, de-duplicated by name. */
  function CollectArtists(links: seq<Link>): (r: seq<Artist>)
    ensures DistinctNames(r)
    ensures forall k :: 0 <= k < |r| ==> r[k].name != ""
  {
    DedupByName(ArtistList(links))
  }

  /** One step of the loop: the last anchor is appended exactly when its name is new and non-empty. */
  lemma DedupStep(xs: seq<Artist>)
    requires |xs| > 0
    ensures var prev := DedupByName(xs[..|xs| - 1]); var x := xs[|xs| - 1];
      DedupByName(xs) == if x.name != "" && !HasName(prev, x.name) then prev + [x] else prev
  {
  }

  /** A name that the de-duplicated prefix lacks does not occur in the prefix at all. */
  lemma NewNameIsFirst(xs: seq<Artist>)
    requires |xs| > 0 && xs[|xs| - 1].name != ""
    requires !HasName(DedupByName(xs[..|xs| - 1]), xs[|xs| - 1].name)
    ensures forall j :: 0 <= j < |xs| - 1 ==> xs[j].name != xs[|xs| - 1].name
  {
    var n := |xs| - 1;
    forall j | 0 <= j < n
      ensures xs[j].name != xs[n].name
    {
      assert xs[..n][j] == xs[j];
    }
  }

  /**
   * Each kept artist is the first occurrence of its name, and the kept artists
   * appear in the order of those first occurrences: `idx[k]` is where `r[k]` came from.
   */
  lemma {:induction false} DedupKeepsFirstOccurrences(xs: seq<Artist>) returns (idx: seq<nat>)
    ensures |idx| == |DedupByName(xs)|
    ensures forall k :: 0 <= k < |idx| ==> idx[k] < |xs| && DedupByName(xs)[k] == xs[idx[k]]
    ensures forall k, j :: 0 <= k < |idx| && 0 <= j < idx[k] ==> xs[j].name != xs[idx[k]].name
    ensures forall k, m :: 0 <= k < m < |idx| ==> idx[k] < idx[m]
    decreases |xs|
  {
    if |xs| == 0 {
      idx := [];
    } else {
      var n := |xs| - 1;
      var xs' := xs[..n];
      var prev := DedupByName(xs');
      var x := xs[n];
      var idx' := DedupKeepsFirstOccurrences(xs');
      DedupStep(xs);
      assert forall i :: 0 <= i < n ==> xs'[i] == xs[i];
      if x.name != "" && !HasName(prev, x.name) {
        NewNameIsFirst(xs);
        idx := idx' + [n];
        assert DedupByName(xs) == prev + [x];
        assert forall k :: 0 <= k < |idx'| ==> idx[k] == idx'[k] && idx'[k] < n;
      } else {
        assert DedupByName(xs) == prev;
        idx := idx';
      }
    }
  }

  /** A second artist with the same name adds nothing. */
  lemma DedupOfDuplicatePair(x: Artist, y: Artist)
    requires x.name != "" && x.name == y.name
    ensures DedupByName([x, y]) == [x]
  {
    assert [x, y][..1] == [x];
    DedupStep([x]);
    assert [x][..0] == [];
    assert DedupByName([x]) == [x];
    assert HasName([x], y.name) by {
      assert [x][0].name == y.name;
    }
    DedupStep([x, y]);
  }

  /** Two anchors with the same trimmed text give one artist, carrying the first anchor's id. */
  lemma DuplicateNameKeepsFirstId(a: Link, b: Link)
    requires Trim(a.text) != "" && Trim(a.text) == Trim(b.text)
    ensures CollectArtists([a, b]) == [ArtistOf(a)]
  {
    var xs := ArtistList([a, b]);
    assert xs == [ArtistOf(a), ArtistOf(b)];
    DedupOfDuplicatePair(ArtistOf(a), ArtistOf(b));
  }
}
