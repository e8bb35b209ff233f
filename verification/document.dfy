/**
 * The abstraction of a fetched page. The selector engine is not modelled: each
 * extractor receives the strings its selectors picked out, in document order.
 */
module Document {
  import opened Wrappers

  /**
   * A page as the extractor sees it: the selected content, or the message of an
   * exception thrown while traversing the document outside any per-row handler.
   */
  datatype Page<T> = Parsed(content: T) | Broken(message: string)

  /** One row of a listing: its selected fields, or the message of an exception thrown while reading it. */
  datatype Row<T> = Row(fields: T) | Throws(message: string)

  /** A selected anchor: its text content and its `href` attribute, if it has one. */
  datatype Link = Link(text: string, href: Option<string>)

  /**
   * The page fetcher: the outcome of fetching one path. Network access, headers
   * and timeouts live behind it.
   */
  type Fetcher<T> = string -> Result<Page<T>, string>

  /**
   * The result cache the services hand their fetch to (`getOrFetchResult`). Its
   * definition is not part of this model, so its behaviour is a parameter: given
   * the cache key and the result the fetch would produce, it yields what the
   * caller receives.
   */
  type CachedFetch<!T> = (string, Result<T, string>) -> Result<T, string>

  /** The services that hand their results to the cache, each under its own key prefix. */
  datatype CacheKind = SongEntry | AlbumEntry | ChartEntry

  function KeyPrefix(kind: CacheKind): string {
    match kind
    case SongEntry => "song_"
    case AlbumEntry => "album_"
    case ChartEntry => "chart_"
  }

  /** The cache key of a request: `song_<id>`, `album_<id>` or `chart_<type>`. */
  function CacheKey(kind: CacheKind, id: string): string {
    KeyPrefix(kind) + id
  }

  /**
   * Two requests share a cache entry only when they are the same request: the
   * key determines both the service and the id.
   */
  lemma CacheKeyInjective(k1: CacheKind, id1: string, k2: CacheKind, id2: string)
    ensures CacheKey(k1, id1) == CacheKey(k2, id2) <==> k1 == k2 && id1 == id2
  {
    var a := CacheKey(k1, id1);
    var b := CacheKey(k2, id2);
    assert a[0] == KeyPrefix(k1)[0];
    assert b[0] == KeyPrefix(k2)[0];
    assert a[|KeyPrefix(k1)|..] == id1;
    assert b[|KeyPrefix(k2)|..] == id2;
  }
}
