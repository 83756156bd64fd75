/**
 * `UIFont.appFont(name:size:)`: fonts are built once per (name, size) and
 * kept in the static dictionary `cache`. Building a font is outside the
 * model: `named` stands for `UIFont(name:size:)`, which may fail, and
 * `system` for `UIFont.systemFont(ofSize:)`.
 */
module FontCache {
  import opened Wrappers

  /** A font object; only its identity matters here. */
  type FontRef = nat

  /** `CacheEntry`, a dictionary key. */
  datatype CacheEntry = CacheEntry(name: string, size: int)

  /** The `==` on keys declared beside the extension. */
  function SameEntry(a: CacheEntry, b: CacheEntry): (r: bool)
    ensures r <==> a == b
  {
    a.name == b.name && a.size == b.size
  }

  /** One call on a cache: the font returned and the cache afterwards. */
  function AppFontStep(cache: map<CacheEntry, FontRef>, name: string, size: int,
                       named: (string, int) -> Option<FontRef>, system: int -> FontRef): (r: (FontRef, map<CacheEntry, FontRef>))
    ensures CacheEntry(name, size) in r.1 && r.0 == r.1[CacheEntry(name, size)]
    ensures CacheEntry(name, size) in cache ==> r == (cache[CacheEntry(name, size)], cache)
    ensures CacheEntry(name, size) !in cache ==>
      r.1 == cache[CacheEntry(name, size) := r.0] && r.0 == named(name, size).GetOr(system(size))
  {
    var key := CacheEntry(name, size);
    if key in cache then (cache[key], cache)
    else
      var f := named(name, size).GetOr(system(size));
      (f, cache[key := f])
  }

  /** The cache only grows, and what it held it still holds. */
  lemma StepKeepsEntries(cache: map<CacheEntry, FontRef>, name: string, size: int,
                         named: (string, int) -> Option<FontRef>, system: int -> FontRef)
    ensures var after := AppFontStep(cache, name, size, named, system).1;
      && cache.Keys <= after.Keys
      && (forall k :: k in cache ==> after[k] == cache[k])
      && after.Keys == cache.Keys + {CacheEntry(name, size)}
  {
  }

  /** A font for each request of a sequence, and the cache after them all. */
  function AppFontRun(cache: map<CacheEntry, FontRef>, requests: seq<CacheEntry>,
                      named: (string, int) -> Option<FontRef>, system: int -> FontRef): (r: (seq<FontRef>, map<CacheEntry, FontRef>))
    ensures |r.0| == |requests|
    decreases |requests|
  {
    if |requests| == 0 then ([], cache)
    else
      var first := AppFontStep(cache, requests[0].name, requests[0].size, named, system);
      var rest := AppFontRun(first.1, requests[1..], named, system);
      ([first.0] + rest.0, rest.1)
  }

  /**
   * Over any sequence of calls the cache never loses or changes an entry,
   * and every call's font is the one the final cache holds for its key: two
   * calls with the same name and size return the same font.
   */
  lemma {:induction false} RunIsMemo(cache: map<CacheEntry, FontRef>, requests: seq<CacheEntry>,
                                     named: (string, int) -> Option<FontRef>, system: int -> FontRef)
    ensures var r := AppFontRun(cache, requests, named, system);
      && (forall k :: k in cache ==> k in r.1 && r.1[k] == cache[k])
      && (forall i :: 0 <= i < |requests| ==> requests[i] in r.1 && r.0[i] == r.1[requests[i]])
    ensures forall i, j :: 0 <= i < |requests| && 0 <= j < |requests| && requests[i] == requests[j] ==>
      AppFontRun(cache, requests, named, system).0[i] == AppFontRun(cache, requests, named, system).0[j]
    decreases |requests|
  {
    if |requests| > 0 {
      var first := AppFontStep(cache, requests[0].name, requests[0].size, named, system);
      var rest := AppFontRun(first.1, requests[1..], named, system);
      RunIsMemo(first.1, requests[1..], named, system);
      var r := AppFontRun(cache, requests, named, system);
      assert r == ([first.0] + rest.0, rest.1);
      forall i | 0 <= i < |requests|
        ensures requests[i] in r.1 && r.0[i] == r.1[requests[i]]
      {
        if i > 0 {
          assert requests[i] == requests[1..][i - 1];
        }
      }
    }
  }

  /** The extension's static `cache`. */
  class Fonts {
    var cache: map<CacheEntry, FontRef>

    constructor ()
      ensures cache == map[]
    {
      cache := map[];
    }

    /** `appFont(name:size:)`: the cached font on a hit; otherwise builds one and caches it. */
    method AppFont(name: string, size: int, named: (string, int) -> Option<FontRef>, system: int -> FontRef)
      returns (f: FontRef)
      modifies this
      ensures (f, cache) == AppFontStep(old(cache), name, size, named, system)
    {
      var key := CacheEntry(name, size);
      if key in cache {
        return cache[key];
      }
      f := named(name, size).GetOr(system(size));
      cache := cache[key := f];
    }
  }
}
