/**
 * The result cache of the search controller: a map from search term to the
 * hits accumulated for it and the last page the server reported. Before the
 * first response arrives the cache is JavaScript's `null`, modelled as `None`.
 */
module Cache {
  import opened Wrappers
  import opened Sorts

  /** The `{hits, page}` record stored for one search term. */
  datatype PageResult = PageResult(hits: seq<Hit>, page: nat)

  /** `state.results`: `null` until the first response, then an object keyed by term. */
  type Results = Option<map<string, PageResult>>

  /** The terms the cache holds an entry for (none while it is `null`). */
  function Terms(results: Results): set<string>
  {
    if results.Some? then results.value.Keys else {}
  }

  /** `results && results[key]`: the entry for `key`, if the cache holds one. */
  function Entry(results: Results, key: string): (e: Option<PageResult>)
    ensures e.Some? <==> key in Terms(results)
  {
    if results.Some? && key in results.value then Some(results.value[key]) else None
  }

  /** The hits stored for `key`, or `[]` when there is no entry. */
  function StoredHits(results: Results, key: string): seq<Hit>
  {
    match Entry(results, key)
    case Some(e) => e.hits
    case None => []
  }

  /** The page stored for `key`, or 0 when there is no entry. */
  function StoredPage(results: Results, key: string): nat
  {
    match Entry(results, key)
    case Some(e) => e.page
    case None => 0
  }

  /**
   * The cache after a response with `hits` and `page` is merged under `key`:
   * the stored hits followed by the new ones, the new page, all other terms as
   * they were. A `null` cache is spread as an empty object.
   */
  function Merge(results: Results, key: string, hits: seq<Hit>, page: nat): (r: map<string, PageResult>)
    ensures r.Keys == Terms(results) + {key}
    ensures r[key] == PageResult(StoredHits(results, key) + hits, page)
    ensures forall k :: k in Terms(results) && k != key ==> r[k] == results.value[k]
  {
    var base := if results.Some? then results.value else map[];
    base[key := PageResult(StoredHits(results, key) + hits, page)]
  }

  /** `hits.filter(item => item.objectID !== id)`. */
  function WithoutId(hits: seq<Hit>, id: string): (r: seq<Hit>)
    ensures forall h :: h in r ==> h in hits && h.objectID != id
  {
    if hits == [] then []
    else (if hits[0].objectID != id then [hits[0]] else []) + WithoutId(hits[1..], id)
  }

  /** The number of hits in `hits` whose identifier is `id`. */
  function CountId(hits: seq<Hit>, id: string): nat
  {
    if hits == [] then 0
    else (if hits[0].objectID == id then 1 else 0) + CountId(hits[1..], id)
  }

  /** The cache after the hits with identifier `id` are removed from the entry for `key`. */
  function DismissIn(cache: map<string, PageResult>, key: string, id: string): (r: map<string, PageResult>)
    requires key in cache
    ensures r.Keys == cache.Keys
    ensures r[key] == PageResult(WithoutId(cache[key].hits, id), cache[key].page)
    ensures forall k :: k in cache && k != key ==> r[k] == cache[k]
  {
    cache[key := PageResult(WithoutId(cache[key].hits, id), cache[key].page)]
  }

  /** `needsToSearchTopStories`: a term needs a request when the cache has no entry for it. */
  predicate NeedsToSearch(cache: map<string, PageResult>, term: string)
  {
    term !in cache
  }

  // ---------------------------------------------------------------------------
  // Lemmas

  /** Merging appends: the hits stored before are a prefix of the hits stored after. */
  lemma MergeAppends(results: Results, key: string, hits: seq<Hit>, page: nat)
    ensures var r := Merge(results, key, hits, page);
      StoredHits(results, key) <= r[key].hits &&
      r[key].hits[|StoredHits(results, key)|..] == hits &&
      |r[key].hits| == |StoredHits(results, key)| + |hits|
  {
    var old_ := StoredHits(results, key);
    var r := Merge(results, key, hits, page);
    assert r[key].hits == old_ + hits;
    assert (old_ + hits)[|old_|..] == hits;
  }

  /** Filtering distributes over concatenation: the kept hits stay in their original order. */
  lemma {:induction false} WithoutIdAppend(a: seq<Hit>, b: seq<Hit>, id: string)
    ensures WithoutId(a + b, id) == WithoutId(a, id) + WithoutId(b, id)
  {
    if a == [] {
      assert a + b == b;
    } else {
      assert (a + b)[1..] == a[1..] + b;
      WithoutIdAppend(a[1..], b, id);
    }
  }

  /**
   * Exactly the hits with another identifier survive, each as often as before;
   * the hits with identifier `id` are all gone.
   */
  lemma {:induction false} WithoutIdCounts(hits: seq<Hit>, id: string, h: Hit)
    ensures multiset(WithoutId(hits, id))[h] == if h.objectID == id then 0 else multiset(hits)[h]
    ensures |WithoutId(hits, id)| == |hits| - CountId(hits, id)
  {
    if hits != [] {
      WithoutIdCounts(hits[1..], id, h);
      assert hits == [hits[0]] + hits[1..];
    }
  }

  /** Dismissing an identifier that no hit carries leaves the hits as they were. */
  lemma {:induction false} WithoutIdAbsent(hits: seq<Hit>, id: string)
    requires forall h :: h in hits ==> h.objectID != id
    ensures WithoutId(hits, id) == hits
  {
    if hits != [] {
      assert forall h :: h in hits[1..] ==> h in hits;
      WithoutIdAbsent(hits[1..], id);
      assert hits == [hits[0]] + hits[1..];
    }
  }

  /** Dismissing a hit whose identifier occurs once shortens the list by exactly one. */
  lemma WithoutIdUnique(hits: seq<Hit>, id: string)
    requires CountId(hits, id) == 1
    ensures |WithoutId(hits, id)| == |hits| - 1
  {
    var h: Hit :| true;
    WithoutIdCounts(hits, id, h);
  }

  /** Dismissing the same identifier twice is the same as dismissing it once. */
  lemma WithoutIdIdempotent(hits: seq<Hit>, id: string)
    ensures WithoutId(WithoutId(hits, id), id) == WithoutId(hits, id)
  {
    WithoutIdAbsent(WithoutId(hits, id), id);
  }

  /** Dismissing and merging commute when the incoming hits do not carry the identifier. */
  lemma DismissThenMerge(cache: map<string, PageResult>, key: string, id: string, hits: seq<Hit>, page: nat)
    requires key in cache
    requires forall h :: h in hits ==> h.objectID != id
    ensures Merge(Some(DismissIn(cache, key, id)), key, hits, page)
         == DismissIn(Merge(Some(cache), key, hits, page), key, id)
  {
    WithoutIdAppend(cache[key].hits, hits, id);
    WithoutIdAbsent(hits, id);
    var l := Merge(Some(DismissIn(cache, key, id)), key, hits, page);
    var r := DismissIn(Merge(Some(cache), key, hits, page), key, id);
    assert l.Keys == r.Keys;
  }
}
