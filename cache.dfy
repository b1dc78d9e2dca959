/** `load_tree_cache` and `save_tree_cache`: the tree and the title index are
    kept in a JSON file together with the site and space they were built for
    and the time they were saved. Times are whole seconds; the file's content
    is the decoded JSON record (encoding and decoding are taken as lossless). */
module Cache {
  import opened Options
  import opened Pages

  /** The JSON object in the cache file; each key may be missing. */
  datatype CacheRecord = CacheRecord(
    createdAt: Option<int>,
    baseUrl: Option<string>,
    spaceKey: Option<string>,
    tree: Option<seq<PageNode>>,
    index: Option<map<Id, string>>)

  /** The cache file: absent, unreadable or not JSON, or a stored record. */
  datatype CacheFile = Absent | Unreadable | Stored(record: CacheRecord)

  /** What a successful load returns: `(data.get("tree"), data.get("id_to_title"))`. */
  datatype Loaded = Loaded(tree: Option<seq<PageNode>>, index: Option<map<Id, string>>)

  /** Seconds per hour, the unit of the TTL. */
  const SecondsPerHour: int := 3600

  /** `max(0, ttl_hours)` in seconds. */
  function TtlSeconds(ttl: int): nat
  {
    if ttl <= 0 then 0 else SecondsPerHour * ttl
  }

  /** `data.get("created_at", 0)`. */
  function CreatedAt(r: CacheRecord): int
  {
    if r.createdAt.Some? then r.createdAt.value else 0
  }

  /** `(time.time() - ts) / 3600.0 > max(0, ttl_hours)` is the negation
      (`HoursTest`). */
  predicate Fresh(createdAt: int, now: int, ttl: int)
  {
    now - createdAt <= TtlSeconds(ttl)
  }

  /** The record was made for this site and this space. */
  predicate SameSource(r: CacheRecord, baseUrl: string, spaceKey: string)
  {
    r.baseUrl == Some(baseUrl) && r.spaceKey == Some(spaceKey)
  }

  /** `load_tree_cache(base_url, space_key, ttl_hours)` at time `now`. */
  function LoadTreeCache(file: CacheFile, baseUrl: string, spaceKey: string, ttl: int, now: int): Option<Loaded>
  {
    match file
    case Absent => None
    case Unreadable => None
    case Stored(r) =>
      if r.baseUrl != Some(baseUrl) || r.spaceKey != Some(spaceKey) then None
      else if now - CreatedAt(r) > TtlSeconds(ttl) then None
      else Some(Loaded(r.tree, r.index))
  }

  /** `save_tree_cache(base_url, space_key, tree, id_to_title)` at time `now`. */
  function SaveTreeCache(baseUrl: string, spaceKey: string, tree: seq<PageNode>, index: map<Id, string>, now: int): CacheFile
  {
    Stored(CacheRecord(Some(now), Some(baseUrl), Some(spaceKey), Some(tree), Some(index)))
  }

  /** The source's test in hours, on reals, agrees with the test in whole
      seconds the model makes. */
  lemma HoursTest(age: int, ttl: int)
    ensures age > TtlSeconds(ttl) <==> (age as real) / 3600.0 > (if ttl > 0 then ttl else 0) as real
  {
    var m := if ttl > 0 then ttl else 0;
    assert (age as real) / 3600.0 > m as real <==> age as real > (m * 3600) as real;
  }

  /** A load succeeds exactly when a record is stored for the same site and
      space and is no older than the TTL; it then returns the stored tree and
      index unchanged. */
  lemma LoadHitIff(file: CacheFile, baseUrl: string, spaceKey: string, ttl: int, now: int)
    ensures LoadTreeCache(file, baseUrl, spaceKey, ttl, now).Some?
        <==> file.Stored? && SameSource(file.record, baseUrl, spaceKey) && Fresh(CreatedAt(file.record), now, ttl)
    ensures LoadTreeCache(file, baseUrl, spaceKey, ttl, now).Some? ==>
      LoadTreeCache(file, baseUrl, spaceKey, ttl, now).value == Loaded(file.record.tree, file.record.index)
  {
  }

  /** Loading what was saved gives back exactly the saved tree and index, as
      long as no more than the TTL has passed, and nothing afterwards. */
  lemma SaveThenLoad(baseUrl: string, spaceKey: string, tree: seq<PageNode>, index: map<Id, string>, saved: int, ttl: int, now: int)
    ensures var got := LoadTreeCache(SaveTreeCache(baseUrl, spaceKey, tree, index, saved), baseUrl, spaceKey, ttl, now);
      && (now - saved <= TtlSeconds(ttl) ==> got == Some(Loaded(Some(tree), Some(index))))
      && (now - saved > TtlSeconds(ttl) ==> got == None)
  {
  }

  /** A cache saved for another site or another space is never used. */
  lemma OtherSourceMisses(baseUrl: string, spaceKey: string, tree: seq<PageNode>, index: map<Id, string>, saved: int,
                          baseUrl': string, spaceKey': string, ttl: int, now: int)
    requires baseUrl' != baseUrl || spaceKey' != spaceKey
    ensures LoadTreeCache(SaveTreeCache(baseUrl, spaceKey, tree, index, saved), baseUrl', spaceKey', ttl, now) == None
  {
  }

  /** A TTL of zero or less does not disable the cache: a record is still
      used when no time at all has passed since it was saved. */
  lemma NonPositiveTtl(file: CacheFile, baseUrl: string, spaceKey: string, ttl: int, now: int)
    requires ttl <= 0 && file.Stored? && SameSource(file.record, baseUrl, spaceKey)
    ensures LoadTreeCache(file, baseUrl, spaceKey, ttl, now).Some? <==> now <= CreatedAt(file.record)
  {
  }

  /** A record without `created_at` counts as saved at time 0. */
  lemma MissingTimestamp(r: CacheRecord, baseUrl: string, spaceKey: string, ttl: int, now: int)
    requires r.createdAt.None? && SameSource(r, baseUrl, spaceKey)
    ensures LoadTreeCache(Stored(r), baseUrl, spaceKey, ttl, now).Some? <==> now <= TtlSeconds(ttl)
  {
  }

  /** A record that is fresh now was fresh earlier and stays fresh under a longer TTL. */
  lemma FreshMonotone(file: CacheFile, baseUrl: string, spaceKey: string, ttl: int, now: int, ttl': int, now': int)
    requires ttl <= ttl' && now' <= now
    requires LoadTreeCache(file, baseUrl, spaceKey, ttl, now).Some?
    ensures LoadTreeCache(file, baseUrl, spaceKey, ttl', now') == LoadTreeCache(file, baseUrl, spaceKey, ttl, now)
  {
  }
}
