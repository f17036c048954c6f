/**
 * The backend service's in-process artifact caches and request validators
 * (backend/app.py): two recency-ordered dictionaries keyed by
 * recipe::model::role::roi whose entries are re-validated against the
 * modification times of the files they were loaded from, and the small
 * helpers that vet request fields.
 *
 * The filesystem is not modelled: each lookup receives what the store
 * reports (the files' modification times and the loaded contents).
 */
module App {
  import opened Wrappers
  import opened Text
  import opened Numeric
  import PatchCore

  // ---------------------------------------------------------------------
  // Cache keys
  // ---------------------------------------------------------------------

  const Sep: string := "::"

  /** _cache_key: the four identifiers joined with "::". */
  function CacheKey(recipeId: string, modelKey: string, roleId: string, roiId: string): (k: string)
    ensures |k| == |recipeId| + |modelKey| + |roleId| + |roiId| + 6
    ensures StartsWith(k, recipeId + Sep) && EndsWith(k, Sep + roiId)
  {
    recipeId + Sep + modelKey + Sep + roleId + Sep + roiId
  }

  predicate NoColon(s: string) { forall i :: 0 <= i < |s| ==> s[i] != ':' }

  /** Index of the first ':' in `s`, or |s| when there is none. */
  function FirstColon(s: string): (i: nat)
    ensures i <= |s|
  {
    if s == [] || s[0] == ':' then 0 else 1 + FirstColon(s[1..])
  }

  lemma {:induction false} FirstColonAfter(a: string, rest: string)
    requires NoColon(a) && |rest| > 0 && rest[0] == ':'
    ensures FirstColon(a + rest) == |a|
  {
    if a != [] {
      assert (a + rest)[1..] == a[1..] + rest;
      FirstColonAfter(a[1..], rest);
    }
  }

  lemma SplitAtSeparator(a: string, b: string, c: string, d: string)
    requires NoColon(a) && NoColon(c) && a + Sep + b == c + Sep + d
    ensures a == c && b == d
  {
    var x := a + Sep + b;
    assert x == a + (Sep + b) && x == c + (Sep + d);
    FirstColonAfter(a, Sep + b);
    FirstColonAfter(c, Sep + d);
    assert a == x[..|a|] && c == x[..|c|];
    assert b == x[|a| + 2..] && d == x[|c| + 2..];
  }

  /** Identifiers without ':' give distinct keys, so two artifacts never share a cache slot. */
  lemma CacheKeyInjective(r1: string, m1: string, o1: string, i1: string,
                          r2: string, m2: string, o2: string, i2: string)
    requires NoColon(r1) && NoColon(m1) && NoColon(o1) && NoColon(r2) && NoColon(m2) && NoColon(o2)
    requires CacheKey(r1, m1, o1, i1) == CacheKey(r2, m2, o2, i2)
    ensures r1 == r2 && m1 == m2 && o1 == o2 && i1 == i2
  {
    assert CacheKey(r1, m1, o1, i1) == r1 + Sep + (m1 + Sep + o1 + Sep + i1);
    assert CacheKey(r2, m2, o2, i2) == r2 + Sep + (m2 + Sep + o2 + Sep + i2);
    SplitAtSeparator(r1, m1 + Sep + o1 + Sep + i1, r2, m2 + Sep + o2 + Sep + i2);
    assert m1 + Sep + o1 + Sep + i1 == m1 + Sep + (o1 + Sep + i1);
    assert m2 + Sep + o2 + Sep + i2 == m2 + Sep + (o2 + Sep + i2);
    SplitAtSeparator(m1, o1 + Sep + i1, m2, o2 + Sep + i2);
    SplitAtSeparator(o1, i1, o2, i2);
  }

  /**
   * The ':' inside an identifier is not escaped, so identifiers that contain
   * "::" can share a key.
   */
  lemma CacheKeyAmbiguousWithColons()
    ensures CacheKey("a::b", "c", "d", "e") == CacheKey("a", "b::c", "d", "e")
  {
  }

  // ---------------------------------------------------------------------
  // Recency-ordered dictionary (OrderedDict) as a value
  // ---------------------------------------------------------------------

  /** `order` lists the keys from least to most recently used. */
  datatype Lru<V> = Lru(order: seq<string>, entries: map<string, V>)
  {
    ghost predicate Valid()
    {
      Distinct(order) && (forall k :: k in entries <==> k in order)
    }
  }

  /** The sequence without the key `k`. */
  function Remove(s: seq<string>, k: string): (r: seq<string>)
    ensures forall x :: x in r <==> x in s && x != k
    ensures |r| <= |s|
  {
    if s == [] then []
    else
      assert s == [s[0]] + s[1..];
      if s[0] == k then Remove(s[1..], k)
      else [s[0]] + Remove(s[1..], k)
  }

  predicate Distinct(s: seq<string>)
  {
    forall i, j :: 0 <= i < j < |s| ==> s[i] != s[j]
  }

  lemma {:induction false} RemoveDistinct(s: seq<string>, k: string)
    requires Distinct(s)
    ensures Distinct(Remove(s, k))
  {
    if s != [] {
      RemoveDistinct(s[1..], k);
      var t := Remove(s[1..], k);
      assert s[0] !in s[1..] by {
        forall j | 1 <= j < |s| ensures s[j] != s[0] { }
        assert forall x :: x in s[1..] ==> exists j :: 1 <= j < |s| && s[j] == x;
      }
      if s[0] != k {
        assert s[0] !in t;
        var r := [s[0]] + t;
        forall i, j | 0 <= i < j < |r| ensures r[i] != r[j] {
          if i == 0 {
            assert r[j] == t[j - 1] && t[j - 1] in t;
          } else {
            assert r[i] == t[i - 1] && r[j] == t[j - 1];
            assert 0 <= i - 1 < j - 1 < |t|;
          }
        }
      }
    }
  }

  /** OrderedDict.pop(key, None). */
  function Pop<V>(c: Lru<V>, k: string): Lru<V>
  {
    Lru(Remove(c.order, k), c.entries - {k})
  }

  /** OrderedDict.move_to_end(key) on a present key. */
  function MoveToEnd<V>(c: Lru<V>, k: string): Lru<V>
  {
    Lru(Remove(c.order, k) + [k], c.entries)
  }

  /** d[key] = value: a new key goes last, an existing key keeps its place. */
  function Store<V>(c: Lru<V>, k: string, v: V): Lru<V>
  {
    Lru(if k in c.entries then c.order else c.order + [k], c.entries[k := v])
  }

  /** _evict_lru: the oldest entries dropped until at most `maxEntries` remain (all of them if the bound is negative). */
  function Evict<V>(c: Lru<V>, maxEntries: int): Lru<V>
  {
    var keep := if maxEntries < 0 then 0 else MinInt(maxEntries, |c.order|);
    var order := c.order[|c.order| - keep..];
    Lru(order, Restrict(c.entries, order))
  }

  /** The entries whose keys are listed in `keys`. */
  function Restrict<V>(m: map<string, V>, keys: seq<string>): map<string, V>
  {
    map k | k in m && k in keys :: m[k]
  }

  /** Every suffix of a sequence without repeats has none either. */
  lemma DistinctSuffix(s: seq<string>, d: nat)
    requires d <= |s| && Distinct(s)
    ensures Distinct(s[d..])
  {
    var t := s[d..];
    forall i, j | 0 <= i < j < |t|
      ensures t[i] != t[j]
    {
      assert t[i] == s[d + i] && t[j] == s[d + j];
    }
  }

  lemma RestrictDropFirst<V>(m: map<string, V>, s: seq<string>)
    requires |s| > 0 && Distinct(s)
    ensures Restrict(m, s[1..]) == Restrict(m, s) - {s[0]}
  {
    assert s[0] !in s[1..] by {
      forall j | 1 <= j < |s| ensures s[j] != s[0] { }
    }
    assert forall x :: x in s <==> x == s[0] || x in s[1..] by {
      assert s == [s[0]] + s[1..];
    }
  }

  lemma PopKeepsOthers<V>(c: Lru<V>, k: string)
    requires c.Valid()
    ensures Pop(c, k).Valid() && k !in Pop(c, k).entries
    ensures forall x :: x != k ==> (x in Pop(c, k).entries <==> x in c.entries)
    ensures forall x :: x != k && x in c.entries ==> Pop(c, k).entries[x] == c.entries[x]
  {
    RemoveDistinct(c.order, k);
  }

  lemma MoveToEndMakesNewest<V>(c: Lru<V>, k: string)
    requires c.Valid() && k in c.entries
    ensures MoveToEnd(c, k).Valid() && MoveToEnd(c, k).entries == c.entries
    ensures MoveToEnd(c, k).order[|MoveToEnd(c, k).order| - 1] == k
    ensures |MoveToEnd(c, k).order| == |c.order|
  {
    RemoveDistinct(c.order, k);
    var r := Remove(c.order, k);
    assert forall x :: x in r ==> x != k;
    RemoveLengthOfMember(c.order, k);
  }

  lemma {:induction false} RemoveLengthOfMember(s: seq<string>, k: string)
    requires Distinct(s)
    requires k in s
    ensures |Remove(s, k)| == |s| - 1
  {
    if s[0] != k {
      assert k in s[1..];
      RemoveLengthOfMember(s[1..], k);
    } else {
      assert k !in s[1..];
      RemoveAbsent(s[1..], k);
    }
  }

  lemma {:induction false} RemoveAbsent(s: seq<string>, k: string)
    requires k !in s
    ensures Remove(s, k) == s
  {
    if s != [] {
      RemoveAbsent(s[1..], k);
      assert s == [s[0]] + s[1..];
    }
  }

  lemma StoreValid<V>(c: Lru<V>, k: string, v: V)
    requires c.Valid()
    ensures Store(c, k, v).Valid() && Store(c, k, v).entries[k] == v
  {
  }

  /** After eviction at most `maxEntries` entries remain, and they are the most recent ones. */
  lemma EvictBound<V>(c: Lru<V>, maxEntries: int)
    requires c.Valid()
    ensures Evict(c, maxEntries).Valid()
    ensures maxEntries >= 0 ==> |Evict(c, maxEntries).order| == MinInt(maxEntries, |c.order|)
    ensures maxEntries < 0 ==> Evict(c, maxEntries).order == []
    ensures Evict(c, maxEntries).order == c.order[|c.order| - |Evict(c, maxEntries).order|..]
    ensures forall x :: x in Evict(c, maxEntries).entries ==> x in c.entries && Evict(c, maxEntries).entries[x] == c.entries[x]
  {
    var e := Evict(c, maxEntries);
    var off := |c.order| - |e.order|;
    assert forall i :: 0 <= i < |e.order| ==> e.order[i] == c.order[off + i];
  }

  /**
   * A freshly loaded entry survives the eviction that follows it and is the
   * most recently used one, whenever the bound allows at least one entry.
   */
  lemma ReloadedEntryIsNewest<V>(c: Lru<V>, k: string, v: V, maxEntries: int)
    requires c.Valid() && maxEntries >= 1
    ensures var r := Evict(MoveToEnd(Store(c, k, v), k), maxEntries);
            r.Valid() && k in r.entries && r.entries[k] == v && r.order[|r.order| - 1] == k
            && |r.order| <= maxEntries
  {
    StoreValid(c, k, v);
    var s := Store(c, k, v);
    MoveToEndMakesNewest(s, k);
    var m := MoveToEnd(s, k);
    EvictBound(m, maxEntries);
    var r := Evict(m, maxEntries);
    assert r.order[|r.order| - 1] == m.order[|m.order| - 1] == k;
  }

  // ---------------------------------------------------------------------
  // The cache object
  // ---------------------------------------------------------------------

  const DefaultMaxEntries: int := 32

  /** One of the two module-level OrderedDict caches, with the bound read from BDI_CACHE_MAX_ENTRIES. */
  class LruCache<V> {
    var order: seq<string>
    var entries: map<string, V>
    const maxEntries: int

    function Model(): Lru<V> reads this { Lru(order, entries) }

    ghost predicate Valid() reads this { Model().Valid() }

    constructor (maxEntries: int)
      ensures Valid() && Model() == Lru([], map[]) && this.maxEntries == maxEntries
    {
      order := [];
      entries := map[];
      this.maxEntries := maxEntries;
    }

    function Get(k: string): (r: Option<V>)
      reads this
      ensures r.Some? <==> k in entries
    {
      if k in entries then Some(entries[k]) else None
    }

    method PopKey(k: string)
      requires Valid()
      modifies this
      ensures Valid() && Model() == Pop(old(Model()), k)
    {
      PopKeepsOthers(Model(), k);
      order := Remove(order, k);
      entries := entries - {k};
    }

    method MoveKeyToEnd(k: string)
      requires Valid() && k in entries
      modifies this
      ensures Valid() && Model() == MoveToEnd(old(Model()), k)
    {
      MoveToEndMakesNewest(Model(), k);
      order := Remove(order, k) + [k];
    }

    method Put(k: string, v: V)
      requires Valid()
      modifies this
      ensures Valid() && Model() == Store(old(Model()), k, v)
    {
      if k !in entries {
        order := order + [k];
      }
      entries := entries[k := v];
    }

    /**
     * _evict_lru: pops the oldest entry while the cache is over its bound.
     * With a negative bound the loop empties the cache and then pops from an
     * empty OrderedDict, which raises KeyError: `ok` is false then.
     */
    method EvictLru() returns (ok: bool)
      requires Valid()
      modifies this
      ensures Valid() && Model() == Evict(old(Model()), maxEntries)
      ensures ok <==> maxEntries >= 0
    {
      ghost var c0 := Model();
      EvictBound(c0, maxEntries);
      assert entries == Restrict(c0.entries, order);
      ghost var dropped := 0;
      while |order| > maxEntries
        invariant 0 <= dropped <= |c0.order| && order == c0.order[dropped..]
        invariant entries == Restrict(c0.entries, order)
        invariant maxEntries >= 0 ==> |order| >= MinInt(maxEntries, |c0.order|)
        decreases |order|
      {
        if order == [] {
          return false;
        }
        DropOldest(c0, dropped);
        dropped := dropped + 1;
      }
      ok := maxEntries >= 0;
    }

    /** popitem(last=False): the least recently used entry leaves the cache. */
    method DropOldest(ghost c0: Lru<V>, ghost dropped: nat)
      requires c0.Valid() && dropped < |c0.order| && order == c0.order[dropped..]
      requires entries == Restrict(c0.entries, order)
      modifies this
      ensures order == c0.order[dropped + 1..] && entries == Restrict(c0.entries, order)
    {
      DistinctSuffix(c0.order, dropped);
      RestrictDropFirst(c0.entries, order);
      entries := entries - {order[0]};
      order := order[1..];
    }
  }

  // ---------------------------------------------------------------------
  // Cached loaders
  // ---------------------------------------------------------------------

  /** The metadata stored next to a memory; only the coreset rate is read here. */
  datatype Metadata = Metadata(coresetRate: Option<real>, fields: map<string, string>)

  /** How the nearest-neighbour search of a cached memory was set up. */
  datatype IndexSource = FromBlob | BuiltFlatL2 | SklearnFallback

  datatype MemEntry = MemEntry(mem: PatchCore.Memory, source: IndexSource, tokenHw: (int, int),
                               metadata: Metadata, memMtime: real, indexMtime: Option<real>)

  datatype CalibEntry = CalibEntry(calib: map<string, string>, calibMtime: real)

  /** What the store reports for one memory: file times, loaded contents and the serialised index. */
  datatype MemoryFiles = MemoryFiles(memMtime: Option<real>, indexMtime: Option<real>,
                                     loaded: Option<(seq<seq<real>>, (int, int), Metadata)>,
                                     hasIndexBlob: bool)

  /** The faiss section of the settings, after _is_truthy, plus whether faiss can be imported. */
  datatype FaissConfig = FaissConfig(installed: bool, requireFaiss: bool, allowSklearnFallback: bool)

  datatype CacheError = FaissRequired | EvictFromEmpty

  /** The entry a reload builds from loaded files, or the RuntimeError raised when faiss is missing but required. */
  function BuildEntry(loaded: (seq<seq<real>>, (int, int), Metadata), hasIndexBlob: bool, cfg: FaissConfig,
                      memMtime: real, indexMtime: Option<real>): (r: Result<MemEntry, CacheError>)
    ensures r.Failure? <==> !cfg.installed && (cfg.requireFaiss || !cfg.allowSklearnFallback)
    ensures r.Success? ==> r.value.memMtime == memMtime && r.value.indexMtime == indexMtime
    ensures r.Success? ==> (r.value.mem.hasIndex <==> cfg.installed) && (r.value.mem.hasIndex || r.value.mem.hasNn)
    ensures r.Success? && cfg.installed ==> (r.value.source == FromBlob <==> hasIndexBlob)
  {
    var (emb, hw, meta) := loaded;
    if !cfg.installed then
      if cfg.requireFaiss || !cfg.allowSklearnFallback then Failure(FaissRequired)
      else Success(MemEntry(PatchCore.NewMemory(emb, false, meta.coresetRate), SklearnFallback, hw, meta, memMtime, indexMtime))
    else
      Success(MemEntry(PatchCore.NewMemory(emb, true, meta.coresetRate),
                       if hasIndexBlob then FromBlob else BuiltFlatL2, hw, meta, memMtime, indexMtime))
  }

  /** A cached memory is reused only when both file times still match. */
  predicate MemHit(c: Lru<MemEntry>, key: string, memMtime: real, indexMtime: Option<real>)
  {
    key in c.entries && c.entries[key].memMtime == memMtime && c.entries[key].indexMtime == indexMtime
  }

  /**
   * _get_patchcore_memory_cached: a missing memory file purges the key and
   * returns None; a hit moves the key to the most recent end; otherwise the
   * memory is reloaded (None if it cannot be loaded), installed as the most
   * recent entry and the cache evicted.
   */
  method GetPatchcoreMemoryCached(cache: LruCache<MemEntry>, roleId: string, roiId: string,
                                  recipeId: string, modelKey: string, files: MemoryFiles, cfg: FaissConfig)
    returns (r: Result<Option<MemEntry>, CacheError>)
    requires cache.Valid()
    modifies cache
    ensures cache.Valid()
    ensures var key := CacheKey(recipeId, modelKey, roleId, roiId);
      var c := old(cache.Model());
      if files.memMtime.None? then
        r == Success(None) && cache.Model() == Pop(c, key)
      else if MemHit(c, key, files.memMtime.value, files.indexMtime) then
        r == Success(Some(c.entries[key])) && cache.Model() == MoveToEnd(c, key)
      else if files.loaded.None? then
        r == Success(None) && cache.Model() == Pop(c, key)
      else
        var e := BuildEntry(files.loaded.value, files.hasIndexBlob, cfg, files.memMtime.value, files.indexMtime);
        if e.Failure? then r == Failure(FaissRequired) && cache.Model() == c
        else cache.Model() == Evict(MoveToEnd(Store(c, key, e.value), key), cache.maxEntries)
             && (r == Success(Some(e.value)) <==> cache.maxEntries >= 0)
             && (r.Failure? <==> cache.maxEntries < 0)
  {
    var key := CacheKey(recipeId, modelKey, roleId, roiId);
    if files.memMtime.None? {
      cache.PopKey(key);
      return Success(None);
    }
    var memMtime := files.memMtime.value;
    var entry := cache.Get(key);
    if entry.Some? && entry.value.memMtime == memMtime && entry.value.indexMtime == files.indexMtime {
      cache.MoveKeyToEnd(key);
      return Success(Some(entry.value));
    }
    if files.loaded.None? {
      cache.PopKey(key);
      return Success(None);
    }
    var built := BuildEntry(files.loaded.value, files.hasIndexBlob, cfg, memMtime, files.indexMtime);
    if built.Failure? {
      return Failure(FaissRequired);
    }
    cache.Put(key, built.value);
    cache.MoveKeyToEnd(key);
    var ok := cache.EvictLru();
    if !ok {
      return Failure(EvictFromEmpty);
    }
    return Success(Some(built.value));
  }

  /**
   * _get_calib_cached: the same rule with a single file time; `calibMtime` is
   * None when the calibration file does not exist and `loaded` is None when it
   * cannot be read.
   */
  method GetCalibCached(cache: LruCache<CalibEntry>, roleId: string, roiId: string,
                        recipeId: string, modelKey: string,
                        calibMtime: Option<real>, loaded: Option<map<string, string>>)
    returns (r: Result<Option<map<string, string>>, CacheError>)
    requires cache.Valid()
    modifies cache
    ensures cache.Valid()
    ensures var key := CacheKey(recipeId, modelKey, roleId, roiId);
      var c := old(cache.Model());
      if calibMtime.None? then
        r == Success(None) && cache.Model() == Pop(c, key)
      else if key in c.entries && c.entries[key].calibMtime == calibMtime.value then
        r == Success(Some(c.entries[key].calib)) && cache.Model() == MoveToEnd(c, key)
      else if loaded.None? then
        r == Success(None) && cache.Model() == Pop(c, key)
      else
        cache.Model() == Evict(MoveToEnd(Store(c, key, CalibEntry(loaded.value, calibMtime.value)), key), cache.maxEntries)
        && (cache.maxEntries >= 0 ==> r == Success(loaded))
        && (cache.maxEntries < 0 ==> r == Failure(EvictFromEmpty))
  {
    var key := CacheKey(recipeId, modelKey, roleId, roiId);
    if calibMtime.None? {
      cache.PopKey(key);
      return Success(None);
    }
    var entry := cache.Get(key);
    if entry.Some? && entry.value.calibMtime == calibMtime.value {
      cache.MoveKeyToEnd(key);
      return Success(Some(entry.value.calib));
    }
    if loaded.None? {
      cache.PopKey(key);
      return Success(None);
    }
    cache.Put(key, CalibEntry(loaded.value, calibMtime.value));
    cache.MoveKeyToEnd(key);
    var ok := cache.EvictLru();
    if !ok {
      return Failure(EvictFromEmpty);
    }
    return Success(loaded);
  }

  /** _invalidate_memory_cache and _invalidate_calib_cache: drop one key, keep every other entry. */
  method Invalidate<V>(cache: LruCache<V>, recipeId: string, modelKey: string, roleId: string, roiId: string)
    requires cache.Valid()
    modifies cache
    ensures cache.Valid()
    ensures cache.Model() == Pop(old(cache.Model()), CacheKey(recipeId, modelKey, roleId, roiId))
  {
    cache.PopKey(CacheKey(recipeId, modelKey, roleId, roiId));
  }

  // ---------------------------------------------------------------------
  // Request validators
  // ---------------------------------------------------------------------

  datatype HttpError = HttpError(status: int)

  /** _validate_mm_per_px: the scale must be finite and positive, else HTTP 400. */
  function ValidateMmPerPx(value: Double): (r: Result<real, HttpError>)
    ensures r.Success? <==> value.Finite? && value.v > 0.0
    ensures r.Success? ==> r.value == value.v
    ensures r.Failure? ==> r.error.status == 400
  {
    if !value.Finite? || value.v <= 0.0 then Failure(HttpError(400)) else Success(value.v)
  }

  /** A settings value as _is_truthy sees it: a bool, None, or anything else through its str(). */
  datatype PyValue = PyBool(b: bool) | PyNone | PyOther(str: string)

  const TruthyWords: set<string> := {"1", "true", "yes", "on"}

  /** _is_truthy. */
  function IsTruthy(value: PyValue): (r: bool)
    ensures value.PyBool? ==> r == value.b
    ensures value.PyNone? ==> !r
    ensures value.PyOther? ==> (r <==> Lower(PyStrip(value.str)) in TruthyWords)
  {
    match value
    case PyBool(b) => b
    case PyNone => false
    case PyOther(s) => Lower(PyStrip(s)) in TruthyWords
  }

  const RoiPrefixes: seq<string> := ["inspection-", "inspection_", "inspection "]

  /** `value` is one of the prefixes followed by a non-empty run of digits. */
  predicate PrefixedIndex(value: string, prefix: string)
  {
    StartsWith(value, prefix) && |value| > |prefix| && AllDigits(value[|prefix|..])
  }

  /** The digits after the first matching prefix, as _roi_index_guess parses them. */
  function GuessFromPrefixes(value: string, k: nat): (r: Option<nat>)
    requires k <= |RoiPrefixes|
    ensures r.Some? <==> exists j :: k <= j < |RoiPrefixes| && PrefixedIndex(value, RoiPrefixes[j])
    decreases |RoiPrefixes| - k
  {
    if k == |RoiPrefixes| then None
    else
      var p := RoiPrefixes[k];
      if StartsWith(value, p) then
        var tail := value[|p|..];
        if |tail| > 0 && AllDigits(tail) then Some(DigitsValue(tail))
        else
          // the prefixes differ in their last character, so no later one matches
          assert forall j :: k < j < |RoiPrefixes| ==> !StartsWith(value, RoiPrefixes[j]);
          None
      else GuessFromPrefixes(value, k + 1)
  }

  /** _roi_index_guess: the slot number of "inspection-N", "inspection_N" or "inspection N", ignoring case and outer spaces. */
  function RoiIndexGuess(roiId: string): (r: Option<nat>)
    ensures r.Some? <==> exists j :: 0 <= j < |RoiPrefixes| && PrefixedIndex(Lower(PyStrip(roiId)), RoiPrefixes[j])
  {
    GuessFromPrefixes(Lower(PyStrip(roiId)), 0)
  }

  /** A value that matches prefix `j` is parsed from the digits after that prefix. */
  lemma GuessAtPrefix(value: string, j: nat)
    requires j < |RoiPrefixes| && PrefixedIndex(value, RoiPrefixes[j])
    ensures GuessFromPrefixes(value, 0) == Some(DigitsValue(value[|RoiPrefixes[j]|..]))
  {
    if j > 0 {
      assert !StartsWith(value, RoiPrefixes[0]) by {
        assert value[10] == RoiPrefixes[j][10] != RoiPrefixes[0][10];
      }
    }
    if j > 1 {
      assert !StartsWith(value, RoiPrefixes[1]) by {
        assert value[10] == RoiPrefixes[j][10] != RoiPrefixes[1][10];
      }
    }
  }

  /** A string without upper-case letters is its own lower-case form. */
  lemma LowerOfLowerCase(s: string)
    requires forall i :: 0 <= i < |s| ==> !('A' <= s[i] <= 'Z')
    ensures Lower(s) == s
  {
    assert forall i :: 0 <= i < |s| ==> Lower(s)[i] == s[i];
  }

  /** A prefix followed by a decimal number is already stripped and lower-case. */
  lemma CanonicalRoiId(j: nat, n: nat)
    requires j < |RoiPrefixes|
    ensures Lower(PyStrip(RoiPrefixes[j] + NatToString(n))) == RoiPrefixes[j] + NatToString(n)
  {
    var p, digits := RoiPrefixes[j], NatToString(n);
    var s := p + digits;
    assert s[0] == 'i' && s[|s| - 1] == digits[|digits| - 1];
    PyStripOfUnpadded(s);
    assert forall i :: 0 <= i < |s| ==> !('A' <= s[i] <= 'Z') by {
      forall i | 0 <= i < |s| ensures !('A' <= s[i] <= 'Z') {
        if i >= |p| {
          assert s[i] == digits[i - |p|];
        }
      }
    }
    LowerOfLowerCase(s);
  }

  /** The slot number written after any of the prefixes is read back. */
  lemma RoiIndexGuessRoundTrip(j: nat, n: nat)
    requires j < |RoiPrefixes|
    ensures RoiIndexGuess(RoiPrefixes[j] + NatToString(n)) == Some(n)
  {
    var p, digits := RoiPrefixes[j], NatToString(n);
    var s := p + digits;
    CanonicalRoiId(j, n);
    assert s[|p|..] == digits;
    DigitsValueOfNatToString(n);
    GuessAtPrefix(s, j);
  }
}
