/**
 * The attendance-list hook: a parameter guard, a module-wide cache keyed by
 * "<subalmacenId>-<fecha>" whose entries stay fresh for 30 seconds, the
 * handling of each request outcome, and the manual cache clear. The clock and
 * the response are parameters.
 */
module AsistenciasFetch {
  import opened Common
  import opened CivilDates

  const CacheDuration: int := 30000

  datatype CacheEntry<T> = CacheEntry(data: seq<T>, timestamp: int)

  /** How a request ended: a 401, another non-OK status, an OK body (`None` when it is not an array), an abort, or a failure to fetch or parse. */
  datatype Outcome<T> = Unauthorized | HttpError(status: int) | Body(rows: Option<seq<T>>) | Aborted | Failed

  /** A falsy route parameter: missing or the empty string. */
  predicate Falsy(p: Option<string>) {
    p.None? || p.value == ""
  }

  /** The guard of `fetchAsistencias`: both parameters present and the date shaped `\d{4}-\d{2}-\d{2}`. */
  predicate ValidParams(subalmacenId: Option<string>, fecha: Option<string>) {
    !Falsy(subalmacenId) && !Falsy(fecha) && HasDateShape(fecha.value)
  }

  /** `${subalmacenId}-${fecha}`. */
  function CacheKey(subalmacenId: string, fecha: string): (key: string)
    ensures |key| == |subalmacenId| + 1 + |fecha|
    ensures key[..|subalmacenId|] == subalmacenId && key[|subalmacenId|] == '-' && key[|subalmacenId| + 1..] == fecha
  {
    subalmacenId + "-" + fecha
  }

  /** With a ten-character date, the key determines both parameters. */
  lemma CacheKeyInjective(s1: string, f1: string, s2: string, f2: string)
    requires HasDateShape(f1) && HasDateShape(f2)
    requires CacheKey(s1, f1) == CacheKey(s2, f2)
    ensures s1 == s2 && f1 == f2
  {
    var k := CacheKey(s1, f1);
    assert |s1| == |s2|;
    assert s1 == k[..|s1|] == s2;
    assert f1 == k[|s1| + 1..] == f2;
  }

  /** An entry younger than `CacheDuration` is served without a request. */
  predicate Fresh<T>(cache: map<string, CacheEntry<T>>, key: string, now: int) {
    key in cache && now - cache[key].timestamp < CacheDuration
  }

  /** What `fetchAsistencias` did: rejected its parameters, served the cache, or sent a request for the key. */
  datatype Action = Rejected | Served | Requested(key: string)

  /** The module-wide cache together with one hook instance's state. */
  class AsistenciasHook<T> {
    var cache: map<string, CacheEntry<T>>
    var asistencias: seq<T>
    var loading: bool
    /** Whether `abortControllerRef.current` holds a controller. */
    var hasController: bool

    constructor()
      ensures cache == map[] && asistencias == [] && loading && !hasController
    {
      cache := map[];
      asistencias := [];
      loading := true;
      hasController := false;
    }

    /**
     * `fetchAsistencias` at time `now`. `aborted` tells whether a previous controller was aborted.
     * Invalid parameters clear the list and stop loading; a fresh cache entry is shown without a request;
     * otherwise loading starts and a request for the key goes out.
     */
    method FetchAsistencias(subalmacenId: Option<string>, fecha: Option<string>, now: int) returns (action: Action, aborted: bool)
      modifies this
      ensures cache == old(cache)
      ensures !ValidParams(subalmacenId, fecha) ==>
                action == Rejected && !aborted && asistencias == [] && !loading && hasController == old(hasController)
      ensures ValidParams(subalmacenId, fecha) ==> aborted == old(hasController) && hasController
      ensures ValidParams(subalmacenId, fecha) && Fresh(old(cache), CacheKey(subalmacenId.value, fecha.value), now) ==>
                action == Served && asistencias == old(cache)[CacheKey(subalmacenId.value, fecha.value)].data && !loading
      ensures ValidParams(subalmacenId, fecha) && !Fresh(old(cache), CacheKey(subalmacenId.value, fecha.value), now) ==>
                action == Requested(CacheKey(subalmacenId.value, fecha.value)) && asistencias == old(asistencias) && loading
    {
      if Falsy(subalmacenId) || Falsy(fecha) || !HasDateShape(fecha.value) {
        loading := false;
        asistencias := [];
        return Rejected, false;
      }
      aborted := hasController;
      hasController := true;
      var key := CacheKey(subalmacenId.value, fecha.value);
      if key in cache && now - cache[key].timestamp < CacheDuration {
        asistencias := cache[key].data;
        loading := false;
        return Served, aborted;
      }
      loading := true;
      action := Requested(key);
    }

    /**
     * The request for `key` ends with `outcome` at time `now`. A 401 and an OK body both store the rows
     * (an empty list for a 401 or a body that is not an array) under the key with the time; an error
     * empties the list and leaves the cache; an abort changes neither. Loading always stops and the
     * controller is dropped.
     */
    method Complete(key: string, outcome: Outcome<T>, now: int)
      modifies this
      ensures !loading && !hasController
      ensures outcome.Unauthorized? ==> asistencias == [] && cache == old(cache)[key := CacheEntry([], now)]
      ensures outcome.Body? ==> asistencias == outcome.rows.GetOr([]) && cache == old(cache)[key := CacheEntry(outcome.rows.GetOr([]), now)]
      ensures outcome.HttpError? || outcome.Failed? ==> asistencias == [] && cache == old(cache)
      ensures outcome.Aborted? ==> asistencias == old(asistencias) && cache == old(cache)
    {
      match outcome {
        case Unauthorized =>
          asistencias := [];
          loading := false;
          cache := cache[key := CacheEntry([], now)];
        case Body(rows) =>
          var data := if rows.Some? then rows.value else [];
          cache := cache[key := CacheEntry(data, now)];
          asistencias := data;
        case HttpError(_) =>
          asistencias := [];
        case Failed =>
          asistencias := [];
        case Aborted =>
      }
      loading := false;
      hasController := false;
    }

    /** `clearCache`: forget the entry of the current parameters and nothing else. */
    method ClearCache(subalmacenId: string, fecha: string)
      modifies this
      ensures cache == old(cache) - {CacheKey(subalmacenId, fecha)}
      ensures asistencias == old(asistencias) && loading == old(loading) && hasController == old(hasController)
    {
      cache := cache - {CacheKey(subalmacenId, fecha)};
    }
  }

  /** An entry stored at `t` is served exactly while less than 30 seconds have passed. */
  lemma StoredEntryFreshness<T>(cache: map<string, CacheEntry<T>>, key: string, data: seq<T>, t: int, now: int)
    ensures Fresh(cache[key := CacheEntry(data, t)], key, now) <==> now < t + CacheDuration
  {
  }

  /** Clearing one key leaves every other entry served as before. */
  lemma ClearKeepsOtherEntries<T>(cache: map<string, CacheEntry<T>>, key: string, other: string, now: int)
    requires other != key
    ensures Fresh(cache - {key}, other, now) <==> Fresh(cache, other, now)
    ensures !Fresh(cache - {key}, key, now)
  {
  }
}
