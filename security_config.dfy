/**
 * The centralised API configuration: `buildApiUrl`, which appends the
 * non-null query parameters to the base URL and endpoint, and the plain
 * `tokenManager` over the `token`, `nombre` and `rol` storage entries.
 */
module SecurityConfig {
  import opened Common
  import opened JsStrings

  /** One `[key, value]` entry of the params object; `None` is null or undefined. */
  datatype Param = Param(key: string, value: Option<string>)

  predicate HasValue(p: Param) {
    p.value.Some?
  }

  /** The `key=value` text `URLSearchParams` emits for one appended pair. */
  function PairText(key: string, value: string): string {
    key + "=" + value
  }

  /** The pairs appended by the `forEach`, entry by entry: null and undefined values are skipped. */
  function Pairs(params: seq<Param>): (r: seq<string>)
    ensures |r| <= |params|
    decreases |params|
  {
    if params == [] then []
    else
      var last := params[|params| - 1];
      Pairs(params[..|params| - 1]) + (if last.value.Some? then [PairText(last.key, last.value.value)] else [])
  }

  /** The pair of each entry, all of which have a value. */
  function PairTexts(kept: seq<Param>): (r: seq<string>)
    requires forall i :: 0 <= i < |kept| ==> kept[i].value.Some?
    ensures |r| == |kept|
    ensures forall i :: 0 <= i < |kept| ==> r[i] == PairText(kept[i].key, kept[i].value.value)
  {
    seq(|kept|, i requires 0 <= i < |kept| && kept[i].value.Some? => PairText(kept[i].key, kept[i].value.value))
  }

  lemma PairTextsConcat(a: seq<Param>, b: seq<Param>)
    requires forall i :: 0 <= i < |a| ==> a[i].value.Some?
    requires forall i :: 0 <= i < |b| ==> b[i].value.Some?
    ensures forall i :: 0 <= i < |a + b| ==> (a + b)[i].value.Some?
    ensures PairTexts(a + b) == PairTexts(a) + PairTexts(b)
  {
    assert forall i :: 0 <= i < |a + b| ==> (a + b)[i] == if i < |a| then a[i] else b[i - |a|];
  }

  /** The pairs are those of the entries that have a value, in entry order. */
  lemma {:induction false} PairsOfKept(params: seq<Param>)
    ensures Pairs(params) == PairTexts(Filter(params, HasValue))
    decreases |params|
  {
    if params != [] {
      PairsOfKept(params[..|params| - 1]);
      KeptSnoc(params);
    }
  }

  /** Keeping the entries with a value commutes with taking off the last entry. */
  lemma KeptSnoc(params: seq<Param>)
    requires params != []
    ensures var init := params[..|params| - 1];
            var last := params[|params| - 1];
            PairTexts(Filter(params, HasValue))
              == PairTexts(Filter(init, HasValue)) + (if last.value.Some? then [PairText(last.key, last.value.value)] else [])
  {
    var init := params[..|params| - 1];
    var last := params[|params| - 1];
    assert params == init + [last];
    FilterConcat(init, [last], HasValue);
    var tail := Filter([last], HasValue);
    assert tail == if last.value.Some? then [last] else [];
    PairTextsConcat(Filter(init, HasValue), tail);
  }

  /** Every entry with a value contributes a pair, so none is lost. */
  lemma {:induction false} PairsKeepValues(params: seq<Param>, i: nat)
    requires i < |params| && params[i].value.Some?
    ensures PairText(params[i].key, params[i].value.value) in Pairs(params)
    decreases |params|
  {
    if i < |params| - 1 {
      PairsKeepValues(params[..|params| - 1], i);
    }
  }

  /** No pair is produced exactly when every value is null or undefined. */
  lemma {:induction false} PairsEmpty(params: seq<Param>)
    ensures Pairs(params) == [] <==> forall i :: 0 <= i < |params| ==> params[i].value.None?
    decreases |params|
  {
    if params != [] {
      PairsEmpty(params[..|params| - 1]);
      assert forall i :: 0 <= i < |params| - 1 ==> params[..|params| - 1][i] == params[i];
    }
  }

  /** `buildApiUrl` as a value: the query is added only when at least one pair was appended. */
  function ApiUrl(base: string, endpoint: string, params: Option<seq<Param>>): (r: string)
    ensures |r| >= |base + endpoint| && r[..|base + endpoint|] == base + endpoint
    ensures r == base + endpoint <==> params.None? || Pairs(params.value) == []
    ensures r != base + endpoint ==> r[|base + endpoint|] == '?'
    ensures params.Some? && Pairs(params.value) != [] ==> r[|base + endpoint| + 1..] == Join(Pairs(params.value), "&")
  {
    var pairs := if params.Some? then Pairs(params.value) else [];
    base + endpoint + (if pairs == [] then "" else "?" + Join(pairs, "&"))
  }

  /**
   * `buildApiUrl(endpoint, params)`: the loop over `Object.entries(params)`
   * appends each non-null value; a non-empty query string is added after `?`.
   */
  method BuildApiUrl(base: string, endpoint: string, params: Option<seq<Param>>) returns (url: string)
    ensures url == ApiUrl(base, endpoint, params)
  {
    url := base + endpoint;
    if params.Some? {
      var entries := params.value;
      var query: seq<string> := [];
      var i := 0;
      while i < |entries|
        invariant 0 <= i <= |entries|
        invariant query == Pairs(entries[..i])
      {
        var entry := entries[i];
        assert entries[..i + 1][..i] == entries[..i];
        if entry.value.Some? {
          query := query + [PairText(entry.key, entry.value.value)];
        }
        i := i + 1;
      }
      assert entries[..i] == entries;
      if query != [] {
        url := url + "?" + Join(query, "&");
      }
    }
  }

  /** The URL is the bare base and endpoint exactly when there are no params or every value is null. */
  lemma BareUrlIffNoValues(base: string, endpoint: string, params: Option<seq<Param>>)
    ensures ApiUrl(base, endpoint, params) == base + endpoint
      <==> params.None? || forall i :: 0 <= i < |params.value| ==> params.value[i].value.None?
  {
    if params.Some? {
      PairsEmpty(params.value);
    }
  }

  /** The `Authorization` header built from a token. */
  function BearerHeader(token: string): map<string, string> {
    map["Authorization" := "Bearer " + token]
  }

  /** `tokenManager`: the three entries it touches in `localStorage`; a value is `None` when the key is absent. */
  class TokenStore {
    var token: Option<string>
    var nombre: Option<string>
    var rol: Option<string>

    constructor(token: Option<string>, nombre: Option<string>, rol: Option<string>)
      ensures this.token == token && this.nombre == nombre && this.rol == rol
    {
      this.token := token;
      this.nombre := nombre;
      this.rol := rol;
    }

    /** `get`: the stored token unless it is missing, empty or only whitespace. */
    function Get(): (r: Option<string>)
      reads this
      ensures r.Some? <==> token.Some? && !IsBlank(token.value)
      ensures r.Some? ==> r == token
    {
      if token.Some? && Trim(token.value) != "" then token else None
    }

    /** `set`: only a string that is not blank is stored; anything else is refused. */
    method Set(value: Option<string>) returns (ok: bool)
      modifies this
      ensures ok <==> value.Some? && !IsBlank(value.value)
      ensures ok ==> token == value && Get() == value
      ensures !ok ==> token == old(token)
      ensures nombre == old(nombre) && rol == old(rol)
    {
      if value.Some? && value.value != "" && Trim(value.value) != "" {
        token := value;
        ok := true;
      } else {
        ok := false;
      }
    }

    /** `remove`: the token, the name and the role are all deleted. */
    method Remove() returns (ok: bool)
      modifies this
      ensures ok && token.None? && nombre.None? && rol.None?
      ensures Get().None?
    {
      token := None;
      nombre := None;
      rol := None;
      ok := true;
    }

    /** `getHeaders`: a bearer header when `get` yields a token, otherwise no header at all. */
    function GetHeaders(): (h: map<string, string>)
      reads this
      ensures |h| == 0 <==> Get().None?
      ensures Get().Some? ==> h == BearerHeader(Get().value)
    {
      match Get()
      case Some(t) => BearerHeader(t)
      case None => map[]
    }
  }
}
