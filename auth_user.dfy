/**
 * The shared user-validation cache: the token check with retries, and the
 * transitions of the global cache (data, timestamp, isValidating) together
 * with what subscribers are told. The clock, the stored token and each
 * attempt's response are parameters.
 */
module AuthUser {
  import opened Common
  import opened JsStrings

  const CacheDuration: int := 60000
  const MaxRetries: nat := 2

  /**
   * What one request to the validation endpoint gave: an answer with its status, text and body (`None`
   * when the body is not JSON), or a thrown error with its `name` (`AbortError`, `TimeoutError`,
   * `TypeError`, ...).
   */
  datatype Attempt<B> = Answered(code: int, statusText: string, body: Option<B>) | Threw(name: string, message: string)

  /** How `validateTokenWithRetry` settles, and how many requests it made. */
  datatype Settled<B> = Resolved(body: B, attempts: nat) | Rejected(name: string, message: string, attempts: nat)

  /** `response.ok`. */
  predicate Ok(code: int) {
    200 <= code < 300
  }

  /** An OK answer whose JSON body is `body`. */
  ghost predicate Delivered<B>(a: Attempt<B>, body: B) {
    a.Answered? && Ok(a.code) && a.body.Some? && a.body.value == body
  }

  /** The error thrown for a non-OK status other than 429. */
  function HttpMessage(code: int, statusText: string): string {
    "HTTP " + IntToString(code) + ": " + statusText
  }

  function AddAttempts<B>(s: Settled<B>, extra: nat): (r: Settled<B>)
    ensures r.attempts == s.attempts + extra
    ensures r.Resolved? <==> s.Resolved?
    ensures r.Resolved? ==> r.body == s.body
    ensures r.Rejected? ==> r.name == s.name && r.message == s.message
  {
    match s
    case Resolved(b, n) => Resolved(b, n + extra)
    case Rejected(name, m, n) => Rejected(name, m, n + extra)
  }

  /** How the `try` block of one call ends when it does not hand over to a retry: its value or what it throws. */
  function TryBlock<B>(a: Attempt<B>): Settled<B> {
    match a
    case Answered(code, statusText, body) =>
      if code == 429 then Rejected("Error", "Rate limit exceeded", 1)
      else if !Ok(code) then Rejected("Error", HttpMessage(code, statusText), 1)
      else if body.Some? then Resolved(body.value, 1)
      else Rejected("SyntaxError", "Unexpected end of JSON input", 1)
    case Threw(name, message) => Rejected(name, message, 1)
  }

  /**
   * `validateTokenWithRetry(token, retries)`; `respond(i)` is the response to the i-th request. A 429 below
   * the retry limit returns the retry's promise straight from the `try`, so the `catch` does not see its
   * rejection; anything else the `try` throws is retried from the `catch` unless it is an abort or the
   * limit is reached.
   */
  function Retry<B>(respond: nat -> Attempt<B>, retries: nat, first: nat): (r: Settled<B>)
    requires retries <= MaxRetries
    ensures 1 <= r.attempts <= MaxRetries + 1 - retries
    ensures r.Resolved? ==> exists i :: first <= i < first + r.attempts && Delivered(respond(i), r.body)
    decreases MaxRetries - retries
  {
    var a := respond(first);
    if retries < MaxRetries && a.Answered? && a.code == 429 then
      AddAttempts(Retry(respond, retries + 1, first + 1), 1)
    else
      var tried := TryBlock(a);
      if tried.Rejected? && retries < MaxRetries && tried.name != "AbortError" then
        AddAttempts(Retry(respond, retries + 1, first + 1), 1)
      else tried
  }

  /** An abort is never retried: the first request's abort is the result. */
  lemma AbortNotRetried<B>(respond: nat -> Attempt<B>, retries: nat, first: nat, message: string)
    requires retries <= MaxRetries && respond(first) == Threw("AbortError", message)
    ensures Retry(respond, retries, first) == Rejected("AbortError", message, 1)
  {
  }

  /** A first answer that is OK with a JSON body is the result, without a retry. */
  lemma FirstSuccessIsFinal<B>(respond: nat -> Attempt<B>, retries: nat, first: nat)
    requires retries <= MaxRetries
    requires respond(first).Answered? && Ok(respond(first).code) && respond(first).body.Some?
    ensures Retry(respond, retries, first) == Resolved(respond(first).body.value, 1)
  {
  }

  /**
   * A call that keeps failing without an abort makes exactly one request per level left and reports the
   * last request's failure: `Rate limit exceeded` after 429s, the status line after other error statuses.
   */
  lemma {:induction false} AlwaysFailingMakesThreeAttempts<B>(respond: nat -> Attempt<B>, retries: nat, first: nat)
    requires retries <= MaxRetries
    requires forall i :: respond(i).Answered? && !Ok(respond(i).code)
    ensures var r := Retry(respond, retries, first);
            var last := respond(first + MaxRetries - retries);
            r.Rejected? && r.attempts == MaxRetries + 1 - retries
            && r.message == (if last.code == 429 then "Rate limit exceeded" else HttpMessage(last.code, last.statusText))
    decreases MaxRetries - retries
  {
    if retries < MaxRetries {
      AlwaysFailingMakesThreeAttempts(respond, retries + 1, first + 1);
      FailedAnswerRetried(respond, retries, first);
    } else {
      assert Retry(respond, retries, first) == TryBlock(respond(first));
    }
  }

  /** Below the limit, an answer with an error status hands over to the next request. */
  lemma FailedAnswerRetried<B>(respond: nat -> Attempt<B>, retries: nat, first: nat)
    requires retries < MaxRetries
    requires respond(first).Answered? && !Ok(respond(first).code)
    ensures Retry(respond, retries, first) == AddAttempts(Retry(respond, retries + 1, first + 1), 1)
  {
    if respond(first).code != 429 {
      assert TryBlock(respond(first)).name == "Error";
    }
  }

  /** The validation response carries the user, possibly missing. */
  datatype ValidationBody<U> = ValidationBody(usuario: Option<U>)

  /** What the synchronous part of `validateUser` did. */
  datatype Begin<U> = NoToken | FromCache(user: U) | AlreadyValidating | Started(token: string)

  /** A stored token is usable when it is present and not empty. */
  predicate HasToken(token: Option<string>) {
    token.Some? && token.value != ""
  }

  /**
   * The global cache and the stored token, together with the state of one mounted `useAuthUser` hook
   * (`usuario`, `loading`, `error`) whose `updateUser` is subscribed; `notified` lists what subscribers
   * were told, oldest first.
   */
  class UserCache<U> {
    var data: Option<U>
    var timestamp: int
    var isValidating: bool
    var token: Option<string>
    var notified: seq<Option<U>>
    var usuario: Option<U>
    var loading: bool
    var error: Option<string>

    /** A freshly mounted hook: no user yet, loading, no error. */
    constructor(token: Option<string>)
      ensures data == None && timestamp == 0 && !isValidating && this.token == token && notified == []
      ensures usuario == None && loading && error == None
    {
      data := None;
      timestamp := 0;
      isValidating := false;
      this.token := token;
      notified := [];
      usuario := None;
      loading := true;
      error := None;
    }

    /** Cached data younger than a minute is served without validating. */
    predicate Fresh(now: int)
      reads this
    {
      data.Some? && now - timestamp < CacheDuration
    }

    /** `isAuthenticated`: the hook holds a user and a token is stored. */
    predicate IsAuthenticated()
      reads this
      ensures IsAuthenticated() ==> usuario.Some?
      ensures token.None? || token == Some("") ==> !IsAuthenticated()
    {
      usuario.Some? && HasToken(token)
    }

    /** `notifySubscribers(user)` as the subscribed hook sees it: `updateUser` shows the user and ends loading and error. */
    method Notify(user: Option<U>)
      modifies this
      ensures notified == old(notified) + [user]
      ensures usuario == user && !loading && error == None
      ensures data == old(data) && timestamp == old(timestamp) && isValidating == old(isValidating) && token == old(token)
    {
      notified := notified + [user];
      usuario := user;
      loading := false;
      error := None;
    }

    /**
     * The part of `validateUser` before the request: no token clears the cache and tells everyone `null`;
     * fresh data is shown by this hook alone; a validation in progress starts nothing here; otherwise a
     * validation starts and the hook shows it is loading.
     */
    method BeginValidation(now: int) returns (step: Begin<U>)
      modifies this
      ensures token == old(token)
      ensures !HasToken(old(token)) ==>
                step == NoToken && data == None && timestamp == 0 && notified == old(notified) + [None]
                && isValidating == old(isValidating) && usuario == None && !loading && error == None
      ensures HasToken(old(token)) && old(Fresh(now)) ==>
                step == FromCache(old(data).value) && usuario == old(data) && !loading && error == None
                && data == old(data) && timestamp == old(timestamp) && isValidating == old(isValidating)
                && notified == old(notified)
      ensures HasToken(old(token)) && !old(Fresh(now)) && old(isValidating) ==>
                step == AlreadyValidating && unchanged(this)
      ensures HasToken(old(token)) && !old(Fresh(now)) && !old(isValidating) ==>
                step == Started(old(token).value) && isValidating && loading && error == None
                && data == old(data) && timestamp == old(timestamp) && notified == old(notified)
                && usuario == old(usuario)
    {
      if !HasToken(token) {
        data := None;
        timestamp := 0;
        Notify(None);
        return NoToken;
      }
      if data.Some? && now - timestamp < CacheDuration {
        usuario := data;
        loading := false;
        error := None;
        return FromCache(data.value);
      }
      if isValidating {
        return AlreadyValidating;
      }
      isValidating := true;
      loading := true;
      error := None;
      return Started(token.value);
    }

    /**
     * The part of `validateUser` after the request settled at `now`: success stores the user with the time
     * and tells everyone; failure clears the cache, tells everyone `null`, and drops the token when the
     * message mentions 401 or 403. Either way the validation is over and the hook stops loading. The
     * failure's message, set as the hook's error, is cleared again by the `null` notification that follows.
     */
    method FinishValidation(result: Settled<ValidationBody<U>>, now: int)
      modifies this
      ensures !isValidating && !loading && error == None
      ensures result.Resolved? ==>
                data == result.body.usuario && timestamp == now && notified == old(notified) + [result.body.usuario]
                && usuario == result.body.usuario && token == old(token)
      ensures result.Resolved? && result.body.usuario.Some? ==> forall t :: now <= t < now + CacheDuration ==> Fresh(t)
      ensures result.Rejected? ==>
                data == None && timestamp == 0 && notified == old(notified) + [None] && usuario == None
                && token == if Contains(result.message, "401") || Contains(result.message, "403") then None else old(token)
      ensures result.Rejected? ==> !IsAuthenticated()
    {
      match result {
        case Resolved(body, _) =>
          data := body.usuario;
          timestamp := now;
          Notify(body.usuario);
        case Rejected(_, message, _) =>
          data := None;
          timestamp := 0;
          error := Some(message);
          Notify(None);
          if Contains(message, "401") || Contains(message, "403") {
            token := None;
          }
      }
      isValidating := false;
      loading := false;
    }

    /** `revalidate`: forget the user and any validation in progress; with a token the hook shows it is loading. */
    method Revalidate()
      modifies this
      ensures data == None && timestamp == 0 && !isValidating
      ensures token == old(token) && notified == old(notified) && usuario == old(usuario)
      ensures HasToken(token) ==> loading && error == None
      ensures !HasToken(token) ==> loading == old(loading) && error == old(error)
    {
      data := None;
      timestamp := 0;
      isValidating := false;
      if HasToken(token) {
        loading := true;
        error := None;
      }
    }

    /** `clearUserCache`: forget the user and any validation in progress, and tell everyone `null`. */
    method ClearUserCache()
      modifies this
      ensures data == None && timestamp == 0 && !isValidating && !Fresh(timestamp)
      ensures token == old(token) && notified == old(notified) + [None]
      ensures usuario == None && !IsAuthenticated()
    {
      data := None;
      timestamp := 0;
      isValidating := false;
      Notify(None);
    }
  }

  /** A 401 or 403 answer, once the retries give up, is a failure whose message makes the token be dropped. */
  lemma AuthFailureDropsToken(code: int, statusText: string)
    requires code == 401 || code == 403
    ensures var m := HttpMessage(code, statusText);
            Contains(m, "401") || Contains(m, "403")
  {
    var digits := IntToString(code);
    assert code == 401 ==> digits == "401";
    assert code == 403 ==> digits == "403";
    ContainsItself(digits, "HTTP ", ": " + statusText);
    assert "HTTP " + digits + (": " + statusText) == HttpMessage(code, statusText);
  }

  /** A token the server keeps refusing with 401 or 403 ends, after three requests, in a failure that drops it. */
  lemma RefusedTokenIsDropped<B>(respond: nat -> Attempt<B>)
    requires forall i :: respond(i).Answered? && (respond(i).code == 401 || respond(i).code == 403)
    ensures var r := Retry(respond, 0, 0);
            r.Rejected? && r.attempts == 3 && (Contains(r.message, "401") || Contains(r.message, "403"))
  {
    AlwaysFailingMakesThreeAttempts(respond, 0, 0);
    AuthFailureDropsToken(respond(2).code, respond(2).statusText);
  }
}
