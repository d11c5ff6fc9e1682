/**
 * `SecureTokenManager`: the session's token record in browser storage, its
 * JWT shape check, its expiry arithmetic, the refresh call, and the set of
 * listeners told about every store and clear.
 */
module SecureAuth {
  import opened Common
  import opened JsStrings

  /** The refresh margin: a token counts as expired one minute before its expiry. */
  const ExpiryMargin := 60000
  /** The lifetime taken when the token carries no usable `exp` claim (one hour). */
  const DefaultLifetime := 3600000

  /** `token.split('.')` has three parts and none of them is empty. */
  predicate IsValidJwtFormat(token: string)
    ensures IsValidJwtFormat(token) ==> |token| >= 5 && token[0] != '.' && token[|token| - 1] != '.'
  {
    var parts := Split(token, '.');
    JoinThree(parts, '.');
    |parts| == 3 && forall i :: 0 <= i < |parts| ==> |parts[i]| > 0
  }

  /** Joining three pieces puts a separator between the first and second and between the second and third. */
  lemma JoinThree(parts: seq<string>, sep: char)
    ensures |parts| == 3 ==> Join(parts, [sep]) == parts[0] + [sep] + parts[1] + [sep] + parts[2]
  {
    if |parts| == 3 {
      assert Join(parts[2..], [sep]) == parts[2];
      assert Join(parts[1..], [sep]) == parts[1] + [sep] + parts[2];
    }
  }

  /** A token accepted by the shape check is three non-empty dot-free pieces joined by dots. */
  lemma JwtFormatParts(token: string)
    requires IsValidJwtFormat(token)
    ensures var p := Split(token, '.');
      token == p[0] + "." + p[1] + "." + p[2]
      && p[0] != "" && p[1] != "" && p[2] != ""
      && '.' !in p[0] && '.' !in p[1] && '.' !in p[2]
  {
    var p := Split(token, '.');
    assert Join(p[2..], ".") == p[2];
    assert Join(p[1..], ".") == p[1] + "." + p[2];
  }

  /** Conversely, three non-empty dot-free pieces joined by dots pass the shape check. */
  lemma PartsJwtFormat(header: string, payload: string, signature: string)
    requires header != "" && payload != "" && signature != ""
    requires '.' !in header && '.' !in payload && '.' !in signature
    ensures IsValidJwtFormat(header + "." + payload + "." + signature)
  {
    var token := header + "." + payload + "." + signature;
    assert token == header + ['.'] + (payload + ['.'] + signature);
    SplitThree(header, payload, signature, '.');
    var parts := Split(token, '.');
    assert parts == [header, payload, signature];
  }

  /** The claims decoded from the token's middle piece; `exp` is absent when `None`. */
  datatype JwtPayload = JwtPayload(exp: Option<int>)

  /**
   * `getTokenExpiry`: a truthy `exp` claim (seconds) gives `exp * 1000`; no claim,
   * a zero claim or an undecodable payload gives one hour from now.
   */
  function TokenExpiry(payload: Option<JwtPayload>, now: int): (r: int)
    ensures payload.Some? && payload.value.exp.Some? && payload.value.exp.value != 0 ==> r == payload.value.exp.value * 1000
    ensures !(payload.Some? && payload.value.exp.Some? && payload.value.exp.value != 0) ==> r == now + DefaultLifetime
  {
    match payload
    case Some(JwtPayload(Some(exp))) => if exp != 0 then exp * 1000 else now + DefaultLifetime
    case _ => now + DefaultLifetime
  }

  /** The JSON record kept under `auth_data`; `expiresAt` is `None` when it is missing or not a number. */
  datatype TokenData = TokenData(token: string, refreshToken: Option<string>, timestamp: int, expiresAt: Option<int>)

  /** The content of the storage slot: a record, or text that does not parse as one. */
  datatype Stored = Parsed(data: TokenData) | Unreadable

  /** `isTokenExpired`: a truthy `expiresAt` minus the margin is not after now. */
  predicate Expired(data: TokenData, now: int)
    ensures data.expiresAt.None? || data.expiresAt == Some(0) ==> !Expired(data, now)
    ensures data.expiresAt.Some? && data.expiresAt.value != 0 ==>
              (Expired(data, now) <==> data.expiresAt.value <= now + ExpiryMargin)
  {
    data.expiresAt.Some? && data.expiresAt.value != 0 && data.expiresAt.value - ExpiryMargin <= now
  }

  /** Once expired, a record stays expired as the clock moves forward. */
  lemma ExpiredStaysExpired(data: TokenData, now: int, later: int)
    requires Expired(data, now) && now <= later
    ensures Expired(data, later)
  {
  }

  /**
   * The life of a record written by `set` at `setAt` (a clock reading, never
   * negative): with an `exp` claim it expires a minute before `exp`; without
   * one it is usable for 59 minutes.
   */
  lemma StoredTokenLifetime(payload: Option<JwtPayload>, token: string, refresh: Option<string>, setAt: nat, now: int)
    ensures var data := TokenData(token, refresh, setAt, Some(TokenExpiry(payload, setAt)));
      if payload.Some? && payload.value.exp.Some? && payload.value.exp.value != 0 then
        Expired(data, now) <==> now >= payload.value.exp.value * 1000 - ExpiryMargin
      else
        Expired(data, now) <==> now >= setAt + DefaultLifetime - ExpiryMargin
  {
  }

  /** What a listener is told. */
  datatype TokenEvent = TokenSet(token: string) | TokenCleared

  /** One `notifyListeners` call: the event and the listeners registered at that moment. */
  datatype Notification = Notification(event: TokenEvent, listeners: set<nat>)

  /** The reply to the refresh request: a failure (network or non-OK status) or the parsed body. */
  datatype RefreshReply = RefreshFailed(message: string) | Refreshed(token: string, refreshToken: Option<string>)

  /** The settled promise of `refreshToken()`. */
  datatype RefreshOutcome = Resolved(token: string) | Rejected(message: string)

  /**
   * The token manager; listeners are identified by number, and `notifications`
   * records every notification in order.
   */
  class SecureTokenManager {
    var stored: Option<Stored>
    var listeners: set<nat>
    var notifications: seq<Notification>

    /** A manager over storage that may already hold a record from an earlier page. */
    constructor(initial: Option<Stored>)
      ensures stored == initial && listeners == {} && notifications == []
    {
      stored := initial;
      listeners := {};
      notifications := [];
    }

    /** `notifyListeners`: every registered listener is called with the event; a throwing one is skipped. */
    method NotifyListeners(event: TokenEvent)
      modifies this
      ensures stored == old(stored) && listeners == old(listeners)
      ensures notifications == old(notifications) + [Notification(event, listeners)]
    {
      notifications := notifications + [Notification(event, listeners)];
    }

    /**
     * `set`: an empty or malformed token is refused and nothing changes;
     * otherwise the record is written and `token_set` is announced.
     */
    method Set(token: string, refreshToken: Option<string>, now: int, payload: Option<JwtPayload>) returns (ok: bool)
      modifies this
      ensures ok <==> token != "" && IsValidJwtFormat(token)
      ensures !ok ==> stored == old(stored) && listeners == old(listeners) && notifications == old(notifications)
      ensures ok ==> stored == Some(Parsed(TokenData(token, refreshToken, now, Some(TokenExpiry(payload, now)))))
      ensures ok ==> listeners == old(listeners) && notifications == old(notifications) + [Notification(TokenSet(token), listeners)]
    {
      if token == "" {
        return false;
      }
      if !IsValidJwtFormat(token) {
        return false;
      }
      stored := Some(Parsed(TokenData(token, refreshToken, now, Some(TokenExpiry(payload, now)))));
      NotifyListeners(TokenSet(token));
      ok := true;
    }

    /** `clear`: the record is removed and `token_cleared` is announced. */
    method Clear() returns (ok: bool)
      modifies this
      ensures ok && stored == None && listeners == old(listeners)
      ensures notifications == old(notifications) + [Notification(TokenCleared, listeners)]
    {
      stored := None;
      NotifyListeners(TokenCleared);
      ok := true;
    }

    /**
     * `get`: the stored token while it is not expired; an expired or unreadable
     * record is cleared and gives null; an empty slot gives null and changes nothing.
     */
    method Get(now: int) returns (token: Option<string>)
      modifies this
      ensures listeners == old(listeners)
      ensures old(stored).None? ==> token.None? && stored == old(stored) && notifications == old(notifications)
      ensures old(stored) == Some(Unreadable) || (old(stored).Some? && old(stored).value.Parsed? && Expired(old(stored).value.data, now)) ==>
        token.None? && stored.None? && notifications == old(notifications) + [Notification(TokenCleared, listeners)]
      ensures old(stored).Some? && old(stored).value.Parsed? && !Expired(old(stored).value.data, now) ==>
        token == Some(old(stored).value.data.token) && stored == old(stored) && notifications == old(notifications)
    {
      match stored
      case None =>
        token := None;
      case Some(Unreadable) =>
        var _ := Clear();
        token := None;
      case Some(Parsed(data)) =>
        if Expired(data, now) {
          var _ := Clear();
          token := None;
        } else {
          token := Some(data.token);
        }
    }

    /** `isValid`: whether `get` yields a token (clearing an expired record on the way). */
    method IsValid(now: int) returns (valid: bool)
      modifies this
      ensures valid <==> old(stored).Some? && old(stored).value.Parsed? && !Expired(old(stored).value.data, now)
      ensures valid ==> stored == old(stored) && notifications == old(notifications)
      ensures listeners == old(listeners)
    {
      var token := Get(now);
      valid := token.Some?;
    }

    /** A readable record with a non-empty refresh token is stored. */
    predicate HoldsRefreshToken()
      reads this
    {
      stored.Some? && stored.value.Parsed? && stored.value.data.refreshToken.Some? && stored.value.data.refreshToken.value != ""
    }

    /** `getRefreshToken`: the stored refresh token when there is a readable record and it is non-empty; expiry is not checked. */
    method GetRefreshToken() returns (refresh: Option<string>)
      ensures refresh.Some? <==> (stored.Some? && stored.value.Parsed?
        && stored.value.data.refreshToken.Some? && stored.value.data.refreshToken.value != "")
      ensures refresh.Some? ==> refresh == stored.value.data.refreshToken
    {
      refresh := None;
      if stored.Some? && stored.value.Parsed? {
        var r := stored.value.data.refreshToken;
        if r.Some? && r.value != "" {
          refresh := r;
        }
      }
    }

    /** `addListener`: registers the listener; the returned remover is `RemoveListener` on the same one. */
    method AddListener(callback: nat)
      modifies this
      ensures listeners == old(listeners) + {callback}
      ensures stored == old(stored) && notifications == old(notifications)
    {
      listeners := listeners + {callback};
    }

    /** The remover returned by `addListener`: deletes exactly that listener and keeps the rest. */
    method RemoveListener(callback: nat)
      modifies this
      ensures listeners == old(listeners) - {callback}
      ensures stored == old(stored) && notifications == old(notifications)
    {
      listeners := listeners - {callback};
    }

    /**
     * `refreshToken`: without a refresh token it rejects and changes nothing; a failed
     * request clears the record and rejects; a reply is handed to `set`, whose refusal
     * is ignored, and its token resolves the call.
     */
    method RefreshToken(reply: RefreshReply, now: int, payload: Option<JwtPayload>) returns (outcome: RefreshOutcome)
      modifies this
      ensures listeners == old(listeners)
      ensures !(old(stored).Some? && old(stored).value.Parsed? && old(stored).value.data.refreshToken.Some?
                && old(stored).value.data.refreshToken.value != "") ==>
        outcome == Rejected("No hay refresh token disponible") && stored == old(stored) && notifications == old(notifications)
      ensures outcome.Resolved? ==> reply.Refreshed? && outcome.token == reply.token
      ensures outcome.Resolved? && reply.token != "" && IsValidJwtFormat(reply.token) ==>
        stored == Some(Parsed(TokenData(reply.token, reply.refreshToken, now, Some(TokenExpiry(payload, now)))))
      ensures outcome.Resolved? && !(reply.token != "" && IsValidJwtFormat(reply.token)) ==>
        stored == old(stored) && notifications == old(notifications)
      ensures outcome.Rejected? && outcome.message != "No hay refresh token disponible" ==>
        reply.RefreshFailed? && stored.None?
      ensures old(HoldsRefreshToken()) && reply.RefreshFailed? ==>
        outcome == Rejected(reply.message) && stored.None?
        && notifications == old(notifications) + [Notification(TokenCleared, listeners)]
      ensures old(HoldsRefreshToken()) && reply.Refreshed? ==> outcome == Resolved(reply.token)
      ensures outcome.Resolved? && reply.token != "" && IsValidJwtFormat(reply.token) ==>
        notifications == old(notifications) + [Notification(TokenSet(reply.token), listeners)]
    {
      var refresh := GetRefreshToken();
      if refresh.None? {
        return Rejected("No hay refresh token disponible");
      }
      match reply
      case RefreshFailed(message) =>
        var _ := Clear();
        outcome := Rejected(message);
      case Refreshed(token, newRefresh) =>
        var _ := Set(token, newRefresh, now, payload);
        outcome := Resolved(token);
    }
  }
}
