/**
 * The central error manager: a newest-first error history capped at 50
 * entries, handlers registered per error type (plus the catch-all type "*"),
 * the statistics over the history, and the classification helpers that turn
 * an HTTP response into an application error and decide how to present it.
 */
module ErrorManagement {
  import opened Common
  import opened JsStrings

  const MaxHistorySize: nat := 50

  /** The fields of a reported error that the manager reads. */
  datatype ErrorReport = ErrorReport(errType: string, message: string)

  /** A history entry: the report plus its generated id. */
  datatype Entry = Entry(report: ErrorReport, id: string)

  /** Handlers are compared by identity; a handler is its identity here. */
  type HandlerId = nat

  /** The history after `addToHistory`: the new entry in front, cut to the first 50. */
  function Pushed(history: seq<Entry>, e: Entry): (r: seq<Entry>)
    ensures 1 <= |r| <= MaxHistorySize
    ensures |r| == if |history| < MaxHistorySize then |history| + 1 else MaxHistorySize
    ensures r[0] == e
    ensures r[1..] == history[..|r| - 1]
  {
    var grown := [e] + history;
    if |grown| > MaxHistorySize then grown[..MaxHistorySize] else grown
  }

  /** The handlers registered for a type, `[]` for a type never registered. */
  function HandlersOf(handlers: map<string, seq<HandlerId>>, errType: string): seq<HandlerId> {
    if errType in handlers then handlers[errType] else []
  }

  /** The order in which `handleError` calls handlers: those of the error's type, then the catch-all ones. */
  function Dispatch(handlers: map<string, seq<HandlerId>>, errType: string): (calls: seq<HandlerId>)
    ensures |calls| == |HandlersOf(handlers, errType)| + |HandlersOf(handlers, "*")|
    ensures calls[..|HandlersOf(handlers, errType)|] == HandlersOf(handlers, errType)
    ensures calls[|HandlersOf(handlers, errType)|..] == HandlersOf(handlers, "*")
  {
    HandlersOf(handlers, errType) + HandlersOf(handlers, "*")
  }

  /** The error types of the history, newest first. */
  function Types(history: seq<Entry>): (ts: seq<string>)
    ensures |ts| == |history|
    ensures forall i :: 0 <= i < |history| ==> ts[i] == history[i].report.errType
  {
    seq(|history|, i requires 0 <= i < |history| => history[i].report.errType)
  }

  /** `getErrorStats`. */
  datatype Stats = Stats(total: nat, byType: map<string, nat>, recent: seq<Entry>)

  /** The error registry: handlers by type and the history, newest first. */
  class ErrorManager {
    var handlers: map<string, seq<HandlerId>>
    var history: seq<Entry>

    ghost predicate Valid()
      reads this
    {
      |history| <= MaxHistorySize
    }

    constructor()
      ensures Valid() && handlers == map[] && history == []
    {
      handlers := map[];
      history := [];
    }

    /** `registerHandler`: append the handler to its type's list, creating the list when needed. */
    method RegisterHandler(errType: string, handler: HandlerId)
      requires Valid()
      modifies this
      ensures Valid() && history == old(history)
      ensures handlers == old(handlers)[errType := HandlersOf(old(handlers), errType) + [handler]]
    {
      if errType !in handlers {
        handlers := handlers[errType := []];
      }
      handlers := handlers[errType := handlers[errType] + [handler]];
    }

    /** `removeHandler`: drop the first registration of the handler for that type; anything else is a no-op. */
    method RemoveHandler(errType: string, handler: HandlerId)
      requires Valid()
      modifies this
      ensures Valid() && history == old(history)
      ensures handlers == if errType in old(handlers)
                          then old(handlers)[errType := RemoveFirst(old(handlers)[errType], handler)]
                          else old(handlers)
    {
      if errType in handlers {
        var list := handlers[errType];
        var index := IndexOf(list, handler);
        if index > -1 {
          handlers := handlers[errType := list[..index] + list[index + 1..]];
        }
      }
    }

    /** `addToHistory`, with the generated id given. */
    method AddToHistory(report: ErrorReport, id: string)
      requires Valid()
      modifies this
      ensures Valid() && handlers == old(handlers)
      ensures history == Pushed(old(history), Entry(report, id))
    {
      history := [Entry(report, id)] + history;
      if |history| > MaxHistorySize {
        history := history[..MaxHistorySize];
      }
    }

    /**
     * `handleError`: record the error, then call the handlers of its type and then the catch-all
     * handlers; `calls` lists the handlers in call order (a handler that throws is skipped over).
     */
    method HandleError(report: ErrorReport, id: string) returns (calls: seq<HandlerId>)
      requires Valid()
      modifies this
      ensures Valid() && handlers == old(handlers)
      ensures history == Pushed(old(history), Entry(report, id))
      ensures calls == Dispatch(handlers, report.errType)
    {
      AddToHistory(report, id);
      var typed := if report.errType in handlers then handlers[report.errType] else [];
      var global := if "*" in handlers then handlers["*"] else [];
      calls := [];
      for i := 0 to |typed|
        invariant calls == typed[..i]
      {
        calls := calls + [typed[i]];
      }
      for i := 0 to |global|
        invariant calls == typed + global[..i]
      {
        calls := calls + [global[i]];
      }
    }

    /** `getErrorHistory`: a copy of the history. */
    method GetErrorHistory() returns (h: seq<Entry>)
      ensures h == history
    {
      return history;
    }

    /** `clearHistory`. */
    method ClearHistory()
      requires Valid()
      modifies this
      ensures Valid() && history == [] && handlers == old(handlers)
    {
      history := [];
    }

    /** `getErrorStats`: the count, the number of entries of each type, and the ten newest entries. */
    method GetErrorStats() returns (stats: Stats)
      ensures stats.total == |history|
      ensures stats.byType.Keys == set t | t in Types(history)
      ensures forall t :: t in stats.byType ==> stats.byType[t] == Count(Types(history), t)
      ensures stats.recent == history[..if |history| < 10 then |history| else 10]
    {
      var byType: map<string, nat> := map[];
      var types := Types(history);
      for i := 0 to |types|
        invariant byType.Keys == set t | t in types[..i]
        invariant forall t :: t in byType ==> byType[t] == Count(types[..i], t)
      {
        var t := types[i];
        assert types[..i + 1] == types[..i] + [t];
        var before := if t in byType then byType[t] else 0;
        var next := byType[t := before + 1];
        forall u | u in next ensures next[u] == Count(types[..i + 1], u) {
          CountAppend(types[..i], t, u);
        }
        byType := next;
      }
      assert types[..|types|] == types;
      stats := Stats(|history|, byType, history[..if |history| < 10 then |history| else 10]);
    }
  }

  /** The per-type counts of a history add up to its length. */
  lemma StatsAddUp(history: seq<Entry>)
    ensures SumCounts(Dedup(Types(history)), Types(history)) == |history|
  {
    SumCountsCover(Dedup(Types(history)), Types(history));
  }

  /** Adding errors one at a time keeps them newest first: the history is the reversed arrivals, cut to 50. */
  lemma {:induction false} HistoryNewestFirst(arrivals: seq<Entry>)
    ensures |PushAll([], arrivals)| == if |arrivals| < MaxHistorySize then |arrivals| else MaxHistorySize
    ensures forall i :: 0 <= i < |PushAll([], arrivals)| ==> PushAll([], arrivals)[i] == arrivals[|arrivals| - 1 - i]
    decreases |arrivals|
  {
    if arrivals != [] {
      var init := arrivals[..|arrivals| - 1];
      var e := arrivals[|arrivals| - 1];
      HistoryNewestFirst(init);
      assert arrivals == init + [e];
      PushedKeepsNewestFirst(PushAll([], init), init, e);
    }
  }

  /** Adding one more arrival to a newest-first history of earlier arrivals gives a newest-first history. */
  lemma PushedKeepsNewestFirst(history: seq<Entry>, earlier: seq<Entry>, e: Entry)
    requires |history| == if |earlier| < MaxHistorySize then |earlier| else MaxHistorySize
    requires forall i :: 0 <= i < |history| ==> history[i] == earlier[|earlier| - 1 - i]
    ensures var r := Pushed(history, e);
      var a := earlier + [e];
      |r| == (if |a| < MaxHistorySize then |a| else MaxHistorySize)
      && forall i :: 0 <= i < |r| ==> r[i] == a[|a| - 1 - i]
  {
    var r := Pushed(history, e);
    var a := earlier + [e];
    forall i | 0 <= i < |r| ensures r[i] == a[|a| - 1 - i] {
      if i > 0 {
        PushedShifts(history, e, i);
        assert a[|a| - 1 - i] == earlier[|earlier| - 1 - (i - 1)];
      }
    }
  }

  /** Behind the new entry, the history moves one place back. */
  lemma PushedShifts(history: seq<Entry>, e: Entry, i: nat)
    requires 1 <= i < |Pushed(history, e)|
    ensures i - 1 < |history| && Pushed(history, e)[i] == history[i - 1]
  {
    var r := Pushed(history, e);
    assert r[i] == r[1..][i - 1];
  }

  /** The history after adding each of `arrivals` in turn. */
  function PushAll(history: seq<Entry>, arrivals: seq<Entry>): seq<Entry>
    decreases |arrivals|
  {
    if arrivals == [] then history
    else Pushed(PushAll(history, arrivals[..|arrivals| - 1]), arrivals[|arrivals| - 1])
  }

  // ---- classification ----------------------------------------------------

  /** Which of the error classes an error is an instance of (the most derived one). */
  datatype ErrorClass = GenericError | AppErrorClass | NetworkErrorClass | ValidationErrorClass | AuthErrorClass

  /** A thrown error as the helpers see it: its class, message, `type` property and `status` property. */
  datatype Failure = Failure(cls: ErrorClass, message: string, errType: Option<string>, status: Option<int>)

  /** The response body after `JSON.parse`: not JSON, the JSON `null`, or a value whose `message` may be set. */
  datatype Body = NotJson(text: string) | JsonNull | JsonValue(message: Option<string>)

  /** `data.message`, or `None` when it is missing or empty; the JSON `null` has no `message` to read. */
  function BodyMessage(body: Body): Option<string>
    requires !body.JsonNull?
  {
    match body
    case NotJson(text) => if text == "" then None else Some(text)
    case JsonValue(m) => if m == Some("") then None else m
  }

  /** `data.message || fallback`. */
  function MessageOr(body: Body, fallback: string): (m: string)
    requires !body.JsonNull?
    ensures BodyMessage(body).Some? ==> m == BodyMessage(body).value
    ensures BodyMessage(body).None? ==> m == fallback
  {
    BodyMessage(body).GetOr(fallback)
  }

  /** `errorUtils.fromResponse`; `None` when the body is the JSON `null`, whose `message` cannot be read. */
  function FromResponse(status: int, body: Body): (r: Option<Failure>)
    ensures r.None? <==> body.JsonNull?
    ensures r.Some? && status == 400 ==> r.value == Failure(ValidationErrorClass, MessageOr(body, "Datos inválidos"), Some("validation"), None)
    ensures r.Some? && status == 401 ==> r.value == Failure(AuthErrorClass, MessageOr(body, "No autorizado"), Some("auth"), None)
    ensures r.Some? && status == 403 ==> r.value == Failure(AppErrorClass, MessageOr(body, "Sin permisos"), Some("permission"), None)
    ensures r.Some? && status == 404 ==> r.value == Failure(AppErrorClass, MessageOr(body, "Recurso no encontrado"), Some("not_found"), None)
    ensures r.Some? && status == 500 ==> r.value == Failure(AppErrorClass, MessageOr(body, "Error interno del servidor"), Some("server"), None)
    ensures r.Some? && status !in {400, 401, 403, 404, 500} ==> r.value.cls == NetworkErrorClass && r.value.status == Some(status) && r.value.errType == Some("network")
    ensures r.Some? && status !in {400, 401, 403, 404, 500} ==> r.value.message == MessageOr(body, "Error " + IntToString(status))
  {
    if body.JsonNull? then None
    else if status == 400 then Some(Failure(ValidationErrorClass, MessageOr(body, "Datos inválidos"), Some("validation"), None))
    else if status == 401 then Some(Failure(AuthErrorClass, MessageOr(body, "No autorizado"), Some("auth"), None))
    else if status == 403 then Some(Failure(AppErrorClass, MessageOr(body, "Sin permisos"), Some("permission"), None))
    else if status == 404 then Some(Failure(AppErrorClass, MessageOr(body, "Recurso no encontrado"), Some("not_found"), None))
    else if status == 500 then Some(Failure(AppErrorClass, MessageOr(body, "Error interno del servidor"), Some("server"), None))
    else Some(Failure(NetworkErrorClass, MessageOr(body, "Error " + IntToString(status)), Some("network"), Some(status)))
  }

  const SessionExpired := "Tu sesión ha expirado. Por favor, inicia sesión nuevamente."
  const ServerTrouble := "Error del servidor. Por favor, intenta más tarde."

  /** `errorUtils.formatForUser`. */
  function FormatForUser(e: Failure): (text: string)
    ensures e.cls == ValidationErrorClass ==> text == "Error de validación: " + e.message
    ensures e.cls == AuthErrorClass ==> text == SessionExpired
    ensures e.cls == NetworkErrorClass ==> text == if e.status.Some? && e.status.value >= 500 then ServerTrouble else e.message
    ensures e.cls in {GenericError, AppErrorClass} ==> text == if e.message == "" then "Ocurrió un error inesperado" else e.message
  {
    match e.cls
    case ValidationErrorClass => "Error de validación: " + e.message
    case AuthErrorClass => SessionExpired
    case NetworkErrorClass => if e.status.Some? && e.status.value >= 500 then ServerTrouble else e.message
    case _ => if e.message == "" then "Ocurrió un error inesperado" else e.message
  }

  /** `errorUtils.isRecoverable` as written: an `AppError` of type "server" counts as recoverable. */
  function IsRecoverableAsWritten(e: Failure): (b: bool)
    ensures e.cls == NetworkErrorClass ==> (b <==> e.status.Some? && e.status.value < 500)
    ensures e.cls == AuthErrorClass ==> b
    ensures e.cls !in {NetworkErrorClass, AuthErrorClass} ==> (b <==> e.errType != Some("javascript"))
  {
    match e.cls
    case NetworkErrorClass => e.status.Some? && e.status.value < 500
    case AuthErrorClass => true
    case _ => e.errType != Some("javascript")
  }

  /** A 500 response becomes an error that the as-written rule calls recoverable, unlike a 502. */
  lemma ServerErrorCountedRecoverable()
    ensures IsRecoverableAsWritten(FromResponse(500, JsonValue(None)).value)
    ensures !IsRecoverableAsWritten(FromResponse(502, JsonValue(None)).value)
  {
  }

  /** `errorUtils.isRecoverable` with server errors not recoverable, whichever class carries them. */
  function IsRecoverable(e: Failure): (b: bool)
    ensures e.cls == NetworkErrorClass ==> (b <==> e.status.Some? && e.status.value < 500)
    ensures e.cls == AuthErrorClass ==> b
    ensures e.cls !in {NetworkErrorClass, AuthErrorClass} ==> (b <==> e.errType !in {Some("javascript"), Some("server")})
  {
    match e.cls
    case NetworkErrorClass => e.status.Some? && e.status.value < 500
    case AuthErrorClass => true
    case _ => e.errType !in {Some("javascript"), Some("server")}
  }

  /** Every response error is recoverable exactly when its status is below 500. */
  lemma RecoverableIffClientStatus(status: int, body: Body)
    requires !body.JsonNull?
    ensures IsRecoverable(FromResponse(status, body).value) <==> status < 500
  {
  }

  /**
   * Shown to the user: a 401 always gives the session message, and a status above 500 the generic
   * server message, while a 500 (turned into a plain application error) shows the server's own text.
   */
  lemma ResponseMessages(status: int, body: Body)
    requires !body.JsonNull?
    ensures status == 401 ==> FormatForUser(FromResponse(status, body).value) == SessionExpired
    ensures status > 500 ==> FormatForUser(FromResponse(status, body).value) == ServerTrouble
    ensures status == 500 ==> FormatForUser(FromResponse(status, body).value) == MessageOr(body, "Error interno del servidor")
  {
  }
}
