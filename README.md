# Warehouse attendance dashboard: verified model of its client-side logic

This project models, in Dafny, the deterministic logic of the front end of a
warehouse attendance system. Coordinators and HR staff use it to manage workers
(*trabajadores*), attendance records (*asistencias*), warehouses (*almacenes*),
sub-warehouses (*subalmacenes*) and the working dates of each sub-warehouse
(*fechas*). The model covers these parts:

- the sliding-window rate limiter in front of every API call;
- the least-recently-used computation cache and the virtual-list window arithmetic;
- the field validators, the sanitizers and schema validation;
- the error manager: its history, its handler registry and its error classification;
- the attendance fetch hook, with its guard, cache key, freshness rule and outcome handling;
- the global user-validation cache, with its bounded retry;
- the three-state column sort and the comparators of the four tables;
- the date pickers and the warehouse-assignment modal;
- the ordered date list of a sub-warehouse;
- the JWT token manager, the plain token store and URL building;
- the id-to-name lookups.

Time ("now"), the result of each network request and the server's answers are
parameters. Stateful pieces are classes whose methods state their whole new
state. The React state of a component becomes the fields of a class, and each
handler becomes a method. Pure computations are functions with lemmas about
them.

Modules (one per source file, plus three shared ones):

- **Shared modules**
  - `Common`: filtering, counting, de-duplication and first-occurrence removal on sequences.
  - `JsStrings`: the JavaScript string operations the source uses (`trim`, `toLowerCase`, `includes`, `split`, `join`, number printing, comparison with `<`, `.length` in UTF-16 code units).
  - `CivilDates`: calendar dates, the next day, the `YYYY-MM-DD` text of a date, and the UTC timestamps that `new Date` reads and `toISOString` prints.
  - `TableSort`: the sort-state cycle, the comparator and a stable sort of a copy.
- **Utilities and configuration**
  - `RateLimiting`: `src/utils/rateLimiter.js`.
  - `Performance`: `src/utils/performance.js`.
  - `Validation`: `src/utils/validation.js`.
  - `ErrorManagement`: `src/utils/errorManager.js`.
  - `SecureAuth`: `src/utils/secureAuth.js`.
  - `SecurityConfig`: `src/config/security.js`.
- **Hooks**
  - `AsistenciasFetch`: `src/hooks/useAsistencias.js`.
  - `AuthUser`: `src/hooks/useAuthUser.js`.
  - `FechasPorSubalmacen`: `src/hooks/useFechasPorSubalmacen.js`.
- **Components**
  - `TrabajadoresTable`, `AsistenciasTable`, `CoordinadoresTable` and `RrhhTable`: the four table components.
  - `TrabajadorHelpers`: `src/components/features/trabajadores/helpers.js`.
  - `SeleccionarFechas`, `AgregarFechas` and `AsignarAlmacenes`: the date-selection modal, the add-dates dialog and the assignment modal.

## Model

| member | source | states |
|---|---|---|
| RateLimiting.FirstPattern | src/utils/rateLimiter.js:17-21 | The index found is the first table pattern the endpoint contains; no earlier pattern is contained in it |
| RateLimiting.LimitFor | src/utils/rateLimiter.js:15-23 | An endpoint containing a listed pattern gets the configuration of the first such pattern; an endpoint containing none gets the default of 50 requests per 60 s; every configuration has a 60 s window and 10 to 50 requests |
| RateLimiting.ListedEndpointsGetTheirLimit | src/utils/rateLimiter.js:5-11 | The validation endpoint is limited to 10 per minute, the warehouse endpoint to 20, and an unlisted endpoint gets the default |
| RateLimiting.Prune | src/utils/rateLimiter.js:37-38 | Pruning keeps exactly the timestamps with `now - t < windowMs`, never more than it was given |
| RateLimiting.PruneIdempotent | src/utils/rateLimiter.js:37-38 | Pruning an already pruned list at the same instant changes nothing |
| RateLimiting.PruneAppend | src/utils/rateLimiter.js:53-66 | Pruning after appending a timestamp is pruning first, then keeping the new timestamp when it is in the window |
| RateLimiting.Decide | src/utils/rateLimiter.js:41-49 | A request is allowed iff fewer than `maxRequests` timestamps are in the window; an allowed request waits 0; a denied one waits `windowMs - (now - oldest)` |
| RateLimiting.WaitTimeWithinWindow | src/utils/rateLimiter.js:42-43 | When no timestamp lies in the future, a denied request waits more than 0 and at most one window |
| RateLimiting.StatOf | src/utils/rateLimiter.js:72-89 | An endpoint's statistics give its in-window count, its limit and window, and the usage text "current/limit" |
| RateLimiting.RateLimiter.constructor | src/utils/rateLimiter.js:3-12 | A new limiter tracks no endpoint |
| RateLimiting.RateLimiter.GetLimitConfig | src/utils/rateLimiter.js:15-23 | The table scan returns the configuration that `LimitFor` describes |
| RateLimiting.RateLimiter.CanMakeRequest | src/utils/rateLimiter.js:26-50 | The endpoint's list is replaced by its pruned list, with every other endpoint unchanged; the verdict is `Decide` on the pruned list |
| RateLimiting.RateLimiter.RecordRequest | src/utils/rateLimiter.js:53-69 | The endpoint's list becomes the old list plus `now`, pruned; other endpoints are unchanged |
| RateLimiting.RateLimiter.RecordResponse | src/utils/rateLimiter.js:130-143 | A 429 answer leaves exactly five more copies of `now` than any other answer: the pruned list gains 6 entries instead of 1 |
| RateLimiting.RateLimiter.Clear | src/utils/rateLimiter.js:92-95 | Every endpoint's list is forgotten |
| RateLimiting.RateLimiter.GetStats | src/utils/rateLimiter.js:72-89 | There is one statistics entry per tracked endpoint, each computed by `StatOf` from its list |
| RateLimiting.PruneKeepsRecent | src/utils/rateLimiter.js:137-143 | Timestamps equal to `now` survive pruning after an already pruned list |
| RateLimiting.PenaltyStep | src/utils/rateLimiter.js:140-142 | Each penalty record adds exactly one more in-window copy of `now` |
| Performance.CeilDiv | src/utils/performance.js:84 | `Math.ceil(a / b)`: the least multiple count covering `a` |
| Performance.VisibleRange | src/utils/performance.js:81-89 | The start index is the item under `scrollTop` (floor division); the end index is `start + ceil(containerHeight / itemHeight) + 1` capped at the length |
| Performance.ViewportItemsAreVisible | src/utils/performance.js:81-89 | Every item that overlaps the viewport lies inside the rendered range |
| Performance.VisibleItems | src/utils/performance.js:91-96 | The rendered items are `items[start..end)`, each tagged with its index `start + i` in the full list |
| Performance.WindowFitsInList | src/utils/performance.js:98-99 | The rendered window ends no lower than `totalHeight = length * itemHeight` |
| Performance.ComputationCache.constructor | src/utils/performance.js:179-182 | A new cache is empty, with the given maximum size |
| Performance.ComputationCache.Get | src/utils/performance.js:184-193 | A hit returns the stored value and moves the key to the most-recent end; a miss returns nothing and changes nothing; the values are untouched |
| Performance.ComputationCache.Touch | src/utils/performance.js:187-189 | Re-inserting a present key moves it to the most-recent end and keeps every value |
| Performance.ComputationCache.Set | src/utils/performance.js:195-204 | A present key is updated and becomes most recent; a new key into a full cache evicts exactly the least recently used key; otherwise the key is appended. The size bound and distinct keys are kept |
| Performance.ComputationCache.Has | src/utils/performance.js:206-208 | Membership test; the recency order is not touched |
| Performance.ComputationCache.Clear | src/utils/performance.js:210-212 | The cache is emptied and keeps its maximum size |
| Performance.ComputationCache.CachedComputation | src/utils/performance.js:218-230 | On a hit the stored result is returned, no value changes and the key becomes the most recent; on a miss the computed result is returned and stored as the most recent key, after evicting the least recently used key when the cache is full, and every other entry is kept |
| Validation.Required | src/utils/validation.js:6-11 | Fails iff the value is null, undefined or only whitespace, with the message "<field> es requerido" |
| Validation.EmailShapeOneAt | src/utils/validation.js:13-19 | An accepted address has no whitespace and exactly one '@' |
| Validation.Email | src/utils/validation.js:13-19 | Passes iff `String(value)` has the shape local@name.final with no whitespace or '@' in the parts |
| Validation.MinLength | src/utils/validation.js:21-26 | Passes iff the text has at least `min` UTF-16 code units (`.length`); the message names the field and the minimum |
| Validation.MaxLength | src/utils/validation.js:28-33 | Passes iff the text has at most `max` UTF-16 code units (`.length`); the message names the field and the maximum |
| Validation.Dni | src/utils/validation.js:42-48 | Passes iff the text is exactly eight ASCII digits |
| Validation.Phone | src/utils/validation.js:50-56 | Passes iff the text is an optional '+' followed by 7 to 15 digits, spaces, dashes or parentheses |
| Validation.TimeShapeMeaning | src/utils/validation.js:58-64 | The time pattern accepts exactly two digits, ':', two digits, with hours at most 23 and minutes at most 59 |
| Validation.TimeFormat | src/utils/validation.js:58-64 | Passes iff the text is a 24-hour "HH:MM" time |
| Validation.PasswordMissing | src/utils/validation.js:75-90 | No rule is reported missing iff the password has 8 UTF-16 code units, a lower-case letter, an upper-case letter, a digit and a listed special character |
| Validation.Password | src/utils/validation.js:74-96 | Throws on null or undefined; on a string it passes iff all five rules hold; otherwise it lists the unmet rules in order |
| Validation.SanitizeDni | src/utils/validation.js:131-133 | The result is the first (at most eight) digits of the text, and digits only |
| Validation.SanitizeDniIdempotent | src/utils/validation.js:131-133 | Sanitizing a sanitized DNI changes nothing |
| Validation.SanitizedDniValid | src/utils/validation.js:131-133 | A sanitized DNI passes the DNI validator iff the input held at least eight digits |
| Validation.SanitizePhone | src/utils/validation.js:127-129 | The result is exactly the allowed characters of the text, in order |
| Validation.SanitizePhoneIdempotent | src/utils/validation.js:127-129 | Sanitizing a sanitized phone number changes nothing |
| Validation.ClampPart | src/utils/validation.js:140-141 | The clamped part never exceeds its limit, equals the number read when that is within the limit (0 for an empty part, where `parseInt` gives NaN and the fallback 0 applies), and is the limit when the number read exceeds it |
| Validation.TimeFromParts | src/utils/validation.js:140-142 | The rebuilt time is five characters with ':' in the middle; the two digits before it read as the clamped hours and the two after it as the clamped minutes |
| Validation.SanitizeTime | src/utils/validation.js:135-145 | Without exactly one ':' the result is the input with everything but digits and ':' removed; with one ':' it is a five-character time with ':' in the middle |
| Validation.TimeFromPartsValid | src/utils/validation.js:140-142 | The clamped, zero-padded time is always accepted by the time validator |
| Validation.SanitizedTimeValid | src/utils/validation.js:135-143 | A value with exactly one ':' always sanitizes to a time the time validator accepts |
| Validation.SanitizeTimeKeepsValid | src/utils/validation.js:135-143 | A well-formed "HH:MM" comes out of the time sanitizer unchanged |
| Validation.SanitizeTimeOfTwoParts | src/utils/validation.js:137-143 | With exactly one ':' after cleaning, both sides are digit runs and the result is the time rebuilt from them |
| Validation.SanitizeTimeOfSides | src/utils/validation.js:135-143 | Two digit runs joined by ':' sanitize to the time rebuilt from them |
| Validation.TimeFromPartsClampsHigh | src/utils/validation.js:140-142 | Hours 30 and minutes 70 are clamped to "23:59" |
| Validation.TimeFromPartsPadsShort | src/utils/validation.js:140-142 | Hours 9 and minutes 5 are zero-padded to "09:05" |
| Validation.SanitizeString | src/utils/validation.js:101-116 | The trimmed text is empty iff the input is blank |
| Validation.SanitizeEmail | src/utils/validation.js:118-120 | The trimmed text, lower-cased character by character, so its length is kept |
| Validation.FailMessagesEmpty | src/utils/validation.js:166-174 | No message is collected iff no check failed |
| Validation.NoMessagesIffAllPass | src/utils/validation.js:165-175 | A field gets no error iff every one of its validators passes its processed value |
| Validation.RunChecks | src/utils/validation.js:166-174 | The validator loop throws iff some check throws; otherwise it yields the failure messages in validator order |
| Validation.ValidateObject | src/utils/validation.js:149-183 | The loop over the schema computes `Validation`: `None` when a validator throws, else the errors, the sanitized data and `isValid` |
| Validation.NoneStaysNone | src/utils/validation.js:153-176 | Once a validator has thrown, later fields do not matter |
| Validation.ThrowingEntryFails | src/utils/validation.js:166-167 | A field whose validator throws makes the whole validation throw |
| Validation.FailureHasThrowingEntry | src/utils/validation.js:166-167 | A validation that throws has a field whose validator throws |
| Validation.ValidationThrows | src/utils/validation.js:149-183 | Validation throws iff some field's validator throws on its processed value |
| Validation.StepSome | src/utils/validation.js:154-175 | One field step adds that field to `sanitizedData`, adds at most that field to `errors`, and keeps `isValid` equal to "no errors" |
| Validation.ValidationKeys | src/utils/validation.js:149-183 | `sanitizedData` has exactly the schema's fields, errors are only for those fields, and `isValid` holds iff there are no errors |
| Validation.FieldSetSnoc | src/utils/validation.js:153 | The fields of a schema are those of its prefix plus its last one |
| Validation.ValidationRecordsField | src/utils/validation.js:157-174 | With distinct fields, each field's processed value is stored, and its messages are recorded, in validator order, exactly when there are some |
| Validation.ValidationKeepsEarlier | src/utils/validation.js:153-176 | Processing a later field keeps the record of an earlier one |
| Validation.ValidationRecordsEarlier | src/utils/validation.js:153-176 | A field before the last one stays recorded in the final result: the prefix records it and the last step keeps it |
| Validation.ValidationRecordsLast | src/utils/validation.js:157-174 | The last field of a successful validation is recorded |
| Validation.StepRecordsEntry | src/utils/validation.js:157-174 | A field step records its own field's value and messages |
| Validation.StepKeepsRecord | src/utils/validation.js:157-174 | A field step leaves every other field's record as it was |
| Validation.MissingPasswordThrows | src/utils/validation.js:74-76 | A coordinator record without a password makes the password validator throw |
| ErrorManagement.Pushed | src/utils/errorManager.js:125-135 | The new entry is first, followed by the old history; the whole history is cut to 50 |
| ErrorManagement.Dispatch | src/utils/errorManager.js:94-110 | The handlers of the error's type are called first, then the catch-all `'*'` handlers, each list in registration order |
| ErrorManagement.Types | src/utils/errorManager.js:161-173 | The type of each history entry, in history order |
| ErrorManagement.ErrorManager.constructor | src/utils/errorManager.js:3-10 | A new manager has no handlers and an empty history |
| ErrorManagement.ErrorManager.RegisterHandler | src/utils/errorManager.js:69-74 | The handler is appended to its type's list, which is created when missing; the history is unchanged |
| ErrorManagement.ErrorManager.RemoveHandler | src/utils/errorManager.js:77-85 | Only the first registration of the handler is removed; an unknown type or handler changes nothing |
| ErrorManagement.ErrorManager.AddToHistory | src/utils/errorManager.js:125-135 | The history becomes `Pushed(old history, entry)`; the handlers are unchanged; the bound of 50 is kept |
| ErrorManagement.ErrorManager.HandleError | src/utils/errorManager.js:88-122 | One history entry is added, then the type handlers are called before the `'*'` handlers |
| ErrorManagement.ErrorManager.GetErrorHistory | src/utils/errorManager.js:138-140 | Returns the history as it is |
| ErrorManagement.ErrorManager.ClearHistory | src/utils/errorManager.js:143-145 | The history is emptied; the handlers are kept |
| ErrorManagement.ErrorManager.GetErrorStats | src/utils/errorManager.js:161-173 | The total is the history length, `byType` counts each type present (as a number, which the source gives for the `ERROR_TYPES` names), and `recent` is the ten newest entries |
| ErrorManagement.StatsAddUp | src/utils/errorManager.js:161-173 | The per-type counts add up to the total |
| ErrorManagement.HistoryNewestFirst | src/utils/errorManager.js:125-135 | Adding errors one by one leaves them newest first, and at most 50 are kept |
| ErrorManagement.MessageOr | src/utils/errorManager.js:279-290 | `data.message` when it is present and non-empty, else the fallback |
| ErrorManagement.FromResponse | src/utils/errorManager.js:267-295 | 400, 401, 403, 404 and 500 give a validation, auth, permission, not-found and server error with the body's message or a default; any other status gives a network error carrying the status, with the body's message or "Error <status>" |
| ErrorManagement.FormatForUser | src/utils/errorManager.js:298-316 | Validation errors are prefixed; auth errors show the fixed session message; network errors with status >= 500 show the fixed server message; others show their message or a generic one |
| ErrorManagement.IsRecoverableAsWritten | src/utils/errorManager.js:319-329 | As written: a network error is recoverable iff status < 500, an auth error always, and anything else iff its type is not "javascript" |
| ErrorManagement.ServerErrorCountedRecoverable | src/utils/errorManager.js:319-329 | As written, a 500 response is classed recoverable while a 502 is not |
| ErrorManagement.IsRecoverable | src/utils/errorManager.js:319-329 | Corrected rule: server errors are not recoverable, whichever class carries them |
| ErrorManagement.RecoverableIffClientStatus | src/utils/errorManager.js:319-329 | Under the corrected rule, every response error is recoverable iff its status is below 500 |
| ErrorManagement.ResponseMessages | src/utils/errorManager.js:280-316 | A 401 always shows the session message and a status above 500 the server message, while a 500 shows the server's own text |
| AsistenciasFetch.CacheKey | src/hooks/useAsistencias.js:67 | The key is the sub-warehouse id, '-', then the date |
| AsistenciasFetch.CacheKeyInjective | src/hooks/useAsistencias.js:51 | With dates in `YYYY-MM-DD` shape, distinct parameter pairs never share a cache entry |
| AsistenciasFetch.AsistenciasHook.constructor | src/hooks/useAsistencias.js:10-15 | A mounted hook starts with an empty list, loading, and no controller |
| AsistenciasFetch.AsistenciasHook.FetchAsistencias | src/hooks/useAsistencias.js:50-96 | Bad parameters give no request, an empty list and `loading` false; otherwise the previous request is aborted; a fresh entry is shown without a request; else loading starts and the key is requested. The cache is not written |
| AsistenciasFetch.AsistenciasHook.Complete | src/hooks/useAsistencias.js:97-157 | A 401 and an OK body store the rows (`[]` for a 401 or a non-array) with the time; other errors empty the list and leave the cache; an abort changes no data; loading always ends |
| AsistenciasFetch.AsistenciasHook.ClearCache | src/hooks/useAsistencias.js:182-186 | Only the current parameters' entry is deleted |
| AsistenciasFetch.StoredEntryFreshness | src/hooks/useAsistencias.js:68-75 | An entry stored at `t` is served iff `now < t + 30000` |
| AsistenciasFetch.ClearKeepsOtherEntries | src/hooks/useAsistencias.js:182-186 | Clearing one key changes the freshness of no other key, and the cleared key is never served |
| AuthUser.AddAttempts | src/hooks/useAuthUser.js:46-60 | A retry's outcome is passed up unchanged, with the attempts counted |
| AuthUser.Retry | src/hooks/useAuthUser.js:30-64 | At most `MAX_RETRIES + 1` = 3 requests are made; a resolved result is the body of an OK answer among them |
| AuthUser.AbortNotRetried | src/hooks/useAuthUser.js:57 | An abort is never retried: it is the result after one request |
| AuthUser.FirstSuccessIsFinal | src/hooks/useAuthUser.js:51-55 | An OK first answer with a JSON body is the result, with no retry |
| AuthUser.AlwaysFailingMakesThreeAttempts | src/hooks/useAuthUser.js:41-62 | Answers that keep failing make exactly one request per level left and report the last one: "Rate limit exceeded" after a 429, else the status line |
| AuthUser.UserCache.constructor | src/hooks/useAuthUser.js:7-12 | An empty global cache and a hook with no user, loading and no error |
| AuthUser.UserCache.IsAuthenticated | src/hooks/useAuthUser.js:202 | Authenticated only with a user held; a missing or empty stored token is never authenticated |
| AuthUser.UserCache.Notify | src/hooks/useAuthUser.js:19-27 | Subscribers are told the user; the hook shows it and stops loading; the cache is untouched |
| AuthUser.UserCache.BeginValidation | src/hooks/useAuthUser.js:91-136 | No token clears the cache and notifies null; fresh data (under 60 s) is shown without validating; a validation in progress starts nothing; otherwise a validation starts |
| AuthUser.UserCache.FinishValidation | src/hooks/useAuthUser.js:140-172 | Success stores and notifies the user with the time; failure clears the cache, notifies null, and drops the token iff the message mentions 401 or 403; `isValidating` is false either way |
| AuthUser.UserCache.Revalidate | src/hooks/useAuthUser.js:184-195 | The cached user, its time and the in-progress flag are reset; with a token the hook shows it is loading |
| AuthUser.UserCache.ClearUserCache | src/hooks/useAuthUser.js:213-219 | The cached user, its time and the in-progress flag are reset and null is notified |
| AuthUser.AuthFailureDropsToken | src/hooks/useAuthUser.js:162-163 | The error thrown for a 401 or 403 status mentions that status, so the token is dropped |
| AuthUser.RefusedTokenIsDropped | src/hooks/useAuthUser.js:30-64 | A token the server keeps refusing with 401 or 403 fails after three requests with a message that drops it |
| TableSort.NextSort | src/components/features/trabajadores/Trabajadorestable.jsx:37-49 | A new column sorts ascending; the same column goes from ascending to descending, then to unsorted |
| TableSort.NextSortReachable | src/components/features/trabajadores/Trabajadorestable.jsx:37-49 | An unsorted state is always ascending after a click |
| TableSort.SortCyclePeriodThree | src/components/features/asistencias/AsistenciasTable.jsx:108-120 | Three clicks on one header return to the starting state, and the first two do not |
| TableSort.Compare | src/components/features/trabajadores/Trabajadorestable.jsx:56-72 | The comparator's sign is -1, 0 or 1 |
| TableSort.CompareAntisymmetric | src/components/features/trabajadores/Trabajadorestable.jsx:56-72 | Swapping the operands flips the comparator's sign |
| TableSort.CompareDescReverses | src/components/features/trabajadores/Trabajadorestable.jsx:62-70 | Descending order is ascending order reversed |
| TableSort.BoolAscActiveFirst | src/components/features/trabajadores/Trabajadorestable.jsx:63-65 | Ascending on a bool column, active rows come before inactive ones |
| TableSort.CompareTransitive | src/components/features/trabajadores/Trabajadorestable.jsx:56-72 | On keys of one kind (no NaN), the comparator is transitive |
| TableSort.Insert | src/components/features/trabajadores/Trabajadorestable.jsx:56 | One insertion step adds exactly the new row |
| TableSort.SortBy | src/components/features/trabajadores/Trabajadorestable.jsx:56 | The sorted copy is a permutation of the input |
| TableSort.InsertSorted | src/components/features/trabajadores/Trabajadorestable.jsx:56 | Inserting into a sorted list keeps it sorted |
| TableSort.SortBySorted | src/components/features/trabajadores/Trabajadorestable.jsx:56-72 | With orderable keys of one kind, the result is in comparator order |
| TableSort.SortByStableIdentity | src/components/features/rrhh/RRHHTable.jsx:47 | When the comparator ties every pair, the stable sort keeps the input order |
| TableSort.Toggled | src/components/features/coordinadores/CoordinadoresTable.jsx:66-76 | Only the toggled id's membership flips |
| TableSort.ToggledTwice | src/components/features/coordinadores/CoordinadoresTable.jsx:66-76 | Toggling an id twice restores the set |
| TrabajadoresTable.ColumnKey | src/components/features/trabajadores/Trabajadorestable.jsx:55-68 | The status column compares truthiness, the hours column compares numbers (never NaN, missing as -Infinity), and the other columns compare lower-cased text |
| TrabajadoresTable.SortedTrabajadores | src/components/features/trabajadores/Trabajadorestable.jsx:51-74 | Without a sort or with an unknown column the rows are returned as they are; otherwise they are a permutation in comparator order |
| TrabajadoresTable.ActiveRowsFirst | src/components/features/trabajadores/Trabajadorestable.jsx:63-65 | Sorted ascending by status, no inactive row precedes an active one |
| TrabajadoresTable.MissingHoursFirst | src/components/features/trabajadores/Trabajadorestable.jsx:59-62 | Sorted ascending by hours, a row without a target never follows a row with one |
| TrabajadoresTable.Table.constructor | src/components/features/trabajadores/Trabajadorestable.jsx:26-27 | A new table is unsorted and ascending |
| TrabajadoresTable.Table.HandleSort | src/components/features/trabajadores/Trabajadorestable.jsx:37-49 | The sort state advances by the three-state cycle |
| AsistenciasTable.FilteredAsistencias | src/components/features/asistencias/AsistenciasTable.jsx:122-127 | An empty search returns every row; otherwise the rows whose lower-cased name contains the lower-cased search, in order, and no others |
| AsistenciasTable.SearchFindsNamePart | src/components/features/asistencias/AsistenciasTable.jsx:124-126 | A row whose name has the search as a part is always found |
| AsistenciasTable.SortedAsistencias | src/components/features/asistencias/AsistenciasTable.jsx:129-142 | Without a sort or with an unknown column the filtered rows are returned as they are; otherwise they are a permutation ordered by the lower-cased column text |
| AsistenciasTable.OrNull | src/components/features/asistencias/AsistenciasTable.jsx:72-73 | An empty time becomes null; any other time is kept |
| AsistenciasTable.SavePayload | src/components/features/asistencias/AsistenciasTable.jsx:71-75 | Empty times are sent as null; the justification is sent as typed |
| AsistenciasTable.UnchangedEditRoundTrip | src/components/features/asistencias/AsistenciasTable.jsx:48-75 | Starting an edit and saving it unchanged sends back the row's own times |
| AsistenciasTable.Table.constructor | src/components/features/asistencias/AsistenciasTable.jsx:22-35 | Unsorted, nothing being edited, empty inputs, not saving |
| AsistenciasTable.Table.HandleSort | src/components/features/asistencias/AsistenciasTable.jsx:108-120 | The sort state advances by the three-state cycle; the edit state is untouched |
| AsistenciasTable.Table.StartEdit | src/components/features/asistencias/AsistenciasTable.jsx:48-56 | The row is edited, with its missing values as empty inputs |
| AsistenciasTable.Table.CancelEdit | src/components/features/asistencias/AsistenciasTable.jsx:57-64 | No row is edited and the three inputs are empty |
| AsistenciasTable.Table.InputChange | src/components/features/asistencias/AsistenciasTable.jsx:101-106 | Only the named field changes |
| AsistenciasTable.Table.SaveEdit | src/components/features/asistencias/AsistenciasTable.jsx:66-99 | Without an edited row nothing is sent; otherwise the payload is sent for the row; success closes the edit; saving ends either way |
| CoordinadoresTable.SoloCoordinadores | src/components/features/coordinadores/CoordinadoresTable.jsx:38-40 | Only rows with `rol_id === 3` are kept, and every such row is kept; a missing list gives none |
| CoordinadoresTable.OrDash | src/components/features/coordinadores/CoordinadoresTable.jsx:48-53 | A missing name is shown as "-" |
| CoordinadoresTable.AsignacionesDe | src/components/features/coordinadores/CoordinadoresTable.jsx:44-46 | Exactly the user's own assignments, each once, in the order they are listed |
| CoordinadoresTable.AlmacenNames | src/components/features/coordinadores/CoordinadoresTable.jsx:48 | Each assignment's warehouse name, "-" when missing |
| CoordinadoresTable.SubNames | src/components/features/coordinadores/CoordinadoresTable.jsx:53 | Each assignment's sub-warehouse name, "-" when missing |
| CoordinadoresTable.Limit | src/components/features/coordinadores/CoordinadoresTable.jsx:57 | The first assignment's limit, or "-" iff there is none |
| CoordinadoresTable.AsWrittenDropsUnnamedAssignment | src/components/features/coordinadores/CoordinadoresTable.jsx:48-55 | As written, an assignment without a warehouse name is shown under "-" with an empty group |
| CoordinadoresTable.GetAlmacenDataAsWritten | src/components/features/coordinadores/CoordinadoresTable.jsx:43-63 | The summary as the table computes it: the distinct names joined in first-seen order, one group per name (filtered on the raw name), and the first assignment's limit |
| CoordinadoresTable.GroupsAgreeWhenNamed | src/components/features/coordinadores/CoordinadoresTable.jsx:50-55 | When every assignment names its warehouse, filtering on the raw name and on the displayed name keep the same rows |
| CoordinadoresTable.AsWrittenAgreesWhenNamed | src/components/features/coordinadores/CoordinadoresTable.jsx:43-63 | When every assignment of the user names its warehouse, the table's summary equals the corrected one |
| CoordinadoresTable.GetAlmacenData | src/components/features/coordinadores/CoordinadoresTable.jsx:43-63 | The corrected summary (the intended half of the grouping finding): the distinct names joined in first-seen order, one group per name built with the same `|| "-"` default, and the first assignment's limit |
| CoordinadoresTable.GroupSize | src/components/features/coordinadores/CoordinadoresTable.jsx:50-55 | A warehouse's group has one entry per assignment shown under that name |
| CoordinadoresTable.TotalSizeOfGroups | src/components/features/coordinadores/CoordinadoresTable.jsx:50-55 | The group sizes add up to the counts of the names |
| CoordinadoresTable.GroupsCoverAssignments | src/components/features/coordinadores/CoordinadoresTable.jsx:43-63 | Every assignment of the user appears in exactly one warehouse group |
| CoordinadoresTable.AsWrittenLosesRows | src/components/features/coordinadores/CoordinadoresTable.jsx:48-55 | As written, the groups can total fewer sub-warehouses than the user has assignments |
| CoordinadoresTable.ColumnKey | src/components/features/coordinadores/CoordinadoresTable.jsx:106-121 | The status column compares truthiness; the limit column compares numbers, NaN iff the user has no assignment; the rest compare text; the warehouse, sub-warehouse and limit keys come from the summary as the table computes it |
| CoordinadoresTable.SortedCoordinadores | src/components/features/coordinadores/CoordinadoresTable.jsx:102-124 | Without a sort or with an unknown column the rows are returned as they are; otherwise a permutation, in comparator order when no limit is "-" |
| CoordinadoresTable.Table.constructor | src/components/features/coordinadores/CoordinadoresTable.jsx:79-80 | Unsorted, ascending, no password shown |
| CoordinadoresTable.Table.HandleSort | src/components/features/coordinadores/CoordinadoresTable.jsx:86-98 | The sort state advances by the three-state cycle; the visible passwords are untouched |
| CoordinadoresTable.Table.TogglePasswordVisibility | src/components/features/coordinadores/CoordinadoresTable.jsx:66-76 | Only that user's visibility flips; the sort is untouched |
| RrhhTable.EstadoText | src/components/features/rrhh/RRHHTable.jsx:67-69 | The status key is "Activo" iff `activo === 1`, else "Inactivo" |
| RrhhTable.RrhhKey | src/components/features/rrhh/RRHHTable.jsx:50-73 | Every column compares text; password, role and unknown columns give a constant key |
| RrhhTable.SortedRrhh | src/components/features/rrhh/RRHHTable.jsx:39-78 | Without a sort the input is returned; otherwise a permutation in comparator order |
| RrhhTable.ConstantColumnsKeepOrder | src/components/features/rrhh/RRHHTable.jsx:59-72 | Sorting by password, role or an unknown column keeps the original order |
| RrhhTable.EstadoAscActiveFirst | src/components/features/rrhh/RRHHTable.jsx:67-76 | Sorted ascending by status, no inactive row precedes an active one |
| RrhhTable.Table.constructor | src/components/features/rrhh/RRHHTable.jsx:5-9 | Unsorted, ascending, no password shown |
| RrhhTable.Table.HandleSort | src/components/features/rrhh/RRHHTable.jsx:20-37 | The sort state advances by the three-state cycle; the visible passwords are untouched |
| RrhhTable.Table.TogglePasswordVisibility | src/components/features/rrhh/RRHHTable.jsx:107-118 | Only that user's visibility flips; the sort is untouched |
| TrabajadorHelpers.GetNombre | src/components/features/trabajadores/helpers.js:1-14 | The name of the first entry whose id equals `Number(id)`; the id itself iff no entry matches (shared by the coordinator, warehouse and sub-warehouse lookups) |
| TrabajadorHelpers.LabelText | src/components/features/trabajadores/Trabajadorestable.jsx:9-11 | The text shown for a lookup is never empty (`|| '—'`) |
| TrabajadorHelpers.GetNombreFirstMatchWins | src/components/features/trabajadores/helpers.js:2 | Entries after a matching one do not change the lookup |
| CivilDates.DaysInMonth | src/components/features/almacenes/BotonAgregarFechas.jsx:29 | A month has 28 to 31 days |
| CivilDates.OrdinalInjective | src/components/features/almacenes/BotonAgregarFechas.jsx:27 | Distinct valid dates have distinct positions in time |
| CivilDates.NextDay | src/components/features/almacenes/BotonAgregarFechas.jsx:29 | The next day is a valid, later date |
| CivilDates.NoDateBetween | src/components/features/almacenes/BotonAgregarFechas.jsx:27-29 | No valid date lies strictly between a date and the next day |
| CivilDates.Format | src/components/features/almacenes/BotonAgregarFechas.jsx:28 | A printed date is ten characters |
| CivilDates.Parse | src/hooks/useAsistencias.js:51 | A string read as a date has the `YYYY-MM-DD` shape and is a valid date |
| CivilDates.ParseFormat | src/components/features/almacenes/BotonAgregarFechas.jsx:25-28 | Reading back a printed date gives the date |
| CivilDates.FormatInjective | src/components/features/almacenes/BotonAgregarFechas.jsx:28 | Distinct dates print differently |
| CivilDates.TimeWithinDay | src/hooks/useFechasPorSubalmacen.js:27 | A valid time of day is less than one day of milliseconds |
| CivilDates.InstantOrder | src/hooks/useFechasPorSubalmacen.js:27 | Instants are ordered by date first and by time of day within one date |
| CivilDates.ParseTime | src/hooks/useFechasPorSubalmacen.js:27 | An accepted `THH:mm[:ss[.sss]]Z` suffix is a valid time of day |
| CivilDates.ParseStamp | src/hooks/useFechasPorSubalmacen.js:27 | An accepted string starts with a valid `YYYY-MM-DD` date, which is its date, and carries a valid time |
| CivilDates.ParseStampOfDate | src/hooks/useFechasPorSubalmacen.js:72-75 | A date-only string is read as the midnight that starts its date |
| CivilDates.FormatStamp | src/hooks/useFechasPorSubalmacen.js:41 | `toISOString()` text is 24 characters whose first ten are the date |
| CivilDates.ParseTimeText | src/hooks/useFechasPorSubalmacen.js:27 | Reading back the printed time of day gives the time |
| CivilDates.ParseFormatStamp | src/hooks/useFechasPorSubalmacen.js:27 | Reading back `toISOString()` text gives the date and time it was printed from |
| SeleccionarFechas.IdsOf | src/components/features/almacenes/SeleccionarFechasModal.jsx:30 | `idfecha || id` for each date, in order |
| SeleccionarFechas.DefinedIds | src/components/features/almacenes/SeleccionarFechasModal.jsx:30 | Every id present is kept, and only ids present |
| SeleccionarFechas.Toggled | src/components/features/almacenes/SeleccionarFechasModal.jsx:41-43 | Only the toggled id's membership flips; a new id is appended |
| SeleccionarFechas.ToggleTwiceRestores | src/components/features/almacenes/SeleccionarFechasModal.jsx:41-43 | Toggling an unselected id twice restores the selection |
| SeleccionarFechas.ParaDescargar | src/components/features/almacenes/SeleccionarFechasModal.jsx:70-86 | No call iff the selection is empty; otherwise exactly the dates whose id is selected, each once, in original order (`KeptInOrder`) |
| Common.KeptPositions | src/components/features/almacenes/SeleccionarFechasModal.jsx:76-79 | The positions `filter` keeps: increasing, and exactly those whose element passes the test |
| Common.FilterIsKept | src/components/features/almacenes/SeleccionarFechasModal.jsx:76-79 | `filter` returns the elements at the kept positions, one per position, in position order |
| SeleccionarFechas.SelectAllDownloadsEveryDate | src/components/features/almacenes/SeleccionarFechasModal.jsx:75-82 | After select-all, the download is every date that has an id, in order |
| SeleccionarFechas.SelectionModal.constructor | src/components/features/almacenes/SeleccionarFechasModal.jsx:11-12 | Nothing selected and the box unchecked |
| SeleccionarFechas.SelectionModal.Opened | src/components/features/almacenes/SeleccionarFechasModal.jsx:15-22 | Opening resets the selection and unchecks the box |
| SeleccionarFechas.SelectionModal.SeleccionarTodas | src/components/features/almacenes/SeleccionarFechasModal.jsx:25-35 | Checked clears the selection; unchecked selects every defined id; the box flips |
| SeleccionarFechas.SelectionModal.ToggleFecha | src/components/features/almacenes/SeleccionarFechasModal.jsx:38-52 | Only that id's membership flips; the box is checked iff as many ids as dates are selected |
| AgregarFechas.DaysFrom | src/components/features/almacenes/BotonAgregarFechas.jsx:23-32 | The days from the start to the end, both included; empty iff the start is after the end |
| AgregarFechas.DaysFromConsecutive | src/components/features/almacenes/BotonAgregarFechas.jsx:27-30 | Each day of the range is followed by the next calendar day |
| AgregarFechas.DaysFromIncreasing | src/components/features/almacenes/BotonAgregarFechas.jsx:27-30 | The days of the range strictly increase |
| AgregarFechas.DaysFromCovers | src/components/features/almacenes/BotonAgregarFechas.jsx:27-30 | Every date between the two ends is in the range |
| AgregarFechas.FormatAll | src/components/features/almacenes/BotonAgregarFechas.jsx:28 | Each day printed as `YYYY-MM-DD`, in order |
| AgregarFechas.RangeStep | src/components/features/almacenes/BotonAgregarFechas.jsx:27-30 | One loop turn prints the current day and continues from the next day |
| AgregarFechas.GetFechasRango | src/components/features/almacenes/BotonAgregarFechas.jsx:23-32 | The loop yields the printed days from the first date to the second; empty when either is not a date |
| AgregarFechas.WalkDays | src/components/features/almacenes/BotonAgregarFechas.jsx:27-30 | The loop pushes each day from the start to the end |
| AgregarFechas.FormatAllDistinct | src/components/features/almacenes/BotonAgregarFechas.jsx:28 | Increasing dates print as distinct strings |
| AgregarFechas.RangeStringsDistinct | src/components/features/almacenes/BotonAgregarFechas.jsx:23-32 | The range never repeats a date |
| AgregarFechas.RangeStringsMembers | src/components/features/almacenes/BotonAgregarFechas.jsx:23-32 | A string is in the range iff it is a date between the two ends |
| AgregarFechas.FormatOfParse | src/components/features/almacenes/BotonAgregarFechas.jsx:25-28 | A string read as a date prints back as itself |
| AgregarFechas.AgregarFechasDialog.constructor | src/components/features/almacenes/BotonAgregarFechas.jsx:12-13 | Both date inputs empty; the pending list is the one given |
| AgregarFechas.AgregarFechasDialog.AgregarFechaTemp | src/components/features/almacenes/BotonAgregarFechas.jsx:17-21 | A non-empty, unlisted date is appended; anything else changes nothing; the list stays duplicate-free (the handler is defined but no control calls it) |
| AgregarFechas.AgregarFechasDialog.GuardarTodas | src/components/features/almacenes/BotonAgregarFechas.jsx:34-47 | The candidates not already listed are appended in order, so the list becomes the old list plus the candidates; both inputs are cleared |
| AgregarFechas.AgregarFechasDialog.QuitarFecha | src/components/features/almacenes/BotonAgregarFechas.jsx:86 | Exactly that date leaves the list; the rest keep their order |
| AgregarFechas.AgregarFechasDialog.Cerrar | src/components/features/almacenes/BotonAgregarFechas.jsx:54-59 | The pending list and both inputs are emptied |
| AgregarFechas.Candidates | src/components/features/almacenes/BotonAgregarFechas.jsx:35-42 | The candidates never include the empty string |
| AgregarFechas.CandidatesDistinct | src/components/features/almacenes/BotonAgregarFechas.jsx:35-42 | The candidates never repeat a date |
| AgregarFechas.RemoveDistinctCount | src/components/features/almacenes/BotonAgregarFechas.jsx:86 | In a duplicate-free list, removing a date removes its one copy |
| FechasPorSubalmacen.FechaKey | src/hooks/useFechasPorSubalmacen.js:27 | A row's key is orderable iff its date is readable (date-only or a UTC timestamp), and it is then the date's instant |
| FechasPorSubalmacen.ServerRowKey | src/hooks/useFechasPorSubalmacen.js:27 | A row whose date is `toISOString()` text is readable and keyed by that instant |
| FechasPorSubalmacen.SortByFecha | src/hooks/useFechasPorSubalmacen.js:27 | The re-sorted list is a permutation of the input |
| FechasPorSubalmacen.SortedWhenDated | src/hooks/useFechasPorSubalmacen.js:26-28 | When every row holds a readable date or timestamp, sorting puts them in ascending order of instant |
| FechasPorSubalmacen.ServerRowsSorted | src/hooks/useFechasPorSubalmacen.js:26-28 | A server list whose dates are all ISO timestamps is dated, and loading sorts it by instant |
| FechasPorSubalmacen.SortedDatesAscend | src/hooks/useFechasPorSubalmacen.js:26-28 | In a sorted list of dated rows the calendar dates never decrease |
| FechasPorSubalmacen.FilterKeepsSorted | src/hooks/useFechasPorSubalmacen.js:218-223 | Dropping rows from a sorted list keeps it sorted |
| FechasPorSubalmacen.EditFecha | src/hooks/useFechasPorSubalmacen.js:71-73 | Only the rows with the id get the new date; every other field and row is unchanged |
| FechasPorSubalmacen.DiaString | src/hooks/useFechasPorSubalmacen.js:221 | A readable date or timestamp gives the unpadded decimal of its (UTC) day of the month; an unreadable one gives "NaN" |
| FechasPorSubalmacen.MatchesDia | src/hooks/useFechasPorSubalmacen.js:218-223 | Only rows with a readable date match, unless the trimmed search is "NaN" |
| FechasPorSubalmacen.ServerRowMatchesDia | src/hooks/useFechasPorSubalmacen.js:218-223 | A row sent as an ISO timestamp matches iff its day of the month, unpadded, is the trimmed search |
| FechasPorSubalmacen.Filtradas | src/hooks/useFechasPorSubalmacen.js:218-223 | An empty search keeps all rows; otherwise exactly the rows whose day of the month equals the trimmed search, each once, in order (`KeptInOrder`) |
| FechasPorSubalmacen.FiltradasSorted | src/hooks/useFechasPorSubalmacen.js:218-223 | The search result of a sorted list is sorted |
| FechasPorSubalmacen.FechasHook.constructor | src/hooks/useFechasPorSubalmacen.js:5-15 | The hook's initial state: an empty list, loading, nothing edited or pending |
| FechasPorSubalmacen.FechasHook.StartLoad | src/hooks/useFechasPorSubalmacen.js:18-21 | A request goes out iff a sub-warehouse is given; otherwise nothing changes |
| FechasPorSubalmacen.FechasHook.FinishLoad | src/hooks/useFechasPorSubalmacen.js:22-35 | An array is stored as a permutation, in ascending order of instant when every date is readable (as ISO timestamps are); anything else gives an empty list; loading ends |
| FechasPorSubalmacen.FechasHook.EditarClick | src/hooks/useFechasPorSubalmacen.js:39-43 | The row is edited, starting from the first ten characters of its date |
| FechasPorSubalmacen.FechasHook.GuardarClick | src/hooks/useFechasPorSubalmacen.js:45-86 | An unknown id sends nothing and changes nothing; otherwise the PUT carries the row's sub-warehouse and `activo ?? 1`; success changes only that id's date and re-sorts; the edit closes |
| FechasPorSubalmacen.FechasHook.CancelarClick | src/hooks/useFechasPorSubalmacen.js:88-92 | The edit closes; the list is untouched |
| FechasPorSubalmacen.FechasHook.EliminarClick | src/hooks/useFechasPorSubalmacen.js:95-99 | The row becomes the target and the confirmation opens |
| FechasPorSubalmacen.FechasHook.ConfirmarEliminacion | src/hooks/useFechasPorSubalmacen.js:101-123 | No target is a no-op; otherwise success removes exactly the rows with its id and keeps the rest in order (so a sorted list stays sorted); the confirmation closes |
| FechasPorSubalmacen.FechasHook.CancelarEliminacion | src/hooks/useFechasPorSubalmacen.js:125-129 | The confirmation closes without a request |
| FechasPorSubalmacen.FechasHook.SetAgregando | src/hooks/useFechasPorSubalmacen.js:132-137 | Opening keeps the pending dates; closing drops them |
| FechasPorSubalmacen.FechasHook.StartAgregar | src/hooks/useFechasPorSubalmacen.js:139-194 | No pending date is a no-op; one date uses the single endpoint, several the batch, each carrying `Number(subalmacenId)` of the hook's argument; saving starts |
| FechasPorSubalmacen.SubalmacenNumber | src/hooks/useFechasPorSubalmacen.js:159 | `Number(undefined)` is NaN and `Number("")` is 0 |
| FechasPorSubalmacen.SubalmacenNumberOfPrinted | src/hooks/useFechasPorSubalmacen.js:190 | The printed id of the open sub-warehouse reaches the request as that id |
| FechasPorSubalmacen.FechasHook.FinishAgregar | src/hooks/useFechasPorSubalmacen.js:163-214 | Created rows are merged and the list re-sorted (a permutation of old plus new, in ascending order of instant when every date is readable); a failure or an empty creation keeps the list; the pending dates and flags are cleared |
| FechasPorSubalmacen.FindId | src/hooks/useFechasPorSubalmacen.js:50-54 | The position of the first row with the id, or the length iff there is none |
| FechasPorSubalmacen.ResortedWhenDated | src/hooks/useFechasPorSubalmacen.js:171-197 | A re-sorted list whose rows all hold a readable date or timestamp is in ascending order of instant |
| FechasPorSubalmacen.AllDatedOfPermutation | src/hooks/useFechasPorSubalmacen.js:170-171 | Whether every row holds a date does not depend on their order |
| AsignarAlmacenes.IdStrings | src/components/features/coordinadores/AsignarAlmacenesModal.jsx:88 | `String(sa.id)` of each listed sub-warehouse, in order |
| AsignarAlmacenes.Filtrados | src/components/features/coordinadores/AsignarAlmacenesModal.jsx:30-32 | Exactly the sub-warehouses whose warehouse is the one picked |
| AsignarAlmacenes.NothingListedWithoutAlmacen | src/components/features/coordinadores/AsignarAlmacenesModal.jsx:30-32 | Before a warehouse is picked nothing is listed |
| AsignarAlmacenes.NumberOf | src/components/features/coordinadores/AsignarAlmacenesModal.jsx:47-56 | `Number("")` is 0 and a run of digits reads as its non-negative value |
| AsignarAlmacenes.NumberOfIntToString | src/components/features/coordinadores/AsignarAlmacenesModal.jsx:88 | A printed id reads back as itself |
| AsignarAlmacenes.Limite | src/components/features/coordinadores/AsignarAlmacenesModal.jsx:56 | The limit is never 0: a non-zero number is kept, anything else becomes 1 |
| AsignarAlmacenes.LimiteOfTyped | src/components/features/coordinadores/AsignarAlmacenesModal.jsx:56 | A typed non-zero integer limit is sent as that integer |
| AsignarAlmacenes.Asignaciones | src/components/features/coordinadores/AsignarAlmacenesModal.jsx:52-58 | One entry per valid id, in order, each a positive id with a non-zero limit |
| AsignarAlmacenes.Asignar | src/components/features/coordinadores/AsignarAlmacenesModal.jsx:34-58 | The selection alert iff no warehouse or nothing ticked; the no-valid-ids alert iff no ticked id is a positive number; otherwise a body for the user whose entries are ticked positive ids with the limit |
| AsignarAlmacenes.EveryValidIdSent | src/components/features/coordinadores/AsignarAlmacenesModal.jsx:46-58 | Every ticked positive id is sent |
| AsignarAlmacenes.SelectAllSendsEveryListed | src/components/features/coordinadores/AsignarAlmacenesModal.jsx:52-58 | After select-all, the body has one entry per listed sub-warehouse, in list order |
| AsignarAlmacenes.AllSelectedMeaning | src/components/features/coordinadores/AsignarAlmacenesModal.jsx:83 | "All selected" implies every listed sub-warehouse is ticked; with distinct ids the converse holds |
| AsignarAlmacenes.AlertaDeError | src/components/features/coordinadores/AsignarAlmacenesModal.jsx:62-80 | "Failed to fetch" is checked first, then "404", then "401"; any other message is shown as is |
| AsignarAlmacenes.AsignarModal.constructor | src/components/features/coordinadores/AsignarAlmacenesModal.jsx:18-20 | No warehouse, nothing ticked, a limit of "1" |
| AsignarAlmacenes.AsignarModal.Mostrar | src/components/features/coordinadores/AsignarAlmacenesModal.jsx:22-28 | Hiding the modal resets the warehouse, the ticks and the limit |
| AsignarAlmacenes.AsignarModal.CambiarAlmacen | src/components/features/coordinadores/AsignarAlmacenesModal.jsx:122-125 | Picking a warehouse clears the ticks |
| AsignarAlmacenes.AsignarModal.CambiarLimite | src/components/features/coordinadores/AsignarAlmacenesModal.jsx:204-211 | Only the limit changes |
| AsignarAlmacenes.AsignarModal.ToggleAll | src/components/features/coordinadores/AsignarAlmacenesModal.jsx:85-91 | All ticked clears the ticks; otherwise every listed sub-warehouse is ticked; ticks stay drawn from the listed ids |
| AsignarAlmacenes.AsignarModal.ToggleSub | src/components/features/coordinadores/AsignarAlmacenesModal.jsx:161-166 | Only that sub-warehouse's tick flips |
| SecureAuth.IsValidJwtFormat | src/utils/secureAuth.js:96-99 | An accepted token has at least five characters and neither starts nor ends with a dot |
| SecureAuth.JwtFormatParts | src/utils/secureAuth.js:96-99 | An accepted token is three non-empty, dot-free pieces joined by dots |
| SecureAuth.PartsJwtFormat | src/utils/secureAuth.js:96-99 | Three non-empty, dot-free pieces joined by dots are accepted |
| SecureAuth.TokenExpiry | src/utils/secureAuth.js:101-108 | A non-zero `exp` gives `exp * 1000`; otherwise one hour from now |
| SecureAuth.Expired | src/utils/secureAuth.js:110-114 | A record without a truthy expiry never expires; with one, it is expired iff the expiry is at most one minute after now |
| SecureAuth.ExpiredStaysExpired | src/utils/secureAuth.js:110-114 | An expired record stays expired as the clock moves on |
| SecureAuth.StoredTokenLifetime | src/utils/secureAuth.js:101-114 | A stored token expires a minute before its `exp`, or 59 minutes after it was stored when it has none |
| SecureAuth.SecureTokenManager.constructor | src/utils/secureAuth.js:3-6 | Storage as given, no listeners, no notification |
| SecureAuth.SecureTokenManager.NotifyListeners | src/utils/secureAuth.js:122-130 | Every registered listener is told the event; storage is untouched |
| SecureAuth.SecureTokenManager.Set | src/utils/secureAuth.js:20-45 | Succeeds iff the token is non-empty and well-formed; a refused token changes nothing; otherwise the record with its expiry is stored and announced |
| SecureAuth.SecureTokenManager.Clear | src/utils/secureAuth.js:80-89 | The record is removed and the clearing announced |
| SecureAuth.SecureTokenManager.Get | src/utils/secureAuth.js:47-66 | An empty slot gives null and changes nothing; an unreadable or expired record is cleared and gives null; otherwise the stored token |
| SecureAuth.SecureTokenManager.IsValid | src/utils/secureAuth.js:91-94 | Valid iff a readable, unexpired record is stored |
| SecureAuth.SecureTokenManager.GetRefreshToken | src/utils/secureAuth.js:68-78 | The stored refresh token iff there is a readable record with a non-empty one |
| SecureAuth.SecureTokenManager.AddListener | src/utils/secureAuth.js:117-120 | The listener is added; storage is untouched |
| SecureAuth.SecureTokenManager.RemoveListener | src/utils/secureAuth.js:119 | The remover deletes exactly that listener |
| SecureAuth.SecureTokenManager.RefreshToken | src/utils/secureAuth.js:133-160 | No refresh token rejects with no change; with one, a failed request clears the record, announces the clearing and rejects with the reply's message; a reply resolves with its token, which is stored and announced when `set` accepts it and changes nothing otherwise |
| SecurityConfig.Pairs | src/config/security.js:24-28 | At most one pair per entry |
| SecurityConfig.PairsOfKept | src/config/security.js:24-28 | The pairs are exactly those of the entries with a value, in entry order |
| SecurityConfig.PairsKeepValues | src/config/security.js:25-26 | Every entry with a value contributes its pair |
| SecurityConfig.PairsEmpty | src/config/security.js:24-31 | No pair iff every value is null or undefined |
| SecurityConfig.ApiUrl | src/config/security.js:19-37 | The URL starts with base + endpoint, and is exactly that iff there are no params or no pair; otherwise '?' and the pairs joined by '&' follow |
| SecurityConfig.BuildApiUrl | src/config/security.js:19-37 | The loop builds base + endpoint, followed by '?' and the pairs when there are any |
| SecurityConfig.BareUrlIffNoValues | src/config/security.js:19-37 | The URL has no query iff there are no params or every value is null or undefined |
| SecurityConfig.TokenStore.constructor | src/config/security.js:40 | The store holds the given entries |
| SecurityConfig.TokenStore.Get | src/config/security.js:54-62 | The token iff it is present and not blank |
| SecurityConfig.TokenStore.Set | src/config/security.js:41-52 | Succeeds iff the value is a non-blank string, which is then what `get` returns; a refusal changes nothing |
| SecurityConfig.TokenStore.Remove | src/config/security.js:64-74 | Token, name and role are all removed, so `get` gives null |
| SecurityConfig.TokenStore.GetHeaders | src/config/security.js:76-79 | No header iff `get` gives null; otherwise the bearer header for the token |

## Left out

- `waitForSlot` and the `fetch` call inside `rateLimitedFetch`: these are timers and network I/O. Only the admission decision and the recorded timestamps are modelled.
- RateLimiting.RateLimiter.RecordResponse: gives all six records the same instant `now`; the real records are a few milliseconds apart.
- Performance.VisibleRange: assumes `itemHeight > 0`; a zero height divides by zero in the source. Scroll offsets and heights are whole pixels; the source's fractional pixel values are not modelled.
- `setupGlobalHandlers` in `errorManager.js`: it installs browser `error` and `unhandledrejection` listeners and patches `window.fetch`.
- ErrorManagement.ErrorManager.GetErrorStats: counts into a map, so every type gets a number. The source counts into a plain object `{}`. There a type named "toString" or "constructor" starts from the inherited function and ends up as a string such as "function toString() { [native code] }1", and a type named "__proto__" is never recorded. The program's own types are the `ERROR_TYPES` names, for which the two agree.
- ErrorManagement.ErrorManager.HandleError: calls the handlers as they are registered when the call begins. The source's `forEach` runs over the live handler arrays. A handler that removes itself shifts the array, so the handler after it is skipped, and a handler added to the same list during the call is not run. No handler in the program touches the registry.
- `reportError` in `errorManager.js`: it wraps a thrown value as a 'manual' error record and passes it to `handleError`. The Error object and its stack are not modelled.
- `useErrorHandler` in `errorManager.js`: React hook glue that forwards to `handleError` or `reportError`, and rethrows from async callbacks.
- The `Error` objects and the timestamps in history entries: the model keeps each entry's type, message and id.
- `sanitizers.string` and `sanitizers.email`: the HTML stripping by DOMPurify, a foreign library, is not modelled, only the trimming and lower-casing.
- `sanitizers.numeric`, `validators.numeric` and `validators.dateFormat`: these need float parsing and `Date`.
- `useFormValidation`: React form glue around `validateObject`.
- Validation.ValidateObject: returns `None` where the source throws; the exception itself is not modelled.
- The "subalmacen names" effect of `useAsistencias.js` (lines 17-48): it only fetches.
- The alert and navigation on a 401 in `useAsistencias.js`, and the logging: these have no effect on state.
- The 100 ms polling and the 15 s safety timeout in `useAuthUser.js`, and the `AbortSignal` timeouts: these are timers. The model keeps only the state transitions, so a caller that waits is not modelled.
- The `isMountedRef` checks: the modelled hook is always mounted.
- The retry delays of `validateTokenWithRetry`: these are timers.
- Decoding the JWT payload with `atob` and `JSON.parse`: the payload's `exp` is an optional integer input.
- SecureAuth.TokenExpiry: treats an `exp` that is not an integer as absent.
- The `useSecureAuth` hook (login, logout and its React state) and the choice between `sessionStorage` and `localStorage`.
- Storage write failures (quota errors): writes always succeed in the model.
- Percent-encoding by `URLSearchParams` in `buildApiUrl`: keys and values are emitted as given.
- Time zones: date strings are read in UTC.
  - `getDate()` in `fechasFiltradas` reads local time in the browser; the model uses the UTC day of the string.
  - Of the strings with a time part, only `THH:mm`, `THH:mm:ss` and `THH:mm:ss.sss` followed by `Z` are read. A time with an offset or without `Z` (local time), `T24:00`, and extended years are read as invalid.
- AgregarFechas.GetFechasRango: steps one civil day in UTC. The source steps with `setDate(getDate() + 1)` in the browser's local time and prints `toISOString()` in UTC, so in a time zone with daylight saving the UTC instant shifts by an hour at each change. A change to summer time can then list a date twice, and a change back can drop the end date. The ends are compared as UTC instants.
- AgregarFechas.RangeStep: one UTC civil day per turn. The local-time `setDate` step and its daylight-saving shift are not modelled; see GetFechasRango.
- AgregarFechas.WalkDays: walks UTC civil days, so it does not show the daylight-saving repeat or loss described under GetFechasRango.
- AgregarFechas.RangeStringsDistinct: holds for the UTC walk only. In the browser a change to summer time can repeat a date, as described under GetFechasRango.
- AgregarFechas.RangeStringsMembers: holds for the UTC walk only. In the browser a change back from summer time can drop the end date, as described under GetFechasRango.
- FechasPorSubalmacen.SubalmacenNumber: reads the route parameter with NumberOf. `Number` on decimals, exponents, hexadecimal or padded text is read as NaN, as for NumberOf.
- FechasPorSubalmacen.SortByFecha: rows without a readable date compare as NaN. Sorted order is proved only when every row holds a date, because the order `Array.prototype.sort` gives NaN comparisons is implementation-defined.
- TableSort.Compare: `toLowerCase` covers ASCII letters and the Latin-1 capitals À to Þ (except ×); other scripts are kept as they are. Strings are compared by code point, whereas JavaScript compares UTF-16 code units; the two orders differ only when a character above U+FFFF meets one in U+E000 to U+FFFF.
- SanitizeEmail: lower-cases character by character, with the same coverage as `toLowerCase` above, so the length is kept. JavaScript's full Unicode lower-casing can change the length ("İ" becomes two code units); that is not modelled.
- TrabajadoresTable.ColumnKey: target hours are exact hundredths of an hour, as the form rounds them to two decimals. A stored value with more decimals, or a text that `Number` reads as NaN, is not modelled.
- CoordinadoresTable.SortedCoordinadores: sorted order is proved only when no limit is "-", because `Number("-")` is NaN.
- CoordinadoresTable.GetAlmacenData: the `usuarioAlmacenes` rows are assumed non-null.
- AsignarAlmacenes.NumberOf: reads only optionally signed decimal integers. Decimals, exponents, hexadecimal and surrounding whitespace are read as NaN.
- AsignarAlmacenes.Limite: a typed limit such as "2.5" becomes 1, whereas the source sends 2.5.
- The browser's constraint validation of the limit input (`min=1`, `required`) in the assignment modal.
- The `alert` and `navigate` side effects of the handlers, and the token removal on a 401 in the assignment modal: the model returns the chosen alert instead.
- The assignment modal's `onAsignar` network call: its rejection message is the input of `AlertaDeError`.
- The 300 ms debounce of the attendance search box: this is a timer. The filter reads the settled search text.
- The HTTP requests in `useFechasPorSubalmacen.js` and `AsistenciasTable.jsx`: each request's outcome is a parameter of the method that settles it.
- Rendering: JSX, icons, styling and display formatting (`toLocaleDateString`).

## Findings

| source | as written | input that shows it | evidently intended | confidence | as-written member | corrected member |
|---|---|---|---|---|---|---|
| src/components/features/coordinadores/CoordinadoresTable.jsx:48-55 | The warehouse names use `d.almacen_nombre \|\| "-"`, but the groups filter on the raw `d.almacen_nombre === almacen` | One assignment of user 7 with no warehouse name and sub-warehouse "Norte": the warehouse column shows "-", but its group is empty, so "Norte" is not shown | Each assignment is grouped under the name it is displayed with, so every assignment appears in exactly one group | high, not executed | CoordinadoresTable.AsWrittenLosesRows | CoordinadoresTable.GroupsCoverAssignments |
| src/utils/errorManager.js:319-329 | `fromResponse` turns a 500 into a plain `AppError` of type "server", and `isRecoverable` then calls it recoverable because its type is not "javascript" | A 500 response with an empty JSON body is recoverable, while a 502 response is not | Server errors are not recoverable, as the comment at line 321 says for network errors | medium, not executed | ErrorManagement.ServerErrorCountedRecoverable | ErrorManagement.RecoverableIffClientStatus |
