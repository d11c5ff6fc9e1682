/**
 * Field validators, sanitizers and whole-object validation against a schema.
 * A field's value is a string, `null` or `undefined`; validators and
 * sanitizers see it through `String(value)` as JavaScript does.
 */
module Validation {
  import opened Common
  import opened JsStrings

  datatype Value = Undefined | Null | Str(s: string)

  /** `String(value)`. */
  function ToJsString(v: Value): string {
    match v
    case Undefined => "undefined"
    case Null => "null"
    case Str(s) => s
  }

  /** The outcome of one validator: no message, a message, or a thrown `TypeError`. */
  datatype Check = Pass | Fail(message: string) | Throws

  // ---- validators --------------------------------------------------------

  /** `validators.required`. */
  function Required(v: Value, fieldName: string): (c: Check)
    ensures c != Throws
    ensures c.Fail? <==> v.Undefined? || v.Null? || IsBlank(v.s)
    ensures c.Fail? ==> c.message == fieldName + " es requerido"
  {
    if v.Undefined? || v.Null? || Trim(ToJsString(v)) == "" then Fail(fieldName + " es requerido") else Pass
  }

  predicate NoSpaceOrAt(s: string) {
    forall i :: 0 <= i < |s| ==> !IsWhitespace(s[i]) && s[i] != '@'
  }

  /** `/^[^\s@]+@[^\s@]+\.[^\s@]+$/`: a local part, '@', a name part, '.', and a final part, none empty. */
  predicate EmailShape(s: string) {
    exists k, j :: 0 < k && k + 1 < j < |s| - 1 && s[k] == '@' && s[j] == '.'
                   && NoSpaceOrAt(s[..k]) && NoSpaceOrAt(s[k + 1..j]) && NoSpaceOrAt(s[j + 1..])
  }

  /** An accepted address has no whitespace and exactly one '@'. */
  lemma EmailShapeOneAt(s: string)
    requires EmailShape(s)
    ensures forall i :: 0 <= i < |s| ==> !IsWhitespace(s[i])
    ensures exists k :: 0 <= k < |s| && s[k] == '@' && forall i :: 0 <= i < |s| && i != k ==> s[i] != '@'
  {
    var k, j :| 0 < k && k + 1 < j < |s| - 1 && s[k] == '@' && s[j] == '.'
                && NoSpaceOrAt(s[..k]) && NoSpaceOrAt(s[k + 1..j]) && NoSpaceOrAt(s[j + 1..]);
    forall i | 0 <= i < |s| && i != k ensures s[i] != '@' && !IsWhitespace(s[i]) {
      if i < k {
        assert s[i] == s[..k][i];
      } else if i < j {
        assert s[i] == s[k + 1..j][i - k - 1];
      } else if i > j {
        assert s[i] == s[j + 1..][i - j - 1];
      }
    }
  }

  /** `validators.email`. */
  function Email(v: Value): (c: Check)
    ensures c != Throws
    ensures c == Pass <==> EmailShape(ToJsString(v))
    ensures c.Fail? ==> c.message == "Email debe tener un formato válido"
  {
    if EmailShape(ToJsString(v)) then Pass else Fail("Email debe tener un formato válido")
  }

  /** `validators.minLength`. */
  function MinLength(v: Value, min: nat, fieldName: string): (c: Check)
    ensures c != Throws
    ensures c == Pass <==> JsLength(ToJsString(v)) >= min
    ensures c.Fail? ==> c.message == fieldName + " debe tener al menos " + NatToString(min) + " caracteres"
  {
    if JsLength(ToJsString(v)) < min then Fail(fieldName + " debe tener al menos " + NatToString(min) + " caracteres") else Pass
  }

  /** `validators.maxLength`. */
  function MaxLength(v: Value, max: nat, fieldName: string): (c: Check)
    ensures c != Throws
    ensures c == Pass <==> JsLength(ToJsString(v)) <= max
    ensures c.Fail? ==> c.message == fieldName + " no puede exceder " + NatToString(max) + " caracteres"
  {
    if JsLength(ToJsString(v)) > max then Fail(fieldName + " no puede exceder " + NatToString(max) + " caracteres") else Pass
  }

  /** `validators.dni`: exactly eight ASCII digits. */
  function Dni(v: Value): (c: Check)
    ensures c != Throws
    ensures c == Pass <==> |ToJsString(v)| == 8 && AllDigits(ToJsString(v))
    ensures c.Fail? ==> c.message == "DNI debe tener 8 dígitos"
  {
    var s := ToJsString(v);
    if |s| == 8 && AllDigits(s) then Pass else Fail("DNI debe tener 8 dígitos")
  }

  predicate IsPhoneChar(c: char) {
    IsDigit(c) || IsWhitespace(c) || c == '-' || c == '(' || c == ')'
  }

  predicate PhoneBody(t: string) {
    7 <= |t| <= 15 && forall i :: 0 <= i < |t| ==> IsPhoneChar(t[i])
  }

  /** `/^\+?[\d\s\-\(\)]{7,15}$/`. */
  predicate PhoneShape(s: string) {
    PhoneBody(s) || (|s| > 0 && s[0] == '+' && PhoneBody(s[1..]))
  }

  /** `validators.phone`. */
  function Phone(v: Value): (c: Check)
    ensures c != Throws
    ensures c == Pass <==> PhoneShape(ToJsString(v))
    ensures c.Fail? ==> c.message == "Teléfono debe tener un formato válido"
  {
    if PhoneShape(ToJsString(v)) then Pass else Fail("Teléfono debe tener un formato válido")
  }

  /** `/^([01]\d|2[0-3]):[0-5]\d$/`. */
  predicate TimeShape(s: string) {
    |s| == 5 && s[2] == ':'
    && ((('0' <= s[0] <= '1') && IsDigit(s[1])) || (s[0] == '2' && '0' <= s[1] <= '3'))
    && '0' <= s[3] <= '5' && IsDigit(s[4])
  }

  lemma DigitsValueTwo(s: string)
    requires |s| == 2 && AllDigits(s)
    ensures DigitsValue(s) == (s[0] as int - '0' as int) * 10 + (s[1] as int - '0' as int)
  {
    var d0, d1 := s[0] as int - '0' as int, s[1] as int - '0' as int;
    assert s[..1] == [s[0]] && s[..1][..0] == [];
    assert DigitsValue(s[..1]) == d0;
    assert s[..|s| - 1] == s[..1];
    assert DigitsValue(s) == DigitsValue(s[..1]) * 10 + d1;
  }

  /** The time pattern accepts exactly "HH:MM" with HH at most 23 and MM at most 59. */
  lemma TimeShapeMeaning(s: string)
    ensures TimeShape(s) <==>
              |s| == 5 && s[2] == ':' && AllDigits(s[..2]) && AllDigits(s[3..])
              && DigitsValue(s[..2]) <= 23 && DigitsValue(s[3..]) <= 59
  {
    if |s| == 5 && AllDigits(s[..2]) && AllDigits(s[3..]) {
      DigitsValueTwo(s[..2]);
      DigitsValueTwo(s[3..]);
    }
  }

  /** `validators.timeFormat`. */
  function TimeFormat(v: Value): (c: Check)
    ensures c != Throws
    ensures c == Pass <==> TimeShape(ToJsString(v))
    ensures c.Fail? ==> c.message == "Hora debe tener formato HH:MM (24 horas)"
  {
    if TimeShape(ToJsString(v)) then Pass else Fail("Hora debe tener formato HH:MM (24 horas)")
  }

  predicate HasLower(s: string) { exists i :: 0 <= i < |s| && 'a' <= s[i] <= 'z' }
  predicate HasUpper(s: string) { exists i :: 0 <= i < |s| && 'A' <= s[i] <= 'Z' }
  predicate HasDigit(s: string) { exists i :: 0 <= i < |s| && IsDigit(s[i]) }
  predicate HasSpecial(s: string) { exists i :: 0 <= i < |s| && s[i] in "!@#$%^&*(),.?\":{}|<>" }

  /** The unmet password rules, in the order they are checked. */
  function PasswordMissing(s: string): (missing: seq<string>)
    ensures missing == [] <==> JsLength(s) >= 8 && HasLower(s) && HasUpper(s) && HasDigit(s) && HasSpecial(s)
  {
    (if JsLength(s) < 8 then ["al menos 8 caracteres"] else [])
    + (if !HasLower(s) then ["al menos una letra minúscula"] else [])
    + (if !HasUpper(s) then ["al menos una letra mayúscula"] else [])
    + (if !HasDigit(s) then ["al menos un número"] else [])
    + (if !HasSpecial(s) then ["al menos un carácter especial"] else [])
  }

  /** `validators.password`: reading `.length` of null or undefined throws. */
  function Password(v: Value): (c: Check)
    ensures c == Throws <==> !v.Str?
    ensures v.Str? ==> (c == Pass <==> JsLength(v.s) >= 8 && HasLower(v.s) && HasUpper(v.s) && HasDigit(v.s) && HasSpecial(v.s))
    ensures c.Fail? ==> c.message == "Password debe tener " + Join(PasswordMissing(v.s), ", ")
  {
    if !v.Str? then Throws
    else
      var missing := PasswordMissing(v.s);
      if |missing| > 0 then Fail("Password debe tener " + Join(missing, ", ")) else Pass
  }

  // ---- sanitizers --------------------------------------------------------

  /** `sanitizers.dni`: the digits of `String(value)`, at most the first eight. */
  function SanitizeDni(v: Value): (r: string)
    ensures AllDigits(r) && |r| <= 8
    ensures |r| == if |Filter(ToJsString(v), IsDigit)| < 8 then |Filter(ToJsString(v), IsDigit)| else 8
    ensures r == Filter(ToJsString(v), IsDigit)[..|r|]
  {
    var digits := Filter(ToJsString(v), IsDigit);
    if |digits| <= 8 then digits else digits[..8]
  }

  /** Sanitizing a sanitized DNI changes nothing. */
  lemma SanitizeDniIdempotent(v: Value)
    ensures SanitizeDni(Str(SanitizeDni(v))) == SanitizeDni(v)
  {
    FilterAll(SanitizeDni(v), IsDigit);
  }

  /** A sanitized DNI passes the DNI validator exactly when eight digits were found. */
  lemma SanitizedDniValid(v: Value)
    ensures Dni(Str(SanitizeDni(v))) == Pass <==> |Filter(ToJsString(v), IsDigit)| >= 8
  {
  }

  predicate IsPhoneKept(c: char) {
    IsPhoneChar(c) || c == '+'
  }

  /** `sanitizers.phone`: keep digits, '+', '-', parentheses and whitespace. */
  function SanitizePhone(v: Value): (r: string)
    ensures forall i :: 0 <= i < |r| ==> IsPhoneKept(r[i])
    ensures r == Filter(ToJsString(v), IsPhoneKept)
  {
    Filter(ToJsString(v), IsPhoneKept)
  }

  lemma SanitizePhoneIdempotent(v: Value)
    ensures SanitizePhone(Str(SanitizePhone(v))) == SanitizePhone(v)
  {
    FilterAll(SanitizePhone(v), IsPhoneKept);
  }

  predicate IsTimeKept(c: char) {
    IsDigit(c) || c == ':'
  }

  /** `Math.min(limit, Math.max(0, parseInt(part) || 0))` on a run of digits. */
  function ClampPart(part: string, limit: nat): (n: nat)
    requires AllDigits(part)
    ensures n <= limit
    ensures DigitsValue(part) <= limit ==> n == DigitsValue(part)
    ensures DigitsValue(part) > limit ==> n == limit
  {
    if part == [] then 0
    else if DigitsValue(part) < limit then DigitsValue(part) else limit
  }

  /** The clamped, zero-padded "HH:MM" built from two runs of digits. */
  function TimeFromParts(hours: string, minutes: string): (r: string)
    requires AllDigits(hours) && AllDigits(minutes)
    ensures |r| == 5 && r[2] == ':'
    ensures AllDigits(r[..2]) && DigitsValue(r[..2]) == ClampPart(hours, 23)
    ensures AllDigits(r[3..]) && DigitsValue(r[3..]) == ClampPart(minutes, 59)
  {
    var r := Pad2(ClampPart(hours, 23)) + ":" + Pad2(ClampPart(minutes, 59));
    assert r[..2] == Pad2(ClampPart(hours, 23)) && r[3..] == Pad2(ClampPart(minutes, 59));
    r
  }

  /** `sanitizers.time`: keep digits and ':'; with exactly one ':' rebuild a clamped, zero-padded "HH:MM". */
  function SanitizeTime(v: Value): (r: string)
    ensures var cleaned := Filter(ToJsString(v), IsTimeKept);
            |Split(cleaned, ':')| != 2 ==> r == cleaned
    ensures var cleaned := Filter(ToJsString(v), IsTimeKept);
            |Split(cleaned, ':')| == 2 ==> |r| == 5 && r[2] == ':'
  {
    var cleaned := Filter(ToJsString(v), IsTimeKept);
    var parts := Split(cleaned, ':');
    if |parts| == 2 then
      PartsAreDigits(cleaned, parts);
      TimeFromParts(parts[0], parts[1])
    else cleaned
  }

  /** With exactly one ':' left after cleaning, the result is the time rebuilt from the two sides. */
  lemma SanitizeTimeOfTwoParts(v: Value)
    requires |Split(Filter(ToJsString(v), IsTimeKept), ':')| == 2
    ensures var parts := Split(Filter(ToJsString(v), IsTimeKept), ':');
            AllDigits(parts[0]) && AllDigits(parts[1]) && SanitizeTime(v) == TimeFromParts(parts[0], parts[1])
  {
    var cleaned := Filter(ToJsString(v), IsTimeKept);
    PartsAreDigits(cleaned, Split(cleaned, ':'));
  }

  lemma PartsAreDigits(cleaned: string, parts: seq<string>)
    requires forall i :: 0 <= i < |cleaned| ==> IsTimeKept(cleaned[i])
    requires parts == Split(cleaned, ':')
    ensures forall k :: 0 <= k < |parts| ==> AllDigits(parts[k])
  {
    forall k | 0 <= k < |parts| ensures AllDigits(parts[k]) {
      PartOfJoin(parts, k, ":");
      forall i | 0 <= i < |parts[k]| ensures IsDigit(parts[k][i]) {
        var c := parts[k][i];
        assert c in Join(parts, ":");
        assert ':' !in parts[k];
      }
    }
  }

  lemma {:induction false} PartOfJoin(parts: seq<string>, k: nat, sep: string)
    requires k < |parts|
    ensures forall i :: 0 <= i < |parts[k]| ==> parts[k][i] in Join(parts, sep)
    decreases |parts|
  {
    if |parts| > 1 {
      if k == 0 {
        forall i | 0 <= i < |parts[0]| ensures parts[0][i] in Join(parts, sep) {
          assert Join(parts, sep)[i] == parts[0][i];
        }
      } else {
        PartOfJoin(parts[1..], k - 1, sep);
        var rest := Join(parts[1..], sep);
        assert parts[1..][k - 1] == parts[k];
        forall i | 0 <= i < |parts[k]| ensures parts[k][i] in Join(parts, sep) {
          assert parts[k][i] in rest;
          var j :| 0 <= j < |rest| && rest[j] == parts[k][i];
          assert Join(parts, sep)[|parts[0]| + |sep| + j] == rest[j];
        }
      }
    }
  }

  /** The rebuilt time is one the time validator accepts. */
  lemma TimeFromPartsValid(hours: string, minutes: string)
    requires AllDigits(hours) && AllDigits(minutes)
    ensures TimeShape(TimeFromParts(hours, minutes))
  {
    var r := TimeFromParts(hours, minutes);
    assert r[..2] == Pad2(ClampPart(hours, 23)) && r[3..] == Pad2(ClampPart(minutes, 59));
    TimeShapeMeaning(r);
  }

  /** A time with two parts always comes out in a shape the time validator accepts. */
  lemma SanitizedTimeValid(v: Value)
    requires |Split(Filter(ToJsString(v), IsTimeKept), ':')| == 2
    ensures TimeFormat(Str(SanitizeTime(v))) == Pass
  {
    var cleaned := Filter(ToJsString(v), IsTimeKept);
    var parts := Split(cleaned, ':');
    PartsAreDigits(cleaned, parts);
    TimeFromPartsValid(parts[0], parts[1]);
  }

  /** Splitting at the only separator gives the two sides. */
  lemma SplitTwo(a: string, b: string, sep: char)
    requires sep !in a && sep !in b
    ensures Split(a + [sep] + b, sep) == [a, b]
  {
    var s := a + [sep] + b;
    assert s[|a|] == sep;
    var i := SeparatorAt(s, sep);
    assert i == |a| && s[..i] == a && s[i + 1..] == b;
    assert Split(b, sep) == [b];
  }

  /** Two digits read back and padded again are the same two digits. */
  lemma PadOfDigits(s: string)
    requires |s| == 2 && AllDigits(s)
    ensures DigitsValue(s) < 100 && Pad2(DigitsValue(s)) == s
  {
    DigitsValueTwo(s);
    var p := Pad2(DigitsValue(s));
    DigitsValueTwo(p);
  }

  /** The time sanitizer keeps an already well-formed time. */
  lemma SanitizeTimeKeepsValid(s: string)
    requires TimeShape(s)
    ensures SanitizeTime(Str(s)) == s
  {
    TimeShapeMeaning(s);
    var h, m := s[..2], s[3..];
    assert s == h + [':'] + m;
    assert Filter(ToJsString(Str(s)), IsTimeKept) == s by {
      FilterAll(s, IsTimeKept);
    }
    assert Split(s, ':') == [h, m] by {
      assert ':' !in h && ':' !in m;
      SplitTwo(h, m, ':');
    }
    RebuiltTimeUnchanged(h, m);
  }

  /** Two runs of digits joined by ':' sanitize to the time rebuilt from them. */
  lemma SanitizeTimeOfSides(h: string, m: string)
    requires AllDigits(h) && AllDigits(m)
    ensures SanitizeTime(Str(h + ":" + m)) == TimeFromParts(h, m)
  {
    var s := h + ":" + m;
    assert forall i :: 0 <= i < |s| ==> IsTimeKept(s[i]) by {
      forall i | 0 <= i < |s| ensures IsTimeKept(s[i]) {
        if i < |h| {
          assert s[i] == h[i];
        } else if i > |h| {
          assert s[i] == m[i - |h| - 1];
        }
      }
    }
    assert Filter(ToJsString(Str(s)), IsTimeKept) == s by {
      FilterAll(s, IsTimeKept);
    }
    assert Split(s, ':') == [h, m] by {
      assert ':' !in h && ':' !in m;
      assert s == h + [':'] + m;
      SplitTwo(h, m, ':');
    }
  }

  /** `Pad2(n)` is the two given digit characters. */
  lemma PaddedDigits(n: nat, tens: char, units: char)
    requires n < 100
    requires tens as int == '0' as int + n / 10 && units as int == '0' as int + n % 10
    ensures Pad2(n) == [tens, units]
  {
  }

  /** Hours and minutes over the limits are clamped: "30:70" sanitizes to "23:59" (see `SanitizeTimeOfSides`). */
  lemma TimeFromPartsClampsHigh()
    ensures TimeFromParts("30", "70") == "23:59"
  {
    assert ClampPart("30", 23) == 23 by {
      DigitsValueTwo("30");
    }
    assert ClampPart("70", 59) == 59 by {
      DigitsValueTwo("70");
    }
    PaddedDigits(23, '2', '3');
    PaddedDigits(59, '5', '9');
    assert "23" + ":" + "59" == "23:59";
  }

  /** One-digit parts are zero-padded: "9:5" sanitizes to "09:05" (see `SanitizeTimeOfSides`). */
  lemma TimeFromPartsPadsShort()
    ensures TimeFromParts("9", "5") == "09:05"
  {
    assert ClampPart("9", 23) == 9 by {
      assert "9"[..0] == [];
    }
    assert ClampPart("5", 59) == 5 by {
      assert "5"[..0] == [];
    }
    PaddedDigits(9, '0', '9');
    PaddedDigits(5, '0', '5');
    assert "09" + ":" + "05" == "09:05";
  }

  /** Two in-range two-digit parts are rebuilt exactly as they were. */
  lemma RebuiltTimeUnchanged(h: string, m: string)
    requires |h| == 2 && AllDigits(h) && DigitsValue(h) <= 23
    requires |m| == 2 && AllDigits(m) && DigitsValue(m) <= 59
    ensures TimeFromParts(h, m) == h + ":" + m
  {
    PadOfDigits(h);
    PadOfDigits(m);
  }


  /** `sanitizers.string` and `sanitizers.email` without their HTML stripping: `String(value).trim()`, lowered for e-mail. */
  function SanitizeString(v: Value): (r: string)
    ensures r == [] <==> IsBlank(ToJsString(v))
  {
    Trim(ToJsString(v))
  }

  function SanitizeEmail(v: Value): (r: string)
    ensures |r| == |SanitizeString(v)|
  {
    ToLower(SanitizeString(v))
  }

  // ---- schemas -----------------------------------------------------------

  datatype Validator =
    | RequiredRule(fieldName: string)
    | EmailRule
    | MinLengthRule(min: nat, fieldName: string)
    | MaxLengthRule(max: nat, fieldName: string)
    | DniRule
    | PhoneRule
    | TimeFormatRule
    | PasswordRule

  datatype Sanitizer = StringSanitizer | EmailSanitizer | DniSanitizer | PhoneSanitizer | TimeSanitizer

  datatype Rules = Rules(sanitize: Option<Sanitizer>, validators: seq<Validator>)

  function Apply(rule: Validator, v: Value): Check {
    match rule
    case RequiredRule(name) => Required(v, name)
    case EmailRule => Email(v)
    case MinLengthRule(n, name) => MinLength(v, n, name)
    case MaxLengthRule(n, name) => MaxLength(v, n, name)
    case DniRule => Dni(v)
    case PhoneRule => Phone(v)
    case TimeFormatRule => TimeFormat(v)
    case PasswordRule => Password(v)
  }

  function Sanitize(s: Sanitizer, v: Value): Value {
    match s
    case StringSanitizer => Str(SanitizeString(v))
    case EmailSanitizer => Str(SanitizeEmail(v))
    case DniSanitizer => Str(SanitizeDni(v))
    case PhoneSanitizer => Str(SanitizePhone(v))
    case TimeSanitizer => Str(SanitizeTime(v))
  }

  /** `data[field]`, with a missing field read as `undefined`. */
  function FieldValue(data: map<string, Value>, field: string): Value {
    if field in data then data[field] else Undefined
  }

  /** The value a field's validators see: sanitized when the rules say so. */
  function Processed(data: map<string, Value>, field: string, rules: Rules): Value {
    match rules.sanitize
    case Some(s) => Sanitize(s, FieldValue(data, field))
    case None => FieldValue(data, field)
  }

  /** Some validator of the list throws on the value. */
  predicate AnyThrows(vs: seq<Validator>, v: Value) {
    Throws in Checks(vs, v)
  }

  /** The message of one check, if it failed. */
  function MessageOf(c: Check): seq<string> {
    if c.Fail? then [c.message] else []
  }

  /** The outcome of each validator on the value, in order. */
  function Checks(vs: seq<Validator>, v: Value): (cs: seq<Check>)
    ensures |cs| == |vs|
  {
    seq(|vs|, i requires 0 <= i < |vs| => Apply(vs[i], v))
  }

  /** The messages of the failed checks, in order. */
  function FailMessages(cs: seq<Check>): (ms: seq<string>)
    ensures |ms| <= |cs|
    decreases |cs|
  {
    if cs == [] then []
    else FailMessages(cs[..|cs| - 1]) + MessageOf(cs[|cs| - 1])
  }

  /** No message is produced exactly when no check failed. */
  lemma {:induction false} FailMessagesEmpty(cs: seq<Check>)
    ensures FailMessages(cs) == [] <==> forall i :: 0 <= i < |cs| ==> !cs[i].Fail?
    decreases |cs|
  {
    if cs != [] {
      var init := cs[..|cs| - 1];
      FailMessagesEmpty(init);
      assert forall i :: 0 <= i < |init| ==> init[i] == cs[i];
    }
  }

  /** The messages of the failing validators, in validator order. */
  function Messages(vs: seq<Validator>, v: Value): (ms: seq<string>)
    ensures |ms| <= |vs|
  {
    FailMessages(Checks(vs, v))
  }

  /** A value passes every validator of the list exactly when no message is produced. */
  lemma NoMessagesIffAllPass(vs: seq<Validator>, v: Value)
    ensures Messages(vs, v) == [] <==> forall i :: 0 <= i < |vs| ==> !Apply(vs[i], v).Fail?
  {
    var cs := Checks(vs, v);
    FailMessagesEmpty(cs);
    assert forall i :: 0 <= i < |vs| ==> cs[i] == Apply(vs[i], v);
  }

  /** Go through the validators' outcomes in order; `None` at the first that throws. */
  method RunChecks(cs: seq<Check>) returns (r: Option<seq<string>>)
    ensures r.None? <==> Throws in cs
    ensures r.Some? ==> r.value == FailMessages(cs)
  {
    var found: seq<string> := [];
    for i := 0 to |cs|
      invariant found == FailMessages(cs[..i])
      invariant Throws !in cs[..i]
    {
      if cs[i] == Throws {
        return None;
      }
      assert cs[..i + 1][..i] == cs[..i];
      if cs[i].Fail? {
        found := found + [cs[i].message];
      }
    }
    assert cs[..|cs|] == cs;
    return Some(found);
  }

  /** The schema's field names are distinct, as the keys of an object are. */
  predicate DistinctFields(schema: seq<(string, Rules)>) {
    forall i, j :: 0 <= i < j < |schema| ==> schema[i].0 != schema[j].0
  }


  datatype Validated = Validated(isValid: bool, errors: map<string, seq<string>>, sanitizedData: map<string, Value>)

  /** One schema entry applied to the result so far: the processed value is stored and any messages recorded. */
  function Step(prev: Validated, data: map<string, Value>, entry: (string, Rules)): Option<Validated> {
    var v := Processed(data, entry.0, entry.1);
    if EntryThrows(data, entry) then None
    else
      var ms := Messages(entry.1.validators, v);
      var errors := if ms != [] then prev.errors[entry.0 := ms] else prev.errors;
      Some(Validated(errors == map[], errors, prev.sanitizedData[entry.0 := v]))
  }

  /** Some validator of the entry throws on the field's processed value. */
  predicate EntryThrows(data: map<string, Value>, entry: (string, Rules)) {
    AnyThrows(entry.1.validators, Processed(data, entry.0, entry.1))
  }

  /** What validating `data` against the schema entries in order yields; `None` when a validator throws. */
  function Validation(data: map<string, Value>, schema: seq<(string, Rules)>): Option<Validated>
    decreases |schema|
  {
    if schema == [] then Some(Validated(true, map[], map[]))
    else
      match Validation(data, schema[..|schema| - 1])
      case None => None
      case Some(prev) => Step(prev, data, schema[|schema| - 1])
  }

  /** `validateObject(data, schema)`, or `None` when a validator throws. */
  method ValidateObject(data: map<string, Value>, schema: seq<(string, Rules)>) returns (r: Option<Validated>)
    ensures r == Validation(data, schema)
  {
    var errors: map<string, seq<string>> := map[];
    var sanitized: map<string, Value> := map[];
    for k := 0 to |schema|
      invariant Validation(data, schema[..k]) == Some(Validated(errors == map[], errors, sanitized))
    {
      var field := schema[k].0;
      var rules := schema[k].1;
      var value := FieldValue(data, field);
      if rules.sanitize.Some? {
        value := Sanitize(rules.sanitize.value, value);
      }
      assert value == Processed(data, field, rules);
      var found := RunChecks(Checks(rules.validators, value));
      PrefixStep(data, schema, k);
      if found.None? {
        NoneStaysNone(data, schema, k + 1);
        return None;
      }
      if found.value != [] {
        errors := errors[field := found.value];
      }
      sanitized := sanitized[field := value];
    }
    assert schema[..|schema|] == schema;
    return Some(Validated(errors == map[], errors, sanitized));
  }

  /** Validating one more entry of the schema is one more `Step`. */
  lemma PrefixStep(data: map<string, Value>, schema: seq<(string, Rules)>, k: nat)
    requires k < |schema| && Validation(data, schema[..k]).Some?
    ensures Validation(data, schema[..k + 1]) == Step(Validation(data, schema[..k]).value, data, schema[k])
  {
    assert schema[..k + 1][..k] == schema[..k];
  }

  /** Once a validator has thrown, the rest of the schema does not matter. */
  lemma {:induction false} NoneStaysNone(data: map<string, Value>, schema: seq<(string, Rules)>, k: nat)
    requires k <= |schema| && Validation(data, schema[..k]).None?
    ensures Validation(data, schema).None?
    decreases |schema| - k
  {
    if k < |schema| {
      assert schema[..k + 1][..k] == schema[..k];
      NoneStaysNone(data, schema, k + 1);
    } else {
      assert schema[..k] == schema;
    }
  }

  /** A field whose validators throw makes the whole validation throw. */
  lemma ThrowingEntryFails(data: map<string, Value>, schema: seq<(string, Rules)>, k: nat)
    requires k < |schema| && EntryThrows(data, schema[k])
    ensures Validation(data, schema).None?
  {
    var init := schema[..k + 1];
    assert init[..k] == schema[..k];
    assert Validation(data, init).None?;
    NoneStaysNone(data, schema, k + 1);
  }

  /** A validation that throws has a field whose validators throw. */
  lemma {:induction false} FailureHasThrowingEntry(data: map<string, Value>, schema: seq<(string, Rules)>) returns (k: nat)
    requires Validation(data, schema).None?
    ensures k < |schema| && EntryThrows(data, schema[k])
    decreases |schema|
  {
    var n := |schema| - 1;
    var init := schema[..n];
    if Validation(data, init).None? {
      k := FailureHasThrowingEntry(data, init);
      assert init[k] == schema[k];
    } else {
      k := n;
    }
  }

  /** Validation throws exactly when some field's validators throw on its processed value. */
  lemma ValidationThrows(data: map<string, Value>, schema: seq<(string, Rules)>)
    ensures Validation(data, schema).None? <==> exists k :: 0 <= k < |schema| && EntryThrows(data, schema[k])
  {
    if Validation(data, schema).None? {
      var k := FailureHasThrowingEntry(data, schema);
    }
    if exists k :: 0 <= k < |schema| && EntryThrows(data, schema[k]) {
      var k :| 0 <= k < |schema| && EntryThrows(data, schema[k]);
      ThrowingEntryFails(data, schema, k);
    }
  }

  /** One successful step adds its field to the stored values, adds at most that field to the errors, and keeps `isValid` in step with the errors. */
  lemma StepSome(prev: Validated, data: map<string, Value>, entry: (string, Rules))
    requires Step(prev, data, entry).Some?
    ensures var r := Step(prev, data, entry).value;
            r.sanitizedData.Keys == prev.sanitizedData.Keys + {entry.0}
            && r.errors.Keys <= prev.errors.Keys + {entry.0}
            && (r.isValid <==> r.errors == map[])
  {
  }

  /** A successful validation stores exactly the schema's fields, records errors only for them, and is valid iff none were recorded. */
  lemma {:induction false} ValidationKeys(data: map<string, Value>, schema: seq<(string, Rules)>)
    requires Validation(data, schema).Some?
    ensures var r := Validation(data, schema).value;
            r.sanitizedData.Keys == FieldSet(schema)
            && r.errors.Keys <= r.sanitizedData.Keys
            && (r.isValid <==> r.errors == map[])
    decreases |schema|
  {
    if schema != [] {
      var n := |schema| - 1;
      var init := schema[..n];
      ValidationKeys(data, init);
      var prev := Validation(data, init).value;
      assert Validation(data, schema) == Step(prev, data, schema[n]);
      StepSome(prev, data, schema[n]);
      FieldSetSnoc(schema);
    }
  }

  /** The set of field names of a schema. */
  function FieldSet(schema: seq<(string, Rules)>): set<string> {
    set k | 0 <= k < |schema| :: schema[k].0
  }

  lemma FieldSetSnoc(schema: seq<(string, Rules)>)
    requires schema != []
    ensures FieldSet(schema) == FieldSet(schema[..|schema| - 1]) + {schema[|schema| - 1].0}
  {
    var init := schema[..|schema| - 1];
    assert forall k :: 0 <= k < |init| ==> init[k] == schema[k];
  }

  /**
   * With distinct field names, a successful validation stores each field's processed value and records
   * its messages, in validator order, exactly when there are some.
   */
  lemma {:induction false} ValidationRecordsField(data: map<string, Value>, schema: seq<(string, Rules)>, k: nat)
    requires DistinctFields(schema)
    requires Validation(data, schema).Some? && k < |schema|
    ensures RecordedIn(data, schema[k], Validation(data, schema).value)
    decreases |schema|, 1
  {
    if k < |schema| - 1 {
      ValidationRecordsEarlier(data, schema, k);
    } else {
      ValidationRecordsLast(data, schema);
    }
  }

  /** A field before the last one is recorded by the prefix and kept by the last step. */
  lemma {:induction false} ValidationRecordsEarlier(data: map<string, Value>, schema: seq<(string, Rules)>, k: nat)
    requires DistinctFields(schema)
    requires Validation(data, schema).Some? && k < |schema| - 1
    ensures RecordedIn(data, schema[k], Validation(data, schema).value)
    decreases |schema|, 0
  {
    var init := schema[..|schema| - 1];
    DistinctFieldsInit(schema);
    ValidationInitSome(data, schema);
    ValidationRecordsField(data, init, k);
    assert init[k] == schema[k];
    assert schema[k].0 != schema[|schema| - 1].0;
    ValidationKeepsEarlier(data, schema, k);
  }

  lemma DistinctFieldsInit(schema: seq<(string, Rules)>)
    requires schema != [] && DistinctFields(schema)
    ensures DistinctFields(schema[..|schema| - 1])
  {
    var init := schema[..|schema| - 1];
    forall i, j | 0 <= i < j < |init| ensures init[i].0 != init[j].0 {
      assert init[i] == schema[i] && init[j] == schema[j];
    }
  }

  /** A successful validation succeeded on every prefix step. */
  lemma ValidationInitSome(data: map<string, Value>, schema: seq<(string, Rules)>)
    requires schema != [] && Validation(data, schema).Some?
    ensures Validation(data, schema[..|schema| - 1]).Some?
  {
  }

  /** The last step of a validation keeps the record of an earlier field. */
  lemma ValidationKeepsEarlier(data: map<string, Value>, schema: seq<(string, Rules)>, k: nat)
    requires k < |schema| - 1 && schema[k].0 != schema[|schema| - 1].0
    requires Validation(data, schema).Some? && Validation(data, schema[..|schema| - 1]).Some?
    requires RecordedIn(data, schema[k], Validation(data, schema[..|schema| - 1]).value)
    ensures RecordedIn(data, schema[k], Validation(data, schema).value)
  {
    var n := |schema| - 1;
    var prev := Validation(data, schema[..n]).value;
    assert Validation(data, schema) == Step(prev, data, schema[n]);
    StepKeepsRecord(prev, data, schema[n], schema[k]);
  }

  /** The last field of a successful validation is recorded. */
  lemma ValidationRecordsLast(data: map<string, Value>, schema: seq<(string, Rules)>)
    requires DistinctFields(schema)
    requires Validation(data, schema).Some? && schema != []
    ensures RecordedIn(data, schema[|schema| - 1], Validation(data, schema).value)
  {
    var n := |schema| - 1;
    var init := schema[..n];
    assert Validation(data, init).Some?;
    var prev := Validation(data, init).value;
    ValidationKeys(data, init);
    assert schema[n].0 !in FieldSet(init);
    StepRecordsEntry(prev, data, schema[n]);
  }

  /** A step records its own field. */
  lemma StepRecordsEntry(prev: Validated, data: map<string, Value>, entry: (string, Rules))
    requires Step(prev, data, entry).Some? && entry.0 !in prev.errors
    ensures var r := Step(prev, data, entry).value;
            Recorded(data, entry, r.errors, r.sanitizedData)
  {
  }

  /** A step leaves the record of every other field as it was. */
  lemma StepKeepsRecord(prev: Validated, data: map<string, Value>, entry: (string, Rules), other: (string, Rules))
    requires Step(prev, data, entry).Some?
    requires other.0 != entry.0 && RecordedIn(data, other, prev)
    ensures RecordedIn(data, other, Step(prev, data, entry).value)
  {
  }

  /** `Recorded` for a validation result. */
  predicate RecordedIn(data: map<string, Value>, entry: (string, Rules), r: Validated) {
    Recorded(data, entry, r.errors, r.sanitizedData)
  }

  /** The field's processed value is stored, and its messages are recorded exactly when there are some. */
  predicate Recorded(data: map<string, Value>, entry: (string, Rules), errors: map<string, seq<string>>, sanitized: map<string, Value>) {
    var ms := Messages(entry.1.validators, Processed(data, entry.0, entry.1));
    entry.0 in sanitized && sanitized[entry.0] == Processed(data, entry.0, entry.1)
    && (entry.0 in errors <==> ms != []) && (ms != [] ==> errors[entry.0] == ms)
  }

  /** The attendance schema: entry time required, exit time optional, justification at most 200 characters. */
  const AsistenciaSchema: seq<(string, Rules)> := [
    ("hora_entrada", Rules(Some(TimeSanitizer), [RequiredRule("Hora de entrada"), TimeFormatRule])),
    ("hora_salida", Rules(Some(TimeSanitizer), [TimeFormatRule])),
    ("justificacion", Rules(Some(StringSanitizer), [MaxLengthRule(200, "Justificación")]))
  ]

  const TrabajadorSchema: seq<(string, Rules)> := [
    ("nombre", Rules(Some(StringSanitizer), [RequiredRule("Nombre"), MinLengthRule(2, "Nombre"), MaxLengthRule(50, "Nombre")])),
    ("dni", Rules(Some(DniSanitizer), [RequiredRule("DNI"), DniRule])),
    ("email", Rules(Some(EmailSanitizer), [EmailRule]))
  ]

  const CoordinadorSchema: seq<(string, Rules)> := [
    ("nombre", Rules(Some(StringSanitizer), [RequiredRule("Nombre"), MinLengthRule(2, "Nombre"), MaxLengthRule(50, "Nombre")])),
    ("correo", Rules(Some(EmailSanitizer), [RequiredRule("Correo"), EmailRule])),
    ("password", Rules(None, [RequiredRule("Contraseña"), PasswordRule]))
  ]

  /** A coordinator without a password makes the password validator throw, so validation throws too. */
  lemma MissingPasswordThrows(data: map<string, Value>)
    requires "password" !in data
    ensures AnyThrows(CoordinadorSchema[2].1.validators, Processed(data, "password", CoordinadorSchema[2].1))
  {
    assert Checks(CoordinadorSchema[2].1.validators, Undefined)[1] == Throws;
  }
}
