/**
 * The "add dates" dialog: the pending list of `YYYY-MM-DD` strings it builds,
 * the two date inputs, the day-by-day range expansion and the chip removal.
 */
module AgregarFechas {
  import opened Common
  import opened CivilDates
  import opened JsStrings

  /** A date `toISOString` prints with a four-digit year. */
  predicate Printable(d: Date) {
    Valid(d) && d.year < 10000
  }

  /** The days from `d` to `end`, both included, one after another; empty when `d` is after `end`. */
  function DaysFrom(d: Date, end: Date): (r: seq<Date>)
    requires Valid(d) && Valid(end)
    ensures Ordinal(d) > Ordinal(end) ==> r == []
    ensures Ordinal(d) <= Ordinal(end) ==> |r| >= 1 && r[0] == d && r[|r| - 1] == end
    ensures forall i :: 0 <= i < |r| ==> Valid(r[i]) && Ordinal(d) <= Ordinal(r[i]) <= Ordinal(end) && r[i].year <= end.year
    decreases Ordinal(end) + 1 - Ordinal(d)
  {
    if Ordinal(d) > Ordinal(end) then []
    else if Ordinal(d) == Ordinal(end) then
      OrdinalInjective(d, end);
      [d]
    else
      NoDateBetween(d, end);
      YearOrder(d, end);
      [d] + DaysFrom(NextDay(d), end)
  }

  /** Each day of the range is followed by the next calendar day. */
  lemma {:induction false} DaysFromConsecutive(d: Date, end: Date)
    requires Valid(d) && Valid(end)
    ensures forall i :: 0 <= i < |DaysFrom(d, end)| - 1 ==> DaysFrom(d, end)[i + 1] == NextDay(DaysFrom(d, end)[i])
    decreases Ordinal(end) + 1 - Ordinal(d)
  {
    if Ordinal(d) < Ordinal(end) {
      NoDateBetween(d, end);
      DaysFromConsecutive(NextDay(d), end);
      var rest := DaysFrom(NextDay(d), end);
      var r := DaysFrom(d, end);
      assert r == [d] + rest;
      forall i | 0 <= i < |r| - 1 ensures r[i + 1] == NextDay(r[i]) {
        assert r[i + 1] == rest[i];
        if i > 0 {
          assert r[i] == rest[i - 1];
        }
      }
    }
  }

  /** Strictly increasing instants. */
  predicate Increasing(ds: seq<Date>) {
    forall i, j :: 0 <= i < j < |ds| ==> Ordinal(ds[i]) < Ordinal(ds[j])
  }

  lemma IncreasingCons(d: Date, rest: seq<Date>)
    requires Increasing(rest) && forall k :: 0 <= k < |rest| ==> Ordinal(d) < Ordinal(rest[k])
    ensures Increasing([d] + rest)
  {
    var r := [d] + rest;
    forall i, j | 0 <= i < j < |r| ensures Ordinal(r[i]) < Ordinal(r[j]) {
      assert r[j] == rest[j - 1];
      if i > 0 {
        assert r[i] == rest[i - 1];
      }
    }
  }

  /** The days of the range strictly increase. */
  lemma {:induction false} DaysFromIncreasing(d: Date, end: Date)
    requires Valid(d) && Valid(end)
    ensures Increasing(DaysFrom(d, end))
    decreases Ordinal(end) + 1 - Ordinal(d)
  {
    if Ordinal(d) < Ordinal(end) {
      NoDateBetween(d, end);
      var next := NextDay(d);
      DaysFromIncreasing(next, end);
      var rest := DaysFrom(next, end);
      assert DaysFrom(d, end) == [d] + rest;
      IncreasingCons(d, rest);
    }
  }

  /** Every date from `d` to `end` is among `DaysFrom(d, end)`: the range has no gaps. */
  lemma {:induction false} DaysFromCovers(d: Date, end: Date, x: Date)
    requires Valid(d) && Valid(end) && Valid(x)
    requires Ordinal(d) <= Ordinal(x) <= Ordinal(end)
    ensures x in DaysFrom(d, end)
    decreases Ordinal(end) + 1 - Ordinal(d)
  {
    if Ordinal(d) == Ordinal(x) {
      OrdinalInjective(d, x);
    } else {
      NoDateBetween(d, x);
      NoDateBetween(d, end);
      DaysFromCovers(NextDay(d), end, x);
    }
  }

  /** Each date printed with `toISOString().slice(0, 10)`. */
  function FormatAll(ds: seq<Date>): (r: seq<string>)
    requires forall i :: 0 <= i < |ds| ==> Printable(ds[i])
    ensures |r| == |ds| && forall i :: 0 <= i < |ds| ==> Printable(ds[i]) && r[i] == Format(ds[i])
  {
    if ds == [] then []
    else
      var rest := ds[1..];
      assert Printable(ds[0]);
      assert forall i :: 0 <= i < |rest| ==> rest[i] == ds[i + 1];
      [Format(ds[0])] + FormatAll(rest)
  }

  /**
   * `getFechasRango(inicio, fin)`: the printed days from the first date to the second, both included;
   * empty when either string is not a date (an Invalid Date compares false) or the first is after the second.
   */
  function RangeStrings(inicio: string, fin: string): seq<string> {
    var a := Parse(inicio);
    var b := Parse(fin);
    if a.None? || b.None? then [] else FormatAll(DaysFrom(a.value, b.value))
  }

  /** One turn of the range loop: the current day's string, then the rest of the range. */
  lemma RangeStep(actual: Date, end: Date)
    requires Valid(actual) && Printable(end) && Ordinal(actual) <= Ordinal(end)
    ensures FormatAll(DaysFrom(actual, end)) == [Format(actual)] + FormatAll(DaysFrom(NextDay(actual), end))
  {
    var rest := DaysFrom(NextDay(actual), end);
    if Ordinal(actual) == Ordinal(end) {
      OrdinalInjective(actual, end);
      assert DaysFrom(actual, end) == [actual];
    } else {
      NoDateBetween(actual, end);
      assert DaysFrom(actual, end) == [actual] + rest;
    }
    assert ([actual] + rest)[1..] == rest;
  }

  /** `getFechasRango`: read both strings as dates, then walk the days between them. */
  method GetFechasRango(inicio: string, fin: string) returns (fechas: seq<string>)
    ensures fechas == RangeStrings(inicio, fin)
  {
    var a := Parse(inicio);
    var b := Parse(fin);
    if a.None? || b.None? {
      return [];
    }
    fechas := WalkDays(a.value, b.value);
  }

  /** The range loop: push the current day, then step to the next, while it is not after the end. */
  method WalkDays(start: Date, end: Date) returns (fechas: seq<string>)
    requires Valid(start) && Printable(end)
    ensures fechas == FormatAll(DaysFrom(start, end))
  {
    fechas := [];
    var actual := start;
    while Ordinal(actual) <= Ordinal(end)
      invariant Valid(actual)
      invariant FormatAll(DaysFrom(start, end)) == fechas + FormatAll(DaysFrom(actual, end))
      decreases Ordinal(end) + 1 - Ordinal(actual)
    {
      ghost var tail := FormatAll(DaysFrom(actual, end));
      var next := NextDay(actual);
      RangeStep(actual, end);
      YearOrder(actual, end);
      var day := Format(actual);
      assert tail == [day] + FormatAll(DaysFrom(next, end));
      AppendOne(fechas, day, FormatAll(DaysFrom(next, end)));
      fechas := fechas + [day];
      actual := next;
    }
  }

  lemma AppendOne<T>(a: seq<T>, x: T, b: seq<T>)
    ensures a + ([x] + b) == (a + [x]) + b
  {
  }

  /** Dates in strictly increasing order print as distinct strings. */
  lemma FormatAllDistinct(ds: seq<Date>)
    requires forall i :: 0 <= i < |ds| ==> Printable(ds[i])
    requires Increasing(ds)
    ensures Distinct(FormatAll(ds))
  {
    var r := FormatAll(ds);
    var parsed := seq(|ds|, i requires 0 <= i < |ds| => Some(ds[i]));
    forall i, j | 0 <= i < j < |parsed| ensures parsed[i] != parsed[j] {
      assert Ordinal(ds[i]) < Ordinal(ds[j]);
    }
    forall i | 0 <= i < |r| ensures Parse(r[i]) == parsed[i] {
      ParseFormat(ds[i]);
    }
    LeftInverseDistinct(parsed, r, Parse);
  }

  /** The range never repeats a date. */
  lemma RangeStringsDistinct(inicio: string, fin: string)
    ensures Distinct(RangeStrings(inicio, fin))
  {
    var a, b := Parse(inicio), Parse(fin);
    if a.Some? && b.Some? {
      DaysFromIncreasing(a.value, b.value);
      FormatAllDistinct(DaysFrom(a.value, b.value));
    }
  }

  /** The range holds exactly the dates from the first to the second, printed. */
  lemma RangeStringsMembers(inicio: string, fin: string, s: string)
    requires Parse(inicio).Some? && Parse(fin).Some?
    ensures s in RangeStrings(inicio, fin) <==>
              Parse(s).Some? && Ordinal(Parse(inicio).value) <= Ordinal(Parse(s).value) <= Ordinal(Parse(fin).value)
  {
    if s in RangeStrings(inicio, fin) {
      RangeMemberBetween(inicio, fin, s);
    }
    if Parse(s).Some? && Ordinal(Parse(inicio).value) <= Ordinal(Parse(s).value) <= Ordinal(Parse(fin).value) {
      BetweenRangeMember(inicio, fin, s);
    }
  }

  lemma RangeMemberBetween(inicio: string, fin: string, s: string)
    requires Parse(inicio).Some? && Parse(fin).Some? && s in RangeStrings(inicio, fin)
    ensures Parse(s).Some? && Ordinal(Parse(inicio).value) <= Ordinal(Parse(s).value) <= Ordinal(Parse(fin).value)
  {
    var ds := DaysFrom(Parse(inicio).value, Parse(fin).value);
    var r := RangeStrings(inicio, fin);
    var i :| 0 <= i < |r| && r[i] == s;
    ParseFormat(ds[i]);
  }

  lemma BetweenRangeMember(inicio: string, fin: string, s: string)
    requires Parse(inicio).Some? && Parse(fin).Some? && Parse(s).Some?
    requires Ordinal(Parse(inicio).value) <= Ordinal(Parse(s).value) <= Ordinal(Parse(fin).value)
    ensures s in RangeStrings(inicio, fin)
  {
    var a := Parse(inicio).value;
    var b := Parse(fin).value;
    var ds := DaysFrom(a, b);
    var r := RangeStrings(inicio, fin);
    var x := Parse(s).value;
    DaysFromCovers(a, b, x);
    var i :| 0 <= i < |ds| && ds[i] == x;
    FormatOfParse(s);
    assert r[i] == s;
  }

  /** A string that reads as a date is that date's printed form. */
  lemma FormatOfParse(s: string)
    requires Parse(s).Some?
    ensures Format(Parse(s).value) == s
  {
    var d := Parse(s).value;
    var f := Format(d);
    assert f[..4] == Pad4(d.year) && f[5..7] == Pad2(d.month) && f[8..] == Pad2(d.day);
    DigitsValueInjective(s[..4], f[..4]);
    DigitsValueInjective(s[5..7], f[5..7]);
    DigitsValueInjective(s[8..], f[8..]);
    assert s == s[..4] + "-" + s[5..7] + "-" + s[8..];
    assert f == f[..4] + "-" + f[5..7] + "-" + f[8..];
  }

  /** The pending list and the two date inputs of the dialog. */
  class AgregarFechasDialog {
    var fechasAgregar: seq<string>
    var fechaTemp1: string
    var fechaTemp2: string

    /** The pending list never repeats a date and never holds an empty string. */
    ghost predicate Valid()
      reads this
    {
      Distinct(fechasAgregar) && "" !in fechasAgregar
    }

    constructor(fechasAgregar: seq<string>)
      requires Distinct(fechasAgregar) && "" !in fechasAgregar
      ensures Valid() && this.fechasAgregar == fechasAgregar && fechaTemp1 == "" && fechaTemp2 == ""
    {
      this.fechasAgregar := fechasAgregar;
      fechaTemp1 := "";
      fechaTemp2 := "";
    }

    /**
     * `agregarFechaTemp(fecha)`: a non-empty date not yet listed is appended; anything else changes nothing.
     * The dialog defines this handler but no control of it calls it.
     */
    method AgregarFechaTemp(fecha: string)
      requires Valid()
      modifies this
      ensures Valid() && fechaTemp1 == old(fechaTemp1) && fechaTemp2 == old(fechaTemp2)
      ensures fecha != "" && fecha !in old(fechasAgregar) ==> fechasAgregar == old(fechasAgregar) + [fecha]
      ensures fecha == "" || fecha in old(fechasAgregar) ==> fechasAgregar == old(fechasAgregar)
    {
      if fecha != "" && fecha !in fechasAgregar {
        DistinctConcat(fechasAgregar, [fecha]);
        fechasAgregar := fechasAgregar + [fecha];
      }
    }

    /**
     * `handleGuardarTodas`: both inputs give their range, one input gives itself; the dates not already
     * listed are appended in order, and both inputs are cleared.
     */
    method GuardarTodas()
      requires Valid()
      modifies this
      ensures Valid() && fechaTemp1 == "" && fechaTemp2 == ""
      ensures fechasAgregar == old(fechasAgregar) + Filter(Candidates(old(fechaTemp1), old(fechaTemp2)), f => f !in old(fechasAgregar))
      ensures forall f :: f in fechasAgregar <==> f in old(fechasAgregar) || f in Candidates(old(fechaTemp1), old(fechaTemp2))
    {
      var candidates: seq<string> := [];
      if fechaTemp1 != "" && fechaTemp2 != "" {
        candidates := GetFechasRango(fechaTemp1, fechaTemp2);
      } else if fechaTemp1 != "" {
        candidates := [fechaTemp1];
      } else if fechaTemp2 != "" {
        candidates := [fechaTemp2];
      }
      CandidatesDistinct(fechaTemp1, fechaTemp2);
      var listed := fechasAgregar;
      var nuevas := Filter(candidates, f => f !in listed);
      FilterDistinct(candidates, f => f !in listed);
      DistinctConcat(fechasAgregar, nuevas);
      fechasAgregar := fechasAgregar + nuevas;
      fechaTemp1 := "";
      fechaTemp2 := "";
    }

    /** The chip's remove button: exactly that date leaves the list; the others keep their order. */
    method QuitarFecha(f: string)
      requires Valid()
      modifies this
      ensures Valid() && fechaTemp1 == old(fechaTemp1) && fechaTemp2 == old(fechaTemp2)
      ensures fechasAgregar == Filter(old(fechasAgregar), ff => ff != f)
      ensures forall x :: x in fechasAgregar <==> x in old(fechasAgregar) && x != f
      ensures multiset(fechasAgregar) == multiset(old(fechasAgregar)) - multiset{f}
    {
      var before := fechasAgregar;
      FilterDistinct(before, ff => ff != f);
      RemoveDistinctCount(before, f, ff => ff != f);
      fechasAgregar := Filter(before, ff => ff != f);
    }

    /** The close button: the pending list and both inputs are emptied. */
    method Cerrar()
      modifies this
      ensures Valid() && fechasAgregar == [] && fechaTemp1 == "" && fechaTemp2 == ""
    {
      fechasAgregar := [];
      fechaTemp1 := "";
      fechaTemp2 := "";
    }
  }

  /** The dates `handleGuardarTodas` considers before dropping the listed ones. */
  function Candidates(fechaTemp1: string, fechaTemp2: string): (r: seq<string>)
    ensures "" !in r
  {
    if fechaTemp1 != "" && fechaTemp2 != "" then
      var range := RangeStrings(fechaTemp1, fechaTemp2);
      assert forall i :: 0 <= i < |range| ==> |range[i]| == 10;
      range
    else if fechaTemp1 != "" then [fechaTemp1]
    else if fechaTemp2 != "" then [fechaTemp2]
    else []
  }

  lemma CandidatesDistinct(fechaTemp1: string, fechaTemp2: string)
    ensures Distinct(Candidates(fechaTemp1, fechaTemp2))
  {
    RangeStringsDistinct(fechaTemp1, fechaTemp2);
  }

  /** In a duplicate-free list, filtering one value out removes exactly its one copy. */
  lemma {:induction false} RemoveDistinctCount(s: seq<string>, f: string, other: string -> bool)
    requires Distinct(s) && forall ff :: other(ff) == (ff != f)
    ensures multiset(Filter(s, other)) == multiset(s) - multiset{f}
    decreases |s|
  {
    if s != [] {
      DistinctCons(s);
      RemoveDistinctCount(s[1..], f, other);
      assert s == [s[0]] + s[1..];
    }
  }
}
