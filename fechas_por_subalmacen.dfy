/**
 * The per-sub-warehouse date list: loading it sorted by date, editing one
 * date, deleting one, merging newly created dates, and the day-of-month
 * search. Each request's outcome is a parameter.
 */
module FechasPorSubalmacen {
  import opened Common
  import opened JsStrings
  import opened CivilDates
  import opened TableSort
  import AsignarAlmacenes

  /** A date row as the server sends it; `fecha` is absent when missing. */
  datatype FechaRow = FechaRow(id: int, fecha: Option<string>, subalmacenId: Option<int>, activo: Option<int>)

  /** The row's `fecha` reads as a date or a UTC timestamp. */
  predicate Stamped(f: FechaRow) {
    f.fecha.Some? && ParseStamp(f.fecha.value).Some?
  }

  /** `new Date(f.fecha)` as a sort key: the instant, or NaN when the date is missing or unreadable. */
  function FechaKey(f: FechaRow): (k: Key)
    ensures Orderable(k, 0) <==> Stamped(f)
    ensures Stamped(f) ==> k == NumKey(Finite(Instant(ParseStamp(f.fecha.value).value)))
  {
    if Stamped(f) then NumKey(Finite(Instant(ParseStamp(f.fecha.value).value)))
    else NumKey(NaN)
  }

  /** A row whose date the server sends as `toISOString()` output is keyed by that instant. */
  lemma ServerRowKey(f: FechaRow, st: Stamp)
    requires Valid(st.date) && st.date.year < 10000 && ValidTime(st.time)
    requires f.fecha == Some(FormatStamp(st))
    ensures Stamped(f) && FechaKey(f) == NumKey(Finite(Instant(st)))
  {
    ParseFormatStamp(st);
  }

  /** A list the server sends with every date as a timestamp is dated, so loading it sorts it by instant. */
  lemma ServerRowsSorted(rows: seq<FechaRow>, stamps: seq<Stamp>)
    requires |stamps| == |rows|
    requires forall i :: 0 <= i < |rows| ==>
               Valid(stamps[i].date) && stamps[i].date.year < 10000 && ValidTime(stamps[i].time)
               && rows[i].fecha == Some(FormatStamp(stamps[i]))
    ensures AllDated(rows) && SortedBy(SortByFecha(rows), FechaKey, Asc)
  {
    forall i | 0 <= i < |rows| ensures Orderable(FechaKey(rows[i]), 0) {
      ServerRowKey(rows[i], stamps[i]);
    }
    SortedWhenDated(rows);
  }

  /** In a sorted list of dated rows, the calendar dates do not decrease. */
  lemma SortedDatesAscend(rows: seq<FechaRow>, i: int, j: int)
    requires AllDated(rows) && SortedBy(rows, FechaKey, Asc)
    requires 0 <= i < j < |rows|
    ensures Ordinal(ParseStamp(rows[i].fecha.value).value.date) <= Ordinal(ParseStamp(rows[j].fecha.value).value.date)
  {
    assert Stamped(rows[i]) && Stamped(rows[j]);
    var a := ParseStamp(rows[i].fecha.value).value;
    var b := ParseStamp(rows[j].fecha.value).value;
    assert Compare(FechaKey(rows[i]), FechaKey(rows[j]), Asc) <= 0;
    InstantOrder(a, b);
  }

  /** `rows.sort((a, b) => new Date(a.fecha) - new Date(b.fecha))`. */
  function SortByFecha(rows: seq<FechaRow>): (r: seq<FechaRow>)
    ensures multiset(r) == multiset(rows) && |r| == |rows|
  {
    SortBy(rows, FechaKey, Asc)
  }

  /** Every row holds a readable date. */
  predicate AllDated(rows: seq<FechaRow>) {
    Uniform(rows, FechaKey, 0)
  }

  /** Sorting rows that all hold a date puts them in ascending date order. */
  lemma SortedWhenDated(rows: seq<FechaRow>)
    requires AllDated(rows)
    ensures SortedBy(SortByFecha(rows), FechaKey, Asc) && AllDated(SortByFecha(rows))
  {
    SortBySorted(rows, FechaKey, Asc, 0);
    var r := SortByFecha(rows);
    forall i | 0 <= i < |r| ensures Orderable(FechaKey(r[i]), 0) {
      assert r[i] in multiset(rows);
      var k :| 0 <= k < |rows| && rows[k] == r[i];
    }
  }

  /** Dropping elements from a sorted sequence keeps it sorted. */
  lemma {:induction false} FilterKeepsSorted<T>(s: seq<T>, p: T -> bool, key: T -> Key)
    requires SortedBy(s, key, Asc)
    ensures SortedBy(Filter(s, p), key, Asc)
    decreases |s|
  {
    if s != [] {
      SortedTail(s, key);
      FilterKeepsSorted(s[1..], p, key);
      var rest := Filter(s[1..], p);
      if p(s[0]) {
        forall y | y in rest ensures Compare(key(s[0]), key(y), Asc) <= 0 {
          var k :| 0 <= k < |s[1..]| && s[1..][k] == y;
          assert s[k + 1] == y;
        }
        SortedCons(s[0], rest, key);
        assert Filter(s, p) == [s[0]] + rest;
      } else {
        assert Filter(s, p) == rest;
      }
    }
  }

  lemma SortedTail<T>(s: seq<T>, key: T -> Key)
    requires s != [] && SortedBy(s, key, Asc)
    ensures SortedBy(s[1..], key, Asc)
  {
    forall i, j | 0 <= i < j < |s[1..]| ensures Compare(key(s[1..][i]), key(s[1..][j]), Asc) <= 0 {
      assert s[1..][i] == s[i + 1] && s[1..][j] == s[j + 1];
    }
  }

  lemma SortedCons<T>(x: T, rest: seq<T>, key: T -> Key)
    requires SortedBy(rest, key, Asc)
    requires forall y :: y in rest ==> Compare(key(x), key(y), Asc) <= 0
    ensures SortedBy([x] + rest, key, Asc)
  {
    var r := [x] + rest;
    forall i, j | 0 <= i < j < |r| ensures Compare(key(r[i]), key(r[j]), Asc) <= 0 {
      assert r[j] == rest[j - 1];
      if i > 0 {
        assert r[i] == rest[i - 1];
      }
    }
  }

  /** How the list request ended: a JSON body (`None` when not an array), or a failure to fetch or parse. */
  datatype LoadOutcome = Loaded(rows: Option<seq<FechaRow>>) | LoadFailed

  /** `prev.map(f => f.id === id ? { ...f, fecha: nueva } : f)`. */
  function EditFecha(rows: seq<FechaRow>, id: int, nueva: string): (r: seq<FechaRow>)
    ensures |r| == |rows|
    ensures forall i :: 0 <= i < |rows| ==> r[i].id == rows[i].id && r[i].subalmacenId == rows[i].subalmacenId
                                            && r[i].activo == rows[i].activo
    ensures forall i :: 0 <= i < |rows| && rows[i].id != id ==> r[i] == rows[i]
    ensures forall i :: 0 <= i < |rows| && rows[i].id == id ==> r[i].fecha == Some(nueva)
  {
    seq(|rows|, i requires 0 <= i < |rows| => if rows[i].id == id then rows[i].(fecha := Some(nueva)) else rows[i])
  }

  /** Whether a row with this id is listed (`fechas.find(f => f.id === id)`). */
  predicate Listed(rows: seq<FechaRow>, id: int) {
    exists i :: 0 <= i < |rows| && rows[i].id == id
  }

  /** The body of the PUT: the new date, the row's sub-warehouse, and its `activo` flag defaulting to 1. */
  datatype PutBody = PutBody(fecha: string, subalmacenId: Option<int>, activo: int)

  /**
   * What `handleAgregarFechas` sends: nothing, one date, or the batch of all pending dates, each with
   * `subalmacen_id: Number(subalmacenId)`; `None` is NaN, which the JSON body carries as `null`.
   */
  datatype AddRequest = NoRequest | Single(fecha: string, subalmacenId: Option<int>) | Batch(fechas: seq<string>, subalmacenId: Option<int>)

  /** `Number(subalmacenId)` on the hook's argument: `undefined` is NaN, a string reads as `Number` reads it. */
  function SubalmacenNumber(subalmacenId: Option<string>): (r: Option<int>)
    ensures subalmacenId.None? ==> r.None?
    ensures subalmacenId == Some("") ==> r == Some(0)
  {
    if subalmacenId.Some? then AsignarAlmacenes.NumberOf(subalmacenId.value) else None
  }

  /** The id of the sub-warehouse whose page is open, given as its printed id, reaches the request unchanged. */
  lemma SubalmacenNumberOfPrinted(n: int)
    ensures SubalmacenNumber(Some(IntToString(n))) == Some(n)
  {
    AsignarAlmacenes.NumberOfIntToString(n);
  }

  /** How the creation request ended: the created rows, or an error status or failure. */
  datatype AddOutcome = Created(rows: seq<FechaRow>) | AddFailed

  /** `new Date(fecha).getDate().toString()`: the day of the month (of the UTC date), or "NaN" for an Invalid Date. */
  function DiaString(fecha: string): (r: string)
    ensures ParseStamp(fecha).None? ==> r == "NaN"
    ensures ParseStamp(fecha).Some? ==>
              AllDigits(r) && DigitsValue(r) == ParseStamp(fecha).value.date.day && (|r| > 1 ==> r[0] != '0')
  {
    var st := ParseStamp(fecha);
    if st.Some? then
      DigitsValueOfNatToString(st.value.date.day);
      DayOfMonthString(st.value.date)
    else "NaN"
  }

  /**
   * A row matches the search when it has a date whose day of the month is the trimmed search.
   * Only rows with a readable date match, unless the search is "NaN", which every unreadable date matches.
   */
  predicate MatchesDia(f: FechaRow, busqueda: string)
    ensures MatchesDia(f, busqueda) && Trim(busqueda) != "NaN" ==> Stamped(f)
  {
    f.fecha.Some? && f.fecha.value != "" && DiaString(f.fecha.value) == Trim(busqueda)
  }

  /** `fechasFiltradas`: everything when the search is empty; otherwise the rows of that day of the month, in order. */
  function Filtradas(fechas: seq<FechaRow>, busqueda: string): (r: seq<FechaRow>)
    ensures busqueda == "" ==> r == fechas
    ensures busqueda != "" ==> forall i :: 0 <= i < |r| ==> r[i] in fechas && MatchesDia(r[i], busqueda)
    ensures busqueda != "" ==> forall i :: 0 <= i < |fechas| && MatchesDia(fechas[i], busqueda) ==> fechas[i] in r
    ensures busqueda != "" ==> KeptInOrder(r, fechas, (f: FechaRow) => MatchesDia(f, busqueda))
    ensures multiset(r) <= multiset(fechas)
  {
    if busqueda == "" then fechas
    else
      var keep := (f: FechaRow) => MatchesDia(f, busqueda);
      FilterMultiset(fechas, keep);
      FilterIsKept(fechas, keep);
      Filter(fechas, keep)
  }

  /** `prev.filter(f => f.id !== id)`. */
  function WithoutId(rows: seq<FechaRow>, id: int): seq<FechaRow> {
    Filter(rows, (f: FechaRow) => f.id != id)
  }

  /** A row the server sends as a timestamp matches a search exactly when its day of the month, unpadded, is the trimmed search. */
  lemma ServerRowMatchesDia(f: FechaRow, st: Stamp, busqueda: string)
    requires Valid(st.date) && st.date.year < 10000 && ValidTime(st.time)
    requires f.fecha == Some(FormatStamp(st))
    ensures MatchesDia(f, busqueda) <==> NatToString(st.date.day) == Trim(busqueda)
  {
    ParseFormatStamp(st);
  }

  /** The search result of a sorted list is sorted. */
  lemma FiltradasSorted(fechas: seq<FechaRow>, busqueda: string)
    requires SortedBy(fechas, FechaKey, Asc)
    ensures SortedBy(Filtradas(fechas, busqueda), FechaKey, Asc)
  {
    if busqueda != "" {
      FilterKeepsSorted(fechas, (f: FechaRow) => MatchesDia(f, busqueda), FechaKey);
    }
  }

  /** The state of `useFechasPorSubalmacen`. */
  class FechasHook {
    var fechas: seq<FechaRow>
    var loading: bool
    var editandoId: Option<int>
    var nuevaFecha: string
    var agregando: bool
    var fechasAgregar: seq<string>
    var guardando: bool
    var showConfirm: bool
    var fechaAEliminar: Option<FechaRow>
    var busqueda: string

    constructor()
      ensures fechas == [] && loading && editandoId == None && nuevaFecha == "" && !agregando
      ensures fechasAgregar == [] && !guardando && !showConfirm && fechaAEliminar == None && busqueda == ""
    {
      fechas := [];
      loading := true;
      editandoId := None;
      nuevaFecha := "";
      agregando := false;
      fechasAgregar := [];
      guardando := false;
      showConfirm := false;
      fechaAEliminar := None;
      busqueda := "";
    }

    /** The load effect: without a sub-warehouse nothing happens; otherwise loading starts and a request goes out. */
    method StartLoad(subalmacenId: Option<string>) returns (requested: bool)
      modifies this
      ensures requested <==> subalmacenId.Some? && subalmacenId.value != ""
      ensures requested ==> loading && fechas == old(fechas)
      ensures !requested ==> unchanged(this)
    {
      if subalmacenId.None? || subalmacenId.value == "" {
        return false;
      }
      loading := true;
      return true;
    }

    /** The load settles: an array is stored sorted by date, anything else leaves an empty list; loading ends. */
    method FinishLoad(outcome: LoadOutcome)
      modifies this
      ensures !loading
      ensures outcome.Loaded? && outcome.rows.Some? ==> fechas == SortByFecha(outcome.rows.value)
      ensures !(outcome.Loaded? && outcome.rows.Some?) ==> fechas == []
      ensures AllDated(fechas) ==> SortedBy(fechas, FechaKey, Asc)
      ensures editandoId == old(editandoId) && fechasAgregar == old(fechasAgregar) && fechaAEliminar == old(fechaAEliminar)
    {
      if outcome.Loaded? && outcome.rows.Some? {
        var sorted := SortByFecha(outcome.rows.value);
        AllDatedOfPermutation(outcome.rows.value, sorted);
        if AllDated(sorted) {
          SortedWhenDated(outcome.rows.value);
        }
        fechas := sorted;
      } else {
        fechas := [];
      }
      loading := false;
    }

    /** `handleEditarClick(f)`: edit `f`, starting from the first ten characters of its date (or ""). */
    method EditarClick(f: FechaRow)
      modifies this
      ensures editandoId == Some(f.id)
      ensures nuevaFecha == if f.fecha.Some? && |f.fecha.value| >= 10 then f.fecha.value[..10]
                            else if f.fecha.Some? then f.fecha.value else ""
      ensures fechas == old(fechas) && fechaAEliminar == old(fechaAEliminar) && fechasAgregar == old(fechasAgregar)
    {
      editandoId := Some(f.id);
      if f.fecha.Some? {
        nuevaFecha := if |f.fecha.value| >= 10 then f.fecha.value[..10] else f.fecha.value;
      } else {
        nuevaFecha := "";
      }
    }

    /**
     * `handleGuardarClick(id, nueva)`: an unlisted id sends nothing and changes nothing, the edit staying
     * open. Otherwise a PUT goes out with the row's sub-warehouse and `activo` (1 when missing); when it
     * succeeds only that id's date changes and the list is re-sorted; either way the edit closes.
     */
    method GuardarClick(id: int, nueva: string, ok: bool) returns (put: Option<PutBody>)
      modifies this
      ensures !Listed(old(fechas), id) ==> put == None && unchanged(this)
      ensures Listed(old(fechas), id) ==>
                put.Some? && put.value.fecha == nueva && editandoId == None && nuevaFecha == ""
                && exists i :: 0 <= i < |old(fechas)| && old(fechas)[i].id == id
                               && put.value == PutBody(nueva, old(fechas)[i].subalmacenId, old(fechas)[i].activo.GetOr(1))
                               && (forall k :: 0 <= k < i ==> old(fechas)[k].id != id)
      ensures Listed(old(fechas), id) && ok ==> fechas == SortByFecha(EditFecha(old(fechas), id, nueva))
      ensures Listed(old(fechas), id) && !ok ==> fechas == old(fechas)
      ensures Listed(old(fechas), id) && ok && AllDated(fechas) ==> SortedBy(fechas, FechaKey, Asc)
      ensures fechaAEliminar == old(fechaAEliminar) && fechasAgregar == old(fechasAgregar)
    {
      var i := FindId(fechas, id);
      if i == |fechas| {
        return None;
      }
      put := Some(PutBody(nueva, fechas[i].subalmacenId, fechas[i].activo.GetOr(1)));
      if ok {
        ResortedWhenDated(EditFecha(fechas, id, nueva));
        fechas := SortByFecha(EditFecha(fechas, id, nueva));
      }
      editandoId := None;
      nuevaFecha := "";
    }

    /** `handleCancelarClick`: the edit closes. */
    method CancelarClick()
      modifies this
      ensures editandoId == None && nuevaFecha == ""
      ensures fechas == old(fechas) && fechaAEliminar == old(fechaAEliminar) && fechasAgregar == old(fechasAgregar)
    {
      editandoId := None;
      nuevaFecha := "";
    }

    /** `handleEliminarClick(f)`: ask to confirm deleting `f`. */
    method EliminarClick(f: FechaRow)
      modifies this
      ensures fechaAEliminar == Some(f) && showConfirm
      ensures fechas == old(fechas) && editandoId == old(editandoId) && fechasAgregar == old(fechasAgregar)
    {
      fechaAEliminar := Some(f);
      showConfirm := true;
    }

    /**
     * `confirmarEliminacion`: with no target nothing happens. Otherwise a DELETE goes out for the target's id;
     * when it succeeds exactly the rows with that id leave the list, the rest keeping their order; either way
     * the confirmation closes.
     */
    method ConfirmarEliminacion(ok: bool) returns (deleted: Option<int>)
      modifies this
      ensures old(fechaAEliminar).None? ==> deleted == None && unchanged(this)
      ensures old(fechaAEliminar).Some? ==>
                deleted == Some(old(fechaAEliminar).value.id) && !showConfirm && fechaAEliminar == None
      ensures old(fechaAEliminar).Some? && ok ==>
                fechas == WithoutId(old(fechas), old(fechaAEliminar).value.id)
                && (forall f :: f in fechas <==> f in old(fechas) && f.id != old(fechaAEliminar).value.id)
      ensures old(fechaAEliminar).Some? && !ok ==> fechas == old(fechas)
      ensures old(SortedBy(fechas, FechaKey, Asc)) ==> SortedBy(fechas, FechaKey, Asc)
      ensures editandoId == old(editandoId) && fechasAgregar == old(fechasAgregar)
    {
      if fechaAEliminar.None? {
        return None;
      }
      var target := fechaAEliminar.value.id;
      if ok {
        var before := fechas;
        if SortedBy(before, FechaKey, Asc) {
          FilterKeepsSorted(before, (f: FechaRow) => f.id != target, FechaKey);
        }
        fechas := WithoutId(before, target);
      }
      showConfirm := false;
      fechaAEliminar := None;
      return Some(target);
    }

    /** `cancelarEliminacion`: the confirmation closes without a request. */
    method CancelarEliminacion()
      modifies this
      ensures !showConfirm && fechaAEliminar == None
      ensures fechas == old(fechas) && editandoId == old(editandoId) && fechasAgregar == old(fechasAgregar)
    {
      showConfirm := false;
      fechaAEliminar := None;
    }

    /** `abrirModalAgregar` / `cerrarModalAgregar`: closing also drops the pending dates. */
    method SetAgregando(open: bool)
      modifies this
      ensures agregando == open
      ensures !open ==> fechasAgregar == []
      ensures open ==> fechasAgregar == old(fechasAgregar)
      ensures fechas == old(fechas) && editandoId == old(editandoId) && fechaAEliminar == old(fechaAEliminar)
    {
      agregando := open;
      if !open {
        fechasAgregar := [];
      }
    }

    /**
     * The request `handleAgregarFechas` starts for the hook's sub-warehouse: nothing for no dates,
     * the single endpoint for one, the batch otherwise.
     */
    method StartAgregar(subalmacenId: Option<string>) returns (request: AddRequest)
      modifies this
      ensures fechasAgregar == [] ==> request == NoRequest && unchanged(this)
      ensures |fechasAgregar| == 1 ==> request == Single(fechasAgregar[0], SubalmacenNumber(subalmacenId)) && guardando
      ensures |fechasAgregar| > 1 ==> request == Batch(fechasAgregar, SubalmacenNumber(subalmacenId)) && guardando
      ensures fechas == old(fechas) && fechasAgregar == old(fechasAgregar) && agregando == old(agregando)
    {
      if |fechasAgregar| == 0 {
        return NoRequest;
      }
      guardando := true;
      var id := SubalmacenNumber(subalmacenId);
      if |fechasAgregar| > 1 {
        return Batch(fechasAgregar, id);
      }
      return Single(fechasAgregar[0], id);
    }

    /**
     * The creation settles: created rows are merged into the list, which is re-sorted; an empty creation or
     * a failure leaves the list. Either way the pending dates are dropped and the dialog closes.
     */
    method FinishAgregar(outcome: AddOutcome)
      modifies this
      ensures fechasAgregar == [] && !agregando && !guardando
      ensures outcome.Created? && outcome.rows != [] ==> fechas == SortByFecha(old(fechas) + outcome.rows)
      ensures outcome.Created? ==> multiset(fechas) == multiset(old(fechas)) + multiset(outcome.rows)
      ensures outcome.AddFailed? || outcome == Created([]) ==> fechas == old(fechas)
      ensures AllDated(fechas) && outcome.Created? && outcome.rows != [] ==> SortedBy(fechas, FechaKey, Asc)
      ensures editandoId == old(editandoId) && fechaAEliminar == old(fechaAEliminar)
    {
      if outcome.Created? && outcome.rows != [] {
        var merged := fechas + outcome.rows;
        var sorted := SortByFecha(merged);
        AllDatedOfPermutation(merged, sorted);
        if AllDated(sorted) {
          SortedWhenDated(merged);
        }
        fechas := sorted;
      }
      fechasAgregar := [];
      agregando := false;
      guardando := false;
    }
  }

  /** `find(f => f.id === id)` as a position: the first row with the id, or the length when there is none. */
  method FindId(rows: seq<FechaRow>, id: int) returns (i: nat)
    ensures i <= |rows|
    ensures forall k :: 0 <= k < i ==> rows[k].id != id
    ensures i < |rows| ==> rows[i].id == id
    ensures i == |rows| <==> !Listed(rows, id)
  {
    i := 0;
    while i < |rows| && rows[i].id != id
      invariant 0 <= i <= |rows|
      invariant forall k :: 0 <= k < i ==> rows[k].id != id
    {
      i := i + 1;
    }
  }

  /** A re-sorted list whose rows all hold a date is in ascending date order. */
  lemma ResortedWhenDated(rows: seq<FechaRow>)
    ensures AllDated(SortByFecha(rows)) ==> SortedBy(SortByFecha(rows), FechaKey, Asc)
  {
    AllDatedOfPermutation(rows, SortByFecha(rows));
    if AllDated(rows) {
      SortedWhenDated(rows);
    }
  }

  /** Whether every row holds a date does not depend on their order. */
  lemma AllDatedOfPermutation(a: seq<FechaRow>, b: seq<FechaRow>)
    requires multiset(a) == multiset(b)
    ensures AllDated(a) <==> AllDated(b)
  {
    if AllDated(a) {
      forall i | 0 <= i < |b| ensures Orderable(FechaKey(b[i]), 0) {
        assert b[i] in multiset(a);
        var k :| 0 <= k < |a| && a[k] == b[i];
      }
    }
    if AllDated(b) {
      forall i | 0 <= i < |a| ensures Orderable(FechaKey(a[i]), 0) {
        assert a[i] in multiset(b);
        var k :| 0 <= k < |b| && b[k] == a[i];
      }
    }
  }
}
