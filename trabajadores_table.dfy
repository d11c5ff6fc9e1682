/**
 * The workers table: its sort state, the column configuration and the sorted
 * rows it shows.
 */
module TrabajadoresTable {
  import opened Common
  import opened JsStrings
  import opened TableSort
  import opened TrabajadorHelpers

  /** A worker row; `horasObjetivo` is the target in hundredths of an hour, as the form stores two decimals. */
  datatype Trabajador = Trabajador(
    nombre: Option<string>,
    dni: Option<string>,
    almacen: RawId,
    subalmacen: RawId,
    coordinador: RawId,
    activo: bool,
    horasObjetivo: Option<int>)

  /** The three lists the name lookups search. */
  datatype Lookups = Lookups(almacenes: seq<Named>, subalmacenes: seq<Named>, coordinadores: seq<Named>)

  /** The sortable columns, in their configured order. */
  const ColumnKeys: seq<string> := ["nombre", "dni", "almacen", "subalmacen", "coordinador", "activo", "horas_objetivo"]

  /** The comparator key of a row for a configured column. */
  function ColumnKey(column: string, t: Trabajador, fns: Lookups): (k: Key)
    requires column in ColumnKeys
    ensures column == "activo" ==> k == BoolKey(t.activo)
    ensures column == "horas_objetivo" ==> k.NumKey? && k.num != NaN
    ensures column != "activo" && column != "horas_objetivo" ==> k.TextKey?
  {
    if column == "nombre" then TextKeyOf(t.nombre)
    else if column == "dni" then TextKeyOf(t.dni)
    else if column == "almacen" then TextKey(ToLower(LabelText(GetNombre(fns.almacenes, t.almacen))))
    else if column == "subalmacen" then TextKey(ToLower(LabelText(GetNombre(fns.subalmacenes, t.subalmacen))))
    else if column == "coordinador" then TextKey(ToLower(LabelText(GetNombre(fns.coordinadores, t.coordinador))))
    else if column == "activo" then BoolKey(t.activo)
    else NumKeyOf(t.horasObjetivo)
  }

  function ColumnKind(column: string): nat {
    if column == "activo" then 1 else if column == "horas_objetivo" then 0 else 2
  }

  /** `sortedTrabajadores`: the rows unchanged when unsorted or the column is unknown, else stably sorted by the column. */
  function SortedTrabajadores(rows: seq<Trabajador>, st: SortState, fns: Lookups): (r: seq<Trabajador>)
    ensures multiset(r) == multiset(rows)
    ensures st.sortBy.None? || st.sortBy.value !in ColumnKeys ==> r == rows
    ensures st.sortBy.Some? && st.sortBy.value in ColumnKeys ==>
              SortedBy(r, (t: Trabajador) => ColumnKey(st.sortBy.value, t, fns), st.dir)
  {
    if st.sortBy.None? || st.sortBy.value !in ColumnKeys then rows
    else
      var column := st.sortBy.value;
      var key := (t: Trabajador) => ColumnKey(column, t, fns);
      SortBySorted(rows, key, st.dir, ColumnKind(column));
      SortBy(rows, key, st.dir)
  }

  /** Ascending on the status column, every active row precedes every inactive row. */
  lemma ActiveRowsFirst(rows: seq<Trabajador>, fns: Lookups, i: nat, j: nat)
    requires i < j < |rows|
    ensures var r := SortedTrabajadores(rows, SortState(Some("activo"), Asc), fns);
            !(!r[i].activo && r[j].activo)
  {
    var r := SortedTrabajadores(rows, SortState(Some("activo"), Asc), fns);
    var key := (t: Trabajador) => ColumnKey("activo", t, fns);
    assert Compare(key(r[i]), key(r[j]), Asc) <= 0;
  }

  /** Ascending on the hours column, a row without a target never follows a row with one. */
  lemma MissingHoursFirst(rows: seq<Trabajador>, fns: Lookups, i: nat, j: nat)
    requires i < j < |rows|
    ensures var r := SortedTrabajadores(rows, SortState(Some("horas_objetivo"), Asc), fns);
            !(r[i].horasObjetivo.Some? && r[j].horasObjetivo.None?)
  {
    var r := SortedTrabajadores(rows, SortState(Some("horas_objetivo"), Asc), fns);
    var key := (t: Trabajador) => ColumnKey("horas_objetivo", t, fns);
    assert Compare(key(r[i]), key(r[j]), Asc) <= 0;
  }

  /** The table's sort state. */
  class Table {
    var sortBy: Option<string>
    var sortDir: Dir

    constructor()
      ensures sortBy == None && sortDir == Asc
    {
      sortBy := None;
      sortDir := Asc;
    }

    function State(): SortState
      reads this
    {
      SortState(sortBy, sortDir)
    }

    /** `handleSort(key)`. */
    method HandleSort(key: string)
      modifies this
      ensures State() == NextSort(old(State()), key)
    {
      if sortBy == Some(key) {
        if sortDir == Asc {
          sortDir := Desc;
        } else {
          sortBy := None;
          sortDir := Asc;
        }
      } else {
        sortBy := Some(key);
        sortDir := Asc;
      }
    }
  }
}
