/**
 * The coordinators table: the role filter, the per-user summary of warehouse
 * assignments (`getAlmacenData`), password visibility and sorting.
 */
module CoordinadoresTable {
  import opened Common
  import opened JsStrings
  import opened TableSort

  datatype Coordinador = Coordinador(
    id: int,
    rolId: Option<int>,
    nombre: Option<string>,
    correo: Option<string>,
    password: Option<string>,
    rolNombre: Option<string>,
    activo: bool)

  /** One row of `usuario_almacen`: a user assigned to a sub-warehouse of a warehouse, with an entry limit. */
  datatype Asignacion = Asignacion(
    usuarioId: int,
    almacenNombre: Option<string>,
    subalmacenNombre: Option<string>,
    limiteIngresos: Option<int>)

  /** `coordinadores ? coordinadores.filter(c => c.rol_id === 3) : []`. */
  function SoloCoordinadores(cs: Option<seq<Coordinador>>): (r: seq<Coordinador>)
    ensures cs.None? ==> r == []
    ensures forall i :: 0 <= i < |r| ==> r[i].rolId == Some(3)
    ensures cs.Some? ==> forall i :: 0 <= i < |cs.value| && cs.value[i].rolId == Some(3) ==> cs.value[i] in r
    ensures cs.Some? ==> multiset(r) <= multiset(cs.value)
  {
    match cs
    case None => []
    case Some(s) =>
      FilterMultiset(s, (c: Coordinador) => c.rolId == Some(3));
      Filter(s, (c: Coordinador) => c.rolId == Some(3))
  }

  /** `name || "-"`. */
  function OrDash(v: Option<string>): (r: string)
    ensures r != ""
  {
    match v
    case Some(s) => if s == "" then "-" else s
    case None => "-"
  }

  /** The first assignment's limit, or the string "-" when there is none. */
  datatype Limite = Dash | Value(limit: Option<int>)

  /** The summary shown in the warehouse, sub-warehouse and limit columns. */
  datatype AlmacenData = AlmacenData(almacen: string, subalmacen: seq<seq<string>>, limiteIngresos: Limite)

  /** The assignments of one user: every one of them, once each, in the order they are listed. */
  function AsignacionesDe(asignaciones: seq<Asignacion>, usuarioId: int): (r: seq<Asignacion>)
    ensures forall i :: 0 <= i < |r| ==> r[i].usuarioId == usuarioId
    ensures forall j :: 0 <= j < |asignaciones| && asignaciones[j].usuarioId == usuarioId ==> asignaciones[j] in r
    ensures KeptInOrder(r, asignaciones, (a: Asignacion) => a.usuarioId == usuarioId)
  {
    var mine := (a: Asignacion) => a.usuarioId == usuarioId;
    FilterIsKept(asignaciones, mine);
    Filter(asignaciones, mine)
  }

  /** `data.map(d => d.almacen_nombre || "-")`. */
  function AlmacenNames(data: seq<Asignacion>): (r: seq<string>)
    ensures |r| == |data| && forall i :: 0 <= i < |data| ==> r[i] == OrDash(data[i].almacenNombre)
  {
    seq(|data|, i requires 0 <= i < |data| => OrDash(data[i].almacenNombre))
  }

  function SubNames(data: seq<Asignacion>): (r: seq<string>)
    ensures |r| == |data| && forall i :: 0 <= i < |data| ==> r[i] == OrDash(data[i].subalmacenNombre)
  {
    seq(|data|, i requires 0 <= i < |data| => OrDash(data[i].subalmacenNombre))
  }

  /** The group as `getAlmacenData` builds it: rows whose raw name is strictly equal to the displayed name. */
  function GroupAsWritten(data: seq<Asignacion>, almacen: string): seq<string> {
    SubNames(Filter(data, (d: Asignacion) => d.almacenNombre == Some(almacen)))
  }

  /** The group built with the same `|| "-"` default that produced the displayed name. */
  function Group(data: seq<Asignacion>, almacen: string): seq<string> {
    SubNames(Filter(data, (d: Asignacion) => OrDash(d.almacenNombre) == almacen))
  }

  function Limit(data: seq<Asignacion>): (r: Limite)
    ensures r == Dash <==> data == []
    ensures data != [] ==> r == Value(data[0].limiteIngresos)
  {
    if |data| > 0 then Value(data[0].limiteIngresos) else Dash
  }

  /** `getAlmacenData` as written: assignments without a warehouse name show "-" with an empty group. */
  function GetAlmacenDataAsWritten(asignaciones: seq<Asignacion>, usuarioId: int): (r: AlmacenData)
    ensures r.almacen == Join(Dedup(AlmacenNames(AsignacionesDe(asignaciones, usuarioId))), ", ")
    ensures r.limiteIngresos == Limit(AsignacionesDe(asignaciones, usuarioId))
    ensures |r.subalmacen| == |Dedup(AlmacenNames(AsignacionesDe(asignaciones, usuarioId)))|
  {
    var data := AsignacionesDe(asignaciones, usuarioId);
    var unicos := Dedup(AlmacenNames(data));
    AlmacenData(Join(unicos, ", "),
                seq(|unicos|, i requires 0 <= i < |unicos| => GroupAsWritten(data, unicos[i])),
                Limit(data))
  }

  /** A single assignment of the user is the user's whole list. */
  lemma AsignacionesDeSingle(a: Asignacion)
    ensures AsignacionesDe([a], a.usuarioId) == [a]
  {
    assert [a][1..] == [];
  }

  /** An assignment without a warehouse name: it is shown under "-" but its sub-warehouse is dropped. */
  lemma AsWrittenDropsUnnamedAssignment()
    ensures var d := GetAlmacenDataAsWritten([Asignacion(7, None, Some("Norte"), Some(5))], 7);
            d.almacen == "-" && d.subalmacen == [[]]
  {
    var a := Asignacion(7, None, Some("Norte"), Some(5));
    AsignacionesDeSingle(a);
    assert AlmacenNames([a]) == ["-"];
    assert Dedup(["-"]) == ["-"] by {
      assert ["-"][..0] == [];
    }
    assert Filter([a], (d: Asignacion) => d.almacenNombre == Some("-")) == [];
    assert GroupAsWritten([a], "-") == [];
    var d := GetAlmacenDataAsWritten([a], 7);
    assert d.subalmacen == seq(1, i requires 0 <= i < 1 => GroupAsWritten([a], "-"));
  }

  /** `getAlmacenData(usuario_id)`, grouping each assignment under the name it is displayed with. */
  function GetAlmacenData(asignaciones: seq<Asignacion>, usuarioId: int): (r: AlmacenData)
    ensures r.almacen == Join(Dedup(AlmacenNames(AsignacionesDe(asignaciones, usuarioId))), ", ")
    ensures r.limiteIngresos == Limit(AsignacionesDe(asignaciones, usuarioId))
    ensures |r.subalmacen| == |Dedup(AlmacenNames(AsignacionesDe(asignaciones, usuarioId)))|
  {
    var data := AsignacionesDe(asignaciones, usuarioId);
    var unicos := Dedup(AlmacenNames(data));
    AlmacenData(Join(unicos, ", "),
                seq(|unicos|, i requires 0 <= i < |unicos| => Group(data, unicos[i])),
                Limit(data))
  }

  /** Both filters keep the same rows when each row's raw name is a non-empty string. */
  lemma GroupsAgreeWhenNamed(data: seq<Asignacion>, almacen: string)
    requires forall a :: a in data ==> a.almacenNombre.Some? && a.almacenNombre.value != ""
    ensures GroupAsWritten(data, almacen) == Group(data, almacen)
  {
    FilterAgrees(data, (d: Asignacion) => d.almacenNombre == Some(almacen), (d: Asignacion) => OrDash(d.almacenNombre) == almacen);
  }

  /** When every assignment of the user names its warehouse, the grouping of `getAlmacenData` is the intended one. */
  lemma AsWrittenAgreesWhenNamed(asignaciones: seq<Asignacion>, usuarioId: int)
    requires forall a :: a in AsignacionesDe(asignaciones, usuarioId) ==>
               a.almacenNombre.Some? && a.almacenNombre.value != ""
    ensures GetAlmacenDataAsWritten(asignaciones, usuarioId) == GetAlmacenData(asignaciones, usuarioId)
  {
    var data := AsignacionesDe(asignaciones, usuarioId);
    var unicos := Dedup(AlmacenNames(data));
    forall i | 0 <= i < |unicos| ensures GroupAsWritten(data, unicos[i]) == Group(data, unicos[i]) {
      GroupsAgreeWhenNamed(data, unicos[i]);
    }
  }

  function TotalSize(groups: seq<seq<string>>): nat
    decreases |groups|
  {
    if groups == [] then 0 else |groups[0]| + TotalSize(groups[1..])
  }

  /** The number of `data` rows displayed under `almacen` is the count of that name. */
  lemma {:induction false} GroupSize(data: seq<Asignacion>, almacen: string)
    ensures |Group(data, almacen)| == Count(AlmacenNames(data), almacen)
    decreases |data|
  {
    if data != [] {
      GroupSize(data[1..], almacen);
      assert AlmacenNames(data)[1..] == AlmacenNames(data[1..]);
    }
  }

  lemma {:induction false} TotalSizeOfGroups(data: seq<Asignacion>, u: seq<string>)
    ensures TotalSize(seq(|u|, i requires 0 <= i < |u| => Group(data, u[i]))) == SumCounts(u, AlmacenNames(data))
    decreases |u|
  {
    if u != [] {
      var groups := seq(|u|, i requires 0 <= i < |u| => Group(data, u[i]));
      assert groups[1..] == seq(|u[1..]|, i requires 0 <= i < |u[1..]| => Group(data, u[1..][i]));
      GroupSize(data, u[0]);
      TotalSizeOfGroups(data, u[1..]);
    }
  }

  /** Every assignment of the user is listed in exactly one warehouse group. */
  lemma GroupsCoverAssignments(asignaciones: seq<Asignacion>, usuarioId: int)
    ensures TotalSize(GetAlmacenData(asignaciones, usuarioId).subalmacen) == |AsignacionesDe(asignaciones, usuarioId)|
  {
    var data := AsignacionesDe(asignaciones, usuarioId);
    var names := AlmacenNames(data);
    var unicos := Dedup(names);
    TotalSizeOfGroups(data, unicos);
    SumCountsCover(unicos, names);
  }

  /** The same `data` as written can lose assignments: its groups may total fewer rows. */
  lemma AsWrittenLosesRows()
    ensures var a := [Asignacion(7, None, Some("Norte"), Some(5))];
            TotalSize(GetAlmacenDataAsWritten(a, 7).subalmacen) == 0
            && TotalSize(GetAlmacenData(a, 7).subalmacen) == 1
  {
    var a := [Asignacion(7, None, Some("Norte"), Some(5))];
    AsWrittenDropsUnnamedAssignment();
    var empty: seq<seq<string>> := [[]];
    assert TotalSize(empty) == 0 by {
      assert empty[1..] == [];
    }
    assert GetAlmacenDataAsWritten(a, 7).subalmacen == empty;
    GroupsCoverAssignments(a, 7);
    AsignacionesDeSingle(a[0]);
  }

  /** `Array.prototype.toString` of an array of arrays of strings. */
  function NestedText(groups: seq<seq<string>>): string {
    Join(seq(|groups|, i requires 0 <= i < |groups| => Join(groups[i], ",")), ",")
  }

  const ColumnKeys: seq<string> := ["nombre", "correo", "password", "rol_nombre", "almacen", "subalmacen", "limite_ingresos", "activo"]

  /** `Number(limite)` with null mapped to -Infinity; the string "-" is NaN. */
  function LimitKey(l: Limite): Key {
    match l
    case Dash => NumKey(NaN)
    case Value(v) => NumKeyOf(v)
  }

  /** The comparator key of a row for a configured column. */
  function ColumnKey(column: string, c: Coordinador, asignaciones: seq<Asignacion>): (k: Key)
    requires column in ColumnKeys
    ensures column == "activo" ==> k == BoolKey(c.activo)
    ensures column == "limite_ingresos" ==> k.NumKey? && (k.num == NaN <==> AsignacionesDe(asignaciones, c.id) == [])
    ensures column != "activo" && column != "limite_ingresos" ==> k.TextKey?
  {
    if column == "nombre" then TextKeyOf(c.nombre)
    else if column == "correo" then TextKeyOf(c.correo)
    else if column == "password" then TextKeyOf(c.password)
    else if column == "rol_nombre" then TextKey(ToLower(if c.rolNombre.None? || c.rolNombre == Some("") then "Coordinador" else c.rolNombre.value))
    else if column == "almacen" then TextKey(ToLower(GetAlmacenDataAsWritten(asignaciones, c.id).almacen))
    else if column == "subalmacen" then TextKey(ToLower(NestedText(GetAlmacenDataAsWritten(asignaciones, c.id).subalmacen)))
    else if column == "limite_ingresos" then LimitKey(GetAlmacenDataAsWritten(asignaciones, c.id).limiteIngresos)
    else BoolKey(c.activo)
  }

  function ColumnKind(column: string): nat {
    if column == "activo" then 1 else if column == "limite_ingresos" then 0 else 2
  }

  /** Every shown coordinator has at least one assignment, so no limit is "-". */
  predicate AllAssigned(rows: seq<Coordinador>, asignaciones: seq<Asignacion>) {
    forall i :: 0 <= i < |rows| ==> AsignacionesDe(asignaciones, rows[i].id) != []
  }

  /** `sortedCoordinadores`: unchanged when unsorted or the column is unknown, else stably sorted. */
  function SortedCoordinadores(rows: seq<Coordinador>, st: SortState, asignaciones: seq<Asignacion>): (r: seq<Coordinador>)
    ensures multiset(r) == multiset(rows)
    ensures st.sortBy.None? || st.sortBy.value !in ColumnKeys ==> r == rows
    ensures st.sortBy.Some? && st.sortBy.value in ColumnKeys
            && (st.sortBy.value != "limite_ingresos" || AllAssigned(rows, asignaciones)) ==>
              SortedBy(r, (c: Coordinador) => ColumnKey(st.sortBy.value, c, asignaciones), st.dir)
  {
    if st.sortBy.None? || st.sortBy.value !in ColumnKeys then rows
    else
      var column := st.sortBy.value;
      var key := (c: Coordinador) => ColumnKey(column, c, asignaciones);
      if column != "limite_ingresos" || AllAssigned(rows, asignaciones) then
        SortBySorted(rows, key, st.dir, ColumnKind(column));
        SortBy(rows, key, st.dir)
      else SortBy(rows, key, st.dir)
  }

  /** The table's sort state and the set of users whose password is shown. */
  class Table {
    var sortBy: Option<string>
    var sortDir: Dir
    var visiblePasswords: set<int>

    constructor()
      ensures sortBy == None && sortDir == Asc && visiblePasswords == {}
    {
      sortBy := None;
      sortDir := Asc;
      visiblePasswords := {};
    }

    function State(): SortState
      reads this
    {
      SortState(sortBy, sortDir)
    }

    /** `handleSort(key)`. */
    method HandleSort(key: string)
      modifies this
      ensures State() == NextSort(old(State()), key)
      ensures visiblePasswords == old(visiblePasswords)
    {
      if sortBy == Some(key) {
        if sortDir == Asc {
          sortDir := Desc;
        } else {
          sortBy := None;
          sortDir := Asc;
        }
      } else {
        sortBy := Some(key);
        sortDir := Asc;
      }
    }

    /** `togglePasswordVisibility(userId)`. */
    method TogglePasswordVisibility(userId: int)
      modifies this
      ensures visiblePasswords == Toggled(old(visiblePasswords), userId)
      ensures State() == old(State())
    {
      if userId in visiblePasswords {
        visiblePasswords := visiblePasswords - {userId};
      } else {
        visiblePasswords := visiblePasswords + {userId};
      }
    }
  }
}
