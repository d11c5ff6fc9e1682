/**
 * The human-resources users table: sort key selection per column, the sort
 * cycle and password visibility.
 */
module RrhhTable {
  import opened Common
  import opened JsStrings
  import opened TableSort

  /** The `activo` value as the API sends it; only the number 1 counts as active here. */
  datatype Flag = FlagNum(n: int) | FlagBool(b: bool) | FlagNull

  datatype Rrhh = Rrhh(id: int, nombre: Option<string>, correo: Option<string>, activo: Flag)

  /** `a.activo === 1 ? 'Activo' : 'Inactivo'`. */
  function EstadoText(a: Rrhh): (t: string)
    ensures t == "Activo" <==> a.activo == FlagNum(1)
    ensures t != "Activo" ==> t == "Inactivo"
  {
    if a.activo == FlagNum(1) then "Activo" else "Inactivo"
  }

  /** The value the comparator compares for a column; unknown columns compare equal, as `default: return 0` does. */
  function RrhhKey(column: string, a: Rrhh): (k: Key)
    ensures k.TextKey?
    ensures column !in {"nombre", "correo", "estado"} ==> k == ConstantKey(column)
  {
    if column == "nombre" then TextKeyOf(a.nombre)
    else if column == "correo" then TextKeyOf(a.correo)
    else if column == "estado" then TextKey(EstadoText(a))
    else ConstantKey(column)
  }

  /** The key of the columns that do not look at the row: a masked password, the fixed role, or none. */
  function ConstantKey(column: string): Key {
    if column == "password" then TextKey("••••••••")
    else if column == "rol" then TextKey("RRHH")
    else TextKey("")
  }

  /** `sortedRRHH`: the input itself when unsorted, otherwise a stable sort of a copy by the column's key. */
  function SortedRrhh(rows: seq<Rrhh>, st: SortState): (r: seq<Rrhh>)
    ensures multiset(r) == multiset(rows)
    ensures st.sortBy.None? ==> r == rows
    ensures st.sortBy.Some? ==> SortedBy(r, (a: Rrhh) => RrhhKey(st.sortBy.value, a), st.dir)
  {
    if st.sortBy.None? then rows
    else
      var key := (a: Rrhh) => RrhhKey(st.sortBy.value, a);
      SortBySorted(rows, key, st.dir, 2);
      SortBy(rows, key, st.dir)
  }

  /** Password, role and unknown columns give every row the same key, so the order is kept. */
  lemma ConstantColumnsKeepOrder(rows: seq<Rrhh>, column: string, dir: Dir)
    requires column !in {"nombre", "correo", "estado"}
    ensures SortedRrhh(rows, SortState(Some(column), dir)) == rows
  {
    var key := (a: Rrhh) => RrhhKey(column, a);
    LexLessIrreflexive(ConstantKey(column).text);
    assert AllTied(rows, key, dir);
    SortByStableIdentity(rows, key, dir);
  }

  /** Sorting by status, ascending: every active row comes first. */
  lemma EstadoAscActiveFirst(rows: seq<Rrhh>, i: nat, j: nat)
    requires i < j < |rows|
    ensures var r := SortedRrhh(rows, SortState(Some("estado"), Asc));
            !(r[i].activo != FlagNum(1) && r[j].activo == FlagNum(1))
  {
    var r := SortedRrhh(rows, SortState(Some("estado"), Asc));
    var key := (a: Rrhh) => RrhhKey("estado", a);
    assert Compare(key(r[i]), key(r[j]), Asc) <= 0;
    if r[i].activo != FlagNum(1) && r[j].activo == FlagNum(1) {
      assert LexLess("Activo", "Inactivo");
      LexLessAsymmetric("Activo", "Inactivo");
    }
  }

  /** The table's sort state and the set of users whose password is shown. */
  class Table {
    var sortBy: Option<string>
    var sortDir: Dir
    var visiblePasswords: set<int>

    constructor()
      ensures sortBy == None && sortDir == Asc && visiblePasswords == {}
    {
      sortBy := None;
      sortDir := Asc;
      visiblePasswords := {};
    }

    function State(): SortState
      reads this
    {
      SortState(sortBy, sortDir)
    }

    /** `handleSort(key)`. */
    method HandleSort(key: string)
      modifies this
      ensures State() == NextSort(old(State()), key)
      ensures visiblePasswords == old(visiblePasswords)
    {
      if sortBy == Some(key) {
        if sortDir == Asc {
          sortDir := Desc;
        } else {
          sortBy := None;
          sortDir := Asc;
        }
      } else {
        sortBy := Some(key);
        sortDir := Asc;
      }
    }

    /** `togglePasswordVisibility(userId)`. */
    method TogglePasswordVisibility(userId: int)
      modifies this
      ensures visiblePasswords == Toggled(old(visiblePasswords), userId)
      ensures State() == old(State())
    {
      if userId in visiblePasswords {
        visiblePasswords := visiblePasswords - {userId};
      } else {
        visiblePasswords := visiblePasswords + {userId};
      }
    }
  }
}
