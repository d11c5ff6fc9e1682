/**
 * The attendance table: name search, sorting on eight text columns, and the
 * inline editing of entry time, exit time and justification.
 */
module AsistenciasTable {
  import opened Common
  import opened JsStrings
  import opened TableSort

  datatype Asistencia = Asistencia(
    id: int,
    almacenNombre: Option<string>,
    subalmacenNombre: Option<string>,
    trabajadorNombre: Option<string>,
    trabajadorDni: Option<string>,
    horaEntrada: Option<string>,
    horaSalida: Option<string>,
    justificacion: Option<string>,
    registradoPorNombre: Option<string>)

  const ColumnKeys: seq<string> := ["almacen_nombre", "subalmacen_nombre", "trabajador_nombre", "trabajador_dni",
                                    "hora_entrada", "hora_salida", "justificacion", "registrado_por_nombre"]

  /** `a[sortBy]` for a configured column. */
  function Field(column: string, a: Asistencia): Option<string>
    requires column in ColumnKeys
  {
    if column == "almacen_nombre" then a.almacenNombre
    else if column == "subalmacen_nombre" then a.subalmacenNombre
    else if column == "trabajador_nombre" then a.trabajadorNombre
    else if column == "trabajador_dni" then a.trabajadorDni
    else if column == "hora_entrada" then a.horaEntrada
    else if column == "hora_salida" then a.horaSalida
    else if column == "justificacion" then a.justificacion
    else a.registradoPorNombre
  }

  /** The row passes the name search: it has a name and the lowered name contains the lowered search. */
  predicate NameMatches(a: Asistencia, search: string) {
    a.trabajadorNombre.Some? && a.trabajadorNombre.value != ""
    && Contains(ToLower(a.trabajadorNombre.value), ToLower(search))
  }

  /** `filteredAsistencias`: every row for an empty search, otherwise the matching rows in their order. */
  function FilteredAsistencias(rows: seq<Asistencia>, search: string): (r: seq<Asistencia>)
    ensures search == "" ==> r == rows
    ensures search != "" ==> r == Filter(rows, a => NameMatches(a, search))
    ensures forall i :: 0 <= i < |r| ==> r[i] in rows && (search == "" || NameMatches(r[i], search))
    ensures forall i :: 0 <= i < |rows| && NameMatches(rows[i], search) ==> rows[i] in r
  {
    if search == "" then rows else Filter(rows, a => NameMatches(a, search))
  }

  /** Every row whose name has the search as a part is found, whatever the case of either. */
  lemma SearchFindsNamePart(rows: seq<Asistencia>, i: nat, p: string, search: string, q: string)
    requires i < |rows| && search != ""
    requires rows[i].trabajadorNombre == Some(p + search + q)
    ensures rows[i] in FilteredAsistencias(rows, search)
  {
    var name := p + search + q;
    assert ToLower(name) == ToLower(p) + ToLower(search) + ToLower(q);
    ContainsItself(ToLower(search), ToLower(p), ToLower(q));
  }

  /** `sortedAsistencias`: the filtered rows, stably sorted by the lowered text of the column. */
  function SortedAsistencias(filtered: seq<Asistencia>, st: SortState): (r: seq<Asistencia>)
    ensures multiset(r) == multiset(filtered)
    ensures st.sortBy.None? || st.sortBy.value !in ColumnKeys ==> r == filtered
    ensures st.sortBy.Some? && st.sortBy.value in ColumnKeys ==>
              SortedBy(r, (a: Asistencia) => TextKeyOf(Field(st.sortBy.value, a)), st.dir)
  {
    if st.sortBy.None? || st.sortBy.value !in ColumnKeys then filtered
    else
      var column := st.sortBy.value;
      var key := (a: Asistencia) => TextKeyOf(Field(column, a));
      SortBySorted(filtered, key, st.dir, 2);
      SortBy(filtered, key, st.dir)
  }

  /** The three edited fields, as the inputs hold them. */
  datatype EditData = EditData(horaEntrada: string, horaSalida: string, justificacion: string)

  const EmptyEdit := EditData("", "", "")

  datatype EditField = HoraEntrada | HoraSalida | Justificacion

  /** The body of the update request. */
  datatype Payload = Payload(horaEntrada: Option<string>, horaSalida: Option<string>, justificacion: string)

  /** `value || ''` on a nullable string. */
  function OrEmpty(v: Option<string>): string {
    match v
    case Some(s) => s
    case None => ""
  }

  /** `value || null` on a string. */
  function OrNull(s: string): (r: Option<string>)
    ensures r == None <==> s == ""
    ensures r.Some? ==> r.value == s
  {
    if s == "" then None else Some(s)
  }

  /** The update payload: empty times become null, the justification is sent as typed. */
  function SavePayload(e: EditData): (p: Payload)
    ensures p.horaEntrada == OrNull(e.horaEntrada) && p.horaSalida == OrNull(e.horaSalida)
    ensures p.justificacion == e.justificacion
  {
    Payload(OrNull(e.horaEntrada), OrNull(e.horaSalida), e.justificacion)
  }

  /** Starting an edit and saving without changes sends back the row's own values, with blanks as null. */
  lemma UnchangedEditRoundTrip(a: Asistencia)
    requires a.horaEntrada != Some("") && a.horaSalida != Some("")
    ensures var p := SavePayload(EditData(OrEmpty(a.horaEntrada), OrEmpty(a.horaSalida), OrEmpty(a.justificacion)));
            p.horaEntrada == a.horaEntrada && p.horaSalida == a.horaSalida
  {
  }

  /** The table's sort and inline-edit state. */
  class Table {
    var sortBy: Option<string>
    var sortDir: Dir
    var editingId: Option<int>
    var editData: EditData
    var saving: bool

    constructor()
      ensures sortBy == None && sortDir == Asc
      ensures editingId == None && editData == EmptyEdit && !saving
    {
      sortBy := None;
      sortDir := Asc;
      editingId := None;
      editData := EmptyEdit;
      saving := false;
    }

    function State(): SortState
      reads this
    {
      SortState(sortBy, sortDir)
    }

    /** `handleSort(key)`. */
    method HandleSort(key: string)
      modifies this
      ensures State() == NextSort(old(State()), key)
      ensures editingId == old(editingId) && editData == old(editData) && saving == old(saving)
    {
      if sortBy == Some(key) {
        if sortDir == Asc {
          sortDir := Desc;
        } else {
          sortBy := None;
          sortDir := Asc;
        }
      } else {
        sortBy := Some(key);
        sortDir := Asc;
      }
    }

    /** `handleStartEdit(a)`: edit this row, with its missing values as empty inputs. */
    method StartEdit(a: Asistencia)
      modifies this
      ensures editingId == Some(a.id)
      ensures editData == EditData(OrEmpty(a.horaEntrada), OrEmpty(a.horaSalida), OrEmpty(a.justificacion))
      ensures State() == old(State()) && saving == old(saving)
    {
      editingId := Some(a.id);
      editData := EditData(OrEmpty(a.horaEntrada), OrEmpty(a.horaSalida), OrEmpty(a.justificacion));
    }

    /** `handleCancelEdit`: no row is edited and the three inputs are empty. */
    method CancelEdit()
      modifies this
      ensures editingId == None && editData == EmptyEdit
      ensures State() == old(State()) && saving == old(saving)
    {
      editingId := None;
      editData := EmptyEdit;
    }

    /** `handleInputChange(field, value)`: only that field changes. */
    method InputChange(field: EditField, value: string)
      modifies this
      ensures field == HoraEntrada ==> editData == old(editData).(horaEntrada := value)
      ensures field == HoraSalida ==> editData == old(editData).(horaSalida := value)
      ensures field == Justificacion ==> editData == old(editData).(justificacion := value)
      ensures editingId == old(editingId) && State() == old(State()) && saving == old(saving)
    {
      match field
      case HoraEntrada => editData := editData.(horaEntrada := value);
      case HoraSalida => editData := editData.(horaSalida := value);
      case Justificacion => editData := editData.(justificacion := value);
    }

    /**
     * `handleSaveEdit`, with the outcome of the update request as a parameter.
     * Without an edited row (or with id 0, which is falsy) nothing is sent.
     * Otherwise the payload is sent; success ends the edit; `saving` is false afterwards either way.
     */
    method SaveEdit(succeeded: bool) returns (request: Option<(int, Payload)>)
      modifies this
      ensures old(editingId).None? || old(editingId) == Some(0) ==>
                request == None && editingId == old(editingId) && editData == old(editData) && saving == old(saving)
      ensures old(editingId).Some? && old(editingId) != Some(0) ==>
                request == Some((old(editingId).value, SavePayload(old(editData)))) && !saving
                && (succeeded ==> editingId == None && editData == EmptyEdit)
                && (!succeeded ==> editingId == old(editingId) && editData == old(editData))
      ensures State() == old(State())
    {
      if editingId.None? || editingId == Some(0) {
        return None;
      }
      saving := true;
      request := Some((editingId.value, SavePayload(editData)));
      if succeeded {
        editingId := None;
        editData := EmptyEdit;
      }
      saving := false;
    }
  }
}
