/**
 * The date-selection modal used before downloading: the list of selected
 * date ids, the select-all flag, and the dates handed to the download.
 */
module SeleccionarFechas {
  import opened Common

  /** A date row; `None` stands for a missing (undefined) id. */
  datatype Fecha = Fecha(idfecha: Option<int>, id: Option<int>, fecha: string)

  /** `f.idfecha || f.id`: a missing or zero `idfecha` falls back to `id`. */
  function FechaId(f: Fecha): Option<int> {
    if f.idfecha.Some? && f.idfecha.value != 0 then f.idfecha else f.id
  }

  predicate HasId(f: Fecha) {
    FechaId(f).Some?
  }

  /** `fechas.map(f => f.idfecha || f.id)`. */
  function IdsOf(fechas: seq<Fecha>): (r: seq<Option<int>>)
    ensures |r| == |fechas| && forall j :: 0 <= j < |fechas| ==> r[j] == FechaId(fechas[j])
  {
    seq(|fechas|, j requires 0 <= j < |fechas| => FechaId(fechas[j]))
  }

  /** `fechas.map(f => f.idfecha || f.id).filter(id => id !== undefined)`: the ids present, in date order. */
  function DefinedIds(fechas: seq<Fecha>): (r: seq<Option<int>>)
    ensures |r| <= |fechas|
    ensures forall i :: 0 <= i < |r| ==> r[i].Some? && r[i] in IdsOf(fechas)
    ensures forall j :: 0 <= j < |fechas| && HasId(fechas[j]) ==> FechaId(fechas[j]) in r
  {
    var ids := IdsOf(fechas);
    var r := Filter(ids, (x: Option<int>) => x.Some?);
    assert forall j :: 0 <= j < |fechas| && HasId(fechas[j]) ==> ids[j].Some?;
    r
  }

  /** The selection after `handleToggleFecha(id)`: a selected id is filtered out, an unselected one appended. */
  function Toggled(selected: seq<Option<int>>, id: Option<int>): (r: seq<Option<int>>)
    ensures forall x :: x in r <==> (x in selected && x != id) || (x == id && id !in selected)
    ensures id !in selected ==> r == selected + [id]
  {
    if id in selected then Filter(selected, x => x != id) else selected + [id]
  }

  /** Toggling an unselected id twice gives back the selection it started from. */
  lemma ToggleTwiceRestores(selected: seq<Option<int>>, id: Option<int>)
    requires id !in selected
    ensures Toggled(Toggled(selected, id), id) == selected
  {
    var p := (x: Option<int>) => x != id;
    FilterConcat(selected, [id], p);
    FilterAll(selected, p);
    assert Filter([id], p) == [];
  }

  /**
   * `handleDescargar`: with a non-empty selection, the dates whose id is selected, in their original order;
   * with nothing selected there is no call.
   */
  function ParaDescargar(fechas: seq<Fecha>, selected: seq<Option<int>>): (r: Option<seq<Fecha>>)
    ensures r.None? <==> selected == []
    ensures r.Some? ==> |r.value| <= |fechas| && multiset(r.value) <= multiset(fechas)
    ensures r.Some? ==> forall i :: 0 <= i < |r.value| ==> FechaId(r.value[i]) in selected
    ensures r.Some? ==> forall j :: 0 <= j < |fechas| && FechaId(fechas[j]) in selected ==> fechas[j] in r.value
    ensures r.Some? ==> KeptInOrder(r.value, fechas, (f: Fecha) => FechaId(f) in selected)
  {
    if |selected| > 0 then
      var keep := (f: Fecha) => FechaId(f) in selected;
      FilterMultiset(fechas, keep);
      FilterIsKept(fechas, keep);
      Some(Filter(fechas, keep))
    else None
  }

  /** After select-all, the download is every date that has an id, in order. */
  lemma SelectAllDownloadsEveryDate(fechas: seq<Fecha>)
    requires DefinedIds(fechas) != []
    ensures ParaDescargar(fechas, DefinedIds(fechas)) == Some(Filter(fechas, HasId))
  {
    var ids := DefinedIds(fechas);
    FilterAgrees(fechas, (f: Fecha) => FechaId(f) in ids, HasId);
  }

  /** The modal's state: the dates shown, the selected ids and the select-all checkbox. */
  class SelectionModal {
    var fechas: seq<Fecha>
    var selected: seq<Option<int>>
    var selectAll: bool

    constructor(fechas: seq<Fecha>)
      ensures this.fechas == fechas && selected == [] && !selectAll
    {
      this.fechas := fechas;
      selected := [];
      selectAll := false;
    }

    /** The effect on `open`/`fechas`: while open, the selection and the checkbox are reset for the dates shown. */
    method Opened(open: bool, fechas: seq<Fecha>)
      modifies this
      ensures this.fechas == fechas
      ensures open ==> selected == [] && !selectAll
      ensures !open ==> selected == old(selected) && selectAll == old(selectAll)
    {
      this.fechas := fechas;
      if open {
        selected := [];
        selectAll := false;
      }
    }

    /** `handleSeleccionarTodas`: checked clears the selection, unchecked selects every defined id; the box flips. */
    method SeleccionarTodas()
      modifies this
      ensures fechas == old(fechas) && selectAll == !old(selectAll)
      ensures old(selectAll) ==> selected == []
      ensures !old(selectAll) ==> selected == DefinedIds(fechas)
      ensures !old(selectAll) ==> forall j :: 0 <= j < |fechas| && HasId(fechas[j]) ==> FechaId(fechas[j]) in selected
    {
      if selectAll {
        selected := [];
      } else {
        selected := DefinedIds(fechas);
      }
      selectAll := !selectAll;
    }

    /** `handleToggleFecha(id)`: flips only `id`'s membership; the box is checked iff as many ids as dates are selected. */
    method ToggleFecha(id: Option<int>)
      modifies this
      ensures fechas == old(fechas)
      ensures forall x :: x in selected <==> (x in old(selected) && x != id) || (x == id && id !in old(selected))
      ensures selected == Toggled(old(selected), id)
      ensures selectAll <==> |selected| == |fechas|
    {
      selected := Toggled(selected, id);
      selectAll := |selected| == |fechas|;
    }
  }
}
