/**
 * The modal that assigns sub-warehouses to a coordinator: the warehouse
 * picked, the sub-warehouses of that warehouse that are ticked, the entry
 * limit, and the request body that `handleAsignar` hands to `onAsignar`.
 */
module AsignarAlmacenes {
  import opened Common
  import opened JsStrings

  /** A sub-warehouse as the modal receives it: its own id and the id of its warehouse. */
  datatype Subalmacen = Subalmacen(id: int, almacenId: int)

  /** `String(sa.id)`, the string the tick list stores. */
  function IdString(sa: Subalmacen): string {
    IntToString(sa.id)
  }

  function IdStrings(subs: seq<Subalmacen>): (r: seq<string>)
    ensures |r| == |subs| && forall i :: 0 <= i < |subs| ==> r[i] == IdString(subs[i])
  {
    seq(|subs|, i requires 0 <= i < |subs| => IdString(subs[i]))
  }

  /** `String(sa.almacen_id) === String(almacenId)`: the sub-warehouses of the warehouse picked. */
  function Filtrados(subs: seq<Subalmacen>, almacenId: string): (r: seq<Subalmacen>)
    ensures forall sa :: sa in r <==> sa in subs && IntToString(sa.almacenId) == almacenId
  {
    Filter(subs, (sa: Subalmacen) => IntToString(sa.almacenId) == almacenId)
  }

  /** Before a warehouse is picked (`almacenId` is "") no sub-warehouse is listed. */
  lemma NothingListedWithoutAlmacen(subs: seq<Subalmacen>)
    ensures Filtrados(subs, "") == []
  {
    FilterNone(subs, (sa: Subalmacen) => IntToString(sa.almacenId) == "");
  }

  /**
   * `Number(s)` on the strings this modal produces: "" is 0, an optionally
   * signed run of decimal digits is its value, anything else is `NaN` (`None`).
   */
  function NumberOf(s: string): (r: Option<int>)
    ensures s == "" ==> r == Some(0)
    ensures AllDigits(s) && s != "" ==> r.Some? && r.value >= 0
  {
    if s == "" then Some(0)
    else if s[0] == '-' || s[0] == '+' then
      var digits := s[1..];
      if digits != [] && AllDigits(digits) then
        var v: int := DigitsValue(digits);
        Some(if s[0] == '-' then -v else v)
      else None
    else if AllDigits(s) then Some(DigitsValue(s))
    else None
  }

  /** `Number(String(n)) === n`: reading back a printed integer gives the integer. */
  lemma NumberOfIntToString(n: int)
    ensures NumberOf(IntToString(n)) == Some(n)
  {
    DigitsValueOfNatToString(if n < 0 then -n else n);
    if n < 0 {
      var s := IntToString(n);
      assert s[1..] == NatToString(-n);
    } else {
      var s := NatToString(n);
      assert s[0] != '-' && s[0] != '+';
    }
  }

  /** `!isNaN(Number(id)) && Number(id) > 0`. */
  predicate Valido(id: string) {
    NumberOf(id).Some? && NumberOf(id).value > 0
  }

  /** `Number(limiteIngresos) || 1`: a zero, empty or non-numeric limit becomes 1. */
  function Limite(limite: string): (r: int)
    ensures r != 0
    ensures r == 1 || NumberOf(limite) == Some(r)
    ensures NumberOf(limite).Some? && NumberOf(limite).value != 0 ==> r == NumberOf(limite).value
  {
    match NumberOf(limite)
    case Some(n) => if n != 0 then n else 1
    case None => 1
  }

  /** A limit typed as a non-zero integer is sent as that integer. */
  lemma LimiteOfTyped(n: int)
    requires n != 0
    ensures Limite(IntToString(n)) == n
  {
    NumberOfIntToString(n);
  }

  /** One element of `almacenes` in the request body. */
  datatype Asignacion = Asignacion(subalmacenId: int, limiteIngresos: int)

  datatype Payload = Payload(usuarioId: int, almacenes: seq<Asignacion>)

  /** What `handleAsignar` does: one of its two alerts, or a call to `onAsignar` with a body. */
  datatype Envio = FaltaSeleccion | SinValidos | Enviar(payload: Payload)

  /** The request body for the valid ids, in the order they were ticked. */
  function Asignaciones(validos: seq<string>, limite: string): (r: seq<Asignacion>)
    requires forall i :: 0 <= i < |validos| ==> Valido(validos[i])
    ensures |r| == |validos|
    ensures forall i :: 0 <= i < |r| ==> r[i].subalmacenId > 0 && r[i].limiteIngresos != 0
    ensures forall i :: 0 <= i < |r| ==> Some(r[i].subalmacenId) == NumberOf(validos[i])
  {
    seq(|validos|, i requires 0 <= i < |validos| && Valido(validos[i]) => Asignacion(NumberOf(validos[i]).value, Limite(limite)))
  }

  /**
   * `handleAsignar`: no warehouse or nothing ticked alerts; no ticked id that is
   * a positive number alerts; otherwise every such id is sent, with the limit.
   */
  function Asignar(almacenId: string, ids: seq<string>, limite: string, usuarioId: int): (r: Envio)
    ensures r == FaltaSeleccion <==> almacenId == "" || ids == []
    ensures r == SinValidos <==> almacenId != "" && ids != [] && forall i :: 0 <= i < |ids| ==> !Valido(ids[i])
    ensures r.Enviar? ==> r.payload.usuarioId == usuarioId
    ensures r.Enviar? ==> 0 < |r.payload.almacenes| <= |ids|
    ensures r.Enviar? ==> forall a :: a in r.payload.almacenes ==> a.limiteIngresos == Limite(limite)
    ensures r.Enviar? ==> forall a :: a in r.payload.almacenes ==> exists i :: 0 <= i < |ids| && NumberOf(ids[i]) == Some(a.subalmacenId) && a.subalmacenId > 0
  {
    if almacenId == "" || ids == [] then FaltaSeleccion
    else
      var validos := Filter(ids, Valido);
      if validos == [] then
        assert forall i :: 0 <= i < |ids| ==> !Valido(ids[i]);
        SinValidos
      else
        assert validos[0] in ids;
        AsignacionesTraced(ids, limite);
        Enviar(Payload(usuarioId, Asignaciones(validos, limite)))
  }

  /** Each entry built from the valid ids names a positive id that was ticked, with the limit. */
  lemma AsignacionesTraced(ids: seq<string>, limite: string)
    ensures var almacenes := Asignaciones(Filter(ids, Valido), limite);
      forall a :: a in almacenes ==>
        a.limiteIngresos == Limite(limite) && a.subalmacenId > 0
        && exists i :: 0 <= i < |ids| && NumberOf(ids[i]) == Some(a.subalmacenId)
  {
    var validos := Filter(ids, Valido);
    var almacenes := Asignaciones(validos, limite);
    forall a | a in almacenes
      ensures a.limiteIngresos == Limite(limite) && exists i :: 0 <= i < |ids| && NumberOf(ids[i]) == Some(a.subalmacenId)
    {
      var k :| 0 <= k < |almacenes| && almacenes[k] == a;
      assert validos[k] in ids;
    }
  }

  /** Every positive id among the ticked ones is sent, so none of the user's choices is lost. */
  lemma EveryValidIdSent(almacenId: string, ids: seq<string>, limite: string, usuarioId: int, i: nat)
    requires almacenId != "" && i < |ids| && Valido(ids[i])
    ensures Asignar(almacenId, ids, limite, usuarioId).Enviar?
    ensures Asignacion(NumberOf(ids[i]).value, Limite(limite)) in Asignar(almacenId, ids, limite, usuarioId).payload.almacenes
  {
    var validos := Filter(ids, Valido);
    assert ids[i] in validos;
    var k :| 0 <= k < |validos| && validos[k] == ids[i];
    assert Asignaciones(validos, limite)[k] == Asignacion(NumberOf(ids[i]).value, Limite(limite));
  }

  /**
   * After "select all" on a warehouse whose sub-warehouses have positive ids,
   * the body holds one entry per listed sub-warehouse, in list order, with the limit.
   */
  lemma SelectAllSendsEveryListed(subs: seq<Subalmacen>, almacenId: string, limite: string, usuarioId: int)
    requires almacenId != "" && Filtrados(subs, almacenId) != []
    requires forall sa :: sa in Filtrados(subs, almacenId) ==> sa.id > 0
    ensures var f := Filtrados(subs, almacenId);
      Asignar(almacenId, IdStrings(f), limite, usuarioId)
        == Enviar(Payload(usuarioId, seq(|f|, i requires 0 <= i < |f| => Asignacion(f[i].id, Limite(limite)))))
  {
    var f := Filtrados(subs, almacenId);
    var ids := IdStrings(f);
    ListedIdsNumbers(f);
    FilterAll(ids, Valido);
    ListedAsignaciones(f, limite);
  }

  /** The id text of each sub-warehouse with a positive id reads back as that id. */
  lemma ListedIdsNumbers(f: seq<Subalmacen>)
    requires forall sa :: sa in f ==> sa.id > 0
    ensures forall i :: 0 <= i < |f| ==> NumberOf(IdStrings(f)[i]) == Some(f[i].id) && Valido(IdStrings(f)[i])
  {
    forall i | 0 <= i < |f| ensures NumberOf(IdStrings(f)[i]) == Some(f[i].id) {
      NumberOfIntToString(f[i].id);
    }
    forall i | 0 <= i < |f| ensures Valido(IdStrings(f)[i]) {
      assert f[i] in f;
    }
  }

  /** The body entries for the ids of listed sub-warehouses carry those sub-warehouses' ids. */
  lemma ListedAsignaciones(f: seq<Subalmacen>, limite: string)
    requires forall i :: 0 <= i < |f| ==> NumberOf(IdStrings(f)[i]) == Some(f[i].id) && Valido(IdStrings(f)[i])
    ensures Asignaciones(IdStrings(f), limite) == seq(|f|, i requires 0 <= i < |f| => Asignacion(f[i].id, Limite(limite)))
  {
  }

  /** `allSelected`: some sub-warehouse is listed and as many ids are ticked as are listed. */
  predicate AllSelected(subs: seq<Subalmacen>, almacenId: string, ids: seq<string>) {
    var f := Filtrados(subs, almacenId);
    |f| > 0 && |ids| == |f|
  }

  /** Every element of a duplicate-free sequence occurs once. */
  lemma {:induction false} DistinctOnce<T>(s: seq<T>, x: T)
    requires Distinct(s)
    ensures multiset(s)[x] <= 1
    decreases |s|
  {
    if s != [] {
      assert s == [s[0]] + s[1..];
      DistinctOnce(s[1..], x);
      if x == s[0] {
        assert x !in s[1..];
      }
    }
  }

  /** A sub-multiset of `fs` as large as `fs` holds every element of `fs`. */
  lemma SameSizeSubMultiset<T>(ids: seq<T>, fs: seq<T>)
    requires multiset(ids) <= multiset(fs) && |ids| == |fs|
    ensures forall x :: x in fs ==> x in ids
  {
    var m := multiset(ids);
    var mf := multiset(fs);
    var d := mf - m;
    assert mf == m + d;
    assert |d| == 0;
    assert mf == m;
    forall x | x in fs ensures x in ids {
      assert x in mf;
    }
  }

  /** A sub-multiset of a duplicate-free `fs` that holds every element of `fs` is as large as `fs`. */
  lemma CoveringSubMultiset<T>(ids: seq<T>, fs: seq<T>)
    requires multiset(ids) <= multiset(fs) && Distinct(fs)
    requires forall x :: x in fs ==> x in ids
    ensures |ids| == |fs|
  {
    var m := multiset(ids);
    var mf := multiset(fs);
    forall x ensures mf[x] <= m[x] {
      DistinctOnce(fs, x);
      if x in mf {
        assert x in fs;
      }
    }
    assert mf == m;
    assert |ids| == |m| == |mf| == |fs|;
  }

  /**
   * The count comparison stands for "every listed sub-warehouse is ticked"
   * while the ticked ids are drawn from the listed ones: one direction always,
   * the other when the listed ids are distinct (as React's `key={sa.id}` requires).
   */
  lemma AllSelectedMeaning(subs: seq<Subalmacen>, almacenId: string, ids: seq<string>)
    requires multiset(ids) <= multiset(IdStrings(Filtrados(subs, almacenId)))
    ensures AllSelected(subs, almacenId, ids) ==> forall sa :: sa in Filtrados(subs, almacenId) ==> IdString(sa) in ids
    ensures Distinct(IdStrings(Filtrados(subs, almacenId))) && Filtrados(subs, almacenId) != []
      && (forall sa :: sa in Filtrados(subs, almacenId) ==> IdString(sa) in ids)
      ==> AllSelected(subs, almacenId, ids)
  {
    var f := Filtrados(subs, almacenId);
    if AllSelected(subs, almacenId, ids) {
      SameSizeSubMultiset(ids, IdStrings(f));
      EveryListedTicked(f, ids);
    }
    if Distinct(IdStrings(f)) && f != [] && forall sa :: sa in f ==> IdString(sa) in ids {
      TickedCoversListed(f, ids);
      CoveringSubMultiset(ids, IdStrings(f));
    }
  }

  /** When every listed id text is ticked, so is the id of every listed sub-warehouse. */
  lemma EveryListedTicked(f: seq<Subalmacen>, ids: seq<string>)
    requires forall x :: x in IdStrings(f) ==> x in ids
    ensures forall sa :: sa in f ==> IdString(sa) in ids
  {
    var fs := IdStrings(f);
    forall sa | sa in f ensures IdString(sa) in ids {
      var k :| 0 <= k < |f| && f[k] == sa;
      assert fs[k] in fs;
    }
  }

  /** Conversely, when the id of every listed sub-warehouse is ticked, so is every listed id text. */
  lemma TickedCoversListed(f: seq<Subalmacen>, ids: seq<string>)
    requires forall sa :: sa in f ==> IdString(sa) in ids
    ensures forall x :: x in IdStrings(f) ==> x in ids
  {
    var fs := IdStrings(f);
    forall x | x in fs ensures x in ids {
      var k :| 0 <= k < |fs| && fs[k] == x;
      assert f[k] in f;
    }
  }

  /** The alert shown when `onAsignar` rejects, chosen by what its message mentions. */
  datatype Alerta = ErrorConexion | ServicioNoDisponible | SesionExpirada | ErrorAlAsignar(message: string)

  /**
   * The `catch` of `handleAsignar`: "Failed to fetch" first, then "404", then
   * "401" (which also drops the stored token and goes to the login page).
   */
  function AlertaDeError(message: string): (r: Alerta)
    ensures r == ErrorConexion <==> Contains(message, "Failed to fetch")
    ensures r == ServicioNoDisponible <==> !Contains(message, "Failed to fetch") && Contains(message, "404")
    ensures r == SesionExpirada <==> !Contains(message, "Failed to fetch") && !Contains(message, "404") && Contains(message, "401")
    ensures r.ErrorAlAsignar? ==> r.message == message
  {
    if Contains(message, "Failed to fetch") then ErrorConexion
    else if Contains(message, "404") then ServicioNoDisponible
    else if Contains(message, "401") then SesionExpirada
    else ErrorAlAsignar(message)
  }

  /** Unticking an id removes every copy of it, keeps the other ticks and stays within the listed ids. */
  lemma Untick(ids: seq<string>, listed: seq<string>, s: string)
    requires multiset(ids) <= multiset(listed)
    ensures var r := Filter(ids, (x: string) => x != s);
      s !in r && (forall x :: x != s ==> (x in r <==> x in ids)) && multiset(r) <= multiset(listed)
  {
    FilterMultiset(ids, (x: string) => x != s);
  }

  /** Ticking a listed sub-warehouse that is not ticked stays within the listed ids. */
  lemma TickListed(ids: seq<string>, f: seq<Subalmacen>, sa: Subalmacen)
    requires multiset(ids) <= multiset(IdStrings(f)) && sa in f && IdString(sa) !in ids
    ensures multiset(ids + [IdString(sa)]) <= multiset(IdStrings(f))
  {
    var listed := IdStrings(f);
    var k :| 0 <= k < |f| && f[k] == sa;
    assert listed[k] == IdString(sa);
    assert multiset(listed)[IdString(sa)] >= 1;
  }

  /** The modal's state; `subalmacenes` is the list of sub-warehouses it was given. */
  class AsignarModal {
    const subalmacenes: seq<Subalmacen>
    var almacenId: string
    var subalmacenIds: seq<string>
    var limiteIngresos: string

    /** The ticked ids are drawn from the listed sub-warehouses' ids, each at most as often as it is listed. */
    ghost predicate Valid()
      reads this
    {
      multiset(subalmacenIds) <= multiset(IdStrings(Filtrados(subalmacenes, almacenId)))
    }

    /** The initial state: no warehouse, nothing ticked, a limit of 1. */
    constructor(subalmacenes: seq<Subalmacen>)
      ensures this.subalmacenes == subalmacenes
      ensures almacenId == "" && subalmacenIds == [] && limiteIngresos == "1"
      ensures Valid()
    {
      this.subalmacenes := subalmacenes;
      almacenId := "";
      subalmacenIds := [];
      limiteIngresos := "1";
    }

    /** The effect on `showModal`: a hidden modal forgets the warehouse, the ticks and the limit. */
    method Mostrar(showModal: bool)
      requires Valid()
      modifies this
      ensures Valid()
      ensures !showModal ==> almacenId == "" && subalmacenIds == [] && limiteIngresos == "1"
      ensures showModal ==> almacenId == old(almacenId) && subalmacenIds == old(subalmacenIds) && limiteIngresos == old(limiteIngresos)
    {
      if !showModal {
        almacenId := "";
        subalmacenIds := [];
        limiteIngresos := "1";
      }
    }

    /** Picking a warehouse clears the ticks. */
    method CambiarAlmacen(id: string)
      modifies this
      ensures almacenId == id && subalmacenIds == [] && limiteIngresos == old(limiteIngresos)
      ensures Valid()
    {
      almacenId := id;
      subalmacenIds := [];
    }

    /** The limit field. */
    method CambiarLimite(value: string)
      requires Valid()
      modifies this
      ensures limiteIngresos == value && almacenId == old(almacenId) && subalmacenIds == old(subalmacenIds)
      ensures Valid()
    {
      limiteIngresos := value;
    }

    /** `handleToggleAll`: untick everything when all are ticked, otherwise tick every listed sub-warehouse. */
    method ToggleAll()
      requires Valid()
      modifies this
      ensures almacenId == old(almacenId) && limiteIngresos == old(limiteIngresos)
      ensures old(AllSelected(subalmacenes, almacenId, subalmacenIds)) ==> subalmacenIds == []
      ensures !old(AllSelected(subalmacenes, almacenId, subalmacenIds)) ==>
        subalmacenIds == IdStrings(Filtrados(subalmacenes, almacenId))
      ensures Valid()
    {
      if AllSelected(subalmacenes, almacenId, subalmacenIds) {
        subalmacenIds := [];
      } else {
        subalmacenIds := IdStrings(Filtrados(subalmacenes, almacenId));
      }
    }

    /** A click on a listed sub-warehouse flips whether its id is ticked. */
    method ToggleSub(sa: Subalmacen)
      requires Valid() && sa in Filtrados(subalmacenes, almacenId)
      modifies this
      ensures almacenId == old(almacenId) && limiteIngresos == old(limiteIngresos)
      ensures IdString(sa) in subalmacenIds <==> IdString(sa) !in old(subalmacenIds)
      ensures forall x :: x != IdString(sa) ==> (x in subalmacenIds <==> x in old(subalmacenIds))
      ensures Valid()
    {
      var s := IdString(sa);
      if s in subalmacenIds {
        Untick(subalmacenIds, IdStrings(Filtrados(subalmacenes, almacenId)), s);
        subalmacenIds := Filter(subalmacenIds, (x: string) => x != s);
      } else {
        TickListed(subalmacenIds, Filtrados(subalmacenes, almacenId), sa);
        subalmacenIds := subalmacenIds + [s];
      }
    }
  }
}
