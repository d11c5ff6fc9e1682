/**
 * The id-to-name lookups of the worker pages (`getCoordinadorNombre`,
 * `getAlmacenNombre`, `getSubalmacenNombre`): each searches its list for the
 * first entry whose numeric id equals `Number(id)` and falls back to the id
 * itself. The three differ only in the list they search, so they share one
 * definition here.
 */
module TrabajadorHelpers {
  import opened Common
  import opened JsStrings

  /** An id as a row holds it: a number, `null` or `undefined`. */
  datatype RawId = Undefined | Null | Id(n: int)

  /** `Number(id)`: `null` becomes 0 and `undefined` becomes NaN, which equals nothing. */
  function NumberOf(id: RawId): Option<int> {
    match id
    case Undefined => None
    case Null => Some(0)
    case Id(n) => Some(n)
  }

  /** A coordinator, warehouse or sub-warehouse as the lookup sees it. */
  datatype Named = Named(id: int, nombre: string)

  /** What the lookup returns: the entry's name, or the id it was given. */
  datatype Label = Name(nombre: string) | Raw(id: RawId)

  predicate Matches(e: Named, id: RawId) {
    NumberOf(id) == Some(e.id)
  }

  /** `list.find(e => e.id === Number(id))` followed by `e ? e.nombre : id`. */
  function GetNombre(items: seq<Named>, id: RawId): (r: Label)
    ensures r.Raw? <==> forall i :: 0 <= i < |items| ==> !Matches(items[i], id)
    ensures r.Raw? ==> r.id == id
    ensures r.Name? ==> exists k :: 0 <= k < |items| && Matches(items[k], id) && r.nombre == items[k].nombre
                                    && forall i :: 0 <= i < k ==> !Matches(items[i], id)
    decreases |items|
  {
    if items == [] then Raw(id)
    else if Matches(items[0], id) then Name(items[0].nombre)
    else
      var r := GetNombre(items[1..], id);
      assert forall i :: 1 <= i < |items| ==> items[i] == items[1..][i - 1];
      r
  }

  /** `label || '—'` turned into text: an empty name, id 0 and a missing id are falsy. */
  function LabelText(l: Label): (t: string)
    ensures t != []
  {
    match l
    case Name(n) => if n == "" then "—" else n
    case Raw(Id(n)) => if n == 0 then "—" else IntToString(n)
    case Raw(_) => "—"
  }

  /** Appending entries after a matching one does not change the lookup. */
  lemma {:induction false} GetNombreFirstMatchWins(items: seq<Named>, more: seq<Named>, id: RawId)
    requires GetNombre(items, id).Name?
    ensures GetNombre(items + more, id) == GetNombre(items, id)
    decreases |items|
  {
    if !Matches(items[0], id) {
      assert (items + more)[1..] == items[1..] + more;
      GetNombreFirstMatchWins(items[1..], more, id);
    }
  }
}
