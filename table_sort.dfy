/**
 * The column sorting shared by the Trabajadores, Asistencias, Coordinadores
 * and RRHH tables: the three-state header click cycle, the comparators of the
 * three column types (number, bool, text) and `[...rows].sort(comparator)`,
 * which is a stable sort of a copy.
 */
module TableSort {
  import opened Common
  import opened JsStrings

  datatype Dir = Asc | Desc

  /** The pair of state variables `sortBy` (null when unsorted) and `sortDir`. */
  datatype SortState = SortState(sortBy: Option<string>, dir: Dir)

  const Unsorted := SortState(None, Asc)

  /** `handleSort(key)`: a new column sorts ascending, then descending, then not at all. */
  function NextSort(st: SortState, key: string): (r: SortState)
    ensures st.sortBy != Some(key) ==> r == SortState(Some(key), Asc)
    ensures st.sortBy == Some(key) && st.dir == Asc ==> r == SortState(Some(key), Desc)
    ensures st.sortBy == Some(key) && st.dir == Desc ==> r == Unsorted
  {
    if st.sortBy == Some(key) then
      (if st.dir == Asc then SortState(Some(key), Desc) else Unsorted)
    else SortState(Some(key), Asc)
  }

  /** The states the cycle can reach from the initial one: an unsorted table is always ascending. */
  predicate Reachable(st: SortState) {
    st.sortBy.None? ==> st.dir == Asc
  }

  lemma NextSortReachable(st: SortState, key: string)
    ensures Reachable(NextSort(st, key))
  {
  }

  /** Clicking the same header three times returns to the starting state. */
  lemma SortCyclePeriodThree(st: SortState, key: string)
    requires Reachable(st)
    requires st.sortBy == None || st.sortBy == Some(key)
    ensures NextSort(NextSort(NextSort(st, key), key), key) == st
    ensures NextSort(st, key) != st && NextSort(NextSort(st, key), key) != st
  {
  }

  /** A value of a number column after `Number(...)`, with null/undefined mapped to -Infinity. */
  datatype Num = NegInfinity | Finite(n: int) | NaN

  /** The value a comparator looks at: a number, a truthiness, or a lower-cased string. */
  datatype Key = NumKey(num: Num) | BoolKey(b: bool) | TextKey(text: string)

  function Sign(x: int): (s: int)
    ensures s == -1 || s == 0 || s == 1
    ensures (s < 0 <==> x < 0) && (s > 0 <==> x > 0)
  {
    if x < 0 then -1 else if x > 0 then 1 else 0
  }

  /** The sign of `a - b` in floating point; a NaN difference (NaN operand, or -Infinity minus itself) counts as 0, as `sort` treats it. */
  function NumDiff(a: Num, b: Num): (s: int)
    ensures s == -1 || s == 0 || s == 1
  {
    match (a, b)
    case (Finite(x), Finite(y)) => Sign(x - y)
    case (NegInfinity, Finite(_)) => -1
    case (Finite(_), NegInfinity) => 1
    case _ => 0
  }

  /** `(vb ? 1 : -1) - (va ? 1 : -1)`, the ascending bool comparator. */
  function BoolDiff(a: bool, b: bool): int {
    (if b then 1 else -1) - (if a then 1 else -1)
  }

  function TextDiff(a: string, b: string): int {
    if LexLess(a, b) then -1 else if LexLess(b, a) then 1 else 0
  }

  /** The sign of the comparator of the tables for two keys of one column. */
  function Compare(a: Key, b: Key, dir: Dir): (c: int)
    ensures c == -1 || c == 0 || c == 1
  {
    var asc := match (a, b)
      case (NumKey(x), NumKey(y)) => NumDiff(x, y)
      case (BoolKey(x), BoolKey(y)) => Sign(BoolDiff(x, y))
      case (TextKey(x), TextKey(y)) => TextDiff(x, y)
      case _ => 0;
    if dir == Asc then asc else -asc
  }

  /** Swapping the operands flips the sign, for every pair of keys. */
  lemma CompareAntisymmetric(a: Key, b: Key, dir: Dir)
    ensures Compare(a, b, dir) == -Compare(b, a, dir)
  {
    if a.TextKey? && b.TextKey? {
      LexLessAsymmetric(a.text, b.text);
    }
  }

  /** Descending order is ascending order with the operands swapped. */
  lemma CompareDescReverses(a: Key, b: Key)
    ensures Compare(a, b, Desc) == Compare(b, a, Asc)
  {
    CompareAntisymmetric(a, b, Asc);
  }

  /** Bool columns, ascending: active rows come before inactive ones. */
  lemma BoolAscActiveFirst()
    ensures Compare(BoolKey(true), BoolKey(false), Asc) < 0
    ensures Compare(BoolKey(false), BoolKey(true), Asc) > 0
  {
  }

  function KindOf(k: Key): nat {
    match k
    case NumKey(_) => 0
    case BoolKey(_) => 1
    case TextKey(_) => 2
  }

  /** A key that the comparator orders consistently with every other key of its kind. */
  predicate Orderable(k: Key, kind: nat) {
    KindOf(k) == kind && k != NumKey(NaN)
  }

  lemma {:induction false} TextDiffZero(a: string, b: string)
    ensures TextDiff(a, b) == 0 ==> a == b
  {
    LexLessTotal(a, b);
  }

  lemma CompareTransitive(a: Key, b: Key, c: Key, kind: nat, dir: Dir)
    requires Orderable(a, kind) && Orderable(b, kind) && Orderable(c, kind)
    requires Compare(a, b, dir) <= 0 && Compare(b, c, dir) <= 0
    ensures Compare(a, c, dir) <= 0
  {
    if kind == 2 {
      TextDiffZero(a.text, b.text);
      TextDiffZero(b.text, c.text);
      if dir == Asc {
        if LexLess(a.text, b.text) && LexLess(b.text, c.text) {
          LexLessTransitive(a.text, b.text, c.text);
        }
        LexLessAsymmetric(a.text, c.text);
      } else {
        if LexLess(b.text, a.text) && LexLess(c.text, b.text) {
          LexLessTransitive(c.text, b.text, a.text);
        }
        LexLessAsymmetric(c.text, a.text);
      }
    }
  }

  predicate SortedBy<T>(r: seq<T>, key: T -> Key, dir: Dir) {
    forall i, j :: 0 <= i < j < |r| ==> Compare(key(r[i]), key(r[j]), dir) <= 0
  }

  /** Every row has an orderable key of the same kind (no NaN in a number column). */
  predicate Uniform<T>(s: seq<T>, key: T -> Key, kind: nat) {
    forall i :: 0 <= i < |s| ==> Orderable(key(s[i]), kind)
  }

  /** One step of a stable insertion: `x` goes after every element that does not compare greater. */
  function Insert<T>(x: T, t: seq<T>, key: T -> Key, dir: Dir): (r: seq<T>)
    ensures multiset(r) == multiset(t) + multiset{x}
    ensures |r| == |t| + 1
    decreases |t|
  {
    if t == [] || Compare(key(t[|t| - 1]), key(x), dir) <= 0 then t + [x]
    else
      assert t == t[..|t| - 1] + [t[|t| - 1]];
      Insert(x, t[..|t| - 1], key, dir) + [t[|t| - 1]]
  }

  /** `[...rows].sort(comparator)`: a stable sort of a copy. */
  function SortBy<T>(s: seq<T>, key: T -> Key, dir: Dir): (r: seq<T>)
    ensures multiset(r) == multiset(s)
    ensures |r| == |s|
    decreases |s|
  {
    if s == [] then []
    else
      assert s == s[..|s| - 1] + [s[|s| - 1]];
      Insert(s[|s| - 1], SortBy(s[..|s| - 1], key, dir), key, dir)
  }

  lemma {:induction false} InsertSorted<T>(x: T, t: seq<T>, key: T -> Key, dir: Dir, kind: nat)
    requires SortedBy(t, key, dir) && Uniform(t, key, kind) && Orderable(key(x), kind)
    ensures SortedBy(Insert(x, t, key, dir), key, dir)
    decreases |t|
  {
    if t != [] {
      var last := t[|t| - 1];
      if Compare(key(last), key(x), dir) <= 0 {
        forall i | 0 <= i < |t| ensures Compare(key(t[i]), key(x), dir) <= 0 {
          if i < |t| - 1 {
            CompareTransitive(key(t[i]), key(last), key(x), kind, dir);
          }
        }
        AppendAbove(t, x, key, dir);
      } else {
        var init := t[..|t| - 1];
        assert Uniform(init, key, kind);
        InsertSorted(x, init, key, dir, kind);
        InsertedBelowLast(x, t, key, dir);
        var m := Insert(x, init, key, dir);
        assert forall i :: 0 <= i < |m| ==> m[i] in m;
        AppendAbove(m, last, key, dir);
      }
    }
  }

  /** A sorted sequence stays sorted when an element no element of it exceeds is appended. */
  lemma AppendAbove<T>(m: seq<T>, y: T, key: T -> Key, dir: Dir)
    requires SortedBy(m, key, dir)
    requires forall i :: 0 <= i < |m| ==> Compare(key(m[i]), key(y), dir) <= 0
    ensures SortedBy(m + [y], key, dir)
  {
    var r := m + [y];
    forall i, j | 0 <= i < j < |r| ensures Compare(key(r[i]), key(r[j]), dir) <= 0 {
      if j < |m| {
        assert r[i] == m[i] && r[j] == m[j];
      } else {
        assert r[i] == m[i] && r[j] == y;
      }
    }
  }

  /** When `x` goes before the last element, nothing it is inserted among exceeds that last element. */
  lemma InsertedBelowLast<T>(x: T, t: seq<T>, key: T -> Key, dir: Dir)
    requires SortedBy(t, key, dir) && t != [] && Compare(key(t[|t| - 1]), key(x), dir) > 0
    ensures forall y :: y in Insert(x, t[..|t| - 1], key, dir) ==> Compare(key(y), key(t[|t| - 1]), dir) <= 0
  {
    var init := t[..|t| - 1];
    var last := t[|t| - 1];
    var m := Insert(x, init, key, dir);
    CompareAntisymmetric(key(last), key(x), dir);
    forall y | y in m ensures Compare(key(y), key(last), dir) <= 0 {
      assert y in multiset(init) + multiset{x};
      if y != x {
        assert y in init;
        var k :| 0 <= k < |init| && init[k] == y;
        assert t[k] == y;
      }
    }
  }

  /** With every key orderable and of one kind, the result is in comparator order. */
  lemma {:induction false} SortBySorted<T>(s: seq<T>, key: T -> Key, dir: Dir, kind: nat)
    requires Uniform(s, key, kind)
    ensures SortedBy(SortBy(s, key, dir), key, dir)
    decreases |s|
  {
    if s != [] {
      var init := s[..|s| - 1];
      assert Uniform(init, key, kind);
      SortBySorted(init, key, dir, kind);
      var t := SortBy(init, key, dir);
      forall i | 0 <= i < |t| ensures Orderable(key(t[i]), kind) {
        assert t[i] in multiset(init);
        var k :| 0 <= k < |init| && init[k] == t[i];
      }
      InsertSorted(s[|s| - 1], t, key, dir, kind);
    }
  }

  /** No two rows of `s` are told apart by the comparator. */
  predicate AllTied<T>(s: seq<T>, key: T -> Key, dir: Dir) {
    forall i, j :: 0 <= i < |s| && 0 <= j < |s| ==> Compare(key(s[i]), key(s[j]), dir) == 0
  }

  /** A prefix of tied rows is tied. */
  lemma AllTiedInit<T>(s: seq<T>, key: T -> Key, dir: Dir)
    requires s != [] && AllTied(s, key, dir)
    ensures AllTied(s[..|s| - 1], key, dir)
  {
    var init := s[..|s| - 1];
    forall i, j | 0 <= i < |init| && 0 <= j < |init|
      ensures Compare(key(init[i]), key(init[j]), dir) == 0
    {
      assert init[i] == s[i] && init[j] == s[j];
    }
  }

  /** A row that does not compare below the last row is appended at the end. */
  lemma InsertAfterLast<T>(x: T, t: seq<T>, key: T -> Key, dir: Dir)
    requires t == [] || Compare(key(t[|t| - 1]), key(x), dir) <= 0
    ensures Insert(x, t, key, dir) == t + [x]
  {
  }

  /** When no two keys differ, the stable sort keeps the original order. */
  lemma {:induction false} SortByStableIdentity<T>(s: seq<T>, key: T -> Key, dir: Dir)
    requires AllTied(s, key, dir)
    ensures SortBy(s, key, dir) == s
    decreases |s|
  {
    if s != [] {
      var init := s[..|s| - 1];
      var x := s[|s| - 1];
      assert s == init + [x];
      AllTiedInit(s, key, dir);
      SortByStableIdentity(init, key, dir);
      if init != [] {
        assert init[|init| - 1] == s[|s| - 2];
        assert Compare(key(s[|s| - 2]), key(x), dir) == 0;
      }
      InsertAfterLast(x, init, key, dir);
    }
  }

  /** A set toggle (`visiblePasswords`): the id's membership flips. */
  function Toggled<T>(st: set<T>, id: T): (r: set<T>)
    ensures id in r <==> id !in st
    ensures r - {id} == st - {id}
  {
    if id in st then st - {id} else st + {id}
  }

  /** Toggling twice restores the set. */
  lemma ToggledTwice<T>(st: set<T>, id: T)
    ensures Toggled(Toggled(st, id), id) == st
  {
  }

  /** `va ? va.toString().toLowerCase() : ''` on a string value (null, undefined and '' are falsy). */
  function TextKeyOf(v: Option<string>): Key {
    match v
    case Some(t) => TextKey(ToLower(t))
    case None => TextKey("")
  }

  /** `va === undefined || va === null ? -Infinity : Number(va)` on an integer value. */
  function NumKeyOf(v: Option<int>): Key {
    match v
    case Some(n) => NumKey(Finite(n))
    case None => NumKey(NegInfinity)
  }
}
