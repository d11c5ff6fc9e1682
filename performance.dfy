/**
 * Two pieces of the performance helpers: the window arithmetic of the
 * virtualised list (which items to render for a scroll position) and the
 * bounded least-recently-used cache of computed results.
 */
module Performance {
  import opened Common

  /** `visibleRange`: the half-open index range of the items to render. */
  datatype Range = Range(startIndex: nat, endIndex: nat)

  /** `Math.ceil(a / b)` on non-negative integers. */
  function CeilDiv(a: nat, b: nat): (q: nat)
    requires b > 0
    ensures q * b >= a && (q == 0 || (q - 1) * b < a)
  {
    if a % b == 0 then a / b else a / b + 1
  }

  /** The first item under the scroll offset, and one item beyond a screenful after it, capped by the list length. */
  function VisibleRange(scrollTop: nat, itemHeight: nat, containerHeight: nat, length: nat): (r: Range)
    requires itemHeight > 0
    ensures r.startIndex * itemHeight <= scrollTop < (r.startIndex + 1) * itemHeight
    ensures r.endIndex == if r.startIndex + CeilDiv(containerHeight, itemHeight) + 1 < length
                          then r.startIndex + CeilDiv(containerHeight, itemHeight) + 1 else length
  {
    var start := scrollTop / itemHeight;
    var end := start + CeilDiv(containerHeight, itemHeight) + 1;
    Range(start, if end < length then end else length)
  }

  /** Every item that overlaps the viewport `[scrollTop, scrollTop + containerHeight)` is inside the range. */
  lemma ViewportItemsAreVisible(scrollTop: nat, itemHeight: nat, containerHeight: nat, length: nat, i: nat)
    requires itemHeight > 0 && i < length
    requires i * itemHeight < scrollTop + containerHeight && scrollTop < (i + 1) * itemHeight
    ensures var r := VisibleRange(scrollTop, itemHeight, containerHeight, length);
            r.startIndex <= i < r.endIndex
  {
    var r := VisibleRange(scrollTop, itemHeight, containerHeight, length);
    var s := r.startIndex;
    var c := CeilDiv(containerHeight, itemHeight);
    LessByFactor(s, i + 1, itemHeight);
    assert i * itemHeight < (s + 1) * itemHeight + c * itemHeight by {
      assert scrollTop < (s + 1) * itemHeight;
    }
    assert (s + 1) * itemHeight + c * itemHeight == (s + 1 + c) * itemHeight;
    LessByFactor(i, s + 1 + c, itemHeight);
  }

  /** `a * h < b * h` with `h > 0` gives `a < b`. */
  lemma LessByFactor(a: nat, b: nat, h: nat)
    requires h > 0 && a * h < b * h
    ensures a < b
  {
  }

  /** An item of the rendered window, tagged with its position in the full list. */
  datatype Indexed<T> = Indexed(item: T, index: nat)

  /** `items.slice(start, end).map((item, i) => ({...item, index: start + i}))`. */
  function VisibleItems<T>(items: seq<T>, r: Range): (v: seq<Indexed<T>>)
    requires r.endIndex <= |items|
    ensures |v| == if r.startIndex < r.endIndex then r.endIndex - r.startIndex else 0
    ensures forall i :: 0 <= i < |v| ==> v[i] == Indexed(items[r.startIndex + i], r.startIndex + i)
  {
    if r.startIndex < r.endIndex then
      seq(r.endIndex - r.startIndex, i requires 0 <= i < r.endIndex - r.startIndex =>
        Indexed(items[r.startIndex + i], r.startIndex + i))
    else []
  }

  /** The rendered window lies within the full height: `offsetY + |visible| * itemHeight <= totalHeight`. */
  lemma WindowFitsInList<T>(items: seq<T>, scrollTop: nat, itemHeight: nat, containerHeight: nat)
    requires itemHeight > 0
    ensures var r := VisibleRange(scrollTop, itemHeight, containerHeight, |items|);
            var v := VisibleItems(items, r);
            |v| > 0 ==> r.startIndex * itemHeight + |v| * itemHeight <= |items| * itemHeight
  {
    var r := VisibleRange(scrollTop, itemHeight, containerHeight, |items|);
    var v := VisibleItems(items, r);
    if |v| > 0 {
      assert r.startIndex + |v| == r.endIndex <= |items|;
      MulMonotone(r.startIndex, |v|, |items|, itemHeight);
    }
  }

  /** Two consecutive stretches of `s` and `n` items fit in `len` items' height when `s + n <= len`. */
  lemma MulMonotone(s: nat, n: nat, len: nat, h: nat)
    requires s + n <= len
    ensures s * h + n * h <= len * h
  {
    assert s * h + n * h == (s + n) * h;
    assert len * h == (s + n) * h + (len - s - n) * h;
  }

  /** The keys in JavaScript `Map` order (oldest first) as a set. */
  function KeySet<K>(order: seq<K>): set<K> {
    set i | 0 <= i < |order| :: order[i]
  }

  lemma KeySetConcat<K>(a: seq<K>, b: seq<K>)
    ensures KeySet(a + b) == KeySet(a) + KeySet(b)
  {
    var ab := a + b;
    forall x | x in KeySet(ab) ensures x in KeySet(a) + KeySet(b) {
      var j :| 0 <= j < |ab| && ab[j] == x;
      if j >= |a| {
        assert b[j - |a|] == x;
      }
    }
    forall x | x in KeySet(a) ensures x in KeySet(ab) {
      var j :| 0 <= j < |a| && a[j] == x;
      assert ab[j] == x;
    }
    forall x | x in KeySet(b) ensures x in KeySet(ab) {
      var j :| 0 <= j < |b| && b[j] == x;
      assert ab[|a| + j] == x;
    }
  }

  lemma KeySetSingleton<K>(k: K)
    ensures KeySet([k]) == {k}
  {
    assert [k][0] == k;
  }

  /** Moving a key of a duplicate-free list to the back keeps the list duplicate-free, with the same keys and length. */
  lemma MoveToBack<K>(order: seq<K>, key: K)
    requires Distinct(order) && key in order
    ensures var o := RemoveFirst(order, key) + [key];
            Distinct(o) && KeySet(o) == KeySet(order) && |o| == |order|
  {
    var i := IndexOf(order, key);
    var rest := order[..i] + order[i + 1..];
    RemoveAtDistinct(order, i);
    RemoveAtKeys(order, i);
    DistinctConcat(rest, [key]);
    KeySetConcat(rest, [key]);
    KeySetSingleton(key);
  }

  /** Dropping one position of a duplicate-free list leaves a duplicate-free list without that element. */
  lemma RemoveAtDistinct<K>(order: seq<K>, i: nat)
    requires Distinct(order) && i < |order|
    ensures Distinct(order[..i] + order[i + 1..]) && order[i] !in order[..i] + order[i + 1..]
  {
    var rest := order[..i] + order[i + 1..];
    forall a, b | 0 <= a < b < |rest| ensures rest[a] != rest[b] {
      var a' := if a < i then a else a + 1;
      var b' := if b < i then b else b + 1;
      assert rest[a] == order[a'] && rest[b] == order[b'];
    }
    forall j | 0 <= j < |rest| ensures rest[j] != order[i] {
      var j' := if j < i then j else j + 1;
      assert rest[j] == order[j'];
    }
  }

  /** Dropping one position of a duplicate-free list removes exactly its element from the keys. */
  lemma RemoveAtKeys<K>(order: seq<K>, i: nat)
    requires Distinct(order) && i < |order|
    ensures KeySet(order[..i] + order[i + 1..]) == KeySet(order) - {order[i]}
  {
    var rest := order[..i] + order[i + 1..];
    RemoveAtDistinct(order, i);
    forall x | x in KeySet(order) && x != order[i] ensures x in KeySet(rest) {
      var j :| 0 <= j < |order| && order[j] == x;
      if j < i {
        assert rest[j] == x;
      } else {
        assert rest[j - 1] == x;
      }
    }
    forall x | x in KeySet(rest) ensures x in KeySet(order) {
      var j :| 0 <= j < |rest| && rest[j] == x;
      assert rest[j] == if j < i then order[j] else order[j + 1];
    }
  }

  /** A `Map` with least-recently-used eviction; `order` lists keys from least to most recently used. */
  class ComputationCache<K(==), V> {
    var order: seq<K>
    var values: map<K, V>
    var maxSize: nat

    ghost predicate Valid()
      reads this
    {
      Distinct(order) && values.Keys == KeySet(order)
      && |order| <= (if maxSize == 0 then 1 else maxSize)
    }

    constructor(maxSize: nat)
      ensures Valid() && order == [] && values == map[] && this.maxSize == maxSize
    {
      order := [];
      values := map[];
      this.maxSize := maxSize;
    }

    /** `get(key)`: a hit returns the value and makes the key the most recent; a miss changes nothing. */
    method Get(key: K) returns (r: Option<V>)
      requires Valid()
      modifies this
      ensures Valid() && values == old(values) && maxSize == old(maxSize)
      ensures key in old(values) ==> r == Some(old(values)[key]) && order == RemoveFirst(old(order), key) + [key]
      ensures key !in old(values) ==> r == None && order == old(order)
    {
      if key in values {
        var value := values[key];
        Touch(key);
        return Some(value);
      }
      return None;
    }

    /** Move a present key to the most recent end. */
    method Touch(key: K)
      requires Valid() && key in values
      modifies this
      ensures Valid() && values == old(values) && maxSize == old(maxSize)
      ensures order == RemoveFirst(old(order), key) + [key]
    {
      MoveToBack(order, key);
      order := RemoveFirst(order, key) + [key];
    }

    /**
     * `set(key, value)`: a present key is refreshed and becomes the most recent; a new key into a full
     * cache first evicts the least recently used key.
     */
    method Set(key: K, value: V)
      requires Valid()
      modifies this
      ensures Valid() && maxSize == old(maxSize)
      ensures key in old(values) ==>
                values == old(values)[key := value] && order == RemoveFirst(old(order), key) + [key]
      ensures key !in old(values) && |old(order)| >= maxSize && old(order) != [] ==>
                values == (old(values) - {old(order)[0]})[key := value] && order == old(order)[1..] + [key]
      ensures key !in old(values) && (|old(order)| < maxSize || old(order) == []) ==>
                values == old(values)[key := value] && order == old(order) + [key]
    {
      if key in values {
        Touch(key);
        values := values[key := value];
      } else {
        if |order| >= maxSize && order != [] {
          var oldest := order[0];
          assert KeySet(order[1..]) == KeySet(order) - {oldest} by {
            forall x | x in KeySet(order) && x != oldest ensures x in KeySet(order[1..]) {
              var j :| 0 <= j < |order| && order[j] == x;
              assert order[1..][j - 1] == x;
            }
          }
          values := values - {oldest};
          order := order[1..];
        }
        KeySetConcat(order, [key]);
        KeySetSingleton(key);
        order := order + [key];
        values := values[key := value];
      }
    }

    /** `has(key)`: a membership test that leaves the recency order alone. */
    method Has(key: K) returns (b: bool)
      requires Valid()
      ensures b <==> key in values
    {
      return key in values;
    }

    /** `clear()`. */
    method Clear()
      modifies this
      ensures Valid() && order == [] && values == map[] && maxSize == old(maxSize)
    {
      order := [];
      values := map[];
    }

    /** `useCachedComputation`: a stored result is returned without recomputing; otherwise `computed` is stored. */
    method CachedComputation(key: K, computed: V) returns (result: V, hit: bool)
      requires Valid()
      modifies this
      ensures Valid() && maxSize == old(maxSize)
      ensures hit <==> key in old(values)
      ensures hit ==> result == old(values)[key] && values == old(values)
      ensures !hit ==> result == computed && key in values && values[key] == computed
      ensures hit ==> order == RemoveFirst(old(order), key) + [key]
      ensures !hit && |old(order)| >= maxSize && old(order) != [] ==>
                values == (old(values) - {old(order)[0]})[key := computed] && order == old(order)[1..] + [key]
      ensures !hit && (|old(order)| < maxSize || old(order) == []) ==>
                values == old(values)[key := computed] && order == old(order) + [key]
    {
      hit := Has(key);
      if hit {
        var r := Get(key);
        result := r.value;
      } else {
        result := computed;
        Set(key, computed);
      }
    }
  }
}
