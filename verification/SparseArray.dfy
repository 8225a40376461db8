/** The sparse representation: items sorted by index. */
module SparseArrays {
  import opened Options
  import opened Spec = ArraySpec

  datatype Item<V> = Item(idx: nat, value: V)

  ghost predicate SortedItems<V>(items: seq<Item<V>>) {
    forall i, j :: 0 <= i < j < |items| ==> items[i].idx < items[j].idx
  }

  /** The elements that a list of items holds. */
  function Elems<V>(items: seq<Item<V>>): map<nat, V> {
    if items == [] then map[]
    else Elems(items[..|items| - 1])[items[|items| - 1].idx := items[|items| - 1].value]
  }

  lemma {:induction false} ElemsAt<V>(items: seq<Item<V>>)
    requires SortedItems(items)
    ensures forall k :: 0 <= k < |items| ==> items[k].idx in Elems(items) && Elems(items)[items[k].idx] == items[k].value
    ensures forall i :: i in Elems(items) ==> exists k :: 0 <= k < |items| && items[k].idx == i
  {
    if items != [] {
      var init := items[..|items| - 1];
      ElemsAt(init);
      forall k | 0 <= k < |items|
        ensures items[k].idx in Elems(items) && Elems(items)[items[k].idx] == items[k].value
      {
        assert k < |init| ==> items[k] == init[k];
      }
      forall i | i in Elems(items) ensures exists k :: 0 <= k < |items| && items[k].idx == i {
        if i in Elems(init) {
          var k :| 0 <= k < |init| && init[k].idx == i;
          assert items[k].idx == i;
        } else {
          assert items[|items| - 1].idx == i;
        }
      }
    }
  }

  /** A sorted list of items is described by the elements it holds. */
  lemma ElemsIs<V>(items: seq<Item<V>>, m: map<nat, V>)
    requires SortedItems(items)
    requires forall k :: 0 <= k < |items| ==> items[k].idx in m && m[items[k].idx] == items[k].value
    requires forall i :: i in m ==> exists k :: 0 <= k < |items| && items[k].idx == i
    ensures Elems(items) == m
  {
    ElemsAt(items);
    hide Elems;
    forall i | i in m ensures i in Elems(items) && Elems(items)[i] == m[i] {
      var k :| 0 <= k < |items| && items[k].idx == i;
    }
    forall i | i in Elems(items) ensures i in m {
      var k :| 0 <= k < |items| && items[k].idx == i;
    }
  }

  /** Where findIdx finds idx, or would put it. */
  ghost predicate IsSlot<V>(items: seq<Item<V>>, idx: nat, k: nat) {
    && k <= |items|
    && (forall j :: 0 <= j < k ==> items[j].idx < idx)
    && (forall j :: k <= j < |items| ==> idx <= items[j].idx)
  }

  lemma PresentIff<V>(items: seq<Item<V>>, idx: nat, k: nat)
    requires SortedItems(items) && IsSlot(items, idx, k)
    ensures idx in Elems(items) <==> k < |items| && items[k].idx == idx
    ensures k < |items| && items[k].idx == idx ==> Elems(items)[idx] == items[k].value
  {
    ElemsAt(items);
    hide Elems;
    if idx in Elems(items) {
      var j :| 0 <= j < |items| && items[j].idx == idx;
    }
  }

  function InsertItem<V>(items: seq<Item<V>>, k: nat, x: Item<V>): (r: seq<Item<V>>)
    requires k <= |items|
    ensures |r| == |items| + 1 && r[k] == x
    ensures forall j :: 0 <= j < k ==> r[j] == items[j]
    ensures forall j :: k < j < |r| ==> r[j] == items[j - 1]
  {
    items[..k] + [x] + items[k..]
  }

  lemma InsertKeepsOrder<V>(items: seq<Item<V>>, k: nat, x: Item<V>)
    requires SortedItems(items) && IsSlot(items, x.idx, k) && (k < |items| ==> items[k].idx != x.idx)
    ensures SortedItems(InsertItem(items, k, x))
  {
    hide InsertItem;
    var r := InsertItem(items, k, x);
    forall i, j | 0 <= i < j < |r| ensures r[i].idx < r[j].idx {
      assert r[i] == if i < k then items[i] else if i == k then x else items[i - 1];
      assert r[j] == if j < k then items[j] else if j == k then x else items[j - 1];
    }
  }

  lemma InsertHolds<V>(items: seq<Item<V>>, k: nat, x: Item<V>, j: nat)
    requires SortedItems(items) && IsSlot(items, x.idx, k) && (k < |items| ==> items[k].idx != x.idx) && j <= |items|
    ensures var r, m := InsertItem(items, k, x), Elems(items)[x.idx := x.value]; r[j].idx in m && m[r[j].idx] == r[j].value
  {
    ElemsAt(items);
    var r := InsertItem(items, k, x);
    hide Elems, InsertItem;
    if j < k {
      assert r[j] == items[j];
    } else if j > k {
      assert r[j] == items[j - 1];
      assert items[k].idx <= items[j - 1].idx;
    }
  }

  lemma InsertMoves<V>(items: seq<Item<V>>, k: nat, x: Item<V>, j: nat)
    requires k <= |items| && j < |items|
    ensures InsertItem(items, k, x)[if j < k then j else j + 1] == items[j]
  {
  }

  lemma InsertCovers<V>(items: seq<Item<V>>, k: nat, x: Item<V>, i: nat)
    requires SortedItems(items) && k <= |items| && i in Elems(items)[x.idx := x.value]
    ensures exists j :: 0 <= j < |InsertItem(items, k, x)| && InsertItem(items, k, x)[j].idx == i
  {
    var r := InsertItem(items, k, x);
    var at := k;
    if i != x.idx {
      assert exists j :: 0 <= j < |items| && items[j].idx == i by {
        ElemsAt(items);
      }
      var j :| 0 <= j < |items| && items[j].idx == i;
      InsertMoves(items, k, x, j);
      at := if j < k then j else j + 1;
    }
    assert r[at].idx == i;
  }

  lemma InsertElems<V>(items: seq<Item<V>>, k: nat, x: Item<V>)
    requires SortedItems(items) && IsSlot(items, x.idx, k) && (k < |items| ==> items[k].idx != x.idx)
    ensures SortedItems(InsertItem(items, k, x)) && Elems(InsertItem(items, k, x)) == Elems(items)[x.idx := x.value]
  {
    InsertKeepsOrder(items, k, x);
    hide Elems, InsertItem, SortedItems, IsSlot;
    var r, m := InsertItem(items, k, x), Elems(items)[x.idx := x.value];
    forall j | 0 <= j < |r| ensures r[j].idx in m && m[r[j].idx] == r[j].value {
      InsertHolds(items, k, x, j);
    }
    forall i | i in m ensures exists j :: 0 <= j < |r| && r[j].idx == i {
      InsertCovers(items, k, x, i);
    }
    ElemsIs(r, m);
  }

  lemma UpdateElems<V>(items: seq<Item<V>>, k: nat, v: V)
    requires SortedItems(items) && k < |items|
    ensures var r := items[k := items[k].(value := v)]; SortedItems(r) && Elems(r) == Elems(items)[items[k].idx := v]
  {
    hide Elems;
    var r, m := items[k := items[k].(value := v)], Elems(items)[items[k].idx := v];
    ElemsAt(items);
    forall i | i in m ensures exists j :: 0 <= j < |r| && r[j].idx == i {
      if i == items[k].idx {
        assert r[k].idx == i;
      } else {
        var j :| 0 <= j < |items| && items[j].idx == i;
        assert r[j].idx == i;
      }
    }
    ElemsIs(r, m);
  }

  function RemoveItem<V>(items: seq<Item<V>>, k: nat): (r: seq<Item<V>>)
    requires k < |items|
    ensures |r| == |items| - 1
    ensures forall j :: 0 <= j < k ==> r[j] == items[j]
    ensures forall j :: k <= j < |r| ==> r[j] == items[j + 1]
  {
    items[..k] + items[k + 1..]
  }

  lemma RemoveHolds<V>(items: seq<Item<V>>, k: nat, j: nat)
    requires SortedItems(items) && k < |items| && j < |items| - 1
    ensures var r, m := RemoveItem(items, k), Elems(items) - {items[k].idx}; r[j].idx in m && m[r[j].idx] == r[j].value
  {
    ElemsAt(items);
    hide Elems, RemoveItem;
    assert RemoveItem(items, k)[j] == items[if j < k then j else j + 1];
  }

  lemma RemoveMoves<V>(items: seq<Item<V>>, k: nat, j: nat)
    requires k < |items| && j < |items| && j != k
    ensures RemoveItem(items, k)[if j < k then j else j - 1] == items[j]
  {
  }

  lemma RemoveCovers<V>(items: seq<Item<V>>, k: nat, i: nat)
    requires SortedItems(items) && k < |items| && i in Elems(items) && i != items[k].idx
    ensures exists j :: 0 <= j < |RemoveItem(items, k)| && RemoveItem(items, k)[j].idx == i
  {
    assert exists j :: 0 <= j < |items| && items[j].idx == i by {
      ElemsAt(items);
    }
    hide RemoveItem, Elems, SortedItems;
    var j :| 0 <= j < |items| && items[j].idx == i;
    RemoveMoves(items, k, j);
    assert RemoveItem(items, k)[if j < k then j else j - 1].idx == i;
  }

  lemma RemoveElems<V>(items: seq<Item<V>>, k: nat)
    requires SortedItems(items) && k < |items|
    ensures SortedItems(RemoveItem(items, k)) && Elems(RemoveItem(items, k)) == Elems(items) - {items[k].idx}
  {
    hide Elems, RemoveItem;
    var r, m := RemoveItem(items, k), Elems(items) - {items[k].idx};
    forall j | 0 <= j < |r| ensures r[j].idx in m && m[r[j].idx] == r[j].value {
      RemoveHolds(items, k, j);
    }
    forall i | i in m ensures exists j :: 0 <= j < |r| && r[j].idx == i {
      RemoveCovers(items, k, i);
    }
    ElemsIs(r, m);
  }

  lemma TruncateElems<V>(items: seq<Item<V>>, l: nat, k: nat)
    requires SortedItems(items) && IsSlot(items, l, k)
    ensures SortedItems(items[..k]) && Elems(items[..k]) == map i | i in Elems(items) && i < l :: Elems(items)[i]
  {
    hide Elems;
    var r, m := items[..k], map i | i in Elems(items) && i < l :: Elems(items)[i];
    ElemsAt(items);
    forall i | i in m ensures exists j :: 0 <= j < |r| && r[j].idx == i {
      var j :| 0 <= j < |items| && items[j].idx == i;
      assert r[j].idx == i;
    }
    ElemsIs(r, m);
  }

  class SparseArray<V> {
    var items: seq<Item<V>>
    var length: nat
    var extensible: bool
    var lengthWritable: bool

    ghost predicate Valid()
      reads this
    {
      && SortedItems(items)
      && (forall k :: 0 <= k < |items| ==> items[k].idx < length)
      && length <= MAX_LENGTH
    }

    ghost function Contents(): map<nat, V>
      reads this
    {
      Elems(items)
    }

    ghost function Abs(): Model<V>
      reads this
    {
      Model(length, Contents(), extensible, lengthWritable)
    }

    constructor (its: seq<Item<V>>, l: nat, e: bool, w: bool)
      requires SortedItems(its) && (forall k :: 0 <= k < |its| ==> its[k].idx < l) && l <= MAX_LENGTH
      ensures Valid() && Abs() == Model(l, Elems(its), e, w)
    {
      items, length, extensible, lengthWritable := its, l, e, w;
    }

    /** Binary search for the first item whose index is not below idx. */
    method FindIdx(idx: nat) returns (k: nat)
      requires SortedItems(items)
      ensures IsSlot(items, idx, k)
    {
      var lo, hi := 0, |items|;
      while lo < hi
        invariant 0 <= lo <= hi <= |items|
        invariant forall j :: 0 <= j < lo ==> items[j].idx < idx
        invariant forall j :: hi <= j < |items| ==> idx <= items[j].idx
      {
        var mid := (lo + hi) / 2;
        if items[mid].idx >= idx {
          hi := mid;
        } else {
          lo := mid + 1;
        }
      }
      k := lo;
    }

    method GetIdx(idx: nat) returns (v: Option<V>)
      requires Valid()
      ensures v == Get(Abs(), idx)
    {
      hide Elems;
      var i := FindIdx(idx);
      PresentIff(items, idx, i);
      if i < |items| && items[i].idx == idx {
        return Some(items[i].value);
      }
      return None;
    }

    /** _setLengthInt */
    method Truncate(l: nat)
      requires Valid() && l <= MAX_LENGTH
      modifies this`items, this`length
      ensures Valid() && Abs() == Cut(old(Abs()), l)
    {
      hide Elems;
      var k := FindIdx(l);
      TruncateElems(items, l, k);
      items, length := items[..k], l;
    }

    /** The write of a.length. */
    method SetLength(l: nat) returns (ok: bool)
      requires Valid() && l <= MAX_LENGTH
      modifies this`items, this`length
      ensures Valid() && (ok, Abs()) == Spec.SetLength(old(Abs()), l)
    {
      if !lengthWritable {
        return false;
      }
      Truncate(l);
      return true;
    }

    /** An element for an index that has none. */
    method Add(idx: nat, v: V)
      requires Valid() && idx < length && idx !in Contents()
      modifies this`items
      ensures Valid() && Contents() == old(Contents())[idx := v]
    {
      hide Elems;
      var k := FindIdx(idx);
      PresentIff(items, idx, k);
      InsertElems(items, k, Item(idx, v));
      items := InsertItem(items, k, Item(idx, v));
    }

    /** Whether the elements, and one at idx, should be stored densely; if so, up to which index. */
    method ShouldSwitch(idx: nat) returns (to: Option<nat>)
      requires Valid() && idx < length
      ensures to.Some? ==> idx <= to.value < length
      ensures to.Some? ==> forall k :: 0 <= k < |items| ==> items[k].idx <= to.value
    {
      var l := |items|;
      if l >= 1024 {
        var max := if items[l - 1].idx > idx then items[l - 1].idx else idx;
        if max / 8 < l {
          return Some(max);
        }
      }
      return None;
    }

    method Overwrite(k: nat, v: V)
      requires Valid() && k < |items|
      modifies this`items
      ensures Valid() && Contents() == old(Contents())[old(items)[k].idx := v]
    {
      hide Elems;
      UpdateElems(items, k, v);
      items := items[k := items[k].(value := v)];
    }

    /** Makes room in the length for a new element; false if that is not allowed. */
    method Extend(idx: nat) returns (ok: bool)
      requires Valid() && idx < MAX_LENGTH
      modifies this`items, this`length
      ensures Valid() && ok == (idx < old(length) || lengthWritable)
      ensures Abs() == if ok && idx >= old(length) then old(Abs()).(length := idx + 1) else old(Abs())
    {
      hide Elems;
      if idx >= length {
        if !lengthWritable {
          return false;
        }
        ElemsAt(items);
        Truncate(idx + 1);
        assert Abs().elems == old(Abs()).elems;
      }
      return true;
    }

    method DeleteIdx(idx: nat)
      requires Valid()
      modifies this`items
      ensures Valid() && Abs() == Spec.Delete(old(Abs()), idx)
    {
      hide Elems;
      var k := FindIdx(idx);
      PresentIff(items, idx, k);
      if k < |items| && items[k].idx == idx {
        RemoveElems(items, k);
        items := RemoveItem(items, k);
      } else {
        assert Contents() - {idx} == Contents();
      }
    }
  }
}
