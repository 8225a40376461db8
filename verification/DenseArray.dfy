/** The dense representation: a slice with one slot for each index, empty where there is no element. */
module DenseArrays {
  import opened Options
  import opened Slices
  import opened Spec = ArraySpec
  import opened SparseArrays

  const UINT32: nat := 0x1_0000_0000

  /** The elements that a slice holds. */
  function Filled<V>(s: seq<Option<V>>): map<nat, V> {
    map i: nat | i < |s| && s[i].Some? :: s[i].value
  }

  /** The items that setValues collects. */
  function Collect<V>(s: seq<Option<V>>): seq<Item<V>> {
    if s == [] then []
    else
      var init, last := Collect(s[..|s| - 1]), s[|s| - 1];
      if last.Some? then init + [Item(|s| - 1, last.value)] else init
  }

  lemma {:induction false} CollectFacts<V>(s: seq<Option<V>>)
    ensures SortedItems(Collect(s)) && (forall k :: 0 <= k < |Collect(s)| ==> Collect(s)[k].idx < |s|)
    ensures Elems(Collect(s)) == Filled(s)
  {
    if s != [] {
      var init, n := s[..|s| - 1], |s| - 1;
      CollectFacts(init);
      var c := Collect(init);
      if s[n].Some? {
        assert (c + [Item(n, s[n].value)])[..|c|] == c;
        assert Filled(s) == Filled(init)[n := s[n].value];
      } else {
        assert Filled(s) == Filled(init);
      }
    }
  }

  class DenseArray<V> {
    /** The slice is its first len elements; the rest is its spare capacity. */
    var values: array<Option<V>>
    var len: nat
    var length: nat
    var objCount: int
    var extensible: bool
    var lengthWritable: bool

    ghost predicate Valid()
      reads this, values
    {
      && len <= values.Length && len <= length <= MAX_LENGTH
      && forall k :: len <= k < values.Length ==> values[k] == None
    }

    ghost function Contents(): map<nat, V>
      requires len <= values.Length
      reads this, values
    {
      Filled(values[..len])
    }

    ghost function Abs(): Model<V>
      requires len <= values.Length
      reads this, values
    {
      Model(length, Contents(), extensible, lengthWritable)
    }

    constructor (e: bool, w: bool, l: nat)
      requires l <= MAX_LENGTH
      ensures Valid() && Abs() == Model(l, map[], e, w) && fresh(values) && len == 0
    {
      values := new Option<V>[0];
      len, length, objCount, extensible, lengthWritable := 0, l, 0, e, w;
    }

    method GetIdx(idx: nat) returns (v: Option<V>)
      requires Valid()
      ensures v == Get(Abs(), idx)
    {
      return if idx < len then values[idx] else None;
    }

    /** Replaces the backing array by one of the given capacity, which keeps the first n slots. */
    method Reallocate(n: nat, newLen: nat, newCap: nat)
      requires Valid() && n <= len && n <= newLen <= newCap && newLen <= length
      modifies this`values, this`len
      ensures Valid() && len == newLen && values.Length == newCap && fresh(values)
      ensures values[..n] == old(values[..n]) && forall k :: n <= k < newLen ==> values[k] == None
    {
      var a := new Option<V>[newCap](i => None);
      for i := 0 to n
        invariant values == old(values) && len == old(len)
        invariant a[..i] == values[..i]
        invariant forall k :: i <= k < newCap ==> a[k] == None
      {
        a[i] := values[i];
      }
      values, len := a, newLen;
    }

    /** Empties the slots from n on. */
    method Wipe(n: nat)
      requires n <= len <= values.Length
      modifies values
      ensures values[..n] == old(values[..n]) && values[len..] == old(values[len..])
      ensures forall k :: n <= k < len ==> values[k] == None
    {
      for i := n to len
        invariant values[..n] == old(values[..n]) && values[len..] == old(values[len..])
        invariant forall k :: n <= k < i ==> values[k] == None
      {
        values[i] := None;
      }
    }

    /** _setLengthInt */
    method Truncate(l: nat)
      requires Valid() && l <= MAX_LENGTH
      modifies this`values, this`len, this`length, values
      ensures Valid() && Abs() == Cut(old(Abs()), l) && (values == old(values) || fresh(values))
    {
      ghost var before := values[..len];
      if l <= len {
        if l >= 16 && l < (values.Length % UINT32) / 4 {
          Reallocate(l, l, l);
          assert values[..len] == before[..l];
        } else {
          Wipe(l);
          forall k | l <= k < values.Length ensures values[k] == None {
            assert k >= len ==> values[k] == values[len..][k - len];
          }
          len := l;
          assert values[..len] == before[..l];
        }
        assert Filled(before[..l]) == map i | i in Filled(before) && i < l :: Filled(before)[i];
      } else {
        assert Filled(before) == map i | i in Filled(before) && i < l :: Filled(before)[i];
      }
      length := l;
    }

    /** The write of a.length. */
    method SetLength(l: nat) returns (ok: bool)
      requires Valid() && l <= MAX_LENGTH
      modifies this`values, this`len, this`length, values
      ensures Valid() && (ok, Abs()) == Spec.SetLength(old(Abs()), l) && (values == old(values) || fresh(values))
    {
      if !lengthWritable {
        return false;
      }
      Truncate(l);
      return true;
    }

    method DeleteIdx(idx: nat)
      requires Valid()
      modifies this`objCount, values
      ensures Valid() && Abs() == Spec.Delete(old(Abs()), idx)
    {
      ghost var before := values[..len];
      if idx < len && values[idx].Some? {
        values[idx] := None;
        objCount := objCount - 1;
        assert values[..len] == before[idx := None];
        assert Filled(before[idx := None]) == Filled(before) - {idx};
      } else {
        assert Filled(before) == Filled(before) - {idx};
      }
    }

    /** Collects the elements, in ascending order of their indices. */
    method ToSparse() returns (sa: SparseArray<V>)
      requires Valid()
      ensures fresh(sa) && sa.Valid() && sa.Abs() == Abs()
    {
      var items: seq<Item<V>> := [];
      for i := 0 to len
        invariant items == Collect(values[..i])
      {
        assert values[..i + 1][..i] == values[..i];
        if values[i].Some? {
          items := items + [Item(i, values[i].value)];
        }
      }
      CollectFacts(values[..len]);
      sa := new SparseArray(items, length, extensible, lengthWritable);
    }

    /** Makes the slice reach idx, unless the elements are spread so thinly that they go into a sparse array. */
    method Expand(idx: nat) returns (sa: SparseArray?<V>)
      requires Valid() && len <= idx < length
      modifies this`values, this`len
      ensures Valid() && Abs() == old(Abs()) && (values == old(values) || fresh(values))
      ensures sa == null ==> idx < len
      ensures sa != null ==> fresh(sa) && sa.Valid() && sa.Abs() == Abs()
    {
      ghost var before := values[..len];
      var targetLen := idx + 1;
      sa := null;
      if targetLen < values.Length % UINT32 {
        len := targetLen;
      } else {
        var n := objCount % UINT32;
        if idx > 4096 && (n == 0 || idx / n > 10) {
          sa := ToSparse();
          return;
        }
        Reallocate(len, targetLen, GrowCap(targetLen, len, values.Length));
      }
      assert values[..|before|] == before;
      assert Filled(values[..len]) == Filled(before);
    }

    /** Writes a slot of the slice. */
    method Store(idx: nat, v: V)
      requires Valid() && idx < len
      modifies values
      ensures Valid() && Abs() == old(Abs()).(elems := old(Contents())[idx := v])
    {
      ghost var before := values[..len];
      values[idx] := Some(v);
      assert values[..len] == before[idx := Some(v)];
      assert Filled(before[idx := Some(v)]) == Filled(before)[idx := v];
    }

    /** _setOwnIdx; the second result is the array that takes over, if one does. */
    method SetOwnIdx(idx: nat, v: V) returns (ok: bool, sa: SparseArray?<V>)
      requires Valid() && idx < MAX_LENGTH
      modifies this`values, this`len, this`length, this`objCount, values
      ensures Valid() && (values == old(values) || fresh(values))
      ensures sa == null ==> (ok, Abs()) == Assign(old(Abs()), idx, v)
      ensures sa != null ==> fresh(sa) && sa.Valid() && (ok, sa.Abs()) == Assign(old(Abs()), idx, v)
    {
      sa := null;
      var prop := GetIdx(idx);
      if prop.None? {
        if !extensible {
          return false, null;
        }
        if idx >= length {
          if !lengthWritable {
            return false, null;
          }
          Truncate(idx + 1);
          CutNothing(old(Abs()), idx + 1);
        }
        assert Abs() == old(Abs()).(length := if idx >= old(length) then idx + 1 else old(length));
        if idx >= len {
          sa := Expand(idx);
          if sa != null {
            sa.Add(idx, v);
            return true, sa;
          }
        }
        objCount := objCount + 1;
      }
      Store(idx, v);
      return true, null;
    }

    /** setValuesFromSparse */
    method Fill(items: seq<Item<V>>, newMaxIdx: nat)
      requires SortedItems(items) && newMaxIdx < length <= MAX_LENGTH
      requires forall k :: 0 <= k < |items| ==> items[k].idx <= newMaxIdx
      modifies this`values, this`len, this`objCount
      ensures Valid() && fresh(values) && len == newMaxIdx + 1 && Contents() == Elems(items)
    {
      var a := new Option<V>[newMaxIdx + 1](i => None);
      for i := 0 to |items|
        invariant Filled(a[..]) == Elems(items[..i])
      {
        ghost var before := a[..];
        a[items[i].idx] := Some(items[i].value);
        assert a[..] == before[items[i].idx := Some(items[i].value)];
        assert items[..i + 1][..i] == items[..i];
      }
      values, len, objCount := a, newMaxIdx + 1, |items|;
      assert items[..|items|] == items && a[..len] == a[..];
    }
  }

  /** Growing the length removes nothing. */
  lemma CutNothing<V>(m: Model<V>, l: nat)
    requires forall i :: i in m.elems ==> i < l
    ensures Cut(m, l) == m.(length := l)
  {
    assert Cut(m, l).elems == m.elems;
  }
}
