/** The list of property names of an object: a slice whose backing array is shared with the iterations
    that are under way, and copied before anything they can see changes. */
module PropNames {
  import opened Slices
  import opened Options
  import opened PropOrderSpec

  const MARK: Name := " "

  lemma KeysAppend(names: seq<Name>, keys: set<Name>, n: Name)
    requires multiset(names) == multiset(keys) && n !in keys
    ensures multiset(names + [n]) == multiset(keys + {n})
  {
  }

  lemma KeysWithout(names: seq<Name>, keys: set<Name>, i: nat)
    requires multiset(names) == multiset(keys) && i < |names|
    ensures names[i] in keys && multiset(Without(names, i)) == multiset(keys - {names[i]})
  {
    assert names == names[..i] + [names[i]] + names[i + 1..];
    assert names[i] in multiset(names);
    assert multiset(keys - {names[i]}) == multiset(keys) - multiset{names[i]};
    assert multiset(Without(names, i)) == multiset(names) - multiset{names[i]};
  }

  /** The first position of a name, or the length of the list. */
  function Position(names: seq<Name>, n: Name): (i: nat)
    ensures i <= |names| && (i < |names| ==> names[i] == n)
    ensures forall k :: 0 <= k < i ==> names[k] != n
  {
    if names == [] || names[0] == n then 0
    else
      var i := Position(names[1..], n);
      assert forall k :: 1 <= k < |names| ==> names[k] == names[1..][k - 1];
      i + 1
  }

  lemma PositionIs(names: seq<Name>, n: Name, i: nat)
    requires i <= |names| && (i < |names| ==> names[i] == n)
    requires forall k :: 0 <= k < i ==> names[k] != n
    ensures i == Position(names, n)
  {
  }

  lemma PresentIff(names: seq<Name>, keys: set<Name>, n: Name)
    requires multiset(names) == multiset(keys)
    ensures n in keys <==> Position(names, n) < |names|
  {
    var i := Position(names, n);
    if i < |names| {
      assert names[i] in multiset(names);
    } else {
      assert n !in names && n !in multiset(names);
    }
  }

  lemma SameNames(names: seq<Name>, keys: set<Name>)
    requires multiset(names) == multiset(keys)
    ensures forall n :: n in keys <==> n in names
  {
    forall n ensures n in keys <==> n in names {
      assert n in keys <==> n in multiset(keys);
      assert n in names <==> n in multiset(names);
    }
  }

  // ---------------------------------------------------------------- a whole iteration

  /** The position reported by one call, or none, and the position where the next call starts, when
      `present` are the properties at the time of the call. */
  function Call(snapshot: seq<Name>, idx: nat, present: set<Name>): (r: (Option<nat>, nat))
    requires idx <= |snapshot|
    ensures idx <= r.1 <= |snapshot|
    ensures r.0.Some? ==> idx <= r.0.value && r.1 == r.0.value + 1 && snapshot[r.0.value] in present
    ensures r.0.None? ==> r.1 == |snapshot|
    ensures forall k :: idx <= k < (if r.0.Some? then r.0.value else |snapshot|) ==> snapshot[k] !in present
    decreases |snapshot| - idx
  {
    if idx == |snapshot| then (None, idx)
    else if snapshot[idx] in present then (Some(idx), idx + 1)
    else Call(snapshot, idx + 1, present)
  }

  /** The calls of an iteration, each with the properties of its moment: what each reports and where
      each starts. */
  function Calls(snapshot: seq<Name>, idx: nat, presents: seq<set<Name>>): seq<(Option<nat>, nat)>
    requires idx <= |snapshot|
    decreases |presents|
  {
    if presents == [] then []
    else
      var r := Call(snapshot, idx, presents[0]);
      [(r.0, idx)] + Calls(snapshot, r.1, presents[1..])
  }

  /** What call c of an iteration reports: it deals with the positions from where it starts up to the
      one it reports, and that one is the first whose name is a property at that moment. */
  ghost predicate Reports(snapshot: seq<Name>, r: (Option<nat>, nat), present: set<Name>) {
    && r.1 <= |snapshot|
    && (r.0.Some? ==> r.1 <= r.0.value < |snapshot| && snapshot[r.0.value] in present)
    && (forall k :: r.1 <= k < (if r.0.Some? && r.0.value < |snapshot| then r.0.value else |snapshot|) ==> snapshot[k] !in present)
  }

  /** Over a whole iteration, positions are reported in ascending order and none twice; each call
      starts where the one before stopped, and reports exactly the next name still present. */
  lemma {:induction false} IterationYields(snapshot: seq<Name>, idx: nat, presents: seq<set<Name>>)
    requires idx <= |snapshot|
    ensures var rs := Calls(snapshot, idx, presents);
            && |rs| == |presents|
            && (forall c :: 0 <= c < |rs| ==> idx <= rs[c].1 && Reports(snapshot, rs[c], presents[c]))
            && (forall c :: 0 < c < |rs| ==> rs[c].1 == if rs[c - 1].0.Some? then rs[c - 1].0.value + 1 else |snapshot|)
            && (forall c, d :: 0 <= c < d < |rs| && rs[c].0.Some? && rs[d].0.Some? ==> rs[c].0.value < rs[d].0.value)
    decreases |presents|
  {
    if presents != [] {
      var r := Call(snapshot, idx, presents[0]);
      var rs, more := Calls(snapshot, idx, presents), Calls(snapshot, r.1, presents[1..]);
      IterationYields(snapshot, r.1, presents[1..]);
      hide Call, Calls;
      assert rs == [(r.0, idx)] + more;
      forall c | 0 <= c < |rs|
        ensures idx <= rs[c].1 && Reports(snapshot, rs[c], presents[c])
        ensures c > 0 ==> rs[c].1 == if rs[c - 1].0.Some? then rs[c - 1].0.value + 1 else |snapshot|
      {
        if c > 0 {
          assert rs[c] == more[c - 1] && presents[c] == presents[1..][c - 1];
        }
      }
      forall c, d | 0 <= c < d < |rs| && rs[c].0.Some? && rs[d].0.Some? ensures rs[c].0.value < rs[d].0.value {
        assert rs[d] == more[d - 1] && (c > 0 ==> rs[c] == more[c - 1]);
      }
    }
  }

  class PropIter<V> {
    const o: PropTable<V>
    const arr: array<Name>  // the slice arr[..len] was the list of names when the iteration began
    const len: nat
    var idx: nat
    ghost const snapshot: seq<Name>

    constructor (table: PropTable<V>, names: array<Name>, n: nat)
      requires n <= names.Length
      ensures o == table && arr == names && len == n && idx == 0 && snapshot == names[..n]
    {
      o, arr, len, idx, snapshot := table, names, n, 0, names[..n];
    }

    /** objectPropIter.next: the next snapshot name that is still a property, with its value. */
    method Next() returns (r: Option<(Name, V)>)
      requires o.Valid() && (this in o.iters || OnEmptyList()) && idx <= len
      modifies this`idx, o`iters, arr
      ensures o.Valid() && o.values == old(o.values) && o.Names() == old(o.Names()) && old(idx) <= idx <= len
      ensures |snapshot| == len && var c := Call(snapshot, old(idx), o.values.Keys);
              && idx == c.1
              && (c.0.Some? ==> r == Some((snapshot[c.0.value], o.values[snapshot[c.0.value]])) && o.iters == old(o.iters))
              && (c.0.None? ==> r == None && o.iters == old(o.iters) - {this})
    {
      hide Counted;
      assert this in o.iters ==> Intact();
      hide Call;
      r := Find();
      if r.None? {
        End();
      }
    }

    /** The search of Next. */
    method Find() returns (r: Option<(Name, V)>)
      requires idx <= len == |snapshot| && len <= arr.Length && forall k :: 0 <= k < len ==> arr[k] == snapshot[k]
      modifies this`idx
      ensures old(idx) <= idx <= len
      ensures var c := Call(snapshot, old(idx), o.values.Keys);
        && idx == c.1
        && r == if c.0.Some? then Some((snapshot[c.0.value], o.values[snapshot[c.0.value]])) else None
    {
      while idx < len
        invariant old(idx) <= idx <= len
        invariant Call(snapshot, old(idx), o.values.Keys) == Call(snapshot, idx, o.values.Keys)
        modifies this`idx
      {
        var name := arr[idx];
        idx := idx + 1;
        if name in o.values {
          return Some((name, o.values[name]));
        }
      }
      return None;
    }

    /** clearNamesCopyMarker: this iteration does not need its backing array any more. One that was begun on an empty
        list clears a slot that it never marked, which does no harm as long as the list has not grown since. */
    method End()
      requires o.Valid() && (this in o.iters || OnEmptyList())
      modifies o`iters, arr
      ensures o.Valid() && o.Names() == old(o.Names()) && o.iters == old(o.iters) - {this}
    {
      assert this in o.iters ==> Intact();
      ghost var names := o.Names();
      o.iters := o.iters - {this};
      if arr.Length > len {
        arr[arr.Length - 1] := "";
      }
      forall it | it in o.iters ensures it.Intact() {
        assert old(it.Intact());
      }
      assert o.Names() == names;
    }

    /** The list was empty when the iteration began, and still is. */
    ghost predicate OnEmptyList()
      reads o
    {
      len == 0 && snapshot == [] && o.len == 0 && o.arr == arr
    }

    /** The snapshot is intact, and the backing array carries the copy marker. */
    ghost predicate Intact()
      reads arr
    {
      && 0 < len < arr.Length && |snapshot| == len
      && (forall k :: 0 <= k < len ==> arr[k] == snapshot[k])
      && arr[arr.Length - 1] == MARK
    }
  }

  class PropTable<V> {
    const ix: Indexing
    var arr: array<Name>  // propNames is the slice arr[..len]
    var len: nat
    var values: map<Name, V>
    var lastSortedPropLen: nat
    var idxPropCount: nat
    ghost var iters: set<PropIter<V>>  // begun on a non-empty list and not ended

    ghost predicate Protected()
      reads this`arr, this`len, this`iters, arr, set it | it in iters :: it.arr
    {
      && len <= arr.Length
      && (forall it :: it in iters ==> it.Intact())
      && (forall it :: it in iters && it.arr == arr ==> it.len <= len < arr.Length)
      && (forall x, y :: x in iters && y in iters && x != y ==> x.arr != y.arr)
    }

    ghost function Names(): seq<Name>
      reads this`arr, this`len, arr
      requires len <= arr.Length
    {
      arr[..len]
    }

    ghost predicate Valid()
      reads this, arr, set it | it in iters :: it.arr
    {
      && len <= arr.Length
      && Protected()
      && Counted(ix, Names(), idxPropCount, lastSortedPropLen)
      && multiset(Names()) == multiset(values.Keys)
    }

    constructor (indexing: Indexing)
      ensures Valid() && Names() == [] && values == map[] && iters == {} && fresh(arr) && ix == indexing
    {
      ix, arr, len, values := indexing, new Name[0], 0, map[];
      lastSortedPropLen, idxPropCount, iters := 0, 0, {};
    }

    predicate MarkedForCopy()
      reads this`arr, this`len, arr
    {
      arr.Length > len && arr[arr.Length - 1] == MARK
    }

    /** An unmarked list shares its backing array with no iteration that is under way. */
    lemma UnmarkedIsUnshared()
      requires Protected() && !MarkedForCopy()
      ensures forall it :: it in iters ==> it.arr != arr
    {
      forall it | it in iters ensures it.arr != arr {
        assert it.Intact();
      }
    }

    /** Moves the list to a new backing array. */
    method Reallocate(newcap: nat)
      requires Protected() && newcap >= len
      modifies this`arr
      ensures Protected() && fresh(arr) && len <= arr.Length == newcap
      ensures Names() == old(Names())
      ensures forall it :: it in iters ==> it.arr != arr
      ensures forall k :: len <= k < newcap ==> arr[k] == ""
    {
      var a := new Name[newcap](_ => "");
      for k := 0 to len
        invariant arr == old(arr) && len <= arr.Length
        invariant forall m :: 0 <= m < k ==> a[m] == arr[m]
        invariant forall m :: len <= m < newcap ==> a[m] == ""
      {
        a[k] := arr[k];
      }
      forall it | it in iters ensures it.Intact() {
        assert old(it.Intact());
      }
      arr := a;
    }

    /** copyNamesIfNeeded(o.propNames, 1) */
    method CopyNamesIfNeeded()
      requires Protected()
      modifies this`arr
      ensures Protected() && len <= arr.Length && Names() == old(Names()) && (arr == old(arr) || fresh(arr))
      ensures forall it :: it in iters && it.arr == arr ==> len + 1 < arr.Length
    {
      if MarkedForCopy() && len + 1 >= arr.Length {
        Reallocate(GrowCap(len + 2, len, arr.Length));
      } else {
        forall it | it in iters && it.arr == arr ensures len + 1 < arr.Length {
          assert it.Intact();
        }
      }
    }

    /** The built-in append, for one name. */
    method Append(name: Name)
      requires Protected()
      requires forall it :: it in iters && it.arr == arr ==> len + 1 < arr.Length
      modifies this`arr, this`len, arr
      ensures Protected() && len <= arr.Length && Names() == old(Names()) + [name] && (arr == old(arr) || fresh(arr))
    {
      if len == arr.Length {
        Reallocate(GrowCap(len + 1, len, arr.Length));
      }
      arr[len] := name;
      len := len + 1;
      forall it | it in iters ensures it.Intact() {
        assert old(it.Intact());
      }
    }

    /** Adding a property, in setOwnStr and _put. */
    method Add(name: Name, v: V)
      requires Valid() && name !in values
      modifies this, arr
      ensures Valid() && Names() == old(Names()) + [name] && values == old(values)[name := v]
      ensures iters == old(iters) && (arr == old(arr) || fresh(arr))
    {
      hide Protected, Counted;
      values := values[name := v];
      CopyNamesIfNeeded();
      Append(name);
      CountedAppend(ix, old(Names()), name, idxPropCount, lastSortedPropLen);
      assert values.Keys == old(values).Keys + {name};
      KeysAppend(old(Names()), old(values).Keys, name);
    }

    /** Overwriting a property does not touch the list. */
    method Overwrite(name: Name, v: V)
      requires Valid() && name in values
      modifies this`values
      ensures Valid() && Names() == old(Names()) && values == old(values)[name := v]
    {
      values := values[name := v];
      assert values.Keys == old(values).Keys;
    }

    /** Takes the name at position i out of the list, into a new backing array. */
    method DropCopying(i: nat)
      requires Protected() && len <= arr.Length && i < len
      modifies this`arr, this`len
      ensures Protected() && len <= arr.Length && Names() == Without(old(Names()), i) && fresh(arr)
    {
      ghost var was := Names();
      var a := new Name[ShrinkCap(len, arr.Length)](_ => "");
      for k := 0 to len - 1
        invariant arr == old(arr) && len == old(len) && Names() == was
        invariant forall m :: 0 <= m < k ==> a[m] == was[if m < i then m else m + 1]
      {
        a[k] := if k < i then arr[k] else arr[k + 1];
      }
      arr, len := a, len - 1;
      assert Names() == Without(was, i);
      forall it | it in iters ensures it.Intact() {
        assert old(it.Intact());
      }
    }

    /** The same within the backing array, which no iteration under way can see. */
    method DropInPlace(i: nat)
      requires Protected() && len <= arr.Length && i < len
      requires forall it :: it in iters ==> it.arr != arr
      modifies this`len, arr
      ensures Protected() && len <= arr.Length && Names() == Without(old(Names()), i)
    {
      ghost var was := Names();
      for k := i to len - 1
        invariant len == old(len) <= arr.Length
        invariant forall m :: 0 <= m < len ==> arr[m] == was[if i <= m < k then m + 1 else m]
      {
        arr[k] := arr[k + 1];
      }
      arr[len - 1] := "";
      len := len - 1;
      assert Names() == Without(was, i);
      forall it | it in iters ensures it.Intact() {
        assert old(it.Intact());
      }
    }

    method Drop(i: nat)
      requires Protected() && len <= arr.Length && i < len
      modifies this`arr, this`len, arr
      ensures Protected() && len <= arr.Length && Names() == Without(old(Names()), i) && (arr == old(arr) || fresh(arr))
    {
      hide Protected;
      if MarkedForCopy() {
        DropCopying(i);
      } else {
        UnmarkedIsUnshared();
        DropInPlace(i);
      }
    }

    method DropCounted(i: nat)
      requires Protected() && len <= arr.Length && i < len && Counted(ix, Names(), idxPropCount, lastSortedPropLen)
      modifies this`arr, this`len, this`idxPropCount, this`lastSortedPropLen, arr
      ensures Protected() && len <= arr.Length && Names() == Without(old(Names()), i) && (arr == old(arr) || fresh(arr))
      ensures Counted(ix, Names(), idxPropCount, lastSortedPropLen)
    {
      hide Protected, Without;
      DeleteCounted(ix, Names(), idxPropCount, lastSortedPropLen, i);
      Drop(i);
      if i < lastSortedPropLen {
        lastSortedPropLen := lastSortedPropLen - 1;
        if i < idxPropCount {
          idxPropCount := idxPropCount - 1;
        }
      }
    }

    method Locate(name: Name) returns (i: nat)
      requires len <= arr.Length
      ensures i == Position(Names(), name)
    {
      i := 0;
      while i < len && arr[i] != name
        invariant i <= len
        invariant forall k :: 0 <= k < i ==> arr[k] != name
      {
        i := i + 1;
      }
      PositionIs(Names(), name, i);
    }

    /** _delete */
    method Delete(name: Name)
      requires Valid()
      modifies this, arr
      ensures Valid() && values == old(values) - {name} && iters == old(iters) && (arr == old(arr) || fresh(arr))
      ensures name in old(values) <==> Position(old(Names()), name) < |old(Names())|
      ensures Names() == if name in old(values) then Without(old(Names()), Position(old(Names()), name)) else old(Names())
    {
      hide Protected, Counted, Position, Without;
      ghost var names, keys := Names(), values.Keys;
      values := values - {name};
      assert values.Keys == keys - {name};
      var i := Locate(name);
      PresentIff(names, keys, name);
      if i < len {
        KeysWithout(names, keys, i);
        DropCounted(i);
      }
    }

    // ---- sorting

    /** Moves name i to position k, in a new backing array. */
    method RotateCopying(k: nat, i: nat)
      requires Protected() && k < i < len <= arr.Length
      modifies this`arr
      ensures Protected() && len <= arr.Length && Names() == Rotate(old(Names()), k, i) && fresh(arr)
    {
      ghost var was := Names();
      var a := new Name[arr.Length](_ => "");
      for m := 0 to len
        invariant arr == old(arr) && len == old(len) <= arr.Length && Names() == was
        invariant forall q :: 0 <= q < m && (q < k || i < q) ==> a[q] == was[q]
        invariant k < m ==> a[k] == was[i]
        invariant forall q :: k < q < m && q <= i ==> a[q] == was[q - 1]
      {
        a[m] := if m == k then arr[i] else if k < m <= i then arr[m - 1] else arr[m];
      }
      arr := a;
      assert Names() == Rotate(was, k, i);
      forall it | it in iters ensures it.Intact() {
        assert old(it.Intact());
      }
    }

    method RotateInPlace(k: nat, i: nat)
      requires Protected() && k < i < len <= arr.Length
      requires forall it :: it in iters ==> it.arr != arr
      modifies arr
      ensures Protected() && Names() == Rotate(old(Names()), k, i)
    {
      ghost var was := Names();
      var name := arr[i];
      for m := i downto k
        invariant forall q :: 0 <= q <= m || i < q < len ==> arr[q] == was[q]
        invariant forall q :: m < q <= i ==> arr[q] == was[q - 1]
      {
        arr[m + 1] := arr[m];
      }
      arr[k] := name;
      assert Names() == Rotate(was, k, i);
      forall it | it in iters ensures it.Intact() {
        assert old(it.Intact());
      }
    }

    method MoveName(k: nat, i: nat)
      requires Protected() && k <= i < len <= arr.Length
      modifies this`arr, arr
      ensures Protected() && len <= arr.Length && Names() == Rotate(old(Names()), k, i) && (arr == old(arr) || fresh(arr))
    {
      hide Protected;
      if k < i {
        if MarkedForCopy() {
          RotateCopying(k, i);
        } else {
          UnmarkedIsUnshared();
          RotateInPlace(k, i);
        }
      } else {
        assert Rotate(Names(), k, i) == Names();
      }
    }

    /** sort.Search over the index names at the front, by bisection. */
    method FindSlot(idx: nat) returns (k: nat)
      requires len <= arr.Length && idxPropCount <= len
      requires forall i, j :: 0 <= i < j < idxPropCount ==> ix(arr[i]) <= ix(arr[j])
      ensures k == Search(ix, Names()[..idxPropCount], idx)
    {
      var lo, hi := 0, idxPropCount;
      while lo < hi
        invariant 0 <= lo <= hi <= idxPropCount
        invariant forall j :: 0 <= j < lo ==> ix(arr[j]) < idx
        invariant forall j :: hi <= j < idxPropCount ==> ix(arr[j]) >= idx
      {
        var mid := (lo + hi) / 2;
        if ix(arr[mid]) >= idx {
          hi := mid;
        } else {
          lo := mid + 1;
        }
      }
      k := lo;
      SearchIs(ix, Names()[..idxPropCount], idx, k);
    }

    /** The body of the sorting loop. */
    method InsertName(i: nat)
      requires Protected() && i < len <= arr.Length && Counted(ix, Names(), idxPropCount, i)
      modifies this`arr, this`idxPropCount, arr
      ensures Protected() && len <= arr.Length && (arr == old(arr) || fresh(arr))
      ensures idxPropCount <= i + 1 && Sorted(Names(), idxPropCount) == Insert(ix, Sorted(old(Names()), old(idxPropCount)), i)
    {
      hide Protected, Rotate, Search;
      var name := arr[i];
      if ix(name) != NO_INDEX {
        FrontSorted(i);
        var k := FindSlot(ix(name));
        MoveName(k, i);
        idxPropCount := idxPropCount + 1;
      }
    }

    method FixPropOrder()
      requires Protected() && len <= arr.Length && Counted(ix, Names(), idxPropCount, lastSortedPropLen)
      modifies this`arr, this`idxPropCount, this`lastSortedPropLen, arr
      ensures Protected() && len <= arr.Length && (arr == old(arr) || fresh(arr))
      ensures Sorted(Names(), idxPropCount) == Fix(ix, Sorted(old(Names()), old(idxPropCount)), old(lastSortedPropLen))
      ensures Counted(ix, Names(), idxPropCount, |Names()|) && lastSortedPropLen == |Names()|
    {
      hide Protected, Insert;
      ghost var start, from := Sorted(Names(), idxPropCount), lastSortedPropLen;
      var i := lastSortedPropLen;
      while i < len
        invariant Protected() && i <= len <= arr.Length && len == old(len) && (arr == old(arr) || fresh(arr))
        invariant Counted(ix, Names(), idxPropCount, i)
        invariant Fix(ix, Sorted(Names(), idxPropCount), i) == Fix(ix, start, from)
      {
        InsertCounted(ix, Sorted(Names(), idxPropCount), i);
        InsertName(i);
        i := i + 1;
      }
      lastSortedPropLen := len;
    }

    lemma FrontSorted(i: nat)
      requires len <= arr.Length && Counted(ix, Names(), idxPropCount, i)
      ensures forall x, y :: 0 <= x < y < idxPropCount ==> ix(arr[x]) <= ix(arr[y])
    {
      assert forall x :: 0 <= x < idxPropCount ==> Names()[x] == arr[x];
    }

    /** ensurePropOrder */
    method EnsurePropOrder()
      requires Valid()
      modifies this`arr, this`idxPropCount, this`lastSortedPropLen, arr
      ensures Valid() && (arr == old(arr) || fresh(arr))
      ensures lastSortedPropLen == |Names()|
      ensures multiset(Names()) == multiset(old(Names())) && Others(ix, Names()) == Others(ix, old(Names()))
    {
      hide Protected, Fix, Others;
      if lastSortedPropLen < len {
        FixSorts(ix, Sorted(Names(), idxPropCount), lastSortedPropLen);
        FixPropOrder();
      }
    }

    /** The shortcut of setForeignIdx: with no array-index name at all, the object cannot have the index. */
    method HasNoIndices() returns (b: bool)
      requires Valid()
      modifies this`arr, this`idxPropCount, this`lastSortedPropLen, arr
      ensures Valid() && (arr == old(arr) || fresh(arr)) && (b <==> forall n :: n in values ==> !IsIndex(ix, n))
      ensures multiset(Names()) == multiset(old(Names())) && Others(ix, Names()) == Others(ix, old(Names()))
    {
      hide Protected;
      EnsurePropOrder();
      b := idxPropCount == 0;
      NoIndexIff(ix, Names(), idxPropCount);
      SameNames(Names(), values.Keys);
    }

    // ---- iteration

    /** prepareNamesForCopy: afterwards the list carries the marker, behind its end. */
    method PrepareNamesForCopy()
      requires Protected() && 0 < len <= arr.Length
      modifies this`arr, arr
      ensures Protected() && Names() == old(Names()) && (arr == old(arr) || fresh(arr))
      ensures len < arr.Length && arr[arr.Length - 1] == MARK
      ensures forall it :: it in iters ==> it.arr != arr
    {
      if MarkedForCopy() || arr.Length == len {
        var newcap := if arr.Length == len then GrowCap(len + 1, len, arr.Length) else arr.Length;
        Reallocate(newcap);
      } else {
        UnmarkedIsUnshared();
      }
      arr[arr.Length - 1] := MARK;
      forall it | it in iters ensures it.Intact() {
        assert old(it.Intact());
      }
    }

    /** iterateStringKeys */
    method StartIter() returns (it: PropIter<V>)
      requires Valid()
      modifies this, arr
      ensures Valid() && values == old(values) && (arr == old(arr) || fresh(arr)) && fresh(it)
      ensures it.o == this && it.arr == arr && it.idx == 0 && it.snapshot == Names() && it.len == len
      ensures Counted(ix, it.snapshot, idxPropCount, |it.snapshot|) && multiset(it.snapshot) == multiset(values.Keys)
      ensures Others(ix, it.snapshot) == Others(ix, old(Names()))
      ensures iters == old(iters) + (if len > 0 then {it} else {}) && (len == 0 ==> it.OnEmptyList())
    {
      hide Protected, Counted, Others;
      EnsurePropOrder();
      if len > 0 {
        PrepareNamesForCopy();
        it := new PropIter(this, arr, len);
        Register(it);
      } else {
        it := new PropIter(this, arr, len);
      }
    }

    /** The iteration counts as under way. */
    ghost method Register(it: PropIter<V>)
      requires Protected() && 0 < len < arr.Length && arr[arr.Length - 1] == MARK
      requires forall x :: x in iters ==> x.arr != arr
      requires it.arr == arr && it.len == len && it.snapshot == Names()
      modifies this`iters
      ensures Protected() && iters == old(iters) + {it}
    {
      iters := iters + {it};
    }
  }
}
