/** The order of property names: array indices first in ascending order, then all other names in
    insertion order (OrdinaryOwnPropertyKeys, section 10.1.11 of ECMA-262), established lazily by an
    insertion sort that starts where the last one stopped. */
module PropOrderSpec {
  type Name = string

  const NO_INDEX: nat := 0xFFFF_FFFF

  /** strToArrayIdx: the array index a name denotes, or NO_INDEX. */
  type Indexing = Name -> nat

  predicate IsIndex(ix: Indexing, n: Name) {
    ix(n) != NO_INDEX
  }

  /** What the two counters of an object promise about its list of names. */
  ghost predicate Counted(ix: Indexing, names: seq<Name>, idxCount: nat, sorted: nat) {
    && idxCount <= sorted <= |names|
    && (forall i :: 0 <= i < idxCount ==> IsIndex(ix, names[i]))
    && (forall i, j :: 0 <= i < j < idxCount ==> ix(names[i]) <= ix(names[j]))
    && (forall i :: idxCount <= i < sorted ==> !IsIndex(ix, names[i]))
  }

  /** Element i moves to position k, the elements between them up by one. */
  function Rotate<T>(s: seq<T>, k: nat, i: nat): (r: seq<T>)
    requires k <= i < |s|
    ensures |r| == |s| && r[k] == s[i]
    ensures forall j :: 0 <= j < |s| && (j < k || i < j) ==> r[j] == s[j]
    ensures forall j :: k < j <= i ==> r[j] == s[j - 1]
  {
    s[..k] + [s[i]] + s[k..i] + s[i + 1..]
  }

  /** The number of names before the first index that is not below idx. */
  function Search(ix: Indexing, names: seq<Name>, idx: nat): (k: nat)
    ensures k <= |names|
    ensures forall j :: 0 <= j < k ==> ix(names[j]) < idx
    ensures k < |names| ==> ix(names[k]) >= idx
  {
    if names == [] then 0
    else if ix(names[0]) >= idx then 0
    else
      var k := Search(ix, names[1..], idx);
      assert forall j :: 1 <= j < |names| ==> names[j] == names[1..][j - 1];
      k + 1
  }

  lemma SearchIs(ix: Indexing, names: seq<Name>, idx: nat, k: nat)
    requires k <= |names| && (forall j :: 0 <= j < k ==> ix(names[j]) < idx) && (k < |names| ==> ix(names[k]) >= idx)
    ensures k == Search(ix, names, idx)
  {
  }

  datatype Sorted = Sorted(names: seq<Name>, idxCount: nat)

  /** One step of the insertion sort, for the name at position i. */
  function Insert(ix: Indexing, s: Sorted, i: nat): (r: Sorted)
    requires s.idxCount <= i < |s.names|
    ensures |r.names| == |s.names| && r.idxCount <= i + 1
  {
    if IsIndex(ix, s.names[i]) then
      Sorted(Rotate(s.names, Search(ix, s.names[..s.idxCount], ix(s.names[i])), i), s.idxCount + 1)
    else s
  }

  function Fix(ix: Indexing, s: Sorted, i: nat): (r: Sorted)
    requires s.idxCount <= i <= |s.names|
    ensures |r.names| == |s.names| && r.idxCount <= |r.names|
    decreases |s.names| - i
  {
    if i == |s.names| then s else Fix(ix, Insert(ix, s, i), i + 1)
  }

  // ---------------------------------------------------------------- what sorting does

  function Others(ix: Indexing, names: seq<Name>): seq<Name> {
    if names == [] then []
    else Others(ix, names[..|names| - 1]) + (if IsIndex(ix, names[|names| - 1]) then [] else [names[|names| - 1]])
  }

  lemma {:induction false} OthersAppend(ix: Indexing, a: seq<Name>, b: seq<Name>)
    ensures Others(ix, a + b) == Others(ix, a) + Others(ix, b)
  {
    if b == [] {
      assert a + b == a;
    } else {
      OthersAppend(ix, a, b[..|b| - 1]);
      assert (a + b)[..|a + b| - 1] == a + b[..|b| - 1];
    }
  }

  lemma RotateMultiset<T>(s: seq<T>, k: nat, i: nat)
    requires k <= i < |s|
    ensures multiset(Rotate(s, k, i)) == multiset(s)
  {
    assert s == s[..k] + s[k..i] + [s[i]] + s[i + 1..];
  }

  lemma OthersOne(ix: Indexing, n: Name)
    ensures Others(ix, [n]) == if IsIndex(ix, n) then [] else [n]
  {
    assert [n][..0] == [];
  }

  /** Moving an index name does not disturb the order of the others. */
  lemma RotateOthers(ix: Indexing, s: seq<Name>, k: nat, i: nat)
    requires k <= i < |s| && IsIndex(ix, s[i])
    ensures Others(ix, Rotate(s, k, i)) == Others(ix, s)
  {
    hide Others;
    var a, b, c, x := s[..k], s[k..i], s[i + 1..], [s[i]];
    assert s == a + b + x + c;
    OthersOne(ix, s[i]);
    OthersFour(ix, a, x, b, c);
    OthersFour(ix, a, b, x, c);
    hide Rotate;
    var oa, ob, oc := Others(ix, a), Others(ix, b), Others(ix, c);
    assert oa + [] + ob + oc == oa + ob + [] + oc;
  }

  lemma OthersFour(ix: Indexing, a: seq<Name>, b: seq<Name>, c: seq<Name>, d: seq<Name>)
    ensures Others(ix, a + b + c + d) == Others(ix, a) + Others(ix, b) + Others(ix, c) + Others(ix, d)
  {
    hide Others;
    OthersAppend(ix, a + b + c, d);
    OthersAppend(ix, a + b, c);
    OthersAppend(ix, a, b);
  }

  /** In an ascending list, everything from the position found is not below idx. */
  lemma SearchSplits(ix: Indexing, head: seq<Name>, idx: nat)
    requires forall i, j :: 0 <= i < j < |head| ==> ix(head[i]) <= ix(head[j])
    ensures var k := Search(ix, head, idx); forall j :: k <= j < |head| ==> idx <= ix(head[j])
  {
  }

  /** Inserting keeps the counters valid with one more name sorted. */
  lemma InsertCounted(ix: Indexing, s: Sorted, i: nat)
    requires i < |s.names| && Counted(ix, s.names, s.idxCount, i)
    ensures var r := Insert(ix, s, i); Counted(ix, r.names, r.idxCount, i + 1)
  {
    hide Rotate, Search;
    var n := s.names[i];
    if IsIndex(ix, n) {
      var head := s.names[..s.idxCount];
      SearchSplits(ix, head, ix(n));
      var k := Search(ix, head, ix(n));
      var r := Rotate(s.names, k, i);
      forall x, y | 0 <= x < y < s.idxCount + 1 ensures ix(r[x]) <= ix(r[y]) {
        assert x < k ==> r[x] == head[x];
        assert x > k ==> r[x] == head[x - 1];
        assert y < k ==> r[y] == head[y];
        assert y > k ==> r[y] == head[y - 1];
      }
      forall j | 0 <= j < s.idxCount + 1 ensures IsIndex(ix, r[j]) {
        assert j < k ==> r[j] == s.names[j];
        assert j > k ==> r[j] == s.names[j - 1];
      }
    }
  }

  lemma InsertKeepsNames(ix: Indexing, s: Sorted, i: nat)
    requires s.idxCount <= i < |s.names|
    ensures multiset(Insert(ix, s, i).names) == multiset(s.names)
    ensures Others(ix, Insert(ix, s, i).names) == Others(ix, s.names)
  {
    hide Rotate, Others;
    if IsIndex(ix, s.names[i]) {
      var k := Search(ix, s.names[..s.idxCount], ix(s.names[i]));
      RotateMultiset(s.names, k, i);
      RotateOthers(ix, s.names, k, i);
    }
  }

  /** After fixPropOrder: the same names, all array indices first and in ascending order, all others
      behind them in their old order. */
  lemma {:induction false} FixSorts(ix: Indexing, s: Sorted, i: nat)
    requires Counted(ix, s.names, s.idxCount, i)
    ensures var r := Fix(ix, s, i);
            && Counted(ix, r.names, r.idxCount, |r.names|)
            && multiset(r.names) == multiset(s.names)
            && Others(ix, r.names) == Others(ix, s.names)
    decreases |s.names| - i
  {
    hide Insert, Others;
    if i < |s.names| {
      InsertCounted(ix, s, i);
      InsertKeepsNames(ix, s, i);
      FixSorts(ix, Insert(ix, s, i), i + 1);
    }
  }

  /** With every name sorted, no array-index name exists exactly when the index count is 0: the
      shortcut of setForeignIdx. */
  lemma NoIndexIff(ix: Indexing, names: seq<Name>, idxCount: nat)
    requires Counted(ix, names, idxCount, |names|)
    ensures idxCount == 0 <==> forall i :: 0 <= i < |names| ==> !IsIndex(ix, names[i])
  {
    if idxCount > 0 {
      assert IsIndex(ix, names[0]);
    }
  }

  lemma CountedAppend(ix: Indexing, names: seq<Name>, n: Name, idxCount: nat, sorted: nat)
    requires Counted(ix, names, idxCount, sorted)
    ensures Counted(ix, names + [n], idxCount, sorted)
  {
  }

  // ---------------------------------------------------------------- deleting

  function Without<T>(s: seq<T>, i: nat): (r: seq<T>)
    requires i < |s|
    ensures |r| == |s| - 1
    ensures forall k :: 0 <= k < |r| ==> r[k] == s[if k < i then k else k + 1]
  {
    s[..i] + s[i + 1..]
  }

  /** How _delete adjusts the counters for the name at position i. */
  function AfterDelete(i: nat, idxCount: nat, sorted: nat): (nat, nat)
    requires idxCount <= sorted
  {
    if i < sorted then (if i < idxCount then idxCount - 1 else idxCount, sorted - 1) else (idxCount, sorted)
  }

  lemma DeleteCounted(ix: Indexing, names: seq<Name>, idxCount: nat, sorted: nat, i: nat)
    requires Counted(ix, names, idxCount, sorted) && i < |names|
    ensures var (c, s) := AfterDelete(i, idxCount, sorted); Counted(ix, Without(names, i), c, s)
  {
  }
}
