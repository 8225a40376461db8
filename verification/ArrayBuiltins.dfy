/** splice, copyWithin and reverse: the fast versions for plain arrays, and the generic ones for any object. */
module ArrayBuiltins {
  import opened Options
  import opened DenseArrays
  import Spec = ArraySpec

  function Min(a: int, b: int): int { if a < b then a else b }

  function Max(a: int, b: int): int { if a < b then b else a }

  /** A position that counts from the end if it is negative, cut off at both ends. */
  function RelToIdx(rel: int, l: int): (i: int)
    requires l >= 0
    ensures 0 <= i <= l
    ensures 0 <= rel <= l ==> i == rel
    ensures -l <= rel < 0 ==> i == l + rel
  {
    if rel >= 0 then Min(rel, l) else Max(l + rel, 0)
  }

  /** The element at an index, if there is one. */
  function At<V>(m: map<int, V>, i: int): Option<V> {
    if i in m then Some(m[i]) else None
  }

  /** What splice leaves at an index: the elements before start, the items, the elements after those deleted,
      and nothing further up to the old length. */
  function SplicedAt<V>(m: map<int, V>, length: int, start: int, del: int, items: seq<V>, i: int): Option<V> {
    if i < start then At(m, i)
    else if i < start + |items| then Some(items[i - start])
    else if i < length - del + |items| then At(m, i - |items| + del)
    else if i < length then None
    else At(m, i)
  }

  /** What splice takes out. */
  function RemovedAt<V>(m: map<int, V>, start: int, del: int, k: int): Option<V> {
    if 0 <= k < del then At(m, start + k) else None
  }

  /** What is before start is where it was, what is after the elements deleted has moved, and where nothing has
      moved to there is nothing. */
  ghost predicate Shifted<V>(m: map<int, V>, e: map<int, V>, length: int, start: int, del: int, n: int) {
    && (forall i {:trigger At(e, i)} :: i < start + n ==> At(e, i) == At(m, i))
    && (forall i {:trigger At(e, i)} :: start + n <= i < length - del + n ==> At(e, i) == At(m, i - n + del))
    && (forall i {:trigger At(e, i)} :: length - del + n <= i < length ==> At(e, i) == None)
    && (forall i {:trigger At(e, i)} :: i >= length && i >= length - del + n ==> At(e, i) == At(m, i))
  }

  function Behind<V>(m: map<int, V>, i: int, d: int): Option<V> { At(m, i - d) }

  /** No length may reach this. */
  const MAX_INT: nat := 0x20_0000_0000_0000

  /** What decides whether an object takes a new element: whether it is an array, whose length is above all its indices,
      whether it is extensible, whether its length may be written, and the length. */
  datatype Rules = Rules(isArray: bool, extensible: bool, lengthWritable: bool, length: nat)

  /** Writing an index above the length of an array writes the length too. */
  predicate Grows(r: Rules, i: int) {
    r.isArray && r.length <= i < Spec.MAX_LENGTH
  }

  predicate MayAdd(r: Rules, i: int) {
    r.extensible && (Grows(r, i) ==> r.lengthWritable)
  }

  /** A write at i does not throw. */
  predicate MayPut<V>(r: Rules, m: map<int, V>, i: int) {
    At(m, i).Some? || MayAdd(r, i)
  }

  predicate MaySetLength(r: Rules, n: int) {
    r.lengthWritable && (r.isArray ==> n <= Spec.MAX_LENGTH)
  }

  /** The length of an array that takes new elements may grow as they come. */
  predicate Steady(r: Rules, length: nat) {
    length == r.length || (r.isArray && r.lengthWritable && r.length <= length)
  }

  /** Where a move puts an element, one may be put. */
  ghost predicate ShiftAllowed<V>(r: Rules, m: map<int, V>, length: int, start: int, del: int, n: int) {
    forall i {:trigger Behind(m, i, n - del)} :: start + n <= i < length - del + n && Behind(m, i, n - del).Some? ==> MayPut(r, m, i)
  }

  ghost predicate ItemsAllowed<V>(r: Rules, m: map<int, V>, start: int, n: int) {
    forall i :: start <= i < start + n ==> MayPut(r, m, i)
  }

  ghost predicate ItemsPut<V>(m: map<int, V>, e: map<int, V>, start: int, items: seq<V>) {
    forall i {:trigger At(e, i)} :: At(e, i) == if start <= i < start + |items| then Some(items[i - start]) else At(m, i)
  }

  /** The last element has to move to where the object takes none. */
  ghost predicate LastRefused<V>(r: Rules, m: map<int, V>, length: int, start: int, del: int, n: int) {
    n > del && start + del < length && At(m, length - 1).Some? && !MayPut(r, m, length - del + n - 1)
  }

  lemma SamePut<V>(r: Rules, m: map<int, V>, e: map<int, V>, i: int)
    ensures At(e, i) == At(m, i) ==> (MayPut(r, e, i) <==> MayPut(r, m, i))
  {
  }

  /** Growing does not change what an object takes. */
  lemma SameRules<V>(r: Rules, r': Rules, m: map<int, V>, i: int)
    requires Steady(r, r'.length) && r' == r.(length := r'.length)
    ensures MayPut(r', m, i) <==> MayPut(r, m, i)
  {
  }

  lemma SameAllowed<V>(r: Rules, r': Rules, m: map<int, V>, start: int, n: int)
    requires Steady(r, r'.length) && r' == r.(length := r'.length)
    ensures ItemsAllowed(r', m, start, n) <==> ItemsAllowed(r, m, start, n)
  {
    forall i ensures MayPut(r', m, i) <==> MayPut(r, m, i) { SameRules(r, r', m, i); }
  }

  lemma NoItems<V>(r: Rules, m: map<int, V>, start: int)
    ensures ItemsAllowed(r, m, start, 0)
  {
  }

  lemma ItemsMore<V>(r: Rules, m: map<int, V>, start: int, j: int, n: int)
    requires 0 <= j < n && ItemsAllowed(r, m, start, j)
    ensures MayPut(r, m, start + j) ==> ItemsAllowed(r, m, start, j + 1)
    ensures !MayPut(r, m, start + j) ==> !ItemsAllowed(r, m, start, n)
  {
    hide MayPut;
  }

  lemma SteadyNow(r: Rules)
    ensures Steady(r, r.length)
  {
  }

  /** Cutting an array off at its new length takes nothing that splice leaves. */
  lemma NothingAbove<V>(m: map<int, V>, length: int, start: int, del: int, items: seq<V>, i: int)
    requires 0 <= del && start + del <= length && (i >= length ==> At(m, i).None?) && i >= length - del + |items|
    ensures SplicedAt(m, length, start, del, items, i).None?
  {
  }

  lemma ShiftedSpares<V>(r: Rules, m: map<int, V>, e: map<int, V>, length: int, start: int, del: int, n: int)
    requires Shifted(m, e, length, start, del, n)
    ensures ItemsAllowed(r, e, start, n) <==> ItemsAllowed(r, m, start, n)
  {
    hide At, MayAdd;
    forall i ensures start <= i < start + n ==> (MayPut(r, e, i) <==> MayPut(r, m, i)) {
      assert i < start + n ==> At(e, i) == At(m, i);
    }
    if ItemsAllowed(r, e, start, n) {
      forall i | start <= i < start + n ensures MayPut(r, m, i) {
        assert At(e, i) == At(m, i);
      }
    }
    if ItemsAllowed(r, m, start, n) {
      forall i | start <= i < start + n ensures MayPut(r, e, i) {
        assert At(e, i) == At(m, i);
      }
    }
  }

  lemma SpliceIs<V>(m: map<int, V>, e: map<int, V>, r: map<int, V>, length: int, start: int, del: int, items: seq<V>)
    requires 0 <= start && 0 <= del && start + del <= length
    requires Shifted(m, e, length, start, del, |items|) && ItemsPut(e, r, start, items)
    ensures forall i :: At(r, i) == SplicedAt(m, length, start, del, items, i)
  {
    hide At;
    forall i ensures At(r, i) == SplicedAt(m, length, start, del, items, i) {
      assert At(r, i) == if start <= i < start + |items| then Some(items[i - start]) else At(e, i);
    }
  }

  function CopiedAt<V>(m: map<int, V>, to: int, from: int, count: int, i: int): Option<V> {
    if to <= i < to + count then At(m, from + (i - to)) else At(m, i)
  }

  /** Everywhere that splice leaves an element, one may be put. */
  ghost predicate SpliceAllowed<V>(r: Rules, m: map<int, V>, length: int, start: int, del: int, items: seq<V>) {
    forall i :: SplicedAt(m, length, start, del, items, i).Some? ==> MayPut(r, m, i)
  }

  lemma SpliceAllowedIff<V>(r: Rules, m: map<int, V>, length: int, start: int, del: int, items: seq<V>)
    requires 0 <= start && 0 <= del && start + del <= length
    ensures SpliceAllowed(r, m, length, start, del, items)
      <==> ShiftAllowed(r, m, length, start, del, |items|) && ItemsAllowed(r, m, start, |items|)
  {
    hide At, MayAdd;
    var n := |items|;
    if SpliceAllowed(r, m, length, start, del, items) {
      forall i {:trigger Behind(m, i, n - del)} | start + n <= i < length - del + n && Behind(m, i, n - del).Some? ensures MayPut(r, m, i) {
        assert SplicedAt(m, length, start, del, items, i) == Behind(m, i, n - del);
      }
      forall i | start <= i < start + n ensures MayPut(r, m, i) {
        assert SplicedAt(m, length, start, del, items, i).Some?;
      }
    }
    if ShiftAllowed(r, m, length, start, del, n) && ItemsAllowed(r, m, start, n) {
      forall i | SplicedAt(m, length, start, del, items, i).Some? ensures MayPut(r, m, i) {
        SplicedThere(r, m, length, start, del, items, i);
      }
    }
  }

  lemma SplicedThere<V>(r: Rules, m: map<int, V>, length: int, start: int, del: int, items: seq<V>, i: int)
    requires 0 <= start && 0 <= del && start + del <= length && SplicedAt(m, length, start, del, items, i).Some?
    requires ShiftAllowed(r, m, length, start, del, |items|) && ItemsAllowed(r, m, start, |items|)
    ensures MayPut(r, m, i)
  {
    if start + |items| <= i < length - del + |items| {
      assert Behind(m, i, |items| - del) == SplicedAt(m, length, start, del, items, i);
    }
  }

  ghost predicate CopyAddsNothing<V>(m: map<int, V>, to: int, from: int, count: int) {
    NothingAdded(m, to, count, to - from)
  }

  ghost predicate NothingAdded<V>(m: map<int, V>, to: int, count: int, d: int) {
    forall i {:trigger Behind(m, i, d)} :: to <= i < to + count && Behind(m, i, d).Some? ==> At(m, i).Some?
  }

  /** The elements from lo to hi have come from d before. */
  ghost predicate Copied<V>(m: map<int, V>, e: map<int, V>, lo: int, hi: int, d: int) {
    forall i {:trigger At(e, i)} :: At(e, i) == if lo <= i < hi then Behind(m, i, d) else At(m, i)
  }

  lemma NothingCopied<V>(m: map<int, V>, lo: int, d: int)
    ensures Copied(m, m, lo, lo, d) && NothingAdded(m, lo, 0, d)
  {
  }

  lemma NothingMore<V>(m: map<int, V>, lo: int, hi: int, to: int, d: int)
    requires lo <= hi && (to == lo - 1 || to == hi) && NothingAdded(m, lo, hi - lo, d)
    ensures (Behind(m, to, d).Some? ==> At(m, to).Some?) ==> NothingAdded(m, Min(lo, to), Max(hi, to + 1) - Min(lo, to), d)
  {
  }

  lemma NothingThere<V>(m: map<int, V>, to: int, count: int, d: int, i: int)
    requires to <= i < to + count && Behind(m, i, d).Some? && At(m, i).None?
    ensures !NothingAdded(m, to, count, d)
  {
  }

  lemma CopiedIs<V>(m: map<int, V>, e: map<int, V>, lo: int, hi: int, to: int, from: int, count: int)
    requires Copied(m, e, lo, hi, to - from) && if count > 0 then lo == to && hi == to + count else lo == hi
    ensures forall i {:trigger At(e, i)} :: At(e, i) == CopiedAt(m, to, from, count, i)
    ensures count <= 0 ==> CopyAddsNothing(m, to, from, count)
  {
  }

  ghost predicate ReverseAddsNothing<V>(m: map<int, V>, length: int) {
    forall i :: ReversedAt(m, length, i).Some? ==> At(m, i).Some?
  }

  function ReversedAt<V>(m: map<int, V>, length: int, i: int): Option<V> {
    if 0 <= i < length then At(m, length - 1 - i) else At(m, i)
  }

  function Swapped(lower: int, upper: int, i: int): int {
    if i == lower then upper else if i == upper then lower else i
  }

  /** Where the element at i comes from when lower elements at either end have been exchanged. */
  function Mirror(l: int, lower: int, i: int): int {
    if 0 <= i < lower || l - lower <= i < l then l - 1 - i else i
  }

  /** An object with a length and elements, seen through its properties. Its elements are its own, and plain data. */
  class ObjectLike<V> {
    var elems: map<int, V>
    var length: nat
    const isArray: bool
    const extensible: bool
    const lengthWritable: bool

    ghost predicate Valid()
      reads this
    {
      isArray ==> length <= Spec.MAX_LENGTH && forall i {:trigger At(elems, i)} :: length <= i < Spec.MAX_LENGTH ==> At(elems, i).None?
    }

    function R(): Rules
      reads `length
    {
      Rules(isArray, extensible, lengthWritable, length)
    }

    constructor (m: map<int, V>, l: nat, a: bool, e: bool, w: bool)
      ensures elems == m && length == l && isArray == a && extensible == e && lengthWritable == w
    {
      elems, length, isArray, extensible, lengthWritable := m, l, a, e, w;
    }

    method Has(i: int) returns (r: bool)
      ensures r <==> i in elems
    {
      r := i in elems;
    }

    method Get(i: int) returns (v: V)
      requires i in elems
      ensures v == elems[i]
    {
      v := elems[i];
    }

    /** A write, which throws if the object does not take a new element there. */
    method Set(i: int, v: V) returns (ok: bool)
      requires Valid()
      modifies `elems, `length
      ensures Valid() && Steady(old(R()), length) && (i < old(length) ==> length == old(length))
      ensures ok == MayPut(old(R()), old(elems), i)
      ensures elems == if ok then old(elems)[i := v] else old(elems)
      ensures ok ==> forall j :: At(elems, j) == if j == i then Some(v) else At(old(elems), j)
      ensures !ok ==> length == old(length)
    {
      ok := i in elems;
      if !ok {
        if !extensible || (Grows(R(), i) && !lengthWritable) {
          return;
        }
        ok := true;
        if Grows(R(), i) {
          length := i + 1;
        }
      }
      ghost var m := elems;
      elems := elems[i := v];
      assert forall j {:trigger At(elems, j)} :: j != i ==> At(elems, j) == At(m, j);
    }

    method Delete(i: int)
      requires Valid()
      modifies `elems
      ensures Valid() && elems == old(elems) - {i}
      ensures forall j :: At(elems, j) == if j == i then None else At(old(elems), j)
    {
      ghost var m := elems;
      elems := elems - {i};
      assert forall j {:trigger At(elems, j)} :: j != i ==> At(elems, j) == At(m, j);
    }

    /** Moves an element, or its absence. */
    method Move(from: int, to: int) returns (ok: bool)
      requires Valid()
      modifies `elems, `length
      ensures Valid() && Steady(old(R()), length) && (to < old(length) ==> length == old(length))
      ensures ok == (At(old(elems), from).Some? ==> MayPut(old(R()), old(elems), to))
      ensures ok ==> forall i {:trigger At(elems, i)} :: At(elems, i) == if i == to then At(old(elems), from) else At(old(elems), i)
      ensures !ok ==> elems == old(elems) && length == old(length)
    {
      hide MayPut, Steady;
      var has := Has(from);
      if has {
        var v := Get(from);
        ok := Set(to, v);
      } else {
        SteadyNow(R());
        Delete(to);
        ok := true;
      }
    }

    /** A write of the length, which cuts an array off. */
    method SetLength(n: nat) returns (ok: bool)
      requires Valid()
      modifies `elems, `length
      ensures Valid() && ok == MaySetLength(old(R()), n) && length == if ok then n else old(length)
      ensures forall i {:trigger At(elems, i)} :: At(elems, i) == if ok && isArray && n <= i < Spec.MAX_LENGTH then None else At(old(elems), i)
    {
      ok := MaySetLength(R(), n);
      if ok {
        if isArray {
          elems := map i | i in elems && !(n <= i < Spec.MAX_LENGTH) :: elems[i];
        }
        length := n;
      }
    }

    method DeleteBetween(lo: int, hi: int)
      requires lo <= hi && Valid()
      modifies `elems
      ensures Valid() && forall i {:trigger At(elems, i)} :: At(elems, i) == if lo <= i < hi then None else At(old(elems), i)
    {
      var k := hi;
      while k > lo
        invariant lo <= k <= hi && Valid()
        invariant forall i :: At(elems, i) == if k <= i < hi then None else At(old(elems), i)
      {
        Delete(k - 1);
        k := k - 1;
      }
    }

    /** The moving loops of splice if fewer elements come than go. */
    method ShiftDown(start: int, del: int, n: int) returns (ok: bool)
      requires 0 <= start && 0 <= del && start + del <= length && n >= 0 && n < del && Valid()
      modifies `elems, `length
      ensures Valid() && length == old(length)
      ensures ok == ShiftAllowed(old(R()), old(elems), length, start, del, n)
      ensures ok ==> Shifted(old(elems), elems, length, start, del, n)
    {
      hide MayPut, Steady, Valid;
      ghost var m, r := elems, R();
      ok := true;
      var k := start;
      while k < length - del
        invariant start <= k <= length - del && length == old(length) && Valid()
        invariant ShiftAllowed(r, m, k + del, start, del, n)
        invariant forall i :: i < start + n ==> At(elems, i) == At(m, i)
        invariant forall i :: start + n <= i < k + n ==> At(elems, i) == At(m, i - n + del)
        invariant forall i :: i >= k + n ==> At(elems, i) == At(m, i)
      {
        SamePut(r, m, elems, k + n);
        ok := Move(k + del, k + n);
        if !ok {
          assert Behind(m, k + n, n - del).Some?;
          return;
        }
        k := k + 1;
      }
      DeleteBetween(length - del + n, length);
    }

    /** The moving loop of splice if more elements come than go, last one first. If that may not be put there, nothing has
        been changed. */
    method ShiftUp(start: int, del: int, n: int) returns (ok: bool)
      requires 0 <= start && 0 <= del && start + del <= length && n >= 0 && n > del && Valid()
      modifies `elems, `length
      ensures Valid() && Steady(old(R()), length)
      ensures var l := old(length);
        && ok == ShiftAllowed(old(R()), old(elems), l, start, del, n)
        && (ok ==> Shifted(old(elems), elems, l, start, del, n))
        && (LastRefused(old(R()), old(elems), l, start, del, n) ==> !ok && elems == old(elems) && length == l)
    {
      hide MayPut, Valid;
      ghost var m, r := elems, R();
      var l := length;
      ok := true;
      var k := l - del;
      while k > start
        invariant start <= k <= l - del && Steady(r, length) && Valid()
        invariant ShiftAllowed(r, m, l, k, del, n)
        invariant forall i :: i < k + n ==> At(elems, i) == At(m, i)
        invariant forall i :: k + n <= i < l - del + n ==> At(elems, i) == At(m, i - n + del)
        invariant forall i :: i >= l - del + n ==> At(elems, i) == At(m, i)
        invariant k == l - del ==> elems == m && length == l
        invariant k < l - del ==> !LastRefused(r, m, l, start, del, n)
      {
        SamePut(r, m, elems, k + n - 1);
        SameRules(r, R(), elems, k + n - 1);
        ok := Move(k + del - 1, k + n - 1);
        if !ok {
          assert Behind(m, k + n - 1, n - del).Some?;
          return;
        }
        k := k - 1;
      }
    }

    method Shift(start: int, del: int, n: int) returns (ok: bool)
      requires 0 <= start && 0 <= del && start + del <= length && n >= 0 && Valid()
      modifies `elems, `length
      ensures Valid() && Steady(old(R()), length) && (n <= del ==> length == old(length))
      ensures var l := old(length);
        && ok == ShiftAllowed(old(R()), old(elems), l, start, del, n)
        && (ok ==> Shifted(old(elems), elems, l, start, del, n))
        && (LastRefused(old(R()), old(elems), l, start, del, n) ==> !ok && elems == old(elems) && length == l)
    {
      hide Valid;
      ok := true;
      if n < del {
        ok := ShiftDown(start, del, n);
      } else if n > del {
        ok := ShiftUp(start, del, n);
      }
    }

    /** Copies the elements that splice takes out. */
    method TakeOut(start: int, del: nat) returns (removed: ObjectLike<V>)
      ensures fresh(removed) && removed.length == del
      ensures forall k :: At(removed.elems, k) == RemovedAt(elems, start, del, k)
    {
      removed := new ObjectLike(map[], del, false, true, true);
      for k := 0 to del
        invariant fresh(removed) && removed.length == del && !removed.isArray && removed.extensible && unchanged(this)
        invariant forall j :: At(removed.elems, j) == if j < k then RemovedAt(elems, start, del, j) else None
      {
        var has := Has(start + k);
        if has {
          var v := Get(start + k);
          var _ := removed.Set(k, v);
        }
      }
    }

    method PutItems(start: int, items: seq<V>) returns (ok: bool)
      requires Valid()
      modifies `elems, `length
      ensures Valid() && Steady(old(R()), length) && (start + |items| <= old(length) ==> length == old(length))
      ensures ok == ItemsAllowed(old(R()), old(elems), start, |items|)
      ensures ok ==> ItemsPut(old(elems), elems, start, items)
    {
      hide MayPut, Valid, ItemsAllowed;
      ghost var m, r := elems, R();
      ok := true;
      assert ItemsAllowed(r, m, start, 0) by { NoItems(r, m, start); }
      for j := 0 to |items|
        invariant ok && ItemsAllowed(r, m, start, j) && Steady(r, length) && Valid() && (start + |items| <= r.length ==> length == r.length)
        invariant forall i :: At(elems, i) == if start <= i < start + j then Some(items[i - start]) else At(m, i)
      {
        SamePut(r, m, elems, start + j);
        SameRules(r, R(), elems, start + j);
        ItemsMore(r, m, start, j, |items|);
        assert At(elems, start + j) == At(m, start + j);
        ok := Set(start + j, items[j]);
        assert ok == MayPut(r, m, start + j);
        if !ok {
          return;
        }
      }
    }

    /** splice, by moving elements one at a time. It throws if the new length is too large for any object, if it would put
        an element where the object does not take one, or if the length may not be written in the end. */
    method Splice(relStart: int, relDel: Option<int>, items: seq<V>) returns (removed: ObjectLike<V>, ok: bool)
      requires Valid()
      modifies this
      ensures fresh(removed) && Valid()
      ensures var l, r, m := old(length), old(R()), old(elems);
        var start := RelToIdx(relStart, l);
        var del := if relDel.None? then l - start else Min(Max(relDel.value, 0), l - start);
        var newLength := l - del + |items|;
        var moved := newLength < MAX_INT && SpliceAllowed(r, m, l, start, del, items);
        && (forall k :: At(removed.elems, k) == RemovedAt(m, start, del, k)) && removed.length == del
        && ok == (moved && MaySetLength(r, newLength))
        && (moved ==> forall i :: At(elems, i) == SplicedAt(m, l, start, del, items, i))
        && (if ok then length == newLength else Steady(r, length))
        && (|items| <= del && !ok ==> length == l)
        && (newLength >= MAX_INT || LastRefused(r, m, l, start, del, |items|) ==> elems == m && length == l)
    {
      hide At, RelToIdx, Shifted, ItemsPut, SplicedAt, RemovedAt, ShiftAllowed, ItemsAllowed, SpliceAllowed, LastRefused;
      ghost var m, r := elems, R();
      var l := length;
      var start := RelToIdx(relStart, l);
      var del := if relDel.None? then l - start else Min(Max(relDel.value, 0), l - start);
      var newLength := l - del + |items|;
      removed := TakeOut(start, del);
      if newLength >= MAX_INT {
        return removed, false;
      }
      SpliceAllowedIff(r, m, l, start, del, items);
      ok := Shift(start, del, |items|);
      if !ok {
        return;
      }
      ghost var e := elems;
      ShiftedSpares(r, m, e, l, start, del, |items|);
      SameAllowed(r, R(), e, start, |items|);
      ok := PutItems(start, items);
      if !ok {
        return;
      }
      SpliceIs(m, e, elems, l, start, del, items);
      ok := SetLength(newLength);
      if ok && isArray {
        forall i | newLength <= i < Spec.MAX_LENGTH ensures SplicedAt(m, l, start, del, items, i).None? {
          NothingAbove(m, l, start, del, items, i);
        }
      }
    }

    /** One step of copyWithin, at either end of what has been copied. */
    method CopyOne(from: int, to: int, ghost m: map<int, V>, ghost lo: int, ghost hi: int) returns (ok: bool)
      requires lo <= hi && (to == lo - 1 || to == hi) && !(lo <= from < hi) && Copied(m, elems, lo, hi, to - from)
      requires Valid() && to < length
      modifies `elems, `length
      ensures Valid() && length == old(length)
      ensures ok == (extensible || (Behind(m, to, to - from).Some? ==> At(m, to).Some?))
      ensures ok ==> Copied(m, elems, Min(lo, to), Max(hi, to + 1), to - from)
    {
      ghost var e := elems;
      assert At(e, to) == At(m, to) && At(e, from) == Behind(m, to, to - from);
      ok := Move(from, to);
      if ok {
        assert forall i {:trigger At(elems, i)} :: At(elems, i) == if i == to then At(e, from) else At(e, i);
      }
    }

    /** copyWithin, in the direction that never overwrites what is still to be copied. */
    method CopyWithin(relTo: int, relFrom: int, relEnd: int) returns (ok: bool)
      requires Valid()
      modifies `elems, `length
      ensures Valid() && length == old(length)
      ensures var l := length;
        var to, from := RelToIdx(relTo, l), RelToIdx(relFrom, l);
        var count := Min(RelToIdx(relEnd, l) - from, l - to);
        && ok == (extensible || CopyAddsNothing(old(elems), to, from, count))
        && (ok ==> forall i {:trigger At(elems, i)} :: At(elems, i) == CopiedAt(old(elems), to, from, count, i))
    {
      hide Copied, NothingAdded, CopiedAt, Valid;
      var to, from := RelToIdx(relTo, length), RelToIdx(relFrom, length);
      var count := Min(RelToIdx(relEnd, length) - from, length - to);
      ghost var m, from0, to0, count0 := elems, from, to, count;
      ghost var d := to - from;
      ok := true;
      var dir := 1;
      if from < to && to < from + count {
        dir := -1;
        from := from + count - 1;
        to := to + count - 1;
      }
      ghost var lo, hi := if dir == 1 then to else to + 1, if dir == 1 then to else to + 1;
      NothingCopied(m, lo, d);
      while count > 0
        invariant Valid() && length == old(length) && (count0 > 0 ==> count >= 0) && (count0 <= 0 ==> count == count0 && lo == hi)
        invariant dir == 1 || dir == -1
        invariant from == to - d && (dir == -1 ==> 0 < d && to + 1 == lo == to0 + count && (count0 > 0 ==> hi == to0 + count0))
        invariant dir == 1 ==> (d <= 0 || count0 <= d) && lo == to0 && to == hi == to0 + (count0 - count)
        invariant Copied(m, elems, lo, hi, d)
        invariant ok && (extensible || NothingAdded(m, lo, hi - lo, d))
      {
        if !extensible { NothingMore(m, lo, hi, to, d); }
        ok := CopyOne(from, to, m, lo, hi);
        if !ok {
          NothingThere(m, to0, count0, d, to);
          return;
        }
        lo, hi := Min(lo, to), Max(hi, to + 1);
        from := from + dir;
        to := to + dir;
        count := count - 1;
      }
      CopiedIs(m, elems, lo, hi, to0, from0, count0);
    }

    /** Exchanges two elements, either of which may be absent. */
    method Exchange(lower: int, upper: int) returns (ok: bool)
      requires lower != upper && lower < length && upper < length && Valid()
      modifies `elems, `length
      ensures Valid() && length == old(length)
      ensures ok == (extensible || (At(old(elems), lower).Some? <==> At(old(elems), upper).Some?))
      ensures ok ==> Exchanged(old(elems), elems, lower, upper)
    {
      ok := true;
      var lowerExists := Has(lower);
      var upperExists := Has(upper);
      var m := elems;
      if lowerExists && upperExists {
        ok := Set(lower, m[upper]);
        ok := Set(upper, m[lower]);
      } else if !lowerExists && upperExists {
        ok := Set(lower, m[upper]);
        if ok {
          Delete(upper);
        }
      } else if lowerExists {
        Delete(lower);
        ok := Set(upper, m[lower]);
      }
    }

    /** One step of reverse, in the state that the steps before have left. */
    method ReverseStep(l: nat, lower: nat, ghost m: map<int, V>) returns (ok: bool)
      requires lower < l - lower - 1 && l == length && Mirrored(m, elems, l, lower) && Valid()
      modifies `elems, `length
      ensures Valid() && length == old(length)
      ensures ok == (extensible || (At(m, lower).Some? <==> Opposite(m, l, lower).Some?))
      ensures ok ==> Mirrored(m, elems, l, lower + 1)
    {
      hide Mirrored, Exchanged, At, Opposite, Valid;
      ghost var e := elems;
      MirrorSpares(m, e, l, lower);
      ok := Exchange(lower, l - lower - 1);
      if ok {
        MirrorMore(m, e, elems, l, lower);
      }
    }

    method Reverse() returns (ok: bool)
      requires Valid()
      modifies `elems, `length
      ensures Valid() && length == old(length)
      ensures ok == (extensible || ReverseAddsNothing(old(elems), length))
      ensures ok ==> forall i {:trigger At(elems, i)} :: At(elems, i) == ReversedAt(old(elems), length, i)
    {
      hide Mirrored, Exchanged, At, Opposite, ReversedAt, ReverseAddsNothing, SymmetricTo, Valid;
      ghost var m := elems;
      ok := true;
      var l := length;
      var middle := l / 2;
      NothingMirrored(m, l);
      for lower := 0 to middle
        invariant Valid() && length == l == old(length) && Mirrored(m, elems, l, lower) && ok
        invariant extensible || SymmetricTo(m, l, lower)
      {
        SymmetricMore(m, l, lower);
        ok := ReverseStep(l, lower, m);
        if !ok {
          return;
        }
      }
      SymmetricAll(m, l);
      AllMirrored(m, elems, l);
    }
  }

  /** So many elements at either end have been exchanged. */
  ghost predicate Mirrored<V>(m: map<int, V>, e: map<int, V>, l: int, lower: int) {
    forall i {:trigger At(e, i)} :: At(e, i) == At(m, Mirror(l, lower, i))
  }

  function Opposite<V>(m: map<int, V>, l: int, i: int): Option<V> { At(m, l - i - 1) }

  /** Of the first elements, each is there exactly if the one that it changes places with is. */
  ghost predicate SymmetricTo<V>(m: map<int, V>, l: int, lower: int) {
    forall i {:trigger Opposite(m, l, i)} :: 0 <= i < lower ==> (At(m, i).Some? <==> Opposite(m, l, i).Some?)
  }

  lemma MirrorSpares<V>(m: map<int, V>, e: map<int, V>, l: int, lower: int)
    requires 0 <= lower < l - lower - 1 && Mirrored(m, e, l, lower)
    ensures At(e, lower) == At(m, lower) && At(e, l - lower - 1) == Opposite(m, l, lower)
  {
    assert Mirror(l, lower, lower) == lower && Mirror(l, lower, l - lower - 1) == l - lower - 1;
  }

  lemma SymmetricMore<V>(m: map<int, V>, l: int, lower: int)
    requires 0 <= lower
    ensures SymmetricTo(m, l, lower) && (At(m, lower).Some? <==> Opposite(m, l, lower).Some?) ==> SymmetricTo(m, l, lower + 1)
    ensures lower < l - lower - 1 && ReverseAddsNothing(m, l) ==> (At(m, lower).Some? <==> Opposite(m, l, lower).Some?)
  {
    hide At;
    if lower < l - lower - 1 {
      assert ReversedAt(m, l, lower) == Opposite(m, l, lower) && ReversedAt(m, l, l - lower - 1) == At(m, lower);
    }
  }

  lemma SymmetricAll<V>(m: map<int, V>, l: int)
    requires l >= 0
    ensures SymmetricTo(m, l, l / 2) ==> ReverseAddsNothing(m, l)
  {
    hide At;
    if SymmetricTo(m, l, l / 2) {
      forall i | ReversedAt(m, l, i).Some? ensures At(m, i).Some? {
        if 0 <= i < l / 2 {
          assert ReversedAt(m, l, i) == Opposite(m, l, i);
        } else if i < l && i != l - 1 - i {
          assert Opposite(m, l, l - 1 - i) == At(m, i);
        }
      }
    }
  }

  ghost predicate Exchanged<V>(m: map<int, V>, e: map<int, V>, lower: int, upper: int) {
    forall i {:trigger At(e, i)} :: At(e, i) == At(m, Swapped(lower, upper, i))
  }

  lemma NothingMirrored<V>(m: map<int, V>, l: int)
    ensures Mirrored(m, m, l, 0) && SymmetricTo(m, l, 0)
  {
  }

  lemma MirrorMore<V>(m: map<int, V>, e: map<int, V>, e': map<int, V>, l: int, lower: int)
    requires 0 <= lower < l - lower - 1 && Mirrored(m, e, l, lower) && Exchanged(e, e', lower, l - lower - 1)
    ensures Mirrored(m, e', l, lower + 1)
  {
    hide At;
    forall i {:trigger At(e', i)} ensures At(e', i) == At(m, Mirror(l, lower + 1, i)) {
      MirrorSwapped(l, lower, i);
      assert At(e', i) == At(e, Swapped(lower, l - lower - 1, i));
    }
  }

  lemma MirrorSwapped(l: int, lower: int, i: int)
    requires 0 <= lower < l - lower - 1
    ensures Mirror(l, lower, Swapped(lower, l - lower - 1, i)) == Mirror(l, lower + 1, i)
  {
  }

  /** Half of it exchanged, the whole is reversed. */
  lemma AllMirrored<V>(m: map<int, V>, e: map<int, V>, l: int)
    requires l >= 0 && Mirrored(m, e, l, l / 2)
    ensures forall i {:trigger At(e, i)} :: At(e, i) == ReversedAt(m, l, i)
  {
  }

  // ---- the fast versions, on the slice of a dense array

  /** The elements of a slice, by index; empty slots have none. */
  function Slots<V>(s: seq<Option<V>>): map<int, V> {
    map i: int | 0 <= i < |s| && s[i].Some? :: s[i].value
  }

  function Wrapped<V>(items: seq<V>): (s: seq<Option<V>>)
    ensures |s| == |items| && forall i :: 0 <= i < |s| ==> s[i] == Some(items[i])
  {
    seq(|items|, i requires 0 <= i < |items| => Some(items[i]))
  }

  /** Prefix, items and suffix: what the fast version of splice computes is what the generic one does. */
  lemma SpliceIsGeneric<V>(s: seq<Option<V>>, start: nat, del: nat, items: seq<V>)
    requires start + del <= |s|
    ensures forall i ::
      At(Slots(s[..start] + Wrapped(items) + s[start + del..]), i) == SplicedAt(Slots(s), |s|, start, del, items, i)
    ensures forall k :: At(Slots(s[start..start + del]), k) == RemovedAt(Slots(s), start, del, k)
  {
    var r := s[..start] + Wrapped(items) + s[start + del..];
    forall i ensures At(Slots(r), i) == SplicedAt(Slots(s), |s|, start, del, items, i) {
      if start + |items| <= i < |r| {
        assert r[i] == s[i - |items| + del];
      }
    }
  }

  /** On an array without holes splice puts an element where none may be put exactly if more come than go and the array
      takes none at its end. */
  lemma SpliceAddsIff<V>(s: seq<Option<V>>, start: nat, del: nat, items: seq<V>, r: Rules)
    requires start + del <= |s| == r.length && r.isArray && forall k :: 0 <= k < |s| ==> s[k].Some?
    requires |s| - del + |items| <= Spec.MAX_LENGTH
    ensures SpliceAllowed(r, Slots(s), |s|, start, del, items) <==> |items| <= del || (r.extensible && r.lengthWritable)
  {
    var m, n := Slots(s), |s| - del + |items|;
    if |items| > del {
      assert SplicedAt(m, |s|, start, del, items, n - 1).Some? && At(m, n - 1).None?;
    }
  }

  /** The other two agree on all arrays without holes. */
  lemma NoHolesNothingAdded<V>(s: seq<Option<V>>, to: nat, from: nat, count: int)
    requires to + count <= |s| && from + count <= |s| && forall k :: 0 <= k < |s| ==> s[k].Some?
    ensures CopyAddsNothing(Slots(s), to, from, count) && ReverseAddsNothing(Slots(s), |s|)
  {
  }

  /** The built-in copy, within one array; the two parts may overlap. */
  method CopySlots<V>(a: array<Option<V>>, to: nat, from: nat, n: nat)
    requires to + n <= a.Length && from + n <= a.Length
    modifies a
    ensures forall k :: 0 <= k < a.Length ==> a[k] == if to <= k < to + n then old(a[from + (k - to)]) else old(a[k])
  {
    var part := a[from..from + n];
    forall k | 0 <= k < n {
      a[to + k] := part[k];
    }
  }

  /** Empties the slots from one position to another. */
  method ClearSlots<V>(a: array<Option<V>>, from: nat, to: nat)
    requires from <= a.Length && to <= a.Length
    modifies a
    ensures a[..from] == old(a[..from]) && forall k :: from <= k < to ==> a[k] == None
    ensures forall k :: from <= k < a.Length && to <= k ==> a[k] == old(a[k])
  {
    for k := from to Max(from, to)
      invariant a[..from] == old(a[..from]) && forall j :: from <= j < k ==> a[j] == None
      invariant forall j :: k <= j < a.Length ==> a[j] == old(a[j])
    {
      a[k] := None;
    }
  }

  /** Moves the slots after those deleted to where they belong. */
  method MoveTail<V>(a: array<Option<V>>, length: nat, start: nat, del: nat, n: nat)
    requires start + del <= length <= a.Length && length - del + n <= a.Length
    modifies a
    ensures a[..start] == old(a[..start]) && a[start + n..length - del + n] == old(a[start + del..length])
    ensures forall k :: length <= k < a.Length && length - del + n <= k ==> a[k] == old(a[k])
    ensures forall k :: length - del + n <= k < length ==> a[k] == None
  {
    var newLength := length - del + n;
    if n != del {
      CopyTail(a, length, start, del, n);
      ghost var t := a[..];
      ClearSlots(a, newLength, length);
      SamePrefix(t, a[..], start, start + n, newLength);
    }
  }

  method CopyTail<V>(a: array<Option<V>>, length: nat, start: nat, del: nat, n: nat)
    requires start + del <= length <= a.Length && length - del + n <= a.Length
    modifies a
    ensures var s := old(a[..]); a[..][..start] == s[..start] && a[..][start + n..length - del + n] == s[start + del..length]
    ensures forall k :: length - del + n <= k < a.Length ==> a[k] == old(a[k])
  {
    ghost var s := a[..];
    CopySlots(a, start + n, start + del, length - start - del);
    ghost var t := a[..];
    forall k {:trigger t[k]} | 0 <= k < |t|
      ensures t[k] == if start + n <= k < length - del + n then s[start + del + (k - start - n)] else s[k] {
    }
    TailMoved(s, t, start, del, n, length);
  }

  lemma TailMoved<V>(s: seq<V>, t: seq<V>, start: nat, del: nat, n: nat, length: nat)
    requires |s| == |t| && start + del <= length <= |s| && length - del + n <= |s|
    requires forall k {:trigger t[k]} :: 0 <= k < |t| ==> t[k] == if start + n <= k < length - del + n then s[start + del + (k - start - n)] else s[k]
    ensures t[..start] == s[..start] && t[start + n..length - del + n] == s[start + del..length]
  {
    if start + n <= length - del + n {
      var x, y := t[start + n..length - del + n], s[start + del..length];
      assert |x| == |y|;
      forall k | 0 <= k < |y| ensures x[k] == y[k] {
        assert x[k] == t[start + n + k] && y[k] == s[start + del + k];
      }
      assert x == y;
    }
  }

  lemma SamePrefix<V>(s: seq<V>, t: seq<V>, start: nat, from: nat, to: nat)
    requires start <= from <= to <= |s| && to <= |t| && s[..to] == t[..to]
    ensures s[..start] == t[..start] && s[from..to] == t[from..to]
  {
    assert s[..to][..start] == s[..start] && t[..to][..start] == t[..start];
    assert s[..to][from..] == s[from..to] && t[..to][from..] == t[from..to];
  }

  /** A new array, with room for n new elements. */
  method MoveToNew<V>(a: array<Option<V>>, length: nat, start: nat, del: nat, n: nat) returns (values: array<Option<V>>)
    requires start + del <= length <= a.Length
    ensures fresh(values) && values.Length == length - del + n
    ensures values[..start] == a[..start] && values[start + n..] == a[start + del..length]
  {
    values := new Option<V>[length - del + n](i => None);
    var head, tail := a[..start], a[start + del..length];
    forall k | 0 <= k < start {
      values[k] := head[k];
    }
    forall k | 0 <= k < |tail| {
      values[start + n + k] := tail[k];
    }
    forall k | 0 <= k < |tail| ensures values[start + n..][k] == tail[k] {
      assert values[start + n + k] == tail[k];
    }
    assert values[..start] == head && values[start + n..] == tail;
  }

  method PutItems<V>(a: array<Option<V>>, start: nat, items: seq<V>)
    requires start + |items| <= a.Length
    modifies a
    ensures a[..] == old(a[..start]) + Wrapped(items) + old(a[start + |items|..])
  {
    forall k | 0 <= k < |items| {
      a[start + k] := Some(items[k]);
    }
  }

  /** Makes the slice of src what splice leaves: in place, or in a new array if there is no room. */
  method SpliceSlots<V>(src: DenseArray<V>, start: nat, del: nat, items: seq<V>)
    requires src.Valid() && src.len == src.length && start + del <= src.len
    modifies src`values, src`len, src`objCount, src.values
    ensures src.values == old(src.values) || fresh(src.values)
    ensures src.len <= src.values.Length && src.len == old(src.len) - del + |items|
    ensures src.values[..src.len] == old(src.values[..start]) + Wrapped(items) + old(src.values[start + del..src.len])
    ensures forall k :: src.len <= k < src.values.Length ==> src.values[k] == None
  {
    var length, n := src.len, |items|;
    var newLength := length - del + n;
    var values := src.values;
    if n > del && values.Length < newLength {
      values := MoveToNew(values, length, start, del, n);
      assert values[start + n..newLength] == values[start + n..];
    } else {
      MoveTail(values, length, start, del, n);
    }
    ghost var t := values[..];
    HeadAndTail(t, start, n, newLength);
    PutItems(values, start, items);
    ItemsBetween(t, values[..], start, items, newLength);
    src.values, src.len, src.objCount := values, newLength, newLength;
  }

  lemma HeadAndTail<V>(t: seq<V>, start: nat, n: nat, newLength: nat)
    requires start + n <= newLength <= |t|
    ensures t[start + n..][..newLength - start - n] == t[start + n..newLength]
  {
  }

  lemma ItemsBetween<V>(t: seq<Option<V>>, r: seq<Option<V>>, start: nat, items: seq<V>, newLength: nat)
    requires start + |items| <= newLength <= |t| && r == t[..start] + Wrapped(items) + t[start + |items|..]
    ensures |r| == |t| && r[..newLength] == t[..start] + Wrapped(items) + t[start + |items|..newLength]
    ensures forall k {:trigger r[k]} :: newLength <= k < |r| ==> r[k] == t[k]
  {
  }

  /** The write of the length that splice ends with, after the slice has got its new length. */
  method WriteLength<V>(src: DenseArray<V>) returns (ok: bool)
    requires src.len <= src.values.Length && forall k :: src.len <= k < src.values.Length ==> src.values[k] == None
    modifies src`values, src`len, src`length
    ensures src.values == old(src.values) || fresh(src.values)
    ensures ok == (src.lengthWritable && old(src.len) <= Spec.MAX_LENGTH)
    ensures src.len == old(src.len) <= src.values.Length && src.values[..src.len] == old(src.values[..src.len])
    ensures if ok then src.Valid() && src.length == src.len else src.length == old(src.length) && src.values == old(src.values)
  {
    if !src.lengthWritable || src.len > Spec.MAX_LENGTH {
      return false;
    }
    src.length := src.len;
    var n := src.len;
    if n >= 16 && n < (src.values.Length % UINT32) / 4 {
      src.Reallocate(n, n, n);
    }
    return true;
  }

  /** splice of a plain array. The slice is changed before the new length is known to be allowed; if it is not,
      an error is thrown and the array is left with its old length, which is below its last element exactly if more
      elements came than went. */
  method SpliceDense<V>(src: DenseArray<V>, relStart: int, relDel: Option<int>, items: seq<V>) returns (removed: seq<Option<V>>, ok: bool)
    requires src.Valid() && src.len == src.length
    modifies src, src.values
    ensures var s := old(src.values[..src.len]);
      var start := RelToIdx(relStart, |s|);
      var del := if relDel.None? then |s| - start else Min(Max(relDel.value, 0), |s| - start);
      var newLength := |s| - del + |items|;
      && removed == s[start..start + del]
      && src.len <= src.values.Length
      && src.values[..src.len] == (if newLength < MAX_INT then s[..start] + Wrapped(items) + s[start + del..] else s)
      && ok == (src.lengthWritable && newLength <= Spec.MAX_LENGTH)
      && (src.Valid() <==> ok || |items| <= del || newLength >= MAX_INT)
    ensures src.length == if ok then src.len else old(src.length)
    ensures src.lengthWritable == old(src.lengthWritable) && src.extensible == old(src.extensible)
  {
    hide RelToIdx;
    var length := src.len;
    var start := RelToIdx(relStart, length);
    var del := if relDel.None? then length - start else Min(Max(relDel.value, 0), length - start);
    PartsOfSlice(src.values[..], length, start, del);
    removed := src.values[start..start + del];
    if length - del + |items| >= MAX_INT {
      return removed, false;
    }
    ok := SpliceAndWriteLength(src, start, del, items);
  }

  method SpliceAndWriteLength<V>(src: DenseArray<V>, start: nat, del: nat, items: seq<V>) returns (ok: bool)
    requires src.Valid() && src.len == src.length && start + del <= src.len
    modifies src, src.values
    ensures src.len <= src.values.Length && src.len == old(src.len) - del + |items|
    ensures src.values[..src.len] == old(src.values[..start]) + Wrapped(items) + old(src.values[start + del..src.len])
    ensures ok == (src.lengthWritable && src.len <= Spec.MAX_LENGTH) && (src.Valid() <==> ok || |items| <= del)
    ensures src.length == if ok then src.len else old(src.length)
    ensures src.lengthWritable == old(src.lengthWritable) && src.extensible == old(src.extensible)
  {
    SpliceSlots(src, start, del, items);
    ok := WriteLength(src);
  }

  /** The two versions of splice on one array without holes. They leave the same, or throw and leave the same, exactly if at
      least as many elements go as come, or the array is extensible and its length may be written and holds the new
      one; or if the new length is too large for any object, when neither begins. */
  method SpliceBothWays<V>(src: DenseArray<V>, o: ObjectLike<V>, relStart: int, relDel: Option<int>, items: seq<V>)
    returns (taken: seq<Option<V>>, removed: ObjectLike<V>, fast: bool, generic: bool)
    requires src.Valid() && src.len == src.length && forall k :: 0 <= k < src.len ==> src.values[k].Some?
    requires o.Valid() && o.R() == Rules(true, src.extensible, src.lengthWritable, src.length) && o.elems == Slots(src.values[..src.len])
    modifies src, src.values, o
    ensures forall k :: At(Slots(taken), k) == At(removed.elems, k)
    ensures var l := old(src.len);
      var start := RelToIdx(relStart, l);
      var del := if relDel.None? then l - start else Min(Max(relDel.value, 0), l - start);
      var newLength := l - del + |items|;
      && fast == (newLength <= Spec.MAX_LENGTH && src.lengthWritable)
      && (Same(src, o, fast, generic) <==>
          || |items| <= del
          || (src.extensible && src.lengthWritable && newLength <= Spec.MAX_LENGTH)
          || newLength >= MAX_INT)
  {
    hide RelToIdx, SpliceAllowed, SplicedAt, At, LastRefused, Steady, Slots, RemovedAt;
    ghost var s, r := src.values[..src.len], o.R();
    ghost var start := RelToIdx(relStart, |s|);
    ghost var del := if relDel.None? then |s| - start else Min(Max(relDel.value, 0), |s| - start);
    SpliceIsGeneric(s, start, del, items);
    if |s| - del + |items| <= Spec.MAX_LENGTH {
      SpliceAddsIff(s, start, del, items, r);
    }
    taken, fast := SpliceDense(src, relStart, relDel, items);
    removed, generic := o.Splice(relStart, relDel, items);
  }

  /** Both have thrown, or neither has, and what is left is the same array. */
  ghost predicate Same<V>(src: DenseArray<V>, o: ObjectLike<V>, fast: bool, generic: bool)
    reads src, src.values, o
  {
    fast == generic && src.Valid() && src.length == o.length && forall i :: At(Slots(src.values[..src.len]), i) == At(o.elems, i)
  }

  /** [1, 2, 3] with a length that may not be written, and splice(0, 0, 9): both versions throw, but the fast one leaves four
      elements in an array of length 3. */
  method ReadOnlyLengthExample() returns (src: DenseArray<int>, o: ObjectLike<int>, fast: bool, generic: bool)
    ensures !fast && src.length == 3 && src.len == 4 <= src.values.Length && src.values[..4] == [Some(9), Some(1), Some(2), Some(3)]
    ensures !generic && o.length == 3 && o.elems == map[0 := 1, 1 := 2, 2 := 3]
    ensures !src.Valid() && !Same(src, o, fast, generic)
  {
    src, fast := ReadOnlyLengthFast();
    o := new ObjectLike<int>(map[0 := 1, 1 := 2, 2 := 3], 3, true, true, false);
    assert LastRefused(o.R(), o.elems, 3, 0, 0, 1) && !MaySetLength(o.R(), 4);
    var _, g := o.Splice(0, Some(0), [9]);
    generic := g;
  }

  method ReadOnlyLengthFast() returns (src: DenseArray<int>, ok: bool)
    ensures !ok && src.length == 3 && src.len == 4 <= src.values.Length && src.values[..4] == [Some(9), Some(1), Some(2), Some(3)]
    ensures !src.Valid() && fresh(src)
  {
    src := new DenseArray<int>(true, false, 3);
    src.values := new Option<int>[3](i => Some(i + 1));
    src.len, src.objCount := 3, 3;
    ghost var s := src.values[..src.len];
    assert s == [Some(1), Some(2), Some(3)];
    assert s[..0] + Wrapped([9]) + s[0..] == [Some(9), Some(1), Some(2), Some(3)];
    var _, fast := SpliceDense(src, 0, Some(0), [9]);
    ok := fast;
  }

  lemma PartsOfSlice<V>(a: seq<V>, length: nat, start: nat, del: nat)
    requires start + del <= length <= |a|
    ensures a[..length][..start] == a[..start] && a[..length][start + del..] == a[start + del..length]
    ensures a[..length][start..start + del] == a[start..start + del]
  {
  }

  /** copyWithin of a plain array. */
  method CopyWithinDense<V>(arr: DenseArray<V>, relTo: int, relFrom: int, relEnd: int)
    requires arr.Valid() && arr.len == arr.length
    modifies arr.values
    ensures arr.Valid() && arr.len == old(arr.len)
    ensures var l := arr.len;
      var to, from := RelToIdx(relTo, l), RelToIdx(relFrom, l);
      var count := Min(RelToIdx(relEnd, l) - from, l - to);
      forall i {:trigger At(Slots(arr.values[..l]), i)} ::
        At(Slots(arr.values[..l]), i) == CopiedAt(Slots(old(arr.values[..arr.len])), to, from, count, i)
  {
    var l := arr.len;
    var to, from := RelToIdx(relTo, l), RelToIdx(relFrom, l);
    var count := Min(RelToIdx(relEnd, l) - from, l - to);
    ghost var s := arr.values[..l];
    if count > 0 {
      CopySlots(arr.values, to, from, count);
    }
    CopyIsGeneric(s, arr.values[..l], to, from, count);
  }

  lemma CopyIsGeneric<V>(s: seq<Option<V>>, r: seq<Option<V>>, to: nat, from: nat, count: int)
    requires |r| == |s| && to + count <= |s| && from + count <= |s|
    requires forall k :: 0 <= k < |s| ==> r[k] == if to <= k < to + count then s[from + (k - to)] else s[k]
    ensures forall i {:trigger At(Slots(r), i)} :: At(Slots(r), i) == CopiedAt(Slots(s), to, from, count, i)
  {
    forall i {:trigger At(Slots(r), i)} ensures At(Slots(r), i) == CopiedAt(Slots(s), to, from, count, i) {
      if 0 <= i < |s| {
        assert r[i] == if to <= i < to + count then s[from + (i - to)] else s[i];
      }
    }
  }

  /** reverse of a plain array, exchanging its slots from both ends. */
  method ReverseDense<V>(arr: DenseArray<V>)
    requires arr.Valid() && arr.len == arr.length
    modifies arr.values
    ensures arr.Valid()
    ensures forall i {:trigger At(Slots(arr.values[..arr.len]), i)} ::
      At(Slots(arr.values[..arr.len]), i) == ReversedAt(Slots(old(arr.values[..arr.len])), arr.len, i)
  {
    var l, a := arr.len, arr.values;
    ghost var s := a[..];
    for lower := 0 to l / 2
      invariant forall k {:trigger a[k]} :: 0 <= k < a.Length ==> a[k] == if k < lower || l - lower <= k < l then s[l - 1 - k] else s[k]
    {
      var upper := l - lower - 1;
      assert a[lower] == s[lower] && a[upper] == s[upper] && l - 1 - lower == upper && l - 1 - upper == lower;
      ghost var t := a[..];
      assert forall k {:trigger t[k]} :: 0 <= k < a.Length ==> t[k] == if k < lower || l - lower <= k < l then s[l - 1 - k] else s[k];
      a[lower], a[upper] := a[upper], a[lower];
      forall k | 0 <= k < a.Length ensures a[k] == if k < lower + 1 || l - (lower + 1) <= k < l then s[l - 1 - k] else s[k] {
        assert a[k] == if k == lower then t[upper] else if k == upper then t[lower] else t[k];
      }
    }
    ReverseIsGeneric(s[..l], a[..l]);
  }

  lemma ReverseIsGeneric<V>(s: seq<Option<V>>, r: seq<Option<V>>)
    requires |r| == |s| && forall k :: 0 <= k < |s| ==> r[k] == s[|s| - 1 - k]
    ensures forall i {:trigger At(Slots(r), i)} :: At(Slots(r), i) == ReversedAt(Slots(s), |s|, i)
  {
  }
}
