/** Runs of additions, deletions and iterations of the properties of an object, and what they report. */
module PropRuns {
  import opened Options
  import opened PropOrderSpec
  import opened PropNames

  datatype Cmd<V> = DoPut(name: Name, v: V) | DoDelete(name: Name) | DoStart | DoNext(k: nat) | DoAskForIndices

  /** An iteration: the names it began with, how far it has come, and whether it has ended. */
  datatype Iter = Iter(snapshot: seq<Name>, idx: nat, ended: bool)

  /** The names are in the order of their insertion. */
  datatype State<V> = State(names: seq<Name>, values: map<Name, V>, iters: seq<Iter>)

  datatype Report<V> = Nothing | Item(item: Option<(Name, V)>) | Answer(none: bool)

  /** n goes behind all names in s that are not above it. */
  function Place(ix: Indexing, s: seq<Name>, n: Name): seq<Name> {
    if s == [] || ix(s[|s| - 1]) <= ix(n) then s + [n] else Place(ix, s[..|s| - 1], n) + [s[|s| - 1]]
  }

  /** The array indices among the names, in ascending order. */
  function Indices(ix: Indexing, names: seq<Name>): seq<Name> {
    if names == [] then []
    else
      var r, n := Indices(ix, names[..|names| - 1]), names[|names| - 1];
      if IsIndex(ix, n) then Place(ix, r, n) else r
  }

  /** The order in which properties are enumerated. */
  function InOrder(ix: Indexing, names: seq<Name>): seq<Name> {
    Indices(ix, names) + Others(ix, names)
  }

  function Remove(names: seq<Name>, n: Name): seq<Name> {
    if names == [] then []
    else Remove(names[..|names| - 1], n) + (if names[|names| - 1] == n then [] else [names[|names| - 1]])
  }

  function Step<V>(ix: Indexing, s: State<V>, c: Cmd<V>): (Report<V>, State<V>) {
    match c
    case DoPut(n, v) => (Nothing, s.(names := if n in s.values then s.names else s.names + [n], values := s.values[n := v]))
    case DoDelete(n) => (Nothing, s.(names := Remove(s.names, n), values := s.values - {n}))
    // the first call of next comes at once, and on an empty list it is the last
    case DoStart => (Nothing, s.(iters := s.iters + [Iter(InOrder(ix, s.names), 0, s.names == [])]))
    case DoNext(k) =>
      if k < |s.iters| && !s.iters[k].ended && s.iters[k].idx <= |s.iters[k].snapshot| then
        var it := s.iters[k];
        var (found, idx) := Call(it.snapshot, it.idx, s.values.Keys);
        (Item(if found.Some? then Some((it.snapshot[found.value], s.values[it.snapshot[found.value]])) else None),
         s.(iters := s.iters[k := Iter(it.snapshot, idx, found.None?)]))
      else (Nothing, s)
    case DoAskForIndices => (Answer(forall i :: 0 <= i < |s.names| ==> !IsIndex(ix, s.names[i])), s)
  }

  function Run<V>(ix: Indexing, s: State<V>, cs: seq<Cmd<V>>): (r: (seq<Report<V>>, State<V>))
    ensures |r.0| == |cs|
    decreases |cs|
  {
    if cs == [] then ([], s)
    else
      var (x, s1) := Step(ix, s, cs[0]);
      var (xs, s2) := Run(ix, s1, cs[1..]);
      ([x] + xs, s2)
  }

  lemma {:induction false} RunSplit<V>(ix: Indexing, s: State<V>, a: seq<Cmd<V>>, c: Cmd<V>)
    ensures var (xs, s1) := Run(ix, s, a); Run(ix, s, a + [c]) == (xs + [Step(ix, s1, c).0], Step(ix, s1, c).1)
    decreases |a|
  {
    hide Step;
    if a == [] {
      var (y, s1) := Step(ix, s, c);
      assert a + [c] == [c] && [c][1..] == [];
      assert Run(ix, s1, [c][1..]) == ([], s1);
      assert Run(ix, s, [c]) == ([y] + [], s1);
      assert Run(ix, s, a) == ([], s) && [y] + [] == [] + [y];
    } else {
      var (x, s0) := Step(ix, s, a[0]);
      var (xs, s1) := Run(ix, s0, a[1..]);
      var y := Step(ix, s1, c).0;
      RunSplit(ix, s0, a[1..], c);
      assert (a + [c])[0] == a[0] && (a + [c])[1..] == a[1..] + [c];
      assert Run(ix, s, a) == ([x] + xs, s1);
      assert [x] + (xs + [y]) == [x] + xs + [y];
    }
  }

  // ---- what a history of commands amounts to

  /** The value a name has after a history. */
  function LastPut<V>(cs: seq<Cmd<V>>, n: Name): Option<V> {
    if cs == [] then None
    else
      match cs[|cs| - 1]
      case DoPut(m, v) => if m == n then Some(v) else LastPut(cs[..|cs| - 1], n)
      case DoDelete(m) => if m == n then None else LastPut(cs[..|cs| - 1], n)
      case _ => LastPut(cs[..|cs| - 1], n)
  }

  /** Which command of a history added a name; overwriting does not add it again. */
  function Born<V>(cs: seq<Cmd<V>>, n: Name): nat {
    if cs == [] then 0
    else
      var init, c := cs[..|cs| - 1], cs[|cs| - 1];
      if c.DoPut? && c.name == n && LastPut(init, n).None? then |init| else Born(init, n)
  }

  ghost predicate Older<V>(cs: seq<Cmd<V>>, names: seq<Name>) {
    && (forall i :: 0 <= i < |names| ==> Born(cs, names[i]) < |cs|)
    && (forall i, j :: 0 <= i < j < |names| ==> Born(cs, names[i]) < Born(cs, names[j]))
  }

  lemma {:induction false} RemoveKeepsOlder<V>(cs: seq<Cmd<V>>, names: seq<Name>, n: Name)
    requires Older(cs, names)
    ensures Older(cs, Remove(names, n)) && forall x :: x in Remove(names, n) <==> x in names && x != n
  {
    hide Born;
    if names != [] {
      var init, last := names[..|names| - 1], names[|names| - 1];
      assert forall i :: 0 <= i < |init| ==> init[i] == names[i];
      RemoveKeepsOlder(cs, init, n);
      var r := Remove(init, n);
      forall i | 0 <= i < |r| ensures Born(cs, r[i]) < Born(cs, last) {
        assert r[i] in r && r[i] in init;
        var k :| 0 <= k < |init| && init[k] == r[i];
        assert names[k] == r[i];
      }
    }
  }

  /** The state agrees with the history. */
  ghost predicate Tells<V>(cs: seq<Cmd<V>>, s: State<V>) {
    && (forall n :: (if n in s.values then Some(s.values[n]) else None) == LastPut(cs, n))
    && (forall n :: n in s.names <==> n in s.values)
    && Older(cs, s.names)
  }

  /** A command that puts and deletes nothing that is there leaves the ages of all names. */
  lemma SameAges<V>(init: seq<Cmd<V>>, c: Cmd<V>, names: seq<Name>)
    requires Older(init, names) && (c.DoPut? ==> c.name !in names || LastPut(init, c.name).Some?)
    ensures Older(init + [c], names)
  {
    var cs := init + [c];
    assert cs[..|cs| - 1] == init;
    assert forall i :: 0 <= i < |names| ==> Born(cs, names[i]) == Born(init, names[i]);
  }

  lemma PutTells<V>(init: seq<Cmd<V>>, s: State<V>, n: Name, v: V)
    requires Tells(init, s)
    ensures Tells(init + [DoPut(n, v)], s.(names := if n in s.values then s.names else s.names + [n], values := s.values[n := v]))
  {
    var c := DoPut(n, v);
    var cs := init + [c];
    assert cs[..|cs| - 1] == init && cs[|cs| - 1] == c;
    assert n in s.values <==> LastPut(init, n).Some?;
    SameAges(init, c, s.names);
    if n !in s.values {
      AddedLast(cs, s.names, n);
    }
  }

  lemma AddedLast<V>(cs: seq<Cmd<V>>, names: seq<Name>, n: Name)
    requires cs != [] && Older(cs[..|cs| - 1], names) && n !in names
    requires cs[|cs| - 1].DoPut? && cs[|cs| - 1].name == n && LastPut(cs[..|cs| - 1], n).None?
    ensures Older(cs, names + [n])
  {
    assert forall i :: 0 <= i < |names| ==> names[i] in names && Born(cs, names[i]) == Born(cs[..|cs| - 1], names[i]);
  }

  lemma DeleteTells<V>(init: seq<Cmd<V>>, s: State<V>, n: Name)
    requires Tells(init, s)
    ensures Tells(init + [DoDelete(n)], s.(names := Remove(s.names, n), values := s.values - {n}))
  {
    var cs := init + [DoDelete(n)];
    assert cs[..|cs| - 1] == init && cs[|cs| - 1] == DoDelete(n);
    SameAges(init, DoDelete(n), s.names);
    RemoveKeepsOlder(cs, s.names, n);
  }

  lemma OtherTells<V>(init: seq<Cmd<V>>, s: State<V>, c: Cmd<V>, its: seq<Iter>)
    requires Tells(init, s) && !c.DoPut? && !c.DoDelete?
    ensures Tells(init + [c], s.(iters := its))
  {
    var cs := init + [c];
    assert cs[..|cs| - 1] == init && cs[|cs| - 1] == c;
    SameAges(init, c, s.names);
  }

  /** After any run a property has the value that was put last, unless it was deleted since; and the names are in the order in
      which they were added. */
  lemma {:induction false} StateIsHistory<V>(ix: Indexing, cs: seq<Cmd<V>>)
    ensures Tells(cs, Run(ix, State([], map[], []), cs).1)
    decreases |cs|
  {
    hide Tells, InOrder;
    if cs == [] {
      NothingTells<V>();
    } else {
      var init, c := cs[..|cs| - 1], cs[|cs| - 1];
      var s := Run(ix, State([], map[], []), init).1;
      StateIsHistory(ix, init);
      assert cs == init + [c];
      RunSplit(ix, State([], map[], []), init, c);
      match c
      case DoPut(n, v) => PutTells(init, s, n, v);
      case DoDelete(n) => DeleteTells(init, s, n);
      case _ => OtherTells(init, s, c, Step(ix, s, c).1.iters);
    }
  }

  lemma NothingTells<V>()
    ensures Tells<V>([], State([], map[], []))
  {
  }

  /** What an iteration yields is a name with the value that was put last. */
  lemma ItemIsLastPut<V>(ix: Indexing, cs: seq<Cmd<V>>, k: nat)
    requires k < |cs| && cs[k].DoNext?
    ensures var r := Step(ix, Run(ix, State([], map[], []), cs[..k]).1, cs[k]).0;
      r.Item? && r.item.Some? ==> LastPut(cs[..k], r.item.value.0) == Some(r.item.value.1)
  {
    StateIsHistory(ix, cs[..k]);
    hide Run;
  }

  // ---- the order is determined by what it must keep

  /** Different index names denote different indices. */
  ghost predicate Injective(ix: Indexing) {
    forall a, b :: IsIndex(ix, a) && ix(a) == ix(b) ==> a == b
  }

  ghost predicate Ascending(ix: Indexing, s: seq<Name>) {
    && (forall i :: 0 <= i < |s| ==> IsIndex(ix, s[i]))
    && (forall i, j :: 0 <= i < j < |s| ==> ix(s[i]) <= ix(s[j]))
  }

  lemma AscendingMore(ix: Indexing, s: seq<Name>, n: Name)
    requires Ascending(ix, s) && IsIndex(ix, n) && forall i :: 0 <= i < |s| ==> ix(s[i]) <= ix(n)
    ensures Ascending(ix, s + [n]) && forall i :: 0 <= i < |s + [n]| ==> ix((s + [n])[i]) <= ix(n)
  {
  }

  lemma {:induction false} PlaceAscends(ix: Indexing, s: seq<Name>, n: Name)
    requires Ascending(ix, s) && IsIndex(ix, n)
    ensures Ascending(ix, Place(ix, s, n))
    ensures var top := if s == [] || ix(s[|s| - 1]) <= ix(n) then ix(n) else ix(s[|s| - 1]);
      forall i :: 0 <= i < |Place(ix, s, n)| ==> ix(Place(ix, s, n)[i]) <= top
  {
    if s != [] && ix(s[|s| - 1]) > ix(n) {
      var init, last := s[..|s| - 1], s[|s| - 1];
      PlaceAscends(ix, init, n);
      AscendingMore(ix, Place(ix, init, n), last);
    } else {
      AscendingMore(ix, s, n);
    }
  }

  lemma MultisetMore(s: seq<Name>)
    requires s != []
    ensures multiset(s) == multiset(s[..|s| - 1]) + multiset{s[|s| - 1]}
  {
    assert s == s[..|s| - 1] + [s[|s| - 1]];
  }

  lemma {:induction false} PlaceHas(ix: Indexing, s: seq<Name>, n: Name)
    ensures multiset(Place(ix, s, n)) == multiset(s) + multiset{n}
  {
    if s != [] && ix(s[|s| - 1]) > ix(n) {
      PlaceHas(ix, s[..|s| - 1], n);
      MultisetMore(s);
    }
  }

  lemma {:induction false} InOrderIs(ix: Indexing, names: seq<Name>)
    ensures Ascending(ix, Indices(ix, names)) && multiset(InOrder(ix, names)) == multiset(names)
  {
    if names != [] {
      var init, n := names[..|names| - 1], names[|names| - 1];
      InOrderIs(ix, init);
      MultisetMore(names);
      if IsIndex(ix, n) {
        PlaceAscends(ix, Indices(ix, init), n);
        PlaceHas(ix, Indices(ix, init), n);
      }
    }
  }

  lemma LastIsTop(ix: Indexing, a: seq<Name>, x: Name)
    requires Ascending(ix, a) && x in multiset(a)
    ensures a != [] && ix(x) <= ix(a[|a| - 1])
  {
    assert x in a;
  }

  lemma SameLast(ix: Indexing, a: seq<Name>, b: seq<Name>)
    requires Injective(ix) && Ascending(ix, a) && Ascending(ix, b) && multiset(a) == multiset(b) && a != [] && b != []
    ensures a[|a| - 1] == b[|b| - 1]
  {
    assert a[|a| - 1] in multiset(a) && b[|b| - 1] in multiset(b);
    LastIsTop(ix, a, b[|b| - 1]);
    LastIsTop(ix, b, a[|a| - 1]);
  }

  /** Two ascending lists of the same index names are the same. */
  lemma {:induction false} AscendingIsUnique(ix: Indexing, a: seq<Name>, b: seq<Name>)
    requires Injective(ix) && Ascending(ix, a) && Ascending(ix, b) && multiset(a) == multiset(b)
    ensures a == b
  {
    hide Injective, Ascending;
    assert |a| == |multiset(a)| == |multiset(b)| == |b|;
    if a != [] {
      var n := |a| - 1;
      SameLast(ix, a, b);
      MultisetMore(a);
      MultisetMore(b);
      Cancel(multiset(a[..n]), multiset(b[..n]), multiset{a[n]});
      AscendingInit(ix, a, n);
      AscendingInit(ix, b, n);
      AscendingIsUnique(ix, a[..n], b[..n]);
      assert a == a[..n] + [a[n]] && b == b[..n] + [b[n]];
    }
  }

  lemma AscendingInit(ix: Indexing, a: seq<Name>, n: nat)
    requires Ascending(ix, a) && n <= |a|
    ensures Ascending(ix, a[..n])
  {
  }

  lemma {:induction false} OthersOfNone(ix: Indexing, s: seq<Name>)
    ensures (forall i :: 0 <= i < |s| ==> IsIndex(ix, s[i])) ==> Others(ix, s) == []
    ensures (forall i :: 0 <= i < |s| ==> !IsIndex(ix, s[i])) ==> Others(ix, s) == s
  {
    if s != [] {
      OthersOfNone(ix, s[..|s| - 1]);
    }
  }

  lemma Cancel(a: multiset<Name>, b: multiset<Name>, m: multiset<Name>)
    requires a + m == b + m
    ensures a == b
  {
    assert a == a + m - m && b == b + m - m;
  }

  lemma SplitAt(a: seq<Name>, n: nat)
    requires n <= |a|
    ensures a == a[..n] + a[n..]
  {
  }

  lemma FrontAndBack(ix: Indexing, a: seq<Name>, count: nat)
    requires Counted(ix, a, count, |a|)
    ensures Others(ix, a) == a[count..] && Ascending(ix, a[..count])
  {
    hide Others;
    assert Ascending(ix, a[..count]);
    assert forall i :: 0 <= i < |a[count..]| ==> !IsIndex(ix, a[count..][i]);
    OthersOfNone(ix, a[..count]);
    OthersOfNone(ix, a[count..]);
    SplitAt(a, count);
    OthersAppend(ix, a[..count], a[count..]);
  }

  /** A list with everything sorted is the order of its names. */
  lemma SortedIsInOrder(ix: Indexing, a: seq<Name>, count: nat, names: seq<Name>)
    requires Injective(ix) && Counted(ix, a, count, |a|)
    requires multiset(a) == multiset(names) && Others(ix, a) == Others(ix, names)
    ensures a == InOrder(ix, names)
  {
    InOrderIs(ix, names);
    FrontAndBack(ix, a, count);
    SplitAt(a, count);
    hide Others, Indices, Counted, Ascending, Injective;
    var front, back := a[..count], a[count..];
    assert multiset(a) == multiset(front) + multiset(back);
    assert multiset(InOrder(ix, names)) == multiset(Indices(ix, names)) + multiset(back);
    Cancel(multiset(front), multiset(Indices(ix, names)), multiset(back));
    AscendingIsUnique(ix, front, Indices(ix, names));
  }

  // ---- deletion, in a list in any order

  lemma {:induction false} OthersOfRemove(ix: Indexing, names: seq<Name>, n: Name)
    ensures Others(ix, Remove(names, n)) == Remove(Others(ix, names), n)
  {
    if names != [] {
      var init, last := names[..|names| - 1], names[|names| - 1];
      OthersOfRemove(ix, init, n);
      OthersAppend(ix, Remove(init, n), if last == n then [] else [last]);
      RemoveAppend(Others(ix, init), if IsIndex(ix, last) then [] else [last], n);
      OthersOne(ix, last);
      RemoveOne(last, n);
    }
  }

  lemma RemoveOne(x: Name, n: Name)
    ensures Remove([x], n) == if x == n then [] else [x]
  {
    assert [x][..0] == [];
  }

  lemma {:induction false} RemoveAppend(a: seq<Name>, b: seq<Name>, n: Name)
    ensures Remove(a + b, n) == Remove(a, n) + Remove(b, n)
  {
    if b == [] {
      assert a + b == a;
    } else {
      RemoveAppend(a, b[..|b| - 1], n);
      assert (a + b)[..|a + b| - 1] == a + b[..|b| - 1];
    }
  }

  lemma {:induction false} RemoveNone(s: seq<Name>, n: Name)
    requires n !in s
    ensures Remove(s, n) == s
  {
    if s != [] {
      RemoveNone(s[..|s| - 1], n);
    }
  }

  ghost predicate Unique(s: seq<Name>) {
    forall i, j :: 0 <= i < j < |s| ==> s[i] != s[j]
  }

  lemma PartsOf(s: seq<Name>, i: nat)
    requires i < |s|
    ensures s == s[..i] + [s[i]] + s[i + 1..] && Without(s, i) == s[..i] + s[i + 1..]
  {
  }

  lemma RemoveIsWithout(s: seq<Name>, i: nat)
    requires Unique(s) && i < |s|
    ensures Remove(s, s[i]) == Without(s, i)
  {
    var a, n, b := s[..i], s[i], s[i + 1..];
    assert n !in a && n !in b;
    hide Remove, Unique;
    PartsOf(s, i);
    RemoveParts(a, n, b);
  }

  lemma RemoveParts(a: seq<Name>, n: Name, b: seq<Name>)
    requires n !in a && n !in b
    ensures Remove(a + [n] + b, n) == a + b
  {
    hide Remove;
    RemoveAppend(a + [n], b, n);
    RemoveAppend(a, [n], n);
    RemoveOne(n, n);
    RemoveNone(a, n);
    RemoveNone(b, n);
    assert a + [] == a;
  }

  lemma UniqueOfKeys(s: seq<Name>, keys: set<Name>)
    requires multiset(s) == multiset(keys)
    ensures Unique(s)
  {
    forall i, j | 0 <= i < j < |s| ensures s[i] != s[j] {
      assert s == s[..i] + [s[i]] + s[i + 1..j] + [s[j]] + s[j + 1..];
      assert s[i] == s[j] ==> multiset(s)[s[i]] >= 2;
    }
  }

  // ---- an object under a run

  /** A list of names, sorted as far as it may be, stands for the names in the order of their insertion. */
  ghost predicate Stands(ix: Indexing, list: seq<Name>, names: seq<Name>, keys: set<Name>) {
    multiset(list) == multiset(keys) && multiset(names) == multiset(keys) && Others(ix, list) == Others(ix, names)
  }

  lemma StandsPut(ix: Indexing, list: seq<Name>, names: seq<Name>, keys: set<Name>, n: Name)
    requires Stands(ix, list, names, keys) && n !in keys
    ensures Stands(ix, list + [n], names + [n], keys + {n})
  {
    KeysAppend(list, keys, n);
    KeysAppend(names, keys, n);
    OthersAppend(ix, list, [n]);
    OthersAppend(ix, names, [n]);
  }

  lemma StandsDelete(ix: Indexing, list: seq<Name>, names: seq<Name>, keys: set<Name>, n: Name)
    requires Stands(ix, list, names, keys)
    ensures var i := Position(list, n); n in keys <==> i < |list|
    ensures Stands(ix, if n in keys then Without(list, Position(list, n)) else list, Remove(names, n), keys - {n})
  {
    hide Others, Remove;
    PresentIff(list, keys, n);
    PresentIff(names, keys, n);
    var i, j := Position(list, n), Position(names, n);
    if n in keys {
      UniqueOfKeys(list, keys);
      UniqueOfKeys(names, keys);
      RemoveIsWithout(list, i);
      RemoveIsWithout(names, j);
      KeysWithout(list, keys, i);
      KeysWithout(names, keys, j);
      OthersOfRemove(ix, list, n);
      OthersOfRemove(ix, names, n);
    } else {
      SameNames(names, keys);
      RemoveNone(names, n);
      assert keys - {n} == keys;
    }
  }

  /** An iteration has come to where it has come in the model. iters are those that have not ended. */
  ghost predicate IterHolds<V>(o: PropTable<V>, iters: set<PropIter<V>>, it: PropIter<V>, m: Iter)
    reads it`idx
  {
    !m.ended ==> it in iters && it.o == o && it.snapshot == m.snapshot && it.idx == m.idx <= it.len == |m.snapshot|
  }

  ghost predicate ItersHold<V>(o: PropTable<V>, iters: set<PropIter<V>>, its: seq<PropIter<V>>, ms: seq<Iter>)
    reads its`idx
  {
    && |its| == |ms|
    && (forall k :: 0 <= k < |its| ==> IterHolds(o, iters, its[k], ms[k]))
    && (forall k, l :: 0 <= k < l < |its| ==> its[k] != its[l])
  }

  ghost predicate TableHolds<V>(o: PropTable<V>, names: seq<Name>, values: map<Name, V>)
    reads o, o.arr, set it | it in o.iters :: it.arr
  {
    o.Valid() && o.values == values && Stands(o.ix, o.Names(), names, values.Keys)
  }

  ghost predicate Holds<V>(o: PropTable<V>, its: seq<PropIter<V>>, s: State<V>)
    reads o, o.arr, its`idx, set it | it in o.iters :: it.arr
  {
    TableHolds(o, s.names, s.values) && ItersHold(o, o.iters, its, s.iters)
  }

  method Put<V>(o: PropTable<V>, name: Name, v: V, ghost s: State<V>)
    requires TableHolds(o, s.names, s.values)
    modifies o, o.arr
    ensures var s' := Step(o.ix, s, DoPut(name, v)).1; TableHolds(o, s'.names, s'.values) && s'.iters == s.iters
    ensures (o.arr == old(o.arr) || fresh(o.arr)) && o.iters == old(o.iters)
  {
    if name in o.values {
      PutOld(o, name, v, s.names);
    } else {
      PutNew(o, name, v, s.names);
    }
  }

  method PutOld<V>(o: PropTable<V>, name: Name, v: V, ghost names: seq<Name>)
    requires TableHolds(o, names, o.values) && name in o.values
    modifies o`values
    ensures TableHolds(o, names, old(o.values)[name := v])
  {
    hide PropTable.Valid, Stands;
    assert o.values[name := v].Keys == o.values.Keys;
    o.Overwrite(name, v);
  }

  method PutNew<V>(o: PropTable<V>, name: Name, v: V, ghost names: seq<Name>)
    requires TableHolds(o, names, o.values) && name !in o.values
    modifies o, o.arr
    ensures TableHolds(o, names + [name], old(o.values)[name := v])
    ensures (o.arr == old(o.arr) || fresh(o.arr)) && o.iters == old(o.iters)
  {
    assert o.len <= o.arr.Length;
    hide PropTable.Valid, Stands;
    StandsPut(o.ix, o.Names(), names, o.values.Keys, name);
    assert o.values[name := v].Keys == o.values.Keys + {name};
    o.Add(name, v);
  }

  method Delete<V>(o: PropTable<V>, name: Name, ghost s: State<V>)
    requires TableHolds(o, s.names, s.values)
    modifies o, o.arr
    ensures var s' := Step(o.ix, s, DoDelete(name)).1; TableHolds(o, s'.names, s'.values) && s'.iters == s.iters
    ensures (o.arr == old(o.arr) || fresh(o.arr)) && o.iters == old(o.iters)
  {
    assert o.len <= o.arr.Length;
    hide PropTable.Valid, Stands;
    StandsDelete(o.ix, o.Names(), s.names, s.values.Keys, name);
    o.Delete(name);
    assert (s.values - {name}).Keys == s.values.Keys - {name};
  }

  /** Begins an iteration. On an empty list the first call of next, which comes at once, ends it. */
  method Start<V>(o: PropTable<V>, ghost names: seq<Name>) returns (it: PropIter<V>)
    requires TableHolds(o, names, o.values) && Injective(o.ix)
    modifies o, o.arr
    ensures fresh(it) && it.arr == o.arr && (o.arr == old(o.arr) || fresh(o.arr)) && TableHolds(o, names, old(o.values))
    ensures old(o.iters) <= o.iters && (names == [] <==> o.len == 0) && (it in o.iters <==> names != [])
    ensures it.o == o && it.idx == 0 && it.snapshot == InOrder(o.ix, names) && it.len == |it.snapshot|
  {
    assert o.len <= o.arr.Length;
    hide PropTable.Valid, Stands, Counted, InOrder, Others;
    ghost var list := o.Names();
    it := o.StartIter();
    SnapshotIs(o.ix, it.snapshot, o.idxPropCount, list, names, o.values.Keys);
    if o.len == 0 {
      var r := it.Next();
    }
  }

  lemma SnapshotIs(ix: Indexing, snapshot: seq<Name>, count: nat, list: seq<Name>, names: seq<Name>, keys: set<Name>)
    requires Injective(ix) && Stands(ix, list, names, keys) && Counted(ix, snapshot, count, |snapshot|)
    requires multiset(snapshot) == multiset(keys) && Others(ix, snapshot) == Others(ix, list)
    ensures snapshot == InOrder(ix, names) && Stands(ix, snapshot, names, keys) && (snapshot == [] <==> names == [])
  {
    SortedIsInOrder(ix, snapshot, count, names);
    assert |names| == |multiset(names)| == |multiset(snapshot)| == |snapshot|;
  }

  method Advance<V>(o: PropTable<V>, it: PropIter<V>, ghost m: Iter, ghost names: seq<Name>) returns (item: Option<(Name, V)>)
    requires TableHolds(o, names, o.values) && IterHolds(o, o.iters, it, m) && !m.ended
    modifies it`idx, o`iters, it.arr
    ensures TableHolds(o, names, old(o.values)) && it.idx <= it.len
    ensures var (found, idx) := Call(m.snapshot, m.idx, o.values.Keys);
      && item == (if found.Some? then Some((m.snapshot[found.value], o.values[m.snapshot[found.value]])) else None)
      && it.idx == idx && o.iters == if found.Some? then old(o.iters) else old(o.iters) - {it}
  {
    hide Stands, Call;
    item := it.Next();
  }

  lemma ItersAdded<V>(o: PropTable<V>, was: set<PropIter<V>>, iters: set<PropIter<V>>, its: seq<PropIter<V>>, ms: seq<Iter>,
                      it: PropIter<V>, m: Iter)
    requires ItersHold(o, was, its, ms) && was <= iters && it !in its && IterHolds(o, iters, it, m)
    ensures ItersHold(o, iters, its + [it], ms + [m])
  {
    forall k | 0 <= k < |its| ensures IterHolds(o, iters, (its + [it])[k], (ms + [m])[k]) {
      assert IterHolds(o, was, its[k], ms[k]);
    }
  }

  ghost function Footprint<V>(its: seq<PropIter<V>>): set<object> {
    (set it | it in its :: it as object) + (set it | it in its :: it.arr as object)
  }

  ghost predicate Ended(ended: seq<bool>, iters: seq<Iter>) {
    |ended| == |iters| && forall k :: 0 <= k < |iters| ==> ended[k] == iters[k].ended
  }

  method PerformStart<V>(o: PropTable<V>, its: seq<PropIter<V>>, ended: seq<bool>, ghost s: State<V>)
    returns (its': seq<PropIter<V>>, ended': seq<bool>)
    requires Holds(o, its, s) && Injective(o.ix) && Ended(ended, s.iters)
    modifies o, o.arr
    ensures var s' := Step(o.ix, s, DoStart).1; Holds(o, its', s') && Ended(ended', s'.iters)
    ensures (o.arr == old(o.arr) || fresh(o.arr)) && forall x :: x in Footprint(its') ==> x in Footprint(its) || x == o.arr || fresh(x)
  {
    assert o.values == s.values;
    hide TableHolds, ItersHold, InOrder;
    var it := Start(o, s.names);
    ItersAdded(o, old(o.iters), o.iters, its, s.iters, it, Iter(InOrder(o.ix, s.names), 0, s.names == []));
    its', ended' := its + [it], ended + [o.len == 0];
  }

  method PerformNext<V>(o: PropTable<V>, its: seq<PropIter<V>>, ended: seq<bool>, k: nat, ghost s: State<V>)
    returns (r: Report<V>, ended': seq<bool>)
    requires Holds(o, its, s) && Ended(ended, s.iters)
    modifies o, Footprint(its)
    ensures r == Step(o.ix, s, DoNext(k)).0
    ensures var s' := Step(o.ix, s, DoNext(k)).1; Holds(o, its, s') && Ended(ended', s'.iters) && o.arr == old(o.arr)
  {
    r, ended' := Nothing, ended;
    if k < |its| && !ended[k] {
      hide TableHolds;
      ghost var was := o.iters;
      var item := Advance(o, its[k], s.iters[k], s.names);
      r, ended' := Item(item), ended[k := item.None?];
    }
  }

  method Perform<V>(o: PropTable<V>, its: seq<PropIter<V>>, ended: seq<bool>, c: Cmd<V>, ghost s: State<V>)
    returns (r: Report<V>, its': seq<PropIter<V>>, ended': seq<bool>)
    requires Holds(o, its, s) && Injective(o.ix) && Ended(ended, s.iters)
    modifies o, o.arr, Footprint(its)
    ensures r == Step(o.ix, s, c).0 && Holds(o, its', Step(o.ix, s, c).1) && Ended(ended', Step(o.ix, s, c).1.iters)
    ensures (o.arr == old(o.arr) || fresh(o.arr)) && forall x :: x in Footprint(its') ==> x in Footprint(its) || x == o.arr || fresh(x)
  {
    hide TableHolds, ItersHold, Ended;
    r, its', ended' := Nothing, its, ended;
    match c {
      case DoPut(name, v) => Put(o, name, v, s);
      case DoDelete(name) => Delete(o, name, s);
      case DoStart => its', ended' := PerformStart(o, its, ended, s);
      case DoNext(k) => r, ended' := PerformNext(o, its, ended, k, s);
      case DoAskForIndices =>
        var none := AskForIndices(o, s);
        r := Answer(none);
    }
  }

  method AskForIndices<V>(o: PropTable<V>, ghost s: State<V>) returns (none: bool)
    requires TableHolds(o, s.names, s.values)
    modifies o, o.arr
    ensures Step(o.ix, s, DoAskForIndices) == (Answer(none), s) && TableHolds(o, s.names, s.values)
    ensures (o.arr == old(o.arr) || fresh(o.arr)) && o.iters == old(o.iters)
  {
    none := o.HasNoIndices();
    SameNames(s.names, s.values.Keys);
  }

  /** An object under a run of commands reports what the model does. */
  method Replay<V>(ix: Indexing, cs: seq<Cmd<V>>) returns (out: seq<Report<V>>)
    requires Injective(ix)
    ensures out == Run(ix, State([], map[], []), cs).0
  {
    hide Step, Holds;
    var o := new PropTable<V>(ix);
    var its: seq<PropIter<V>>, ended: seq<bool> := [], [];
    out := [];
    ghost var s := State([], map[], []);
    BeginsEmpty(o);
    for i := 0 to |cs|
      invariant o.ix == ix && fresh(o) && fresh(o.arr) && fresh(Footprint(its))
      invariant Holds(o, its, s) && Ended(ended, s.iters)
      invariant Run(ix, State([], map[], []), cs[..i]) == (out, s)
    {
      RunSplit(ix, State([], map[], []), cs[..i], cs[i]);
      assert cs[..i + 1] == cs[..i] + [cs[i]];
      var r;
      r, its, ended := Perform(o, its, ended, cs[i], s);
      out := out + [r];
      s := Step(ix, s, cs[i]).1;
    }
    assert cs[..|cs|] == cs;
  }

  lemma BeginsEmpty<V>(o: PropTable<V>)
    requires o.Valid() && o.Names() == [] && o.values == map[]
    ensures Holds(o, [], State([], map[], []))
  {
  }
}
