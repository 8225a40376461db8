/** The reference model of the ordered hash map behind Map, Set and symbol-keyed properties: a list
    of entries in insertion order, each carrying the number of its insertion. */
module OrderedMapSpec {
  import opened Options

  /** What a key type provides: Value.hash, Value.SameAs and the comparison with -0. */
  datatype KeyOps<!K> = KeyOps(hash: K -> nat, same: (K, K) -> bool, isNegZero: K -> bool, zero: K) {
    /** -0 is stored and looked up as the integer 0. */
    function Norm(k: K): K {
      if isNegZero(k) then zero else k
    }
  }

  ghost predicate Lawful<K(!new)>(ops: KeyOps<K>) {
    && !ops.isNegZero(ops.zero)
    && (forall a :: ops.same(a, a))
    && (forall a, b :: ops.same(a, b) ==> ops.same(b, a))
    && (forall a, b, c :: ops.same(a, b) && ops.same(b, c) ==> ops.same(a, c))
    && (forall a, b :: ops.same(a, b) ==> ops.hash(a) == ops.hash(b))
  }

  datatype Entry<K, V> = Entry(stamp: nat, key: K, value: V)

  /** The live entries, oldest first, and the number the next insertion will get. */
  datatype Dict<K, V> = Dict(entries: seq<Entry<K, V>>, clock: nat)

  ghost predicate WellFormed<K(!new), V>(ops: KeyOps<K>, d: Dict<K, V>) {
    && (forall i, j :: 0 <= i < j < |d.entries| ==> d.entries[i].stamp < d.entries[j].stamp)
    && (forall i :: 0 <= i < |d.entries| ==> d.entries[i].stamp < d.clock)
    && (forall i :: 0 <= i < |d.entries| ==> !ops.isNegZero(d.entries[i].key))
    && (forall i, j :: 0 <= i < j < |d.entries| ==> !ops.same(d.entries[i].key, d.entries[j].key))
  }

  /** The position of the entry for a (normalised) key, or the length when there is none. */
  function Find<K, V>(ops: KeyOps<K>, es: seq<Entry<K, V>>, k: K): (r: nat)
    ensures r <= |es|
    ensures r < |es| ==> ops.same(es[r].key, k)
    ensures forall i :: 0 <= i < r ==> !ops.same(es[i].key, k)
  {
    if es == [] then 0
    else if ops.same(es[0].key, k) then 0
    else 1 + Find(ops, es[1..], k)
  }

  function Get<K, V>(ops: KeyOps<K>, d: Dict<K, V>, k: K): Option<V> {
    var i := Find(ops, d.entries, ops.Norm(k));
    if i < |d.entries| then Some(d.entries[i].value) else None
  }

  function Set<K, V>(ops: KeyOps<K>, d: Dict<K, V>, k: K, v: V): Dict<K, V> {
    var i := Find(ops, d.entries, ops.Norm(k));
    if i < |d.entries| then d.(entries := d.entries[i := d.entries[i].(value := v)])
    else Dict(d.entries + [Entry(d.clock, ops.Norm(k), v)], d.clock + 1)
  }

  ghost predicate IsWithout<T>(s: seq<T>, i: nat, r: seq<T>)
    requires i < |s|
  {
    && |r| == |s| - 1
    && (forall k :: 0 <= k < i ==> r[k] == s[k])
    && (forall k :: i <= k < |r| ==> r[k] == s[k + 1])
  }

  function Without<T>(s: seq<T>, i: nat): (r: seq<T>)
    requires i < |s|
    ensures IsWithout(s, i, r)
  {
    s[..i] + s[i + 1..]
  }

  function Remove<K, V>(ops: KeyOps<K>, d: Dict<K, V>, k: K): Dict<K, V> {
    var i := Find(ops, d.entries, ops.Norm(k));
    if i < |d.entries| then d.(entries := Without(d.entries, i)) else d
  }

  function Clear<K, V>(d: Dict<K, V>): Dict<K, V> {
    d.(entries := [])
  }

  /** The first live entry inserted at or after `cursor`. */
  function Next<K, V>(es: seq<Entry<K, V>>, cursor: nat): (r: Option<Entry<K, V>>)
    ensures r.None? ==> forall i :: 0 <= i < |es| ==> es[i].stamp < cursor
    ensures r.Some? ==> exists i :: 0 <= i < |es| && es[i] == r.value && cursor <= r.value.stamp
                                    && forall j :: 0 <= j < i ==> es[j].stamp < cursor
  {
    if es == [] then None
    else if es[0].stamp >= cursor then Some(es[0])
    else
      var r := Next(es[1..], cursor);
      assert r.Some? ==> exists i :: 1 <= i < |es| && es[i] == r.value
                                     && forall j :: 0 <= j < i ==> es[j].stamp < cursor by {
        if r.Some? {
          var i :| 0 <= i < |es[1..]| && es[1..][i] == r.value
                   && forall j :: 0 <= j < i ==> es[1..][j].stamp < cursor;
          assert es[i + 1] == r.value;
          forall j | 0 <= j < i + 1 ensures es[j].stamp < cursor {
            assert j > 0 ==> es[j] == es[1..][j - 1];
          }
        }
      }
      assert forall i :: 1 <= i < |es| ==> es[i] == es[1..][i - 1];
      r
  }

  lemma {:induction false} NextIs<K, V>(es: seq<Entry<K, V>>, cursor: nat, n: nat)
    requires n <= |es|
    requires forall i :: 0 <= i < |es| ==> (es[i].stamp < cursor <==> i < n)
    ensures Next(es, cursor) == if n < |es| then Some(es[n]) else None
  {
    if n > 0 {
      NextIs(es[1..], cursor, n - 1);
    }
  }

  // ---------------------------------------------------------------- a finite map

  /** Find is determined by its contract on lists without duplicate keys. */
  lemma FindIs<K(!new), V>(ops: KeyOps<K>, es: seq<Entry<K, V>>, k: K, i: nat)
    requires Lawful(ops)
    requires i <= |es| && (i < |es| ==> ops.same(es[i].key, k))
    requires forall j :: 0 <= j < |es| && j != i ==> !ops.same(es[j].key, k)
    ensures Find(ops, es, k) == i
  {
  }

  lemma OnlyOne<K(!new), V>(ops: KeyOps<K>, d: Dict<K, V>, k: K, i: nat, j: nat)
    requires Lawful(ops) && WellFormed(ops, d)
    requires i < |d.entries| && j < |d.entries|
    requires ops.same(d.entries[i].key, k) && ops.same(d.entries[j].key, k)
    ensures i == j
  {
    assert ops.same(k, d.entries[j].key) && ops.same(k, d.entries[i].key);
    assert ops.same(d.entries[i].key, d.entries[j].key) && ops.same(d.entries[j].key, d.entries[i].key);
  }

  lemma SetKeepsWellFormed<K(!new), V>(ops: KeyOps<K>, d: Dict<K, V>, k: K, v: V)
    requires Lawful(ops) && WellFormed(ops, d)
    ensures WellFormed(ops, Set(ops, d, k, v))
  {
  }

  lemma RemoveKeepsWellFormed<K(!new), V>(ops: KeyOps<K>, d: Dict<K, V>, k: K)
    requires Lawful(ops) && WellFormed(ops, d)
    ensures WellFormed(ops, Remove(ops, d, k))
  {
  }

  /** Writing a key is visible under every key that is the same after -0 became 0, and nowhere else. */
  lemma GetAfterSet<K(!new), V>(ops: KeyOps<K>, d: Dict<K, V>, k: K, v: V, k': K)
    requires Lawful(ops) && WellFormed(ops, d)
    ensures Get(ops, Set(ops, d, k, v), k')
         == if ops.same(ops.Norm(k), ops.Norm(k')) then Some(v) else Get(ops, d, k')
  {
    var es, es' := d.entries, Set(ops, d, k, v).entries;
    var n, n' := ops.Norm(k), ops.Norm(k');
    var i, i' := Find(ops, es, n), Find(ops, es, n');
    SetKeepsWellFormed(ops, d, k, v);
    var j := if ops.same(n, n') then i else if i' < |es| then i' else |es'|;
    forall x | 0 <= x < |es'| && x != j ensures !ops.same(es'[x].key, n') {
      if ops.same(es'[x].key, n') {
        if j < |es'| {
          OnlyOne(ops, Set(ops, d, k, v), n', x, j);
        }
      }
    }
    FindIs(ops, es', n', j);
  }

  /** Removing a key removes it, and changes no other key. */
  lemma GetAfterRemove<K(!new), V>(ops: KeyOps<K>, d: Dict<K, V>, k: K, k': K)
    requires Lawful(ops) && WellFormed(ops, d)
    ensures Get(ops, Remove(ops, d, k), k')
         == if ops.same(ops.Norm(k), ops.Norm(k')) then None else Get(ops, d, k')
  {
    var es, d' := d.entries, Remove(ops, d, k);
    var n, n' := ops.Norm(k), ops.Norm(k');
    var i, i' := Find(ops, es, n), Find(ops, es, n');
    RemoveKeepsWellFormed(ops, d, k);
    if i < |es| {
      var j := if i' < i then i' else if i' == i || i' == |es| then |d'.entries| else i' - 1;
      assert ops.same(n, n') <==> i' == i;
      forall x | 0 <= x < |d'.entries| && x != j ensures !ops.same(d'.entries[x].key, n') {
        var y := if x < i then x else x + 1;
        assert d'.entries[x] == es[y];
      }
      hide Lawful, WellFormed;
      FindIs(ops, d'.entries, n', j);
    }
  }

  /** After clear there is no key, and nothing has a place. */
  lemma GetAfterClear<K(!new), V>(ops: KeyOps<K>, d: Dict<K, V>, k: K)
    requires Lawful(ops) && WellFormed(ops, d)
    ensures Get(ops, Clear(d), k) == None && Clear(d).entries == [] && WellFormed(ops, Clear(d))
  {
  }

  /** The keys in the order in which iteration comes to them. */
  function Keys<K, V>(d: Dict<K, V>): (ks: seq<K>)
    ensures |ks| == |d.entries| && forall i :: 0 <= i < |ks| ==> ks[i] == d.entries[i].key
  {
    seq(|d.entries|, i requires 0 <= i < |d.entries| => d.entries[i].key)
  }

  /** Overwriting a key leaves all keys where they are; a new key comes last, and is stored as 0 if it is -0. */
  lemma KeysAfterSet<K(!new), V>(ops: KeyOps<K>, d: Dict<K, V>, k: K, v: V)
    ensures var was, is_ := Keys(d), Keys(Set(ops, d, k, v));
      if exists i :: 0 <= i < |was| && ops.same(was[i], ops.Norm(k)) then is_ == was else is_ == was + [ops.Norm(k)]
  {
    var was, i := Keys(d), Find(ops, d.entries, ops.Norm(k));
    if i < |was| {
      assert ops.same(was[i], ops.Norm(k));
    }
  }

  // ---------------------------------------------------------------- iteration over whole runs

  datatype Cmd<K, V> = DoSet(k: K, v: V) | DoRemove(k: K) | DoClear | DoNext

  /** A map together with one iterator: `cursor` is one more than the number of the entry returned
      last, `limit` the part of the insertion order that has been dealt with. */
  datatype Session<K, V> = Session(d: Dict<K, V>, cursor: nat, closed: bool, limit: nat, out: seq<Option<Entry<K, V>>>)

  function Step<K, V>(ops: KeyOps<K>, s: Session<K, V>, c: Cmd<K, V>): Session<K, V> {
    match c
    case DoSet(k, v) => s.(d := Set(ops, s.d, k, v))
    case DoRemove(k) => s.(d := Remove(ops, s.d, k))
    case DoClear => s.(d := Clear(s.d))
    case DoNext =>
      if s.closed then s.(out := s.out + [None])
      else
        match Next(s.d.entries, s.cursor)
        case None => s.(closed := true, limit := s.d.clock, out := s.out + [None])
        case Some(e) => s.(cursor := e.stamp + 1, limit := e.stamp + 1, out := s.out + [Some(e)])
  }

  function Run<K, V>(ops: KeyOps<K>, s: Session<K, V>, cs: seq<Cmd<K, V>>): Session<K, V>
    decreases |cs|
  {
    if cs == [] then s else Run(ops, Step(ops, s, cs[0]), cs[1..])
  }

  function Start<K, V>(d: Dict<K, V>): Session<K, V> {
    Session(d, 0, false, 0, [])
  }

  /** Some earlier call of the iterator returned the entry numbered `stamp`. */
  ghost predicate Yielded<K, V>(out: seq<Option<Entry<K, V>>>, stamp: nat) {
    exists i :: 0 <= i < |out| && out[i].Some? && out[i].value.stamp == stamp
  }

  ghost predicate Increasing<K, V>(out: seq<Option<Entry<K, V>>>) {
    forall i, j :: 0 <= i < j < |out| && out[i].Some? && out[j].Some? ==> out[i].value.stamp < out[j].value.stamp
  }

  ghost predicate OnceFinished<K, V>(out: seq<Option<Entry<K, V>>>) {
    forall i, j :: 0 <= i < j < |out| && out[i].None? ==> out[j].None?
  }

  ghost predicate IterInv<K(!new), V>(ops: KeyOps<K>, s: Session<K, V>) {
    && WellFormed(ops, s.d)
    && s.limit <= s.d.clock
    && s.cursor <= s.limit
    && (!s.closed ==> s.limit == s.cursor)
    && Increasing(s.out)
    && OnceFinished(s.out)
    && (forall i :: 0 <= i < |s.out| && s.out[i].Some? ==> s.out[i].value.stamp < s.cursor)
    && ((exists i :: 0 <= i < |s.out| && s.out[i].None?) ==> s.closed)
    // everything that is still live in the part dealt with was returned
    && (forall i :: 0 <= i < |s.d.entries| && s.d.entries[i].stamp < s.limit ==> Yielded(s.out, s.d.entries[i].stamp))
  }

  lemma YieldedExtends<K, V>(out: seq<Option<Entry<K, V>>>, x: Option<Entry<K, V>>, stamp: nat)
    requires Yielded(out, stamp) || (x.Some? && x.value.stamp == stamp)
    ensures Yielded(out + [x], stamp)
  {
    if Yielded(out, stamp) {
      var i :| 0 <= i < |out| && out[i].Some? && out[i].value.stamp == stamp;
      assert (out + [x])[i] == out[i];
    } else {
      assert (out + [x])[|out|] == x;
    }
  }

  lemma NextKeepsIterInv<K(!new), V>(ops: KeyOps<K>, s: Session<K, V>)
    requires IterInv(ops, s)
    ensures IterInv(ops, Step(ops, s, DoNext))
  {
    var s' := Step(ops, s, DoNext);
    var r := Next(s.d.entries, s.cursor);
    var x := s'.out[|s.out|];
    assert s'.out == s.out + [x];
    forall i | 0 <= i < |s.d.entries| && s.d.entries[i].stamp < s'.limit
      ensures Yielded(s'.out, s.d.entries[i].stamp)
    {
      YieldedIfPassed(ops, s, i);
      YieldedExtends(s.out, x, s.d.entries[i].stamp);
    }
    assert !s.closed ==> forall i :: 0 <= i < |s.out| ==> s.out[i].Some?;
    assert x.Some? ==> s.cursor <= x.value.stamp;
  }

  lemma YieldedIfPassed<K(!new), V>(ops: KeyOps<K>, s: Session<K, V>, i: nat)
    requires IterInv(ops, s)
    requires i < |s.d.entries| && s.d.entries[i].stamp < Step(ops, s, DoNext).limit
    ensures Yielded(s.out, s.d.entries[i].stamp)
            || (!s.closed && Next(s.d.entries, s.cursor) == Some(s.d.entries[i]))
  {
  }

  lemma StepKeepsIterInv<K(!new), V>(ops: KeyOps<K>, s: Session<K, V>, c: Cmd<K, V>)
    requires Lawful(ops) && IterInv(ops, s)
    ensures IterInv(ops, Step(ops, s, c))
  {
    hide Lawful, Find;
    match c
    case DoSet(k, v) => SetKeepsWellFormed(ops, s.d, k, v);
    case DoRemove(k) => RemoveKeepsWellFormed(ops, s.d, k);
    case DoClear =>
    case DoNext => NextKeepsIterInv(ops, s);
  }

  lemma {:induction false} RunKeepsIterInv<K(!new), V>(ops: KeyOps<K>, s: Session<K, V>, cs: seq<Cmd<K, V>>)
    requires Lawful(ops) && IterInv(ops, s)
    ensures IterInv(ops, Run(ops, s, cs))
    decreases |cs|
  {
    if cs != [] {
      StepKeepsIterInv(ops, s, cs[0]);
      RunKeepsIterInv(ops, Step(ops, s, cs[0]), cs[1..]);
    }
  }

  /** Iteration over any interleaving of set, remove, clear and next: the entries come in insertion
      order and none comes twice; once the end was reported it stays reported; and an entry that is
      live at the end of the run and lies before the point reached (before the end of the insertion
      order, if the iterator finished) was returned. */
  lemma IterationTheorem<K(!new), V>(ops: KeyOps<K>, d: Dict<K, V>, cs: seq<Cmd<K, V>>)
    requires Lawful(ops) && WellFormed(ops, d)
    ensures var s := Run(ops, Start(d), cs);
            && Increasing(s.out)
            && OnceFinished(s.out)
            && (forall i :: 0 <= i < |s.d.entries| && s.d.entries[i].stamp < s.limit
                  ==> Yielded(s.out, s.d.entries[i].stamp))
  {
    RunKeepsIterInv(ops, Start(d), cs);
  }

  /** Every entry that is live, or that the iterator returned after its first n calls, is numbered from `from` on. */
  ghost predicate OnlyFrom<K, V>(s: Session<K, V>, from: nat, n: nat) {
    && from <= s.d.clock
    && n <= |s.out|
    && (forall i :: 0 <= i < |s.d.entries| ==> from <= s.d.entries[i].stamp)
    && (forall i :: n <= i < |s.out| && s.out[i].Some? ==> from <= s.out[i].value.stamp)
  }

  lemma StepKeepsOnlyFrom<K(!new), V>(ops: KeyOps<K>, s: Session<K, V>, c: Cmd<K, V>, from: nat, n: nat)
    requires OnlyFrom(s, from, n)
    ensures OnlyFrom(Step(ops, s, c), from, n) && s.out <= Step(ops, s, c).out
  {
    hide Find;
  }

  lemma {:induction false} RunKeepsOnlyFrom<K(!new), V>(ops: KeyOps<K>, s: Session<K, V>, cs: seq<Cmd<K, V>>, from: nat, n: nat)
    requires OnlyFrom(s, from, n)
    ensures OnlyFrom(Run(ops, s, cs), from, n) && s.out <= Run(ops, s, cs).out
    decreases |cs|
  {
    if cs != [] {
      StepKeepsOnlyFrom(ops, s, cs[0], from, n);
      RunKeepsOnlyFrom(ops, Step(ops, s, cs[0]), cs[1..], from, n);
    }
  }

  /** What an iterator returns after a clear, however far it had come before, was inserted after the clear. */
  lemma IterationAfterClear<K(!new), V>(ops: KeyOps<K>, s: Session<K, V>, cs: seq<Cmd<K, V>>)
    ensures var r := Run(ops, Step(ops, s, DoClear), cs);
      && s.out <= r.out
      && (forall i :: |s.out| <= i < |r.out| && r.out[i].Some? ==> s.d.clock <= r.out[i].value.stamp)
      && (forall i :: 0 <= i < |r.d.entries| ==> s.d.clock <= r.d.entries[i].stamp)
  {
    RunKeepsOnlyFrom(ops, Step(ops, s, DoClear), cs, s.d.clock, |s.out|);
  }
}
