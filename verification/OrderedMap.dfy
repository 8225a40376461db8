/** The ordered hash map: hash chains threaded through the entries, a doubly linked list in insertion
    order, and iterators that survive removals by walking back over dead entries. */
module OrderedMaps {
  import opened Options
  import Spec = OrderedMapSpec

  class MapEntry<K, V> {
    var key: Option<K>  // None once the entry was removed
    var value: Option<V>
    var iterPrev: MapEntry?<K, V>
    var iterNext: MapEntry?<K, V>
    var hNext: MapEntry?<K, V>
    ghost const stamp: nat  // the number of this insertion

    constructor (k: K, v: V, ghost n: nat)
      ensures key == Some(k) && value == Some(v) && stamp == n
      ensures iterPrev == null && iterNext == null && hNext == null
    {
      key, value := Some(k), Some(v);
      iterPrev, iterNext, hNext := null, null, null;
      stamp := n;
    }

    ghost function Abs(): Spec.Entry<K, V>
      reads this`key, this`value
      requires key.Some? && value.Some?
    {
      Spec.Entry(stamp, key.value, value.value)
    }
  }

  class OrderedMap<K(!new), V> {
    const ops: Spec.KeyOps<K>
    var hashTable: map<nat, MapEntry<K, V>>
    var iterFirst: MapEntry?<K, V>
    var iterLast: MapEntry?<K, V>
    var size: nat

    ghost var live: seq<MapEntry<K, V>>               // in insertion order
    ghost var members: set<MapEntry<K, V>>            // the elements of `live`
    ghost var dead: set<MapEntry<K, V>>               // removed, possibly still held by an iterator
    ghost var chains: map<nat, seq<MapEntry<K, V>>>   // the hash chains
    ghost var clock: nat

    /** The doubly linked list is `live`, and `live` is in insertion order. */
    ghost predicate Linked()
      reads this`live, this`members, this`iterFirst, this`iterLast, this`size, this`clock, members`iterPrev, members`iterNext
    {
      && (forall i :: 0 <= i < |live| ==> live[i] in members)
      && (forall i {:trigger live[i].iterPrev} :: 0 <= i < |live| ==> live[i].iterPrev == if i == 0 then null else live[i - 1])
      && (forall i {:trigger live[i].iterNext} :: 0 <= i < |live| ==> live[i].iterNext == if i == |live| - 1 then null else live[i + 1])
      && iterFirst == (if live == [] then null else live[0])
      && iterLast == (if live == [] then null else live[|live| - 1])
      && size == |live|
      && (forall i, j :: 0 <= i < j < |live| ==> live[i].stamp < live[j].stamp)
      && (forall i :: 0 <= i < |live| ==> live[i].stamp < clock)
    }

    ghost predicate Keyed()
      reads this`live, this`members, members`key, members`value
    {
      && (forall i :: 0 <= i < |live| ==> live[i] in members)
      && (forall e :: e in members ==> e in live && e.key.Some? && e.value.Some?)
    }

    /** No live entry lies between a dead entry and the entry its back pointer leads to. */
    ghost predicate BackTracks(e: MapEntry<K, V>)
      reads this`live, this`members, this`dead, this`clock, e`key, e`iterPrev
    {
      && e.key.None?
      && e.stamp < clock
      && (e.iterPrev == null ==> forall i :: 0 <= i < |live| ==> e.stamp < live[i].stamp)
      && (e.iterPrev != null ==>
            && (e.iterPrev in members || e.iterPrev in dead)
            && e.iterPrev.stamp < e.stamp
            && forall i :: 0 <= i < |live| ==> live[i].stamp <= e.iterPrev.stamp || e.stamp < live[i].stamp)
    }

    ghost predicate DeadOk()
      reads this`live, this`members, this`dead, this`clock, dead`key, dead`iterPrev
    {
      forall e :: e in dead ==> BackTracks(e)
    }

    /** `c` holds entries of `l`, oldest first and all of hash h, linked through hNext. */
    ghost predicate ChainOk(h: nat, c: seq<MapEntry<K, V>>, l: set<MapEntry<K, V>>)
      reads l`key, l`hNext
    {
      && c != []
      && (forall i :: 0 <= i < |c| ==> c[i] in l && c[i].key.Some? && ops.hash(c[i].key.value) == h)
      && (forall i {:trigger c[i].hNext} :: 0 <= i < |c| ==> c[i].hNext == if i + 1 < |c| then c[i + 1] else null)
      && (forall i, j :: 0 <= i < j < |c| ==> c[i] != c[j])
    }

    /** The hash table leads to the chains, and every entry of `l` is in the chain of its hash. */
    ghost predicate Chained(l: set<MapEntry<K, V>>)
      reads this`hashTable, this`chains, l`key, l`hNext
    {
      && chains.Keys == hashTable.Keys
      && (forall h :: h in chains ==> ChainOk(h, chains[h], l) && hashTable[h] == chains[h][0])
      && (forall e :: e in l ==> e.key.Some? && ops.hash(e.key.value) in chains && e in chains[ops.hash(e.key.value)])
    }

    ghost predicate Valid()
      reads this, members, dead
    {
      && Spec.Lawful(ops)
      && Linked()
      && Keyed()
      && DeadOk()
      && Chained(members)
      && Spec.WellFormed(ops, Model())
    }

    ghost function Model(): Spec.Dict<K, V>
      reads this`live, this`members, this`clock, members`key, members`value
      requires Keyed()
    {
      Spec.Dict(Snapshot(live, members), clock)
    }

    static ghost function Snapshot(l: seq<MapEntry<K, V>>, m: set<MapEntry<K, V>>): (es: seq<Spec.Entry<K, V>>)
      reads m`key, m`value
      requires forall i :: 0 <= i < |l| ==> l[i] in m
      requires forall e :: e in m ==> e.key.Some? && e.value.Some?
      ensures |es| == |l| && forall i :: 0 <= i < |l| ==> es[i] == l[i].Abs()
    {
      if l == [] then [] else Snapshot(l[..|l| - 1], m) + [l[|l| - 1].Abs()]
    }

    /** Every entry this map ever had. */
    ghost function Entries(): set<MapEntry<K, V>>
      reads this`members, this`dead
    {
      members + dead
    }

    constructor (o: Spec.KeyOps<K>)
      requires Spec.Lawful(o)
      ensures Valid() && ops == o && Model() == Spec.Dict([], 0) && Entries() == {}
    {
      ops := o;
      hashTable := map[];
      iterFirst, iterLast, size := null, null, 0;
      live, members, dead, chains, clock := [], {}, {}, map[], 0;
    }

    /** The bucket of `key`, its entry if any, and the entry before it in the chain. */
    method Lookup(key: K) returns (h: nat, entry: MapEntry?<K, V>, hPrev: MapEntry?<K, V>, ghost j: nat)
      requires Spec.Lawful(ops) && Chained(members)
      ensures h == ops.hash(ops.Norm(key))
      ensures entry == null ==>
        && (forall e :: e in members ==> e.key.Some? && !ops.same(e.key.value, ops.Norm(key)))
        && (hPrev == null ==> h !in chains)
        && (hPrev != null ==> h in chains && hPrev == chains[h][|chains[h]| - 1])
      ensures entry != null ==>
        && h in chains && j < |chains[h]| && entry == chains[h][j]
        && entry in members && entry.key.Some? && ops.same(entry.key.value, ops.Norm(key))
        && (hPrev == null ==> j == 0)
        && (hPrev != null ==> 0 < j && hPrev == chains[h][j - 1])
    {
      var k := if ops.isNegZero(key) then ops.zero else key;
      h := ops.hash(k);
      entry := if h in hashTable then hashTable[h] else null;
      hPrev, j := null, 0;
      ghost var chain := if h in chains then chains[h] else [];
      assert chain != [] ==> ChainOk(h, chain, members);
      while entry != null && !ops.same(entry.key.value, k)
        invariant 0 <= j <= |chain|
        invariant entry == if j < |chain| then chain[j] else null
        invariant hPrev == if j == 0 then null else chain[j - 1]
        invariant forall i :: 0 <= i < j ==> !ops.same(chain[i].key.value, k)
        decreases |chain| - j
      {
        assert chain[j].hNext == if j + 1 < |chain| then chain[j + 1] else null;
        hPrev, entry, j := entry, entry.hNext, j + 1;
      }
      if entry == null {
        forall e | e in members ensures e.key.Some? && !ops.same(e.key.value, k) {
          assert ops.hash(e.key.value) == h ==> e in chain;
        }
      }
    }

    /** An entry found by Lookup is the one the reference model finds. */
    lemma FoundIs(e: MapEntry<K, V>, k: K) returns (i: nat)
      requires Spec.Lawful(ops) && Keyed() && Spec.WellFormed(ops, Model())
      requires e in members && ops.same(e.key.value, k)
      ensures i < |live| == |Model().entries| && live[i] == e && Model().entries[i] == e.Abs()
      ensures i == Spec.Find(ops, Model().entries, k)
      ensures forall j :: 0 <= j < |live| && j != i ==> live[j] != e
    {
      i :| 0 <= i < |live| && live[i] == e;
      var f := Spec.Find(ops, Model().entries, k);
      assert ops.same(Model().entries[i].key, k);
      Spec.OnlyOne(ops, Model(), k, i, f);
      forall j | 0 <= j < |live| && j != i ensures live[j] != e {
        assert Model().entries[j] == live[j].Abs();
      }
    }

    lemma NotFoundIs(k: K)
      requires Keyed()
      requires forall e :: e in members ==> !ops.same(e.key.value, k)
      ensures Spec.Find(ops, Model().entries, k) == |live| == |Model().entries| && Model().clock == clock
    {
      var es := Model().entries;
      assert forall i :: 0 <= i < |es| ==> es[i].key == live[i].key.value;
    }

    method Get(key: K) returns (v: Option<V>)
      requires Valid()
      ensures v == Spec.Get(ops, Model(), key)
    {
      var _, entry, _, _ := Lookup(key);
      if entry != null {
        ghost var i := FoundIs(entry, ops.Norm(key));
        return entry.value;
      }
      NotFoundIs(ops.Norm(key));
      return None;
    }

    method Has(key: K) returns (b: bool)
      requires Valid()
      ensures b == Spec.Get(ops, Model(), key).Some?
    {
      hide Linked, Keyed, DeadOk, Chained, Model, Spec.Lawful, Spec.WellFormed, Spec.Find;
      var _, entry, _, _ := Lookup(key);
      if entry != null {
        ghost var i := FoundIs(entry, ops.Norm(key));
      } else {
        NotFoundIs(ops.Norm(key));
      }
      return entry != null;
    }

    /** Appends a new entry to the linked list. */
    method LinkLast(entry: MapEntry<K, V>)
      requires Linked() && entry !in members
      requires entry.iterPrev == null && entry.iterNext == null && entry.stamp == clock
      modifies this`iterFirst, this`iterLast, this`size, this`live, this`members, this`clock, entry`iterPrev, members`iterNext
      ensures Linked()
      ensures live == old(live) + [entry] && members == old(members) + {entry} && clock == old(clock) + 1
    {
      if iterLast != null {
        entry.iterPrev := iterLast;
        iterLast.iterNext := entry;
      } else {
        iterFirst := entry;
      }
      iterLast := entry;
      size := size + 1;
      live, members, clock := live + [entry], members + {entry}, clock + 1;
    }

    /** A new entry comes after every dead one, so it cannot lie behind a back pointer. */
    twostate lemma DeadOkAfterAppend(new entry: MapEntry<K, V>)
      requires old(DeadOk()) && dead == old(dead) && entry.stamp == old(clock)
      requires live == old(live) + [entry] && members == old(members) + {entry} && clock == old(clock) + 1
      requires forall e :: e in dead ==> e.key == old(e.key) && e.iterPrev == old(e.iterPrev)
      ensures DeadOk()
    {
      forall e | e in dead ensures BackTracks(e) {
        assert old(BackTracks(e));
      }
    }

    /** What appending an entry does to the reference model. */
    twostate lemma Appended(new entry: MapEntry<K, V>)
      requires old(Keyed()) && entry.key.Some? && entry.value.Some?
      requires live == old(live) + [entry] && members == old(members) + {entry} && clock == old(clock) + 1
      requires forall e :: e in old(members) ==> e.key == old(e.key) && e.value == old(e.value)
      ensures Keyed()
      ensures Model() == Spec.Dict(old(Model()).entries + [entry.Abs()], old(clock) + 1)
    {
      hide Snapshot;
      assert Model().entries == old(Model()).entries + [entry.Abs()];
    }

    /** Appends a new entry to the chain of its hash. */
    method ChainLast(h: nat, hPrev: MapEntry?<K, V>, entry: MapEntry<K, V>, ghost l: set<MapEntry<K, V>>)
      requires Chained(l) && entry !in l
      requires hPrev == null ==> h !in chains
      requires hPrev != null ==> h in chains && hPrev == chains[h][|chains[h]| - 1]
      requires entry.key.Some? && ops.hash(entry.key.value) == h && entry.hNext == null
      modifies this`hashTable, this`chains, l`hNext
      ensures Chained(l + {entry})
    {
      if hPrev == null {
        hashTable := hashTable[h := entry];
      } else {
        assert ChainOk(h, chains[h], l);
        hPrev.hNext := entry;
      }
      chains := chains[h := (if h in chains then chains[h] else []) + [entry]];
      ChainedAfterAppend(h, entry, l);
    }

    /** The table still leads to the heads of the chains, and nothing drops out of a chain. */
    static lemma TableAfterAppend(cs: map<nat, seq<MapEntry<K, V>>>, t: map<nat, MapEntry<K, V>>, h: nat, entry: MapEntry<K, V>)
      requires cs.Keys == t.Keys && forall g :: g in cs ==> cs[g] != [] && t[g] == cs[g][0]
      ensures var cs' := cs[h := (if h in cs then cs[h] else []) + [entry]];
        var t' := if h in cs then t else t[h := entry];
        && cs'.Keys == t'.Keys && (forall g :: g in cs' ==> cs'[g] != [] && t'[g] == cs'[g][0])
        && (forall g, e :: g in cs && e in cs[g] ==> e in cs'[g])
        && entry in cs'[h]
    {
    }

    twostate lemma ChainedAfterAppend(new h: nat, new entry: MapEntry<K, V>, new l: set<MapEntry<K, V>>)
      requires forall e :: e in l ==> old(allocated(e))
      requires old(Chained(l)) && entry !in l
      requires entry.key.Some? && ops.hash(entry.key.value) == h && entry.hNext == null
      requires forall e :: e in l ==> e.key == old(e.key)
      requires chains == old(chains)[h := (if h in old(chains) then old(chains)[h] else []) + [entry]]
      requires h in old(chains) ==> old(chains)[h] != [] && old(chains)[h][|old(chains)[h]| - 1].hNext == entry
      requires hashTable == if h in old(chains) then old(hashTable) else old(hashTable)[h := entry]
      requires forall e :: e in l && (h in old(chains) ==> e != old(chains)[h][|old(chains)[h]| - 1]) ==> e.hNext == old(e.hNext)
      ensures Chained(l + {entry})
    {
      forall g | g in old(chains) ensures old(ChainOk(g, chains[g], l)) && old(chains)[g] != [] {
      }
      hide ChainOk;
      TableAfterAppend(old(chains), old(hashTable), h, entry);
      ChainsAfterAppend(h, entry, l);
    }

    twostate lemma ChainsAfterAppend(new h: nat, new entry: MapEntry<K, V>, new l: set<MapEntry<K, V>>)
      requires forall e :: e in l ==> old(allocated(e))
      requires (forall g :: g in old(chains) ==> old(ChainOk(g, chains[g], l))) && entry !in l
      requires entry.key.Some? && ops.hash(entry.key.value) == h && entry.hNext == null
      requires forall e :: e in l ==> e.key == old(e.key)
      requires chains == old(chains)[h := (if h in old(chains) then old(chains)[h] else []) + [entry]]
      requires h in old(chains) ==> old(chains)[h] != [] && old(chains)[h][|old(chains)[h]| - 1].hNext == entry
      requires forall e :: e in l && (h in old(chains) ==> e != old(chains)[h][|old(chains)[h]| - 1]) ==> e.hNext == old(e.hNext)
      ensures forall g :: g in chains ==> ChainOk(g, chains[g], l + {entry})
    {
      hide ChainOk;
      forall g | g in chains ensures ChainOk(g, chains[g], l + {entry}) {
        if g in old(chains) {
          ChainAfterAppend(g, h, entry, l);
        } else {
          assert chains[g] == [entry];
          NewChain(g, entry, l);
        }
      }
    }

    lemma NewChain(h: nat, entry: MapEntry<K, V>, l: set<MapEntry<K, V>>)
      requires entry.key.Some? && ops.hash(entry.key.value) == h && entry.hNext == null
      ensures ChainOk(h, [entry], l + {entry})
    {
    }

    twostate lemma ChainAfterAppend(new g: nat, new h: nat, new entry: MapEntry<K, V>, new l: set<MapEntry<K, V>>)
      requires forall e :: e in l ==> old(allocated(e))
      requires g in old(chains) && old(ChainOk(g, chains[g], l)) && entry !in l && g in chains
      requires entry.key.Some? && ops.hash(entry.key.value) == h && entry.hNext == null
      requires forall e :: e in l ==> e.key == old(e.key)
      requires chains[g] == if g == h then old(chains)[g] + [entry] else old(chains)[g]
      requires h in old(chains) ==> old(ChainOk(h, chains[h], l)) && old(chains)[h][|old(chains)[h]| - 1].hNext == entry
      requires forall e :: e in l && (h in old(chains) ==> e != old(chains)[h][|old(chains)[h]| - 1]) ==> e.hNext == old(e.hNext)
      ensures ChainOk(g, chains[g], l + {entry})
    {
    }

    /** Adds an entry for a key that has none; Lookup gave its hash and the end of its chain. */
    method Insert(h: nat, hPrev: MapEntry?<K, V>, added: MapEntry<K, V>, ghost k: K, ghost v: V)
      requires Linked() && Keyed() && DeadOk() && Chained(members)
      requires hPrev == null ==> h !in chains
      requires hPrev != null ==> h in chains && hPrev == chains[h][|chains[h]| - 1]
      requires added !in members && added !in dead && added.stamp == clock
      requires added.key == Some(k) && added.value == Some(v) && ops.hash(k) == h
      requires added.iterPrev == null && added.iterNext == null && added.hNext == null
      modifies this`hashTable, this`chains, this`iterFirst, this`iterLast, this`size, this`live, this`members, this`clock
      modifies added`iterPrev, members`iterNext, members`hNext
      ensures Linked() && Keyed() && DeadOk() && Chained(members)
      ensures Model() == Spec.Dict(old(Model()).entries + [Spec.Entry(old(clock), k, v)], old(clock) + 1)
      ensures members == old(members) + {added}
    {
      hide Linked, Keyed, DeadOk, Chained, Model;
      ChainLast(h, hPrev, added, members);
      LinkNew(added, k, v);
    }

    method LinkNew(added: MapEntry<K, V>, ghost k: K, ghost v: V)
      requires Linked() && Keyed() && DeadOk()
      requires added !in members && added !in dead && added.stamp == clock
      requires added.key == Some(k) && added.value == Some(v) && added.iterPrev == null && added.iterNext == null
      modifies this`iterFirst, this`iterLast, this`size, this`live, this`members, this`clock, added`iterPrev, members`iterNext
      ensures Linked() && Keyed() && DeadOk()
      ensures Model() == Spec.Dict(old(Model()).entries + [Spec.Entry(old(clock), k, v)], old(clock) + 1)
      ensures members == old(members) + {added}
    {
      hide Linked, Keyed, DeadOk, Model;
      LinkLast(added);
      DeadOkAfterAppend(added);
      Appended(added);
    }

    method Overwrite(entry: MapEntry<K, V>, value: V, ghost i: nat)
      requires Keyed() && i < |live| && live[i] == entry && DeadOk()
      requires forall j :: 0 <= j < |live| && j != i ==> live[j] != entry
      modifies members`value
      ensures Keyed()
      ensures Model() == old(Model()).(entries := old(Model()).entries[i := old(Model()).entries[i].(value := value)])
    {
      entry.value := Some(value);
      var es := Model().entries;
      assert es == old(Model()).entries[i := old(Model()).entries[i].(value := value)];
    }

    method Set(key: K, value: V)
      requires Valid()
      modifies this, members
      ensures Valid()
      ensures Model() == Spec.Set(ops, old(Model()), key, value)
      ensures Entries() >= old(Entries()) && fresh(Entries() - old(Entries()))
    {
      hide Linked, Keyed, DeadOk, Chained, Model, Spec.Lawful, Spec.WellFormed, Spec.Find;
      var h, entry, hPrev, j := Lookup(key);
      Spec.SetKeepsWellFormed(ops, Model(), key, value);
      if entry != null {
        ghost var i := FoundIs(entry, ops.Norm(key));
        Overwrite(entry, value, i);
      } else {
        NotFoundIs(ops.Norm(key));
        var k := if ops.isNegZero(key) then ops.zero else key;
        var added := new MapEntry(k, value, clock);
        Insert(h, hPrev, added, k, value);
      }
    }

    /** Takes the entry at position i of the list out of the linked list. */
    method Unlink(entry: MapEntry<K, V>, ghost i: nat, ghost rest: seq<MapEntry<K, V>>)
      requires Linked() && i < |live| && entry == live[i]
      requires Spec.IsWithout(live, i, rest)
      modifies this`iterFirst, this`iterLast, this`size, this`live, this`members, members`iterPrev, members`iterNext
      ensures live == rest && members == old(members) - {entry} && Linked()
      ensures entry.iterPrev == old(entry.iterPrev)
    {
      hide Linked;
      UnlinkPointers(entry, i);
      size := size - 1;
      live, members := rest, members - {entry};
      RelinkedNext(i);
      RelinkedPrev(i);
      Relinked(i);
    }

    method UnlinkPointers(entry: MapEntry<K, V>, ghost i: nat)
      requires Linked() && i < |live| && entry == live[i]
      modifies this`iterFirst, this`iterLast, members`iterPrev, members`iterNext
      ensures forall e :: e in members && (i == 0 || e != live[i - 1]) ==> e.iterNext == old(e.iterNext)
      ensures forall e :: e in members && (i + 1 == |live| || e != live[i + 1]) ==> e.iterPrev == old(e.iterPrev)
      ensures i > 0 ==> live[i - 1] != entry && live[i - 1].iterNext == old(entry.iterNext) && iterFirst == old(iterFirst)
      ensures i == 0 ==> iterFirst == old(entry.iterNext)
      ensures i + 1 < |live| ==> live[i + 1] != entry && live[i + 1].iterPrev == old(entry.iterPrev) && iterLast == old(iterLast)
      ensures i + 1 == |live| ==> iterLast == old(entry.iterPrev)
      ensures size == |live|
    {
      assert i > 0 ==> live[i - 1].stamp < entry.stamp;
      assert i + 1 < |live| ==> entry.stamp < live[i + 1].stamp;
      assert entry.iterPrev == if i == 0 then null else live[i - 1];
      assert entry.iterNext == if i == |live| - 1 then null else live[i + 1];
      if entry.iterPrev != null {
        entry.iterPrev.iterNext := entry.iterNext;
      } else {
        iterFirst := entry.iterNext;
      }
      if entry.iterNext != null {
        entry.iterNext.iterPrev := entry.iterPrev;
      } else {
        iterLast := entry.iterPrev;
      }
    }

    /** A list in insertion order stays in insertion order, and does not hold the removed entry any more. */
    static lemma StillSorted(was: seq<MapEntry<K, V>>, i: nat, rest: seq<MapEntry<K, V>>)
      requires i < |was| && Spec.IsWithout(was, i, rest)
      requires forall x, y :: 0 <= x < y < |was| ==> was[x].stamp < was[y].stamp
      ensures forall x, y :: 0 <= x < y < |rest| ==> rest[x].stamp < rest[y].stamp
      ensures forall x :: 0 <= x < |rest| ==> rest[x] != was[i]
    {
      forall x, y | 0 <= x < y < |rest| ensures rest[x].stamp < rest[y].stamp {
        assert rest[x] == was[if x < i then x else x + 1] && rest[y] == was[if y < i then y else y + 1];
      }
      forall x | 0 <= x < |rest| ensures rest[x] != was[i] {
        assert rest[x] == was[if x < i then x else x + 1];
      }
    }

    twostate lemma RelinkedNext(new i: nat)
      requires old(Linked()) && i < |old(live)| && Spec.IsWithout(old(live), i, live)
      requires forall e :: e in old(members) && (i == 0 || e != old(live)[i - 1]) ==> e.iterNext == old(e.iterNext)
      requires i > 0 ==> old(live)[i - 1].iterNext == old(live[i].iterNext)
      ensures forall k {:trigger live[k].iterNext} :: 0 <= k < |live| ==> live[k].iterNext == if k == |live| - 1 then null else live[k + 1]
    {
      var was := old(live);
      forall k {:trigger live[k].iterNext} | 0 <= k < |live|
        ensures live[k].iterNext == if k == |live| - 1 then null else live[k + 1]
      {
        var o := if k < i then k else k + 1;
        assert live[k] == was[o];
        assert old(was[o].iterNext) == if o == |was| - 1 then null else was[o + 1];
        if o == i - 1 {
          assert old(was[i].iterNext) == if i == |was| - 1 then null else was[i + 1];
        } else if i > 0 {
          assert was[o].stamp != was[i - 1].stamp;
        }
      }
    }

    twostate lemma RelinkedPrev(new i: nat)
      requires old(Linked()) && i < |old(live)| && Spec.IsWithout(old(live), i, live)
      requires forall e :: e in old(members) && (i + 1 == |old(live)| || e != old(live)[i + 1]) ==> e.iterPrev == old(e.iterPrev)
      requires i + 1 < |old(live)| ==> old(live)[i + 1].iterPrev == old(live[i].iterPrev)
      ensures forall k {:trigger live[k].iterPrev} :: 0 <= k < |live| ==> live[k].iterPrev == if k == 0 then null else live[k - 1]
    {
      var was := old(live);
      forall k {:trigger live[k].iterPrev} | 0 <= k < |live|
        ensures live[k].iterPrev == if k == 0 then null else live[k - 1]
      {
        if k < i {
          assert live[k] == was[k] && (k > 0 ==> live[k - 1] == was[k - 1]);
          assert i + 1 < |was| ==> was[k].stamp < was[i + 1].stamp;
          assert old(was[k].iterPrev) == if k == 0 then null else was[k - 1];
        } else if k == i {
          assert live[k] == was[i + 1] && (i > 0 ==> live[i - 1] == was[i - 1]);
          assert old(was[i].iterPrev) == if i == 0 then null else was[i - 1];
        } else {
          assert live[k] == was[k + 1] && live[k - 1] == was[k];
          assert was[i + 1].stamp < was[k + 1].stamp;
          assert old(was[k + 1].iterPrev) == was[k];
        }
      }
    }

    twostate lemma Relinked(new i: nat)
      requires old(Linked()) && i < |old(live)| && Spec.IsWithout(old(live), i, live)
      requires members == old(members) - {old(live)[i]} && clock == old(clock) && size == old(size) - 1
      requires forall k {:trigger live[k].iterNext} :: 0 <= k < |live| ==> live[k].iterNext == if k == |live| - 1 then null else live[k + 1]
      requires forall k {:trigger live[k].iterPrev} :: 0 <= k < |live| ==> live[k].iterPrev == if k == 0 then null else live[k - 1]
      requires i > 0 ==> iterFirst == old(iterFirst)
      requires i == 0 ==> iterFirst == old(live[0].iterNext)
      requires i + 1 < |old(live)| ==> iterLast == old(iterLast)
      requires i + 1 == |old(live)| ==> iterLast == old(live[i].iterPrev)
      ensures Linked()
    {
      StillSorted(old(live), i, live);
    }

    /** Takes the entry at position j of the chain of hash h out of that chain. */
    method Unchain(h: nat, entry: MapEntry<K, V>, hPrev: MapEntry?<K, V>, ghost j: nat, ghost rest: seq<MapEntry<K, V>>)
      requires Chained(members)
      requires h in chains && j < |chains[h]| && entry == chains[h][j]
      requires Spec.IsWithout(chains[h], j, rest)
      requires hPrev == null ==> j == 0
      requires hPrev != null ==> 0 < j && hPrev == chains[h][j - 1]
      modifies this`hashTable, this`chains, members`hNext
      ensures Chained(members - {entry})
    {
      hide Chained, ChainOk;
      ghost var c := chains[h];
      ChainsOk();
      UnchainPointers(h, entry, hPrev, j, c);
      chains := if rest == [] then chains - {h} else chains[h := rest];
      RestOk(h, j, rest);
      forall g | g in chains && g != h ensures ChainOk(g, chains[g], members - {entry}) {
        OtherChainOk(h, j, g);
      }
      Unchained(h, j, rest);
    }

    lemma ChainsOk()
      requires Chained(members)
      ensures chains.Keys == hashTable.Keys && forall h :: h in chains ==> ChainOk(h, chains[h], members)
    {
    }

    method UnchainPointers(h: nat, entry: MapEntry<K, V>, hPrev: MapEntry?<K, V>, ghost j: nat, ghost c: seq<MapEntry<K, V>>)
      requires ChainOk(h, c, members) && h in hashTable
      requires j < |c| && entry == c[j]
      requires hPrev == null ==> j == 0
      requires hPrev != null ==> 0 < j && hPrev == c[j - 1]
      modifies this`hashTable, members`hNext
      ensures forall e :: e in members && (j == 0 || e != c[j - 1]) ==> e.hNext == old(e.hNext)
      ensures j > 0 ==> c[j - 1].hNext == old(entry.hNext) && hashTable == old(hashTable)
      ensures j == 0 && |c| > 1 ==> hashTable == old(hashTable)[h := c[1]]
      ensures j == 0 && |c| == 1 ==> hashTable == old(hashTable) - {h}
    {
      assert c[j].hNext == if j + 1 < |c| then c[j + 1] else null;
      if hPrev == null {
        if entry.hNext == null {
          hashTable := hashTable - {h};
        } else {
          hashTable := hashTable[h := entry.hNext];
        }
      } else {
        hPrev.hNext := entry.hNext;
      }
    }

    /** What UnchainPointers leaves of the chain pointers. */
    twostate predicate Bypassed(new h: nat, new j: nat)
      reads this`members, members`key, members`hNext
      requires h in old(chains) && j < |old(chains)[h]| && old(ChainOk(h, chains[h], members))
    {
      var c := old(chains)[h];
      && members == old(members)
      && (forall e :: e in members ==> e.key == old(e.key))
      && (forall e :: e in members && (j == 0 || e != c[j - 1]) ==> e.hNext == old(e.hNext))
      && (j > 0 ==> c[j - 1].hNext == old(c[j].hNext))
    }

    /** The chain without its entry j, once the pointer around that entry is in place. */
    twostate lemma RestOk(new h: nat, new j: nat, new rest: seq<MapEntry<K, V>>)
      requires h in old(chains) && j < |old(chains)[h]| && old(ChainOk(h, chains[h], members)) && Bypassed(h, j)
      requires Spec.IsWithout(old(chains)[h], j, rest)
      ensures rest != [] ==> ChainOk(h, rest, members - {old(chains)[h][j]})
    {
      var c := old(chains)[h];
      forall i | 0 <= i < |rest|
        ensures rest[i] in members - {c[j]} && rest[i].key.Some? && ops.hash(rest[i].key.value) == h
        ensures rest[i].hNext == if i + 1 < |rest| then rest[i + 1] else null
      {
        var o := if i < j then i else i + 1;
        assert rest[i] == c[o] && c[o] != c[j];
        assert old(c[o].hNext) == if o + 1 < |c| then c[o + 1] else null;
        if o == j - 1 {
          assert old(c[j].hNext) == if j + 1 < |c| then c[j + 1] else null;
        }
      }
      forall x, y | 0 <= x < y < |rest| ensures rest[x] != rest[y] {
        assert rest[x] == c[if x < j then x else x + 1] && rest[y] == c[if y < j then y else y + 1];
      }
    }

    /** The other chains do not notice. */
    twostate lemma OtherChainOk(new h: nat, new j: nat, new g: nat)
      requires h in old(chains) && j < |old(chains)[h]| && old(ChainOk(h, chains[h], members)) && Bypassed(h, j)
      requires g in old(chains) && old(ChainOk(g, chains[g], members)) && g != h
      ensures ChainOk(g, old(chains)[g], members - {old(chains)[h][j]})
    {
      var c, d := old(chains)[h], old(chains)[g];
      forall i | 0 <= i < |d| ensures d[i] in members - {c[j]} && d[i].hNext == old(d[i].hNext) {
        assert ops.hash(d[i].key.value) == g;
        assert j > 0 ==> ops.hash(c[j - 1].key.value) == h;
      }
    }

    twostate lemma Unchained(new h: nat, new j: nat, new rest: seq<MapEntry<K, V>>)
      requires old(Chained(members)) && members == old(members)
      requires h in old(chains) && j < |old(chains)[h]| && Spec.IsWithout(old(chains)[h], j, rest)
      requires forall e :: e in members ==> e.key == old(e.key)
      requires chains == if rest == [] then old(chains) - {h} else old(chains)[h := rest]
      requires forall g :: g in chains ==> ChainOk(g, chains[g], members - {old(chains)[h][j]})
      requires j > 0 ==> hashTable == old(hashTable)
      requires j == 0 && rest != [] ==> hashTable == old(hashTable)[h := rest[0]]
      requires j == 0 && rest == [] ==> hashTable == old(hashTable) - {h}
      ensures Chained(members - {old(chains)[h][j]})
    {
      var c := old(chains)[h];
      forall e | e in members && e != c[j] && ops.hash(e.key.value) == h ensures e in rest {
        var n :| 0 <= n < |c| && c[n] == e;
        assert rest[if n < j then n else n - 1] == e;
      }
    }

    method Remove(key: K) returns (found: bool)
      requires Valid()
      modifies this, members
      ensures Valid()
      ensures Model() == Spec.Remove(ops, old(Model()), key)
      ensures found == Spec.Get(ops, old(Model()), key).Some?
      ensures Entries() == old(Entries())
    {
      hide Linked, Keyed, DeadOk, Chained, Model, Spec.Lawful, Spec.WellFormed, Spec.Find;
      var h, entry, hPrev, j := Lookup(key);
      if entry == null {
        NotFoundIs(ops.Norm(key));
        return false;
      }
      ghost var i := FoundIs(entry, ops.Norm(key));
      Spec.RemoveKeepsWellFormed(ops, Model(), key);
      Detach(h, entry, hPrev, i, j);
      return true;
    }

    /** Kills the entry at position i of the list and position j of its chain. */
    method Detach(h: nat, entry: MapEntry<K, V>, hPrev: MapEntry?<K, V>, ghost i: nat, ghost j: nat)
      requires Linked() && Keyed() && DeadOk() && Chained(members)
      requires i < |live| && live[i] == entry
      requires h in chains && j < |chains[h]| && entry == chains[h][j]
      requires hPrev == null ==> j == 0
      requires hPrev != null ==> 0 < j && hPrev == chains[h][j - 1]
      modifies this, members
      ensures Linked() && Keyed() && DeadOk() && Chained(members)
      ensures Model() == old(Model()).(entries := Spec.Without(old(Model()).entries, i))
      ensures Entries() == old(Entries())
    {
      hide Linked, Keyed, DeadOk, Chained, Model;
      ghost var rest := Spec.Without(live, i);
      BeforeDetach(i, rest);
      Unchain(h, entry, hPrev, j, Spec.Without(chains[h], j));
      Unlink(entry, i, rest);
      entry.key := None;
      entry.value := None;
      dead := dead + {entry};
      KeyedAfterDetach(i);
      DeadOkAfterDetach(i);
    }

    lemma BeforeDetach(i: nat, rest: seq<MapEntry<K, V>>)
      requires Linked() && Keyed() && DeadOk() && i < |live| && Spec.IsWithout(live, i, rest)
      ensures live[i] in members
      ensures forall e :: e in dead ==> e !in members
      ensures live[i].iterPrev == if i == 0 then null else live[i - 1]
      ensures forall k :: 0 <= k < |rest| ==> rest[k] in members && rest[k] != live[i]
      ensures forall e :: e in members && e != live[i] ==> e in rest
    {
      forall e | e in members && e != live[i] ensures e in rest {
        var n :| 0 <= n < |live| && live[n] == e;
        assert rest[if n < i then n else n - 1] == e;
      }
      forall e | e in dead ensures e !in members {
        assert BackTracks(e);
      }
      forall k | 0 <= k < |rest| ensures rest[k] in members && rest[k] != live[i] {
        assert rest[k] == live[if k < i then k else k + 1];
      }
    }

    twostate lemma KeyedAfterDetach(new i: nat)
      requires old(Keyed()) && i < |old(live)| && Spec.IsWithout(old(live), i, live) && clock == old(clock)
      requires members == old(members) - {old(live)[i]}
      requires forall k :: 0 <= k < |live| ==> live[k] in members
      requires forall e :: e in members ==> e in live
      requires forall e :: e in members ==> e.key == old(e.key) && e.value == old(e.value)
      ensures Keyed()
      ensures Model() == old(Model()).(entries := Spec.Without(old(Model()).entries, i))
    {
      hide Snapshot;
      assert Model().entries == Spec.Without(old(Model()).entries, i);
    }

    twostate lemma DeadOkAfterDetach(new i: nat)
      requires old(Linked()) && old(DeadOk()) && i < |old(live)| && clock == old(clock)
      requires Spec.IsWithout(old(live), i, live)
      requires members == old(members) - {old(live)[i]} && dead == old(dead) + {old(live)[i]}
      requires old(live)[i].key == None && old(live)[i].iterPrev == if i == 0 then null else old(live)[i - 1]
      requires forall e :: e in old(dead) ==> e.key == old(e.key) && e.iterPrev == old(e.iterPrev)
      ensures DeadOk()
    {
      forall k | 0 <= k < |live| ensures live[k] in old(live) && (k < i ==> live[k] == old(live)[k]) && (k >= i ==> live[k] == old(live)[k + 1]) {
      }
      forall e | e in dead ensures BackTracks(e) {
        if e in old(dead) {
          assert old(BackTracks(e));
        }
      }
    }

    /** The loop of Clear: every entry loses its key, and all forward links go. */
    method KillAll()
      requires Linked()
      modifies members`key, members`value, members`iterNext
      ensures forall i :: 0 <= i < |live| ==> live[i].key.None?
    {
      var item := iterFirst;
      ghost var n := 0;
      assert forall i :: 0 <= i < |live| ==> live[i] in members && live[i].iterPrev == if i == 0 then null else live[i - 1];
      assert forall i {:trigger live[i].iterNext} :: 0 <= i < |live| ==> live[i].iterNext == if i == |live| - 1 then null else live[i + 1];
      assert forall i, j :: 0 <= i < j < |live| ==> live[i] != live[j] by {
        assert forall i, j :: 0 <= i < j < |live| ==> live[i].stamp < live[j].stamp;
      }
      hide Linked;
      while item != null
        invariant 0 <= n <= |live|
        invariant item == if n < |live| then live[n] else null
        invariant forall i :: 0 <= i < n ==> live[i].key.None?
        invariant forall i {:trigger live[i].iterNext} :: n <= i < |live| ==> live[i].iterNext == old(live[i].iterNext)
        decreases |live| - n
      {
        KillOne(item, n);
        item, n := item.iterNext, n + 1;
      }
    }

    method KillOne(item: MapEntry<K, V>, ghost n: nat)
      requires n < |live| && live[n] == item && item.iterPrev == if n == 0 then null else live[n - 1]
      requires item in members && (n > 0 ==> live[n - 1] in members)
      requires forall i :: n <= i < |live| && n > 0 ==> live[i] != live[n - 1]
      modifies item`key, item`value, members`iterNext
      ensures item.key.None?
      ensures forall i {:trigger live[i].iterNext} :: n <= i < |live| ==> live[i].iterNext == old(live[i].iterNext)
    {
      item.key := None;
      item.value := None;
      if item.iterPrev != null {
        item.iterPrev.iterNext := null;
      }
    }

    method Clear()
      requires Valid()
      modifies this, members
      ensures Valid()
      ensures Model() == Spec.Clear(old(Model())) && live == [] && size == 0
      ensures Entries() == old(Entries())
    {
      hide Linked, DeadOk, Chained, Spec.Lawful;
      BeforeClear();
      KillAll();
      iterFirst, iterLast := null, null;
      hashTable, chains := map[], map[];
      size := 0;
      dead := dead + members;
      live, members := [], {};
      AfterClear();
    }

    lemma BeforeClear()
      requires Linked() && Keyed() && DeadOk()
      ensures forall e :: e in dead ==> e !in members
    {
      forall e | e in dead ensures e !in members {
        assert BackTracks(e);
      }
    }

    twostate lemma AfterClear()
      requires old(Linked()) && old(Keyed()) && old(DeadOk()) && clock == old(clock)
      requires live == [] && members == {} && dead == old(dead) + old(members)
      requires chains == map[] && hashTable == map[] && iterFirst == null && iterLast == null && size == 0
      requires forall i :: 0 <= i < |old(live)| ==> old(live)[i].key.None?
      requires forall e :: e in dead ==> e.iterPrev == old(e.iterPrev)
      requires forall e :: e in old(dead) ==> e.key == old(e.key)
      ensures Linked() && DeadOk() && Chained(members)
    {
      forall e | e in dead ensures BackTracks(e) {
        if e in old(dead) {
          assert old(BackTracks(e));
        } else {
          var i :| 0 <= i < |old(live)| && old(live)[i] == e;
          assert old(e.iterPrev) == if i == 0 then null else old(live)[i - 1];
        }
      }
    }

    method NewIter() returns (iter: OrderedMapIter<K, V>)
      ensures iter.Valid(this) && iter.m == this && iter.Cursor() == 0
    {
      iter := new OrderedMapIter(this);
    }
  }

  class OrderedMapIter<K(!new), V> {
    var m: OrderedMap?<K, V>  // null once the iterator is closed
    var cur: MapEntry?<K, V>

    constructor (table: OrderedMap<K, V>)
      ensures m == table && cur == null
    {
      m, cur := table, null;
    }

    ghost predicate Valid(owner: OrderedMap<K, V>)
      reads this, owner
    {
      && (m != null ==> m == owner)
      && (cur != null ==> cur in owner.Entries())
    }

    /** One more than the number of the entry returned last. */
    ghost function Cursor(): nat
      reads this
    {
      if cur == null then 0 else cur.stamp + 1
    }

    method Close()
      modifies this
      ensures m == null && cur == null
    {
      m, cur := null, null;
    }

    /** The latest live entry that is not after the one returned last. */
    method TrackBack(ghost owner: OrderedMap<K, V>) returns (c: MapEntry?<K, V>)
      requires owner.Keyed() && owner.DeadOk() && Valid(owner)
      ensures c != null ==> c in owner.members && c.stamp < Cursor()
      ensures forall i :: 0 <= i < |owner.live| && owner.live[i].stamp < Cursor()
                ==> c != null && owner.live[i].stamp <= c.stamp
    {
      c := cur;
      while c != null && c.key.None?
        invariant c != null ==> c in owner.Entries() && c.stamp < Cursor()
        invariant forall i :: 0 <= i < |owner.live| && owner.live[i].stamp < Cursor()
                    ==> c != null && owner.live[i].stamp <= c.stamp
        decreases if c == null then 0 else c.stamp + 1
      {
        assert c in owner.dead && owner.BackTracks(c);
        c := c.iterPrev;
      }
      assert c != null ==> c in owner.dead ==> owner.BackTracks(c);
    }

    /** The live entry with the smallest insertion number above that of the entry returned last,
        whatever happened to the map in between. */
    method Next(ghost owner: OrderedMap<K, V>) returns (e: MapEntry?<K, V>)
      requires owner.Valid() && Valid(owner)
      modifies this
      ensures Valid(owner)
      ensures old(m) == null ==> e == null && m == null
      ensures old(m) != null ==>
        match Spec.Next(owner.Model().entries, old(Cursor()))
        case None => e == null && m == null
        case Some(x) => e != null && e in owner.members && e.key.Some? && e.value.Some? && e.Abs() == x && m == old(m) && Cursor() == x.stamp + 1
    {
      hide OrderedMap.Linked, OrderedMap.Keyed, OrderedMap.DeadOk, OrderedMap.Chained, OrderedMap.Model, Spec.Lawful, Spec.WellFormed, Spec.Next;
      if m == null {
        return null;
      }
      var c := TrackBack(owner);
      ghost var n := PositionAfter(owner, c, Cursor());
      if c != null {
        c := c.iterNext;
      } else {
        c := m.iterFirst;
      }
      if c == null {
        Close();
      } else {
        cur := c;
      }
      e := c;
    }

    /** The entry after `c` is the one the reference model returns. */
    static lemma PositionAfter(owner: OrderedMap<K, V>, c: MapEntry?<K, V>, cursor: nat) returns (n: nat)
      requires owner.Linked() && owner.Keyed()
      requires c != null ==> c in owner.members && c.stamp < cursor
      requires forall i :: 0 <= i < |owner.live| && owner.live[i].stamp < cursor
                 ==> c != null && owner.live[i].stamp <= c.stamp
      ensures n <= |owner.live|
      ensures n < |owner.live| ==> owner.live[n] in owner.members && owner.live[n].key.Some? && owner.live[n].value.Some?
      ensures (if c != null then c.iterNext else owner.iterFirst) == if n < |owner.live| then owner.live[n] else null
      ensures Spec.Next(owner.Model().entries, cursor)
           == if n < |owner.live| then Some(owner.live[n].Abs()) else None
    {
      var es := owner.Model().entries;
      n := 0;
      if c != null {
        n :| 0 <= n < |owner.live| && owner.live[n] == c;
        assert c.iterNext == if n == |owner.live| - 1 then null else owner.live[n + 1];
        n := n + 1;
      }
      forall i | 0 <= i < |es| ensures es[i].stamp < cursor <==> i < n {
        assert es[i] == owner.live[i].Abs();
        if 0 < n <= i { assert owner.live[n - 1].stamp < owner.live[i].stamp; }
        if i < n - 1 { assert owner.live[i].stamp < owner.live[n - 1].stamp; }
      }
      Spec.NextIs(es, cursor, n);
    }
  }
  function KeyValue<K, V>(e: Option<Spec.Entry<K, V>>): Option<(K, V)> {
    match e case None => None case Some(x) => Some((x.key, x.value))
  }

  /** A map and one iterator on it, under any sequence of calls: the iterator returns what the
      reference model returns. */
  method Replay<K(!new), V>(ops: Spec.KeyOps<K>, cmds: seq<Spec.Cmd<K, V>>) returns (out: seq<Option<(K, V)>>)
    requires Spec.Lawful(ops)
    ensures var run := Spec.Run(ops, Spec.Start(Spec.Dict([], 0)), cmds);
            |out| == |run.out| && forall i :: 0 <= i < |out| ==> out[i] == KeyValue(run.out[i])
  {
    hide Spec.Next, Spec.Set, Spec.Remove, Spec.Clear, Spec.Lawful, Spec.WellFormed, OrderedMap.Linked, OrderedMap.Keyed, OrderedMap.DeadOk, OrderedMap.Chained, OrderedMap.Model;
    var m := new OrderedMap<K, V>(ops);
    var iter := m.NewIter();
    out := [];
    ghost var s: Spec.Session<K, V> := Spec.Start(Spec.Dict([], 0));
    for n := 0 to |cmds|
      invariant m.Valid() && iter.Valid(m) && m.ops == ops
      invariant fresh(m) && fresh(iter) && fresh(m.Entries())
      invariant m.Model() == s.d
      invariant s.closed == (iter.m == null)
      invariant !s.closed ==> iter.Cursor() == s.cursor
      invariant |out| == |s.out| && forall i :: 0 <= i < |out| ==> out[i] == KeyValue(s.out[i])
      invariant Spec.Run(ops, Spec.Start(Spec.Dict([], 0)), cmds) == Spec.Run(ops, s, cmds[n..])
    {
      match cmds[n] {
        case DoSet(k, v) => m.Set(k, v);
        case DoRemove(k) => var _ := m.Remove(k);
        case DoClear => m.Clear();
        case DoNext =>
          var e := iter.Next(m);
          out := out + [if e == null then None else Some((e.key.value, e.value.value))];
      }
      assert cmds[n..][0] == cmds[n] && cmds[n..][1..] == cmds[n + 1..];
      s := Spec.Step(ops, s, cmds[n]);
    }
    assert cmds[|cmds|..] == [];
  }
}
