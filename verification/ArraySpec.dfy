/** Arrays with plain data elements: a length and a finite map from indices to values. */
module ArraySpec {
  import opened Options

  /** uint32 indices; the last value of the type is not an index. */
  const MAX_LENGTH: nat := 0xFFFF_FFFF

  datatype Model<V> = Model(length: nat, elems: map<nat, V>, extensible: bool, lengthWritable: bool)

  ghost predicate Valid<V>(m: Model<V>) {
    m.length <= MAX_LENGTH && forall i :: i in m.elems ==> i < m.length
  }

  function Get<V>(m: Model<V>, i: nat): Option<V> {
    if i in m.elems then Some(m.elems[i]) else None
  }

  /** a[i] = v: whether it succeeds, and the array afterwards. */
  function Assign<V>(m: Model<V>, i: nat, v: V): (bool, Model<V>) {
    if i in m.elems then (true, m.(elems := m.elems[i := v]))
    else if !m.extensible || (i >= m.length && !m.lengthWritable) then (false, m)
    else (true, m.(elems := m.elems[i := v], length := if i >= m.length then i + 1 else m.length))
  }

  function Delete<V>(m: Model<V>, i: nat): Model<V> {
    m.(elems := m.elems - {i})
  }

  /** Nothing stays at or above the new length. */
  function Cut<V>(m: Model<V>, l: nat): Model<V> {
    m.(length := l, elems := map i | i in m.elems && i < l :: m.elems[i])
  }

  /** a.length = l */
  function SetLength<V>(m: Model<V>, l: nat): (bool, Model<V>) {
    if !m.lengthWritable then (false, m)
    else (true, Cut(m, l))
  }

  datatype Cmd<V> = DoAssign(i: nat, v: V) | DoDelete(i: nat) | DoSetLength(l: nat) | DoGet(i: nat) | DoGetLength | DoFreeze(extensible: bool, lengthWritable: bool)

  ghost predicate CmdOk<V>(c: Cmd<V>) {
    match c
    case DoAssign(i, _) => i < MAX_LENGTH
    case DoDelete(i) => i < MAX_LENGTH
    case DoSetLength(l) => l <= MAX_LENGTH
    case DoGet(i) => i < MAX_LENGTH
    case DoGetLength => true
    case DoFreeze(_, _) => true
  }

  /** What a command reports. */
  datatype Report<V> = Success(ok: bool) | Element(e: Option<V>) | Length(n: nat)

  function Step<V>(m: Model<V>, c: Cmd<V>): (Report<V>, Model<V>) {
    match c
    case DoAssign(i, v) => (Success(Assign(m, i, v).0), Assign(m, i, v).1)
    case DoDelete(i) => (Success(true), Delete(m, i))
    case DoSetLength(l) => (Success(SetLength(m, l).0), SetLength(m, l).1)
    case DoGet(i) => (Element(Get(m, i)), m)
    case DoGetLength => (Length(m.length), m)
    case DoFreeze(e, w) => (Success(true), m.(extensible := m.extensible && e, lengthWritable := m.lengthWritable && w))
  }

  function Run<V>(m: Model<V>, cs: seq<Cmd<V>>): (r: (seq<Report<V>>, Model<V>))
    ensures |r.0| == |cs|
    decreases |cs|
  {
    if cs == [] then ([], m)
    else
      var (x, m1) := Step(m, cs[0]);
      var (xs, m2) := Run(m1, cs[1..]);
      ([x] + xs, m2)
  }

  lemma {:induction false} RunKeepsValid<V>(m: Model<V>, cs: seq<Cmd<V>>)
    requires Valid(m) && forall k :: 0 <= k < |cs| ==> CmdOk(cs[k])
    ensures Valid(Run(m, cs).1)
    decreases |cs|
  {
    if cs != [] {
      assert CmdOk(cs[0]);
      assert Valid(Step(m, cs[0]).1);
      RunKeepsValid(Step(m, cs[0]).1, cs[1..]);
    }
  }

  lemma {:induction false} RunSplit<V>(m: Model<V>, a: seq<Cmd<V>>, c: Cmd<V>)
    ensures var (xs, m1) := Run(m, a); Run(m, a + [c]) == (xs + [Step(m1, c).0], Step(m1, c).1)
    decreases |a|
  {
    if a == [] {
      var (y, m1) := Step(m, c);
      assert a + [c] == [c] && [c][1..] == [];
      assert Run(m1, [c][1..]) == ([], m1);
      assert Run(m, [c]) == ([y] + [], m1);
      assert Run(m, a) == ([], m) && [y] + [] == [] + [y];
    } else {
      var (x, m0) := Step(m, a[0]);
      var (xs, m1) := Run(m0, a[1..]);
      var y := Step(m1, c).0;
      RunSplit(m0, a[1..], c);
      assert (a + [c])[0] == a[0] && (a + [c])[1..] == a[1..] + [c];
      assert Run(m, a) == ([x] + xs, m1);
      assert Run(m, a + [c]) == ([x] + (xs + [y]), Step(m1, c).1);
      assert [x] + (xs + [y]) == ([x] + xs) + [y];
    }
  }

  // ---- what a history of commands amounts to, told without the array

  /** Nothing in the history froze the length; or made the array inextensible. */
  function Writable<V>(m: Model<V>, cs: seq<Cmd<V>>): bool {
    m.lengthWritable && forall k :: 0 <= k < |cs| && cs[k].DoFreeze? ==> cs[k].lengthWritable
  }

  function Extensible<V>(m: Model<V>, cs: seq<Cmd<V>>): bool {
    m.extensible && forall k :: 0 <= k < |cs| && cs[k].DoFreeze? ==> cs[k].extensible
  }

  /** Whether an assignment at i would succeed after the history: it overwrites, or it adds an element below the length,
      or one above if the length may be written. */
  function Succeeds<V>(m: Model<V>, cs: seq<Cmd<V>>, i: nat): bool
    decreases |cs|, 1
  {
    LastWrite(m, cs, i).Some? || (Extensible(m, cs) && (i < LastLength(m, cs) || Writable(m, cs)))
  }

  /** The last command that determines whether and how index i reads back. */
  function LastWrite<V>(m: Model<V>, cs: seq<Cmd<V>>, i: nat): Option<V>
    decreases |cs|, 0
  {
    if cs == [] then Get(m, i)
    else
      var init, c := cs[..|cs| - 1], cs[|cs| - 1];
      match c
      case DoAssign(j, v) => if j == i && Succeeds(m, init, j) then Some(v) else LastWrite(m, init, i)
      case DoDelete(j) => if j == i then None else LastWrite(m, init, i)
      case DoSetLength(l) => if Writable(m, init) && l <= i then None else LastWrite(m, init, i)
      case _ => LastWrite(m, init, i)
  }

  /** The last length written, raised by the assignments since then that were not below it. */
  function LastLength<V>(m: Model<V>, cs: seq<Cmd<V>>): nat
    decreases |cs|, 0
  {
    if cs == [] then m.length
    else
      var init, c := cs[..|cs| - 1], cs[|cs| - 1];
      match c
      case DoAssign(j, _) => if Succeeds(m, init, j) && LastLength(m, init) <= j then j + 1 else LastLength(m, init)
      case DoSetLength(l) => if Writable(m, init) then l else LastLength(m, init)
      case _ => LastLength(m, init)
  }

  /** What a command reports after a history. */
  function Answer<V>(m: Model<V>, cs: seq<Cmd<V>>, c: Cmd<V>): Report<V> {
    match c
    case DoAssign(i, _) => Success(Succeeds(m, cs, i))
    case DoDelete(_) => Success(true)
    case DoSetLength(_) => Success(Writable(m, cs))
    case DoGet(i) => Element(LastWrite(m, cs, i))
    case DoGetLength => Length(LastLength(m, cs))
    case DoFreeze(_, _) => Success(true)
  }

  lemma FlagsAfter<V>(m: Model<V>, init: seq<Cmd<V>>, c: Cmd<V>)
    ensures Writable(m, init + [c]) == (Writable(m, init) && (c.DoFreeze? ==> c.lengthWritable))
    ensures Extensible(m, init + [c]) == (Extensible(m, init) && (c.DoFreeze? ==> c.extensible))
  {
    assert (init + [c])[|init|] == c;
    assert forall k :: 0 <= k < |init| ==> (init + [c])[k] == init[k];
  }

  /** After any run the length is what the history says, and so are the flags. */
  lemma {:induction false} LengthIsLastLength<V>(m: Model<V>, cs: seq<Cmd<V>>)
    requires Valid(m)
    ensures var r := Run(m, cs).1;
      && r.length == LastLength(m, cs) && r.lengthWritable == Writable(m, cs) && r.extensible == Extensible(m, cs)
      && forall i :: i in r.elems ==> i < r.length
    decreases |cs|, 1
  {
    if cs != [] {
      var init, c := cs[..|cs| - 1], cs[|cs| - 1];
      assert cs == init + [c];
      RunSplit(m, init, c);
      LengthIsLastLength(m, init);
      FlagsAfter(m, init, c);
      if c.DoAssign? {
        ReadsLastWrite(m, init, c.i);
      }
    }
  }

  /** After any run an index reads what was last assigned to it, unless it was deleted or cut off since. */
  lemma {:induction false} ReadsLastWrite<V>(m: Model<V>, cs: seq<Cmd<V>>, i: nat)
    requires Valid(m)
    ensures Get(Run(m, cs).1, i) == LastWrite(m, cs, i)
    decreases |cs|, 0
  {
    if cs != [] {
      var init, c := cs[..|cs| - 1], cs[|cs| - 1];
      assert cs == init + [c];
      RunSplit(m, init, c);
      ReadsLastWrite(m, init, i);
      LengthIsLastLength(m, init);
    }
  }

  /** Every command of a run reports what the history before it says: which assignments and which writes of the length
      succeed, what is read, and how long the array is. */
  lemma {:induction false} ReportsFollowHistory<V>(m: Model<V>, cs: seq<Cmd<V>>, k: nat)
    requires Valid(m) && k < |cs|
    ensures Run(m, cs).0[k] == Answer(m, cs[..k], cs[k])
    decreases |cs|
  {
    var init, c := cs[..|cs| - 1], cs[|cs| - 1];
    assert cs == init + [c];
    RunSplit(m, init, c);
    if k < |init| {
      ReportsFollowHistory(m, init, k);
      assert init[..k] == cs[..k];
    } else {
      assert cs[..k] == init;
      LengthIsLastLength(m, init);
      if c.DoAssign? || c.DoGet? {
        ReadsLastWrite(m, init, c.i);
      }
    }
  }
}
