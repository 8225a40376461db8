/** An array object, which holds its elements in one of the two representations and switches between them. */
module Arrays {
  import opened Options
  import opened Spec = ArraySpec
  import opened SparseArrays
  import opened DenseArrays

  datatype Self<V> = Dense(d: DenseArray<V>) | Sparse(s: SparseArray<V>)

  class ArrayObject<V> {
    var self: Self<V>

    ghost function Repr(): set<object>
      reads this, if self.Dense? then {self.d} else {}
    {
      match self
      case Dense(d) => {d, d.values}
      case Sparse(s) => {s}
    }

    ghost predicate Valid()
      reads this, if self.Dense? then {self.d} else {}, Repr()
    {
      match self
      case Dense(d) => d.Valid()
      case Sparse(s) => s.Valid()
    }

    ghost function Abs(): Model<V>
      requires Valid()
      reads this, if self.Dense? then {self.d} else {}, Repr()
    {
      match self
      case Dense(d) => d.Abs()
      case Sparse(s) => s.Abs()
    }

    /** No element is at or above the length. */
    lemma AbsIsValid()
      requires Valid()
      ensures Spec.Valid(Abs())
    {
      if self.Sparse? {
        ElemsAt(self.s.items);
      }
    }

    constructor ()
      ensures Valid() && fresh(Repr()) && Abs() == Model(0, map[], true, true)
    {
      var d := new DenseArray<V>(true, true, 0);
      self := Dense(d);
    }

    method GetIdx(idx: nat) returns (v: Option<V>)
      requires Valid()
      ensures v == Get(Abs(), idx)
    {
      match self
      case Dense(d) => v := d.GetIdx(idx);
      case Sparse(s) => v := s.GetIdx(idx);
    }

    method GetLength() returns (n: nat)
      requires Valid()
      ensures n == Abs().length
    {
      match self
      case Dense(d) => n := d.length;
      case Sparse(s) => n := s.length;
    }

    method SetLength(l: nat) returns (ok: bool)
      requires Valid() && l <= MAX_LENGTH
      modifies Repr()
      ensures Valid() && fresh(Repr() - old(Repr())) && (ok, Abs()) == Spec.SetLength(old(Abs()), l)
    {
      match self
      case Dense(d) => ok := d.SetLength(l);
      case Sparse(s) => ok := s.SetLength(l);
    }

    method DeleteIdx(idx: nat)
      requires Valid()
      modifies Repr()
      ensures Valid() && Repr() == old(Repr()) && Abs() == Spec.Delete(old(Abs()), idx)
    {
      match self
      case Dense(d) => d.DeleteIdx(idx);
      case Sparse(s) => s.DeleteIdx(idx);
    }

    method SetOwnIdx(idx: nat, v: V) returns (ok: bool)
      requires Valid() && idx < MAX_LENGTH
      modifies this, Repr()
      ensures Valid() && fresh(Repr() - old(Repr())) && (ok, Abs()) == Assign(old(Abs()), idx, v)
    {
      match self
      case Dense(d) =>
        var sa;
        ok, sa := d.SetOwnIdx(idx, v);
        if sa != null {
          self := Sparse(sa);
        }
      case Sparse(s) => ok := SetSparse(s, idx, v);
    }

    /** _setOwnIdx of the sparse representation, which moves to a dense one once its elements lie close enough. */
    method SetSparse(s: SparseArray<V>, idx: nat, v: V) returns (ok: bool)
      requires self == Sparse(s) && Valid() && idx < MAX_LENGTH
      modifies this, s
      ensures Valid() && fresh(Repr() - {s}) && (ok, Abs()) == Assign(old(Abs()), idx, v)
    {
      hide Elems;
      var i := s.FindIdx(idx);
      PresentIff(s.items, idx, i);
      if i < |s.items| && s.items[i].idx == idx {
        s.Overwrite(i, v);
        return true;
      }
      if !s.extensible {
        return false;
      }
      ok := s.Extend(idx);
      if !ok {
        return;
      }
      var to := s.ShouldSwitch(idx);
      if to.None? {
        s.Add(idx, v);
      } else {
        MoveToDense(s, to.value, idx, v);
      }
    }

    /** The array goes on as a dense one, which has the new element as well. */
    method MoveToDense(s: SparseArray<V>, newMaxIdx: nat, idx: nat, v: V)
      requires self == Sparse(s) && Valid() && idx <= newMaxIdx < s.length
      requires forall k :: 0 <= k < |s.items| ==> s.items[k].idx <= newMaxIdx
      modifies this
      ensures Valid() && fresh(Repr()) && Abs() == old(Abs()).(elems := old(Abs()).elems[idx := v])
    {
      hide Elems;
      var d := new DenseArray<V>(s.extensible, s.lengthWritable, s.length);
      d.Fill(s.items, newMaxIdx);
      self := Dense(d);
      d.Store(idx, v);
      d.objCount := d.objCount + 1;
    }

    /** preventExtensions, and making length read-only. */
    method Lock(e: bool, w: bool)
      requires Valid()
      modifies Repr()
      ensures Valid() && Repr() == old(Repr()) && (Success(true), Abs()) == Step(old(Abs()), DoFreeze(e, w))
    {
      match self
      case Dense(d) => d.extensible, d.lengthWritable := d.extensible && e, d.lengthWritable && w;
      case Sparse(s) => s.extensible, s.lengthWritable := s.extensible && e, s.lengthWritable && w;
    }

    method Perform(c: Cmd<V>) returns (r: Report<V>)
      requires Valid() && CmdOk(c)
      modifies this, Repr()
      ensures Valid() && fresh(Repr() - old(Repr())) && (r, Abs()) == Step(old(Abs()), c)
    {
      match c
      case DoAssign(i, v) => var ok := SetOwnIdx(i, v); r := Success(ok);
      case DoDelete(i) => DeleteIdx(i); r := Success(true);
      case DoSetLength(l) => var ok := SetLength(l); r := Success(ok);
      case DoGet(i) => var e := GetIdx(i); r := Element(e);
      case DoGetLength => var n := GetLength(); r := Length(n);
      case DoFreeze(e, w) => Lock(e, w); r := Success(true);
    }

    /** Any run behaves as on the model, whatever representations the array goes through, and every command reports what the
        history before it says. */
    method Replay(cs: seq<Cmd<V>>) returns (rs: seq<Report<V>>)
      requires Valid() && forall k :: 0 <= k < |cs| ==> CmdOk(cs[k])
      modifies this, Repr()
      ensures Valid() && fresh(Repr() - old(Repr())) && (rs, Abs()) == Run(old(Abs()), cs)
      ensures |rs| == |cs| && forall k :: 0 <= k < |cs| ==> rs[k] == Answer(old(Abs()), cs[..k], cs[k])
    {
      AbsIsValid();
      rs := [];
      for i := 0 to |cs|
        invariant Valid() && fresh(Repr() - old(Repr()))
        invariant (rs, Abs()) == Run(old(Abs()), cs[..i])
      {
        assert cs[..i + 1] == cs[..i] + [cs[i]];
        RunSplit(old(Abs()), cs[..i], cs[i]);
        var r := Perform(cs[i]);
        rs := rs + [r];
      }
      assert cs[..|cs|] == cs;
      forall k | 0 <= k < |cs| ensures rs[k] == Answer(old(Abs()), cs[..k], cs[k]) {
        ReportsFollowHistory(old(Abs()), cs, k);
      }
    }
  }
}
