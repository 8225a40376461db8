/** %TypedArray%.prototype.set with a typed array as source, and the byte copy of slice: conversion
    between overlapping views in place, against the reference that saves the source first. */
module TypedArraySet {
  newtype Byte = x: int | 0 <= x < 256

  /** A conversion reads the bytes of one element and yields the bytes of another: get, then set. */
  type Conversion = seq<Byte> -> seq<Byte>

  ghost predicate Converts(conv: Conversion, s: nat, d: nat) {
    forall b: seq<Byte> :: |b| == s ==> |conv(b)| == d
  }

  /** The byte at which element i of a view starts. */
  function At(off: nat, size: nat, i: nat): nat {
    off + i * size
  }

  lemma AtOrder(off: nat, size: nat)
    ensures At(off, size, 0) == off
    ensures forall i: nat, j: nat {:trigger At(off, size, i), At(off, size, j)} :: i < j ==> At(off, size, i) + size <= At(off, size, j)
  {
    forall i: nat, j: nat | i < j ensures At(off, size, i) + size <= At(off, size, j) {
      MulMono(i + 1, j, size);
      assert (i + 1) * size == i * size + size;
    }
  }

  lemma AtStep(off: nat, size: nat, i: nat)
    ensures At(off, size, i) + size == At(off, size, i + 1)
  {
    assert (i + 1) * size == i * size + size;
  }

  lemma MulMono(a: int, b: int, c: nat)
    requires a <= b
    ensures a * c <= b * c
  {
  }

  // ---------------------------------------------------------------- reference model

  function Elem(buf: seq<Byte>, off: nat, size: nat, i: nat): (r: seq<Byte>)
    requires At(off, size, i) + size <= |buf|
    ensures |r| == size
  {
    buf[At(off, size, i)..At(off, size, i) + size]
  }

  function Write(buf: seq<Byte>, pos: nat, w: seq<Byte>): (r: seq<Byte>)
    requires pos + |w| <= |buf|
    ensures |r| == |buf|
    ensures forall k :: 0 <= k < |buf| ==> r[k] == if pos <= k < pos + |w| then w[k - pos] else buf[k]
  {
    buf[..pos] + w + buf[pos + |w|..]
  }

  ghost predicate Fits(buf: seq<Byte>, off: nat, size: nat, n: nat) {
    && At(off, size, n) <= |buf|
    && (forall i: nat {:trigger At(off, size, i)} :: i < n ==> At(off, size, i) + size <= |buf|)
  }

  /** Elements 0..n of the target are written from a saved copy of the source, in order. */
  function SetFromClone(clone: seq<Byte>, sOff: nat, s: nat, dst: seq<Byte>, dOff: nat, d: nat, conv: Conversion, n: nat): (r: seq<Byte>)
    requires Fits(clone, sOff, s, n) && Fits(dst, dOff, d, n)
    requires Converts(conv, s, d)
    ensures |r| == |dst|
    decreases n
  {
    if n == 0 then dst
    else
      AtOrder(sOff, s); AtOrder(dOff, d);
      var before := SetFromClone(clone, sOff, s, dst, dOff, d, conv, n - 1);
      Write(before, At(dOff, d, n - 1), conv(Elem(clone, sOff, s, n - 1)))
  }

  function Range(a: nat, b: nat): (r: set<nat>)
    ensures forall k: nat :: k in r <==> a <= k < b
    decreases b
  {
    if a >= b then {} else Range(a, b - 1) + {b - 1}
  }

  /** A source view of n elements and a target range of n elements. */
  datatype Job = Job(sOff: nat, s: nat, dOff: nat, d: nat, n: nat, conv: Conversion) {
    ghost predicate Valid(src: seq<Byte>, dst: seq<Byte>) {
      && s > 0 && d > 0
      && Fits(src, sOff, s, n) && Fits(dst, dOff, d, n)
      && Converts(conv, s, d)
    }
  }

  /** r is dst with the elements of the target range that were dealt with converted from the clone. */
  ghost predicate Holds(j: Job, clone: seq<Byte>, dst: seq<Byte>, r: seq<Byte>, dealt: set<nat>)
    requires j.Valid(clone, dst)
  {
    && |r| == |dst|
    && (forall i: nat {:trigger Elem(r, j.dOff, j.d, i)} :: i < j.n ==>
          Elem(r, j.dOff, j.d, i) == if i in dealt then j.conv(Elem(clone, j.sOff, j.s, i)) else Elem(dst, j.dOff, j.d, i))
    && (forall k :: 0 <= k < |dst| && !(j.dOff <= k < At(j.dOff, j.d, j.n)) ==> r[k] == dst[k])
  }

  /** Writing element m of a range of n elements changes that element only. */
  lemma WriteElem(buf: seq<Byte>, off: nat, d: nat, n: nat, m: nat, w: seq<Byte>)
    requires Fits(buf, off, d, n) && m < n && |w| == d
    ensures var r := Write(buf, At(off, d, m), w);
            && (forall i: nat {:trigger Elem(r, off, d, i)} :: i < n ==> Elem(r, off, d, i) == if i == m then w else Elem(buf, off, d, i))
            && (forall k :: 0 <= k < |buf| && !(off <= k < At(off, d, n)) ==> r[k] == buf[k])
  {
    AtOrder(off, d);
    hide At;
    var r := Write(buf, At(off, d, m), w);
    assert m > 0 ==> At(off, d, 0) <= At(off, d, m);
    forall i: nat | i < n ensures Elem(r, off, d, i) == if i == m then w else Elem(buf, off, d, i) {
    }
  }

  /** Converting one more element. */
  lemma HoldsStep(j: Job, clone: seq<Byte>, dst: seq<Byte>, r: seq<Byte>, dealt: set<nat>, m: nat)
    requires j.Valid(clone, dst) && Holds(j, clone, dst, r, dealt) && m < j.n
    ensures At(j.dOff, j.d, m) + j.d <= |r|
    ensures Holds(j, clone, dst, Write(r, At(j.dOff, j.d, m), j.conv(Elem(clone, j.sOff, j.s, m))), dealt + {m})
  {
    hide At;
    WriteElem(r, j.dOff, j.d, j.n, m, j.conv(Elem(clone, j.sOff, j.s, m)));
  }

  /** What SetFromClone yields, element by element. */
  lemma {:induction false} SetFromCloneHolds(j: Job, clone: seq<Byte>, dst: seq<Byte>, m: nat)
    requires j.Valid(clone, dst) && m <= j.n
    ensures Fits(clone, j.sOff, j.s, m) && Fits(dst, j.dOff, j.d, m)
    ensures Holds(j, clone, dst, SetFromClone(clone, j.sOff, j.s, dst, j.dOff, j.d, j.conv, m), Range(0, m))
    decreases m
  {
    AtOrder(j.sOff, j.s);
    AtOrder(j.dOff, j.d);
    hide At, Elem, Write;
    if m > 0 {
      SetFromCloneHolds(j, clone, dst, m - 1);
      HoldsStep(j, clone, dst, SetFromClone(clone, j.sOff, j.s, dst, j.dOff, j.d, j.conv, m - 1), Range(0, m - 1), m - 1);
    }
  }

  /** The element that a byte of the target range belongs to, and where in it. */
  lemma ElemAround(off: nat, d: nat, n: nat, k: nat) returns (i: nat, o: nat)
    requires d > 0 && off <= k < At(off, d, n)
    ensures i < n && o < d && At(off, d, i) + o == k
  {
    i, o := (k - off) / d, (k - off) % d;
    assert i * d + o == k - off;
    if i >= n {
      MulMono(n, i, d);
    }
  }

  /** A buffer is determined by its elements in the target range and its bytes outside. */
  lemma HoldsIsUnique(j: Job, clone: seq<Byte>, dst: seq<Byte>, a: seq<Byte>, b: seq<Byte>, dealt: set<nat>)
    requires j.Valid(clone, dst) && Holds(j, clone, dst, a, dealt) && Holds(j, clone, dst, b, dealt)
    ensures a == b
  {
    forall k | 0 <= k < |a| ensures a[k] == b[k] {
      if j.dOff <= k < At(j.dOff, j.d, j.n) {
        var i, o := ElemAround(j.dOff, j.d, j.n, k);
        assert Elem(a, j.dOff, j.d, i)[o] == a[k] && Elem(b, j.dOff, j.d, i)[o] == b[k];
      }
    }
  }

  /** Once every element was dealt with, in whatever order, the result is that of the reference. */
  lemma AllDealt(j: Job, clone: seq<Byte>, dst: seq<Byte>, r: seq<Byte>, dealt: set<nat>)
    requires j.Valid(clone, dst) && Holds(j, clone, dst, r, dealt)
    requires forall i: nat :: i < j.n ==> i in dealt
    ensures r == SetFromClone(clone, j.sOff, j.s, dst, j.dOff, j.d, j.conv, j.n)
  {
    hide At, Elem, SetFromClone, Write, Range;
    SetFromCloneHolds(j, clone, dst, j.n);
    assert Holds(j, clone, dst, r, Range(0, j.n));
    HoldsIsUnique(j, clone, dst, r, SetFromClone(clone, j.sOff, j.s, dst, j.dOff, j.d, j.conv, j.n), Range(0, j.n));
  }

  // ---------------------------------------------------------------- when a write spares a source element

  /** The addresses of target element i and source element k do not overlap. */
  predicate Apart(j: Job, i: nat, k: nat) {
    At(j.dOff, j.d, i) + j.d <= At(j.sOff, j.s, k) || At(j.sOff, j.s, k) + j.s <= At(j.dOff, j.d, i)
  }

  /** Integer division of the source language, which truncates toward zero. */
  function TruncDiv(a: int, b: int): int
    requires b != 0
  {
    if (a >= 0) == (b > 0) then (if a >= 0 then a else -a) / (if b > 0 then b else -b)
    else -((if a >= 0 then a else -a) / (if b > 0 then b else -b))
  }

  /** The split index for views of one buffer. */
  function Split(j: Job): nat
    requires j.s != j.d
  {
    var x := TruncDiv(j.dOff - j.sOff, j.s - j.d);
    if x < 0 then 0 else if x > j.n then j.n else x
  }

  /** The split index against the byte distance of the views. */
  lemma SplitFacts(j: Job)
    requires j.s != j.d
    ensures var x, g := Split(j), if j.s > j.d then j.s - j.d else j.d - j.s;
            var delta := if j.s > j.d then j.dOff - j.sOff else j.sOff - j.dOff;
            && (x > 0 ==> x * g <= delta)
            && (x < j.n ==> delta < (x + 1) * g)
  {
    var x, g := Split(j), if j.s > j.d then j.s - j.d else j.d - j.s;
    var delta := if j.s > j.d then j.dOff - j.sOff else j.sOff - j.dOff;
    if delta >= 0 {
      var q := delta / g;
      DivFacts(delta, g);
      assert TruncDiv(j.dOff - j.sOff, j.s - j.d) == q;
      if x < q { MulMono(x, q, g); }
    } else {
      DivFacts(-delta, g);
      assert x == 0;
    }
  }

  lemma DivFacts(a: nat, g: int)
    requires g > 0
    ensures 0 <= a / g && a / g * g <= a < (a / g + 1) * g
  {
    assert a == a / g * g + a % g;
    assert (a / g + 1) * g == a / g * g + g;
  }

  /** Target element i ends before source element k, for k above i. */
  lemma EndsBefore(j: Job, i: nat, k: nat)
    requires i < k && (i + 1) * j.d + j.dOff <= (i + 1) * j.s + j.sOff
    ensures Apart(j, i, k)
  {
    MulMono(i + 1, k, j.s);
    assert (i + 1) * j.d == i * j.d + j.d;
  }

  /** Target element i starts behind source element k, for k below m <= i. */
  lemma StartsBehind(j: Job, i: nat, k: nat, m: nat)
    requires k < m <= i && m * j.s + j.sOff <= m * j.d + j.dOff
    ensures Apart(j, i, k)
  {
    MulMono(k + 1, m, j.s);
    MulMono(m, i, j.d);
    assert (k + 1) * j.s == k * j.s + j.s;
  }

  lemma Gap(a: int, b: int, m: int)
    ensures m * a - m * b == m * (a - b)
  {
  }

  /** Shrinking: with i from the split upward, then from below the split downward, no write touches a
      source element that is still to be read. */
  lemma ShrinkingIsSafe(j: Job, i: nat, k: nat)
    requires 0 < j.d < j.s && i < j.n && k < j.n
    requires var x := Split(j); (x <= i && (i < k || k < x)) || (i < x && k < i)
    ensures Apart(j, i, k)
  {
    var x, g := Split(j), j.s - j.d;
    SplitFacts(j);
    hide Split, Apart;
    if x <= i && i < k {
      MulMono(x + 1, i + 1, g);
      Gap(j.s, j.d, i + 1);
      EndsBefore(j, i, k);
    } else if x <= i {
      Gap(j.s, j.d, x);
      StartsBehind(j, i, k, x);
    } else {
      MulMono(i, x, g);
      Gap(j.s, j.d, i);
      StartsBehind(j, i, k, i);
    }
  }

  /** Growing: with i from 0 up to the split, then from the end down to it. */
  lemma GrowingIsSafe(j: Job, i: nat, k: nat)
    requires 0 < j.s < j.d && i < j.n && k < j.n
    requires var x := Split(j); (i < x && i < k) || (x <= k < i)
    ensures Apart(j, i, k)
  {
    var x, g := Split(j), j.d - j.s;
    SplitFacts(j);
    hide Split, Apart;
    if i < x {
      MulMono(i + 1, x, g);
      Gap(j.d, j.s, i + 1);
      EndsBefore(j, i, k);
    } else {
      MulMono(x + 1, i, g);
      Gap(j.d, j.s, i);
      StartsBehind(j, i, k, i);
    }
  }

  /** Equal sizes: upward if the target does not start inside the source, else downward. */
  lemma EqualIsSafe(j: Job, i: nat, k: nat)
    requires j.s == j.d && i < j.n && k < j.n
    requires var upward := j.dOff <= j.sOff || j.dOff >= j.sOff + j.n * j.s; if upward then i < k else k < i
    ensures Apart(j, i, k)
  {
    if i < k {
      MulMono(i + 1, k, j.s);
      MulMono(k + 1, j.n, j.s);
      assert (i + 1) * j.s == i * j.s + j.s && (k + 1) * j.s == k * j.s + j.s;
    } else {
      MulMono(k + 1, i, j.s);
      assert (k + 1) * j.s == k * j.s + j.s;
    }
  }

  lemma ApartSpares(j: Job, buf: seq<Byte>, i: nat, k: nat, w: seq<Byte>)
    requires Apart(j, i, k) && |w| == j.d
    requires At(j.dOff, j.d, i) + j.d <= |buf| && At(j.sOff, j.s, k) + j.s <= |buf|
    ensures Elem(Write(buf, At(j.dOff, j.d, i), w), j.sOff, j.s, k) == Elem(buf, j.sOff, j.s, k)
  {
    hide At;
  }

  // ---------------------------------------------------------------- the operation, in place

  ghost predicate Unread(j: Job, clone: seq<Byte>, src: seq<Byte>, dealt: set<nat>)
    requires Fits(clone, j.sOff, j.s, j.n)
  {
    && |src| == |clone|
    && forall k: nat {:trigger Elem(src, j.sOff, j.s, k)} :: k < j.n && k !in dealt ==> Elem(src, j.sOff, j.s, k) == Elem(clone, j.sOff, j.s, k)
  }

  /** The state of a conversion in progress. */
  ghost predicate InProgress(j: Job, clone: seq<Byte>, dst0: seq<Byte>, src: seq<Byte>, dst: seq<Byte>, dealt: set<nat>) {
    j.Valid(clone, dst0) && Holds(j, clone, dst0, dst, dealt) && Unread(j, clone, src, dealt)
  }

  lemma ProgressStep(j: Job, clone: seq<Byte>, dst0: seq<Byte>, src: seq<Byte>, dst: seq<Byte>, same: bool, dealt: set<nat>, i: nat)
    requires InProgress(j, clone, dst0, src, dst, dealt) && i < j.n && i !in dealt
    requires same ==> src == dst && forall k: nat :: k < j.n && k !in dealt && k != i ==> Apart(j, i, k)
    ensures At(j.dOff, j.d, i) + j.d <= |dst| && At(j.sOff, j.s, i) + j.s <= |src|
    ensures var w := Write(dst, At(j.dOff, j.d, i), j.conv(Elem(src, j.sOff, j.s, i)));
            InProgress(j, clone, dst0, if same then w else src, w, dealt + {i})
  {
    hide At, Elem;
    var w := Write(dst, At(j.dOff, j.d, i), j.conv(Elem(src, j.sOff, j.s, i)));
    HoldsStep(j, clone, dst0, dst, dealt, i);
    if same {
      forall k: nat | k < j.n && k !in dealt + {i} ensures Elem(w, j.sOff, j.s, k) == Elem(clone, j.sOff, j.s, k) {
        ApartSpares(j, dst, i, k, j.conv(Elem(src, j.sOff, j.s, i)));
      }
    }
  }

  /** ta.set(i, src.get(i)) */
  method ConvertElement(src: array<Byte>, dst: array<Byte>, j: Job, i: nat)
    requires At(j.sOff, j.s, i) + j.s <= src.Length && At(j.dOff, j.d, i) + j.d <= dst.Length
    requires Converts(j.conv, j.s, j.d)
    modifies dst
    ensures dst[..] == Write(old(dst[..]), At(j.dOff, j.d, i), j.conv(Elem(old(src[..]), j.sOff, j.s, i)))
  {
    var from, to := At(j.sOff, j.s, i), At(j.dOff, j.d, i);
    hide At;
    var bytes := j.conv(src[from..from + j.s]);
    assert src[from..from + j.s] == src[..][from..from + j.s];
    ghost var was := dst[..];
    for k := 0 to j.d
      invariant forall m :: 0 <= m < dst.Length ==> dst[m] == if to <= m < to + k then bytes[m - to] else was[m]
    {
      dst[to + k] := bytes[k];
    }
  }

  /** for i := lo; i < hi; i++ */
  method ConvertUp(src: array<Byte>, dst: array<Byte>, j: Job, lo: nat, hi: nat, ghost clone: seq<Byte>, ghost dst0: seq<Byte>, ghost dealt: set<nat>)
    requires InProgress(j, clone, dst0, src[..], dst[..], dealt)
    requires lo <= hi <= j.n && forall i :: lo <= i < hi ==> i !in dealt
    requires src == dst ==> forall i: nat, k: nat :: lo <= i < hi && k < j.n && k !in dealt && !(lo <= k <= i) ==> Apart(j, i, k)
    modifies dst
    ensures InProgress(j, clone, dst0, src[..], dst[..], dealt + Range(lo, hi))
  {
    hide InProgress, Apart;
    assert dealt + Range(lo, lo) == dealt;
    for i := lo to hi
      invariant InProgress(j, clone, dst0, src[..], dst[..], dealt + Range(lo, i))
    {
      ProgressStep(j, clone, dst0, src[..], dst[..], src == dst, dealt + Range(lo, i), i);
      ValidConverts(j, clone, dst0, src[..], dst[..], dealt + Range(lo, i));
      ConvertElement(src, dst, j, i);
      assert dealt + Range(lo, i) + {i} == dealt + Range(lo, i + 1);
    }
  }

  /** for i := hi - 1; i >= lo; i-- */
  method ConvertDown(src: array<Byte>, dst: array<Byte>, j: Job, lo: nat, hi: nat, ghost clone: seq<Byte>, ghost dst0: seq<Byte>, ghost dealt: set<nat>)
    requires InProgress(j, clone, dst0, src[..], dst[..], dealt)
    requires lo <= hi <= j.n && forall i :: lo <= i < hi ==> i !in dealt
    requires src == dst ==> forall i: nat, k: nat :: lo <= i < hi && k < j.n && k !in dealt && !(i <= k < hi) ==> Apart(j, i, k)
    modifies dst
    ensures InProgress(j, clone, dst0, src[..], dst[..], dealt + Range(lo, hi))
  {
    hide InProgress, Apart;
    assert dealt + Range(hi, hi) == dealt;
    for i := hi downto lo
      invariant InProgress(j, clone, dst0, src[..], dst[..], dealt + Range(i, hi))
    {
      ProgressStep(j, clone, dst0, src[..], dst[..], src == dst, dealt + Range(i + 1, hi), i);
      ValidConverts(j, clone, dst0, src[..], dst[..], dealt + Range(i + 1, hi));
      ConvertElement(src, dst, j, i);
      assert dealt + Range(i + 1, hi) + {i} == dealt + Range(i, hi);
    }
  }

  lemma ValidConverts(j: Job, clone: seq<Byte>, dst0: seq<Byte>, src: seq<Byte>, dst: seq<Byte>, dealt: set<nat>)
    requires InProgress(j, clone, dst0, src, dst, dealt)
    ensures Converts(j.conv, j.s, j.d)
  {
  }

  /** All elements, in the order that the split index calls for. `srcAddr` and `dstAddr` are the
      addresses of the first source and target byte; they only matter within one buffer. */
  method ConvertAll(src: array<Byte>, dst: array<Byte>, j: Job, srcAddr: int, dstAddr: int)
    requires j.Valid(src[..], dst[..])
    requires src == dst ==> dstAddr - srcAddr == j.dOff - j.sOff
    modifies dst
    ensures dst[..] == SetFromClone(old(src[..]), j.sOff, j.s, old(dst[..]), j.dOff, j.d, j.conv, j.n)
  {
    ghost var clone, dst0 := src[..], dst[..];
    ghost var dealt: set<nat> := {};
    assert InProgress(j, clone, dst0, src[..], dst[..], dealt);
    hide At, Elem, Write, Apart, SetFromClone, InProgress, Split;
    if j.d == j.s {
      var endSrc := srcAddr + j.n * j.s;
      if dstAddr <= srcAddr || dstAddr >= endSrc {
        forall i: nat, k: nat | i < k < j.n && src == dst ensures Apart(j, i, k) {
          EqualIsSafe(j, i, k);
        }
        ConvertUp(src, dst, j, 0, j.n, clone, dst0, dealt);
      } else {
        forall i: nat, k: nat | k < i < j.n && src == dst ensures Apart(j, i, k) {
          EqualIsSafe(j, i, k);
        }
        ConvertDown(src, dst, j, 0, j.n, clone, dst0, dealt);
      }
      dealt := dealt + Range(0, j.n);
    } else {
      var x := TruncDiv(dstAddr - srcAddr, j.s - j.d);
      if x < 0 {
        x := 0;
      } else if x > j.n {
        x := j.n;
      }
      assert src == dst ==> x == Split(j) by { SplitIs(j); }
      if j.d < j.s {
        forall i: nat, k: nat | i < j.n && k < j.n && ((x <= i && (i < k || k < x)) || (i < x && k < i)) && src == dst ensures Apart(j, i, k) {
          ShrinkingIsSafe(j, i, k);
        }
        ConvertUp(src, dst, j, x, j.n, clone, dst0, dealt);
        ConvertDown(src, dst, j, 0, x, clone, dst0, dealt + Range(x, j.n));
        dealt := dealt + Range(x, j.n) + Range(0, x);
      } else {
        forall i: nat, k: nat | i < j.n && k < j.n && ((i < x && i < k) || x <= k < i) && src == dst ensures Apart(j, i, k) {
          GrowingIsSafe(j, i, k);
        }
        ConvertUp(src, dst, j, 0, x, clone, dst0, dealt);
        ConvertDown(src, dst, j, x, j.n, clone, dst0, dealt + Range(0, x));
        dealt := dealt + Range(0, x) + Range(x, j.n);
      }
    }
    Finished(j, clone, dst0, src[..], dst[..], dealt);
  }

  lemma SplitIs(j: Job)
    requires j.s != j.d
    ensures Split(j) == var x := TruncDiv(j.dOff - j.sOff, j.s - j.d); if x < 0 then 0 else if x > j.n then j.n else x
  {
  }

  lemma Finished(j: Job, clone: seq<Byte>, dst0: seq<Byte>, src: seq<Byte>, dst: seq<Byte>, dealt: set<nat>)
    requires InProgress(j, clone, dst0, src, dst, dealt)
    requires forall i: nat :: i < j.n ==> i in dealt
    ensures j.Valid(clone, dst0) && dst == SetFromClone(clone, j.sOff, j.s, dst0, j.dOff, j.d, j.conv, j.n)
  {
    AllDealt(j, clone, dst0, dst, dealt);
  }

  // ---------------------------------------------------------------- the built-in function

  /** A typed array: offset and length count elements; `ctor` names its constructor. */
  datatype View = View(buf: array<Byte>, offset: nat, length: nat, elemSize: nat, ctor: nat, big: bool) {
    ghost predicate Valid()
      reads buf
    {
      elemSize > 0 && At(0, elemSize, offset + length) <= buf.Length
    }
  }

  /** IndexPanic is a Go run-time panic, from taking the address of a byte behind the end. */
  datatype Outcome = Done | RangeError | MixError | IndexPanic

  lemma ViewFits(v: View, from: nat, n: nat)
    requires v.Valid() && v.offset <= from && from + n <= v.offset + v.length
    ensures Fits(v.buf[..], At(0, v.elemSize, from), v.elemSize, n)
    ensures At(At(0, v.elemSize, from), v.elemSize, n) == At(0, v.elemSize, from + n)
  {
    var off := At(0, v.elemSize, from);
    assert from * v.elemSize + n * v.elemSize == (from + n) * v.elemSize;
    MulMono(from + n, v.offset + v.length, v.elemSize);
    AtOrder(off, v.elemSize);
  }

  /** %TypedArray%.prototype.set for a typed-array source. `base` gives the address of a buffer. */
  method Set(ta: View, src: View, targetOffset: int, conv: Conversion, srcBase: int, taBase: int) returns (r: Outcome)
    requires ta.Valid() && src.Valid() && Converts(conv, src.elemSize, ta.elemSize)
    requires src.ctor == ta.ctor ==> src.elemSize == ta.elemSize && forall b: seq<Byte> :: |b| == src.elemSize ==> conv(b) == b
    requires src.buf == ta.buf ==> srcBase == taBase
    modifies ta.buf
    ensures r != Done ==> ta.buf[..] == old(ta.buf[..])
    ensures r == RangeError <==> targetOffset < 0 || src.length + targetOffset > ta.length
    ensures r == Done ==>
              var s, d := At(0, src.elemSize, src.offset), At(0, ta.elemSize, ta.offset + targetOffset);
              && Fits(old(src.buf[..]), s, src.elemSize, src.length) && Fits(old(ta.buf[..]), d, ta.elemSize, src.length)
              && ta.buf[..] == SetFromClone(old(src.buf[..]), s, src.elemSize, old(ta.buf[..]), d, ta.elemSize, conv, src.length)
    // an empty source is accepted except where its address, or that of the target, is not in a buffer
    ensures r == IndexPanic <==>
              && 0 <= targetOffset <= ta.length && src.length == 0 && src.ctor != ta.ctor && !(src.big && !ta.big)
              && (At(0, src.elemSize, src.offset) == src.buf.Length || At(0, ta.elemSize, ta.offset + targetOffset) == ta.buf.Length)
    ensures r == MixError <==>
              && targetOffset >= 0 && src.length + targetOffset <= ta.length && src.ctor != ta.ctor
              && ((src.big && !ta.big) || (ta.big && !src.big && src.length > 0))
  {
    if targetOffset < 0 {
      return RangeError;
    }
    var srcLen := src.length;
    if srcLen + targetOffset > ta.length {
      return RangeError;
    }
    var dstOffset := ta.offset + targetOffset;
    var from, to := At(0, src.elemSize, src.offset), At(0, ta.elemSize, dstOffset);
    ViewFits(src, src.offset, srcLen);
    ViewFits(ta, dstOffset, srcLen);
    var j := Job(from, src.elemSize, to, ta.elemSize, srcLen, conv);
    if src.ctor == ta.ctor {
      Copy(src.buf, ta.buf, j);
      return Done;
    }
    if src.big && !ta.big {
      return MixError;
    }
    AtOrder(from, src.elemSize);
    AtOrder(to, ta.elemSize);
    if from >= src.buf.Length || to >= ta.buf.Length {
      return IndexPanic;
    }
    if ta.big && !src.big && srcLen > 0 {
      return MixError;  // converting the first number to a BigInt throws
    }
    ConvertAll(src.buf, ta.buf, j, srcBase + from, taBase + to);
    return Done;
  }

  /** A view of 16-bit numbers that is empty and begins at the end of its buffer of four bytes, as the source for a view of four
      bytes: nothing would have to be written, and yet set panics. */
  method EmptySourceExample() returns (r: Outcome)
    ensures r == IndexPanic
  {
    var a, b := new Byte[4](i => 0), new Byte[4](i => 0);
    var ta, src := View(a, 0, 4, 1, 0, false), View(b, 2, 0, 2, 1, false);
    r := Set(ta, src, 0, (x: seq<Byte>) => [0], 0, 4);
  }

  /** The built-in byte copy, which behaves as if the source had been saved. */
  method Copy(src: array<Byte>, dst: array<Byte>, j: Job)
    requires j.Valid(src[..], dst[..]) && j.s == j.d && forall b: seq<Byte> :: |b| == j.s ==> j.conv(b) == b
    modifies dst
    ensures dst[..] == SetFromClone(old(src[..]), j.sOff, j.s, old(dst[..]), j.dOff, j.d, j.conv, j.n)
  {
    ghost var clone, dst0 := src[..], dst[..];
    var saved := src[j.sOff..At(j.sOff, j.s, j.n)];
    for k := 0 to |saved|
      invariant forall m :: 0 <= m < dst.Length ==> dst[m] == if j.dOff <= m < j.dOff + k then saved[m - j.dOff] else dst0[m]
    {
      dst[j.dOff + k] := saved[k];
    }
    CopiedHolds(j, clone, dst0, dst[..]);
    AllDealt(j, clone, dst0, dst[..], Range(0, j.n));
  }

  lemma CopiedHolds(j: Job, clone: seq<Byte>, dst0: seq<Byte>, r: seq<Byte>)
    requires j.Valid(clone, dst0) && j.s == j.d && forall b: seq<Byte> :: |b| == j.s ==> j.conv(b) == b
    requires |r| == |dst0| && At(j.dOff, j.d, j.n) - j.dOff == At(j.sOff, j.s, j.n) - j.sOff
    requires forall m :: 0 <= m < |r| ==> r[m] == if j.dOff <= m < At(j.dOff, j.d, j.n) then clone[j.sOff + (m - j.dOff)] else dst0[m]
    ensures Holds(j, clone, dst0, r, Range(0, j.n))
  {
    AtOrder(j.dOff, j.d);
    forall i: nat | i < j.n ensures Elem(r, j.dOff, j.d, i) == Elem(clone, j.sOff, j.s, i) {
      assert At(j.dOff, j.d, i) - j.dOff == At(j.sOff, j.s, i) - j.sOff;
      hide At;
      assert At(j.dOff, j.d, 0) <= At(j.dOff, j.d, i);
      var a, b := Elem(r, j.dOff, j.d, i), Elem(clone, j.sOff, j.s, i);
      forall o | 0 <= o < j.s ensures a[o] == b[o] {
        assert a[o] == r[At(j.dOff, j.d, i) + o];
      }
    }
    hide Elem;
  }

  // ---------------------------------------------------------------- the byte copy of slice

  /** What slice asks for: bytes are moved one by one, upward, each read seeing the writes before it. */
  function MoveUpward(buf: seq<Byte>, from: nat, to: nat, n: nat): (r: seq<Byte>)
    requires from + n <= |buf| && to + n <= |buf|
    ensures |r| == |buf|
    ensures forall k :: 0 <= k < |buf| && !(to <= k < to + n) ==> r[k] == buf[k]
    decreases n
  {
    if n == 0 then buf
    else
      var before := MoveUpward(buf, from, to, n - 1);
      before[to + n - 1 := before[from + n - 1]]
  }

  /** Unless the target starts inside the source, that is the same as copying a saved source. */
  lemma {:induction false} MoveUpwardIsCopy(buf: seq<Byte>, from: nat, to: nat, n: nat)
    requires from + n <= |buf| && to + n <= |buf|
    requires to <= from || to >= from + n
    ensures MoveUpward(buf, from, to, n) == Write(buf, to, buf[from..from + n])
    decreases n
  {
    if n > 0 {
      MoveUpwardIsCopy(buf, from, to, n - 1);
      var before, w := MoveUpward(buf, from, to, n - 1), buf[from..from + n - 1];
      assert MoveUpward(buf, from, to, n) == before[to + n - 1 := before[from + n - 1]];
      hide MoveUpward, Write;
      WriteOneMore(buf, to, w, buf[from + n - 1]);
      SliceOneMore(buf, from, n);
    }
  }

  lemma SliceOneMore(buf: seq<Byte>, from: nat, n: nat)
    requires 0 < n && from + n <= |buf|
    ensures buf[from..from + n] == buf[from..from + n - 1] + [buf[from + n - 1]]
  {
  }

  lemma WriteOneMore(buf: seq<Byte>, to: nat, bytes: seq<Byte>, x: Byte)
    requires to + |bytes| < |buf|
    ensures Write(buf, to, bytes)[to + |bytes| := x] == Write(buf, to, bytes + [x])
  {
  }

  function Phase(k: nat, p: nat): (r: nat)
    requires p > 0
    ensures r <= k && r < p
  {
    if k < p then k else Phase(k - p, p)
  }

  /** If it does, the source repeats with the period of the distance, which a copy would not give. */
  lemma {:induction false} MoveUpwardRepeats(buf: seq<Byte>, from: nat, to: nat, n: nat, k: nat)
    requires from + n <= |buf| && to + n <= |buf| && from < to && k < n
    ensures MoveUpward(buf, from, to, n)[to + k] == buf[from + Phase(k, to - from)]
    decreases n
  {
    var p := to - from;
    var before := MoveUpward(buf, from, to, n - 1);
    if k < n - 1 {
      MoveUpwardRepeats(buf, from, to, n - 1, k);
    } else if k >= p {
      assert from + n - 1 == to + (k - p);
      MoveUpwardRepeats(buf, from, to, n - 1, k - p);
    }
  }

  /** slice between views of the same type on one buffer. */
  method SliceBytes(buf: array<Byte>, from: nat, to: nat, n: nat)
    requires from + n <= buf.Length && to + n <= buf.Length
    modifies buf
    ensures buf[..] == MoveUpward(old(buf[..]), from, to, n)
  {
    ghost var was := buf[..];
    if to <= from || to >= from + n {
      var saved := buf[from..from + n];
      for k := 0 to n
        invariant forall m :: 0 <= m < buf.Length ==> buf[m] == if to <= m < to + k then saved[m - to] else was[m]
      {
        buf[to + k] := saved[k];
      }
      assert buf[..] == Write(was, to, was[from..from + n]);
      MoveUpwardIsCopy(was, from, to, n);
    } else {
      for i := 0 to n
        invariant buf[..] == MoveUpward(was, from, to, i)
      {
        buf[to + i] := buf[from + i];
      }
    }
  }
}
