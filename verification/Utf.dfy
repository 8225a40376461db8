/** The encodings of Unicode text: UTF-8 (section 3 of RFC 3629) and UTF-16. */
module Utf {
  import opened Options

  const RUNE_ERROR: int := 0xFFFD
  const RUNE_SELF: int := 0x80

  predicate Bytes(s: seq<int>) { forall i :: 0 <= i < |s| ==> 0 <= s[i] < 0x100 }

  /** 16-bit code units. */
  predicate Units(s: seq<int>) { forall i :: 0 <= i < |s| ==> 0 <= s[i] < 0x1_0000 }

  /** Unicode scalar values. */
  predicate Scalar(r: int) { 0 <= r < 0xD800 || 0xE000 <= r < 0x11_0000 }

  predicate Scalars(rs: seq<int>) { forall i :: 0 <= i < |rs| ==> Scalar(rs[i]) }

  function Utf8(r: int): (s: seq<int>)
    requires Scalar(r)
    ensures Bytes(s) && 1 <= |s| <= 4
  {
    if r < 0x80 then [r]
    else if r < 0x800 then [0xC0 + r / 0x40, 0x80 + r % 0x40]
    else if r < 0x1_0000 then [0xE0 + r / 0x1000, 0x80 + r / 0x40 % 0x40, 0x80 + r % 0x40]
    else [0xF0 + r / 0x4_0000, 0x80 + r / 0x1000 % 0x40, 0x80 + r / 0x40 % 0x40, 0x80 + r % 0x40]
  }

  function Utf8All(rs: seq<int>): (s: seq<int>)
    requires Scalars(rs)
    ensures Bytes(s)
  {
    if rs == [] then [] else Utf8(rs[0]) + Utf8All(rs[1..])
  }

  predicate Continues(b: int) { 0x80 <= b < 0xC0 }

  /** Whether b may follow a as the second byte. */
  predicate Second(a: int, b: int) {
    && (if a == 0xE0 then b >= 0xA0 else if a == 0xF0 then b >= 0x90 else b >= 0x80)
    && (if a == 0xED then b < 0xA0 else if a == 0xF4 then b < 0x90 else b < 0xC0)
  }

  function Two(a: int, b: int): int { (a - 0xC0) * 0x40 + (b - 0x80) }

  function Three(a: int, b: int, c: int): int { (a - 0xE0) * 0x1000 + (b - 0x80) * 0x40 + (c - 0x80) }

  function Four(a: int, b: int, c: int, d: int): int {
    (a - 0xF0) * 0x4_0000 + (b - 0x80) * 0x1000 + (c - 0x80) * 0x40 + (d - 0x80)
  }

  /** The first rune of a byte string, and its size. Invalid bytes give the error rune, with size 1. */
  function DecodeRune(t: seq<int>): (r: (int, nat))
    requires t != [] && Bytes(t)
    ensures 1 <= r.1 <= |t| && Scalar(r.0)
  {
    var a := t[0];
    if a < 0x80 then (a, 1)
    else if 0xC2 <= a < 0xE0 && |t| >= 2 && Second(a, t[1]) then (Two(a, t[1]), 2)
    else if 0xE0 <= a < 0xF0 && |t| >= 3 && Second(a, t[1]) && Continues(t[2]) then (Three(a, t[1], t[2]), 3)
    else if 0xF0 <= a < 0xF5 && |t| >= 4 && Second(a, t[1]) && Continues(t[2]) && Continues(t[3]) then
      (Four(a, t[1], t[2], t[3]), 4)
    else (RUNE_ERROR, 1)
  }

  /** Sequences of two, three and four bytes that DecodeRune accepts are those of runes. */
  lemma TwoBytes(a: int, b: int)
    ensures 0xC2 <= a < 0xE0 && Second(a, b) ==> Scalar(Two(a, b)) && Utf8(Two(a, b)) == [a, b]
  {
  }

  lemma ThreeBytes(a: int, b: int, c: int)
    ensures 0xE0 <= a < 0xF0 && Second(a, b) && Continues(c) ==> Scalar(Three(a, b, c)) && Utf8(Three(a, b, c)) == [a, b, c]
  {
    var r := Three(a, b, c);
    if 0xE0 <= a < 0xF0 && Second(a, b) && Continues(c) {
      assert r / 0x40 == (a - 0xE0) * 0x40 + (b - 0x80);
      assert r / 0x1000 == a - 0xE0;
    }
  }

  lemma FourBytes(a: int, b: int, c: int, d: int)
    ensures 0xF0 <= a < 0xF5 && Second(a, b) && Continues(c) && Continues(d) ==>
      Scalar(Four(a, b, c, d)) && Utf8(Four(a, b, c, d)) == [a, b, c, d]
  {
    var r := Four(a, b, c, d);
    if 0xF0 <= a < 0xF5 && Second(a, b) && Continues(c) && Continues(d) {
      assert r / 0x40 == (a - 0xF0) * 0x1000 + (b - 0x80) * 0x40 + (c - 0x80);
      assert r / 0x1000 == (a - 0xF0) * 0x40 + (b - 0x80);
      assert r / 0x4_0000 == a - 0xF0;
    }
  }

  /** What DecodeRune makes of the bytes of a rune, whatever follows them. */
  lemma DecodeRuneOfUtf8(r: int, rest: seq<int>)
    requires Scalar(r) && Bytes(rest)
    ensures Bytes(Utf8(r) + rest) && DecodeRune(Utf8(r) + rest) == (r, |Utf8(r)|)
  {
    var s := Utf8(r);
    var t := s + rest;
    assert t[0] == s[0] && (|s| > 1 ==> t[1] == s[1]) && (|s| > 2 ==> t[2] == s[2]) && (|s| > 3 ==> t[3] == s[3]);
    hide Bytes;
    if r < 0x80 {
    } else if r < 0x800 {
      assert Two(s[0], s[1]) == r;
    } else if r < 0x1_0000 {
      assert r / 0x40 == r / 0x1000 * 0x40 + r / 0x40 % 0x40;
      assert Three(s[0], s[1], s[2]) == r;
    } else {
      assert r / 0x1000 == r / 0x4_0000 * 0x40 + r / 0x1000 % 0x40;
      assert r / 0x40 == r / 0x1000 * 0x40 + r / 0x40 % 0x40;
      assert Four(s[0], s[1], s[2], s[3]) == r;
    }
  }

  /** Decoding is the inverse of encoding: what it does not reject is the bytes of the rune it gives. */
  lemma Utf8OfDecodeRune(t: seq<int>)
    requires t != [] && Bytes(t)
    ensures var (r, n) := DecodeRune(t); (r == RUNE_ERROR && n == 1) || Utf8(r) == t[..n]
  {
    if |t| >= 2 {
      TwoBytes(t[0], t[1]);
    }
    if |t| >= 3 {
      ThreeBytes(t[0], t[1], t[2]);
    }
    if |t| >= 4 {
      FourBytes(t[0], t[1], t[2], t[3]);
    }
    hide Utf8;
  }

  /** All runes of a byte string; None if it is not UTF-8. */
  function DecodeAll(t: seq<int>): (r: Option<seq<int>>)
    requires Bytes(t)
    ensures r.Some? ==> Scalars(r.value)
    decreases |t|
  {
    if t == [] then Some([])
    else
      var (r, n) := DecodeRune(t);
      if r == RUNE_ERROR && n != 3 then None
      else
        var rest := DecodeAll(t[n..]);
        if rest.None? then None else Some([r] + rest.value)
  }

  lemma {:induction false} DecodeAllOfUtf8(rs: seq<int>)
    requires Scalars(rs)
    ensures DecodeAll(Utf8All(rs)) == Some(rs)
    decreases |rs|
  {
    if rs != [] {
      var s, rest := Utf8(rs[0]), Utf8All(rs[1..]);
      DecodeRuneOfUtf8(rs[0], rest);
      DecodeAllOfUtf8(rs[1..]);
      hide Utf8, DecodeRune, Scalar;
      assert (s + rest)[|s|..] == rest;
      assert [rs[0]] + rs[1..] == rs;
    }
  }

  lemma DecodeStep(t: seq<int>)
    requires Bytes(t) && t != []
    ensures var (r, n) := DecodeRune(t);
      if r == RUNE_ERROR && n != 3 then DecodeAll(t).None?
      else if DecodeAll(t[n..]).None? then DecodeAll(t).None?
      else DecodeAll(t) == Some([r] + DecodeAll(t[n..]).value)
    ensures DecodeRune(t) == (RUNE_ERROR, 3) ==> t[0] == 0xEF && t[1] == 0xBF && t[2] == 0xBD
  {
    Utf8OfDecodeRune(t);
  }

  lemma Utf8AllStep(r: int, rs: seq<int>)
    requires Scalar(r) && Scalars(rs)
    ensures Utf8All([r] + rs) == Utf8(r) + Utf8All(rs)
  {
    hide Utf8;
    assert ([r] + rs)[1..] == rs;
  }

  lemma BytesTail(t: seq<int>, n: nat)
    requires Bytes(t) && n <= |t|
    ensures Bytes(t[n..]) && t[..n] + t[n..] == t
  {
  }

  lemma {:induction false} Utf8OfDecodeAll(t: seq<int>)
    requires Bytes(t) && DecodeAll(t).Some?
    ensures Utf8All(DecodeAll(t).value) == t
    decreases |t|
  {
    hide DecodeAll, DecodeRune, Utf8, Utf8All, Scalar, Scalars, Bytes;
    if t == [] {
      DecodeNone();
    } else {
      var (r, n) := DecodeRune(t);
      DecodeStep(t);
      Utf8OfDecodeRune(t);
      BytesTail(t, n);
      Utf8OfDecodeAll(t[n..]);
      Utf8AllStep(r, DecodeAll(t[n..]).value);
    }
  }

  lemma DecodeNone()
    ensures DecodeAll([]) == Some([]) && Utf8All([]) == []
  {
  }

  /** A byte string is decoded exactly if it is the UTF-8 of something, and to that. */
  lemma DecodeAllIff(t: seq<int>, rs: seq<int>)
    requires Bytes(t)
    ensures DecodeAll(t) == Some(rs) <==> Scalars(rs) && Utf8All(rs) == t
  {
    if DecodeAll(t) == Some(rs) {
      Utf8OfDecodeAll(t);
    }
    if Scalars(rs) {
      DecodeAllOfUtf8(rs);
    }
  }

  predicate FirstSurrogate(u: int) { 0xD800 <= u < 0xDC00 }

  predicate SecondSurrogate(u: int) { 0xDC00 <= u < 0xE000 }

  function Utf16(r: int): (s: seq<int>)
    requires Scalar(r)
    ensures Units(s) && 1 <= |s| <= 2
  {
    if r < 0x1_0000 then [r] else [0xD800 + (r - 0x1_0000) / 0x400, 0xDC00 + (r - 0x1_0000) % 0x400]
  }

  function Utf16All(rs: seq<int>): (s: seq<int>)
    requires Scalars(rs)
    ensures Units(s)
  {
    if rs == [] then [] else Utf16(rs[0]) + Utf16All(rs[1..])
  }

  /** The first rune of a string, and its size; None at a surrogate without a partner. */
  function ReadRune(s: seq<int>): (r: Option<(int, nat)>)
    requires s != [] && Units(s)
    ensures r.Some? ==> 1 <= r.value.1 <= |s| && Scalar(r.value.0) && Utf16(r.value.0) == s[..r.value.1]
  {
    var c := s[0];
    if FirstSurrogate(c) then
      if |s| > 1 && SecondSurrogate(s[1]) then Some((0x1_0000 + (c - 0xD800) * 0x400 + (s[1] - 0xDC00), 2)) else None
    else if SecondSurrogate(c) then None
    else Some((c, 1))
  }

  lemma ReadRuneOfUtf16(r: int, rest: seq<int>)
    requires Scalar(r) && Units(rest)
    ensures Units(Utf16(r) + rest) && ReadRune(Utf16(r) + rest) == Some((r, |Utf16(r)|))
  {
    var s := Utf16(r);
    var t := s + rest;
    assert t[0] == s[0] && (|s| > 1 ==> t[1] == s[1]);
  }

  function ReadAll(s: seq<int>): (r: Option<seq<int>>)
    requires Units(s)
    ensures r.Some? ==> Scalars(r.value)
    decreases |s|
  {
    if s == [] then Some([])
    else
      var x := ReadRune(s);
      if x.None? then None
      else
        var rest := ReadAll(s[x.value.1..]);
        if rest.None? then None else Some([x.value.0] + rest.value)
  }

  lemma {:induction false} ReadAllOfUtf16(rs: seq<int>)
    requires Scalars(rs)
    ensures ReadAll(Utf16All(rs)) == Some(rs)
    decreases |rs|
  {
    if rs != [] {
      var s, rest := Utf16(rs[0]), Utf16All(rs[1..]);
      ReadRuneOfUtf16(rs[0], rest);
      ReadAllOfUtf16(rs[1..]);
      hide Utf16, ReadRune, Scalar;
      assert (s + rest)[|s|..] == rest;
      assert [rs[0]] + rs[1..] == rs;
    }
  }

  lemma ReadStep(s: seq<int>)
    requires Units(s) && s != []
    ensures var x := ReadRune(s);
      if x.None? then ReadAll(s).None?
      else if ReadAll(s[x.value.1..]).None? then ReadAll(s).None?
      else ReadAll(s) == Some([x.value.0] + ReadAll(s[x.value.1..]).value)
  {
    hide ReadRune;
  }

  lemma Utf16AllStep(r: int, rs: seq<int>)
    requires Scalar(r) && Scalars(rs)
    ensures Utf16All([r] + rs) == Utf16(r) + Utf16All(rs)
  {
    hide Utf16;
    assert ([r] + rs)[1..] == rs;
  }

  lemma {:induction false} Utf16OfReadAll(s: seq<int>)
    requires Units(s) && ReadAll(s).Some?
    ensures Utf16All(ReadAll(s).value) == s
    decreases |s|
  {
    if s == [] {
    } else {
      hide ReadAll, ReadRune, Utf16, Utf16All, Scalar;
      ReadStep(s);
      var (r, n) := ReadRune(s).value;
      Utf16OfReadAll(s[n..]);
      Utf16AllStep(r, ReadAll(s[n..]).value);
      assert s == s[..n] + s[n..];
    }
  }
}
