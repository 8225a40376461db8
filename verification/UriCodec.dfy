/** encodeURI, decodeURI and their component variants, and escape and unescape. */
module UriCodec {
  import opened Options
  import opened Utf

  const PERCENT: int := 37

  /** A table says of each byte whether it is in a set. */
  type Table = int -> bool

  function HexUpper(d: int): (c: int)
    requires 0 <= d < 16
    ensures IsHex(c) && Unhex(c) == d && 0 <= c < 0x80 && c != PERCENT
  {
    if d < 10 then '0' as int + d else 'A' as int + d - 10
  }

  predicate IsHex(c: int) {
    '0' as int <= c <= '9' as int || 'a' as int <= c <= 'f' as int || 'A' as int <= c <= 'F' as int
  }

  function Unhex(c: int): (d: int)
    ensures 0 <= d < 16
  {
    if '0' as int <= c <= '9' as int then c - '0' as int
    else if 'a' as int <= c <= 'f' as int then c - 'a' as int + 10
    else if 'A' as int <= c <= 'F' as int then c - 'A' as int + 10
    else 0
  }

  // ---- encoding

  function Percent(b: int): (s: seq<int>)
    requires 0 <= b < 0x100
    ensures |s| == 3 && Bytes(s)
  {
    [PERCENT, HexUpper(b / 16), HexUpper(b % 16)]
  }

  function PercentAll(bs: seq<int>): (s: seq<int>)
    requires Bytes(bs)
    ensures |s| == 3 * |bs| && Bytes(s)
  {
    if bs == [] then [] else Percent(bs[0]) + PercentAll(bs[1..])
  }

  function EncodeRune(r: int, unescaped: Table): (s: seq<int>)
    requires Scalar(r)
    ensures Bytes(s)
  {
    if r >= RUNE_SELF then PercentAll(Utf8(r)) else if !unescaped(r) then Percent(r) else [r]
  }

  function EncodeAll(rs: seq<int>, unescaped: Table): (s: seq<int>)
    requires Scalars(rs)
    ensures Bytes(s)
  {
    if rs == [] then [] else EncodeRune(rs[0], unescaped) + EncodeAll(rs[1..], unescaped)
  }

  // ---- decoding

  predicate Escape(s: seq<int>) {
    |s| >= 3 && s[0] == PERCENT && IsHex(s[1]) && IsHex(s[2])
  }

  function Escaped(s: seq<int>): (c: int)
    requires Escape(s)
    ensures 0 <= c < 0x100
  {
    Unhex(s[1]) * 16 + Unhex(s[2])
  }

  /** Replaces escapes by the bytes they stand for, unless those are reserved; None at a malformed escape. */
  function Unpercent(s: seq<int>, reserved: Table): (r: Option<seq<int>>)
    requires Bytes(s)
    ensures r.Some? ==> Bytes(r.value)
  {
    if s == [] then Some([])
    else if s[0] == PERCENT && !Escape(s) then None
    else
      var n := if s[0] == PERCENT then 3 else 1;
      var rest := Unpercent(s[n..], reserved);
      if rest.None? then None
      else if s[0] == PERCENT && !reserved(Escaped(s)) then Some([Escaped(s)] + rest.value)
      else Some(s[..n] + rest.value)
  }

  /** How many escapes are replaced. */
  function HexCount(s: seq<int>, reserved: Table): nat {
    if s == [] then 0
    else if Escape(s) then (if reserved(Escaped(s)) then 0 else 1) + HexCount(s[3..], reserved)
    else HexCount(s[1..], reserved)
  }

  datatype Decoded = Malformed | Same | Runes(rs: seq<int>)

  function Decode(s: seq<int>, reserved: Table): Decoded
    requires Bytes(s)
  {
    var t := Unpercent(s, reserved);
    if t.None? then Malformed
    else if HexCount(s, reserved) == 0 then Same
    else
      var rs := DecodeAll(t.value);
      if rs.None? then Malformed else Runes(rs.value)
  }

  /** The text that a result of decoding s stands for. */
  function Text(s: seq<int>, d: Decoded): Option<seq<int>>
    requires Bytes(s)
  {
    match d
    case Malformed => None
    case Same => DecodeAll(s)
    case Runes(rs) => Some(rs)
  }

  lemma {:induction false} UnpercentLength(s: seq<int>, reserved: Table)
    requires Bytes(s) && Unpercent(s, reserved).Some?
    ensures |Unpercent(s, reserved).value| == |s| - 2 * HexCount(s, reserved)
    ensures HexCount(s, reserved) == 0 ==> Unpercent(s, reserved).value == s
    decreases |s|
  {
    if s != [] {
      var n := if s[0] == PERCENT then 3 else 1;
      UnpercentLength(s[n..], reserved);
      assert s == s[..n] + s[n..];
    }
  }

  lemma {:induction false} UnpercentPercentAll(bs: seq<int>, rest: seq<int>, reserved: Table)
    requires Bytes(bs) && Bytes(rest) && Unpercent(rest, reserved).Some? && forall i :: 0 <= i < |bs| ==> !reserved(bs[i])
    ensures Unpercent(PercentAll(bs) + rest, reserved) == Some(bs + Unpercent(rest, reserved).value)
    decreases |bs|
  {
    hide Unpercent, Percent;
    if bs == [] {
      assert PercentAll(bs) + rest == rest;
      assert bs + Unpercent(rest, reserved).value == Unpercent(rest, reserved).value;
    } else {
      UnpercentPercentAll(bs[1..], rest, reserved);
      var more := PercentAll(bs[1..]) + rest;
      UnpercentPercent(bs[0], more, reserved);
      assert PercentAll(bs) + rest == Percent(bs[0]) + more;
      assert [bs[0]] + (bs[1..] + Unpercent(rest, reserved).value) == bs + Unpercent(rest, reserved).value;
    }
  }

  lemma UnpercentPercent(b: int, rest: seq<int>, reserved: Table)
    requires 0 <= b < 0x100 && !reserved(b) && Bytes(rest) && Unpercent(rest, reserved).Some?
    ensures Unpercent(Percent(b) + rest, reserved) == Some([b] + Unpercent(rest, reserved).value)
  {
    var s := Percent(b) + rest;
    assert s[0] == PERCENT && s[1] == HexUpper(b / 16) && s[2] == HexUpper(b % 16) && s[3..] == rest;
    assert Escape(s) && Escaped(s) == b;
    hide Percent, HexUpper, Escape, Escaped;
  }

  /** What is escaped by one table may be restored by the other: the percent sign is escaped, and what is
      reserved is not. */
  ghost predicate Fit(unescaped: Table, reserved: Table) {
    !unescaped(PERCENT) && forall c: int :: reserved(c) ==> 0 <= c < RUNE_SELF && unescaped(c)
  }

  lemma UnpercentRune(r: int, rest: seq<int>, unescaped: Table, reserved: Table)
    requires Scalar(r) && Fit(unescaped, reserved) && Bytes(rest) && Unpercent(rest, reserved).Some?
    ensures Unpercent(EncodeRune(r, unescaped) + rest, reserved) == Some(Utf8(r) + Unpercent(rest, reserved).value)
  {
    if r >= RUNE_SELF {
      Utf8IsHigh(r);
      UnpercentPercentAll(Utf8(r), rest, reserved);
    } else if !unescaped(r) {
      UnpercentPercent(r, rest, reserved);
    } else {
      assert ([r] + rest)[1..] == rest;
      assert ([r] + rest)[..1] == [r];
    }
  }

  lemma Utf8IsHigh(r: int)
    requires Scalar(r) && r >= RUNE_SELF
    ensures forall i :: 0 <= i < |Utf8(r)| ==> Utf8(r)[i] >= RUNE_SELF
  {
  }

  lemma {:induction false} UnpercentEncoded(rs: seq<int>, unescaped: Table, reserved: Table)
    requires Scalars(rs) && Fit(unescaped, reserved)
    ensures Unpercent(EncodeAll(rs, unescaped), reserved) == Some(Utf8All(rs))
    decreases |rs|
  {
    if rs != [] {
      UnpercentEncoded(rs[1..], unescaped, reserved);
      UnpercentRune(rs[0], EncodeAll(rs[1..], unescaped), unescaped, reserved);
    }
  }

  /** Decoding undoes encoding, for any text. */
  lemma DecodeUndoesEncode(rs: seq<int>, unescaped: Table, reserved: Table)
    requires Scalars(rs) && Fit(unescaped, reserved)
    ensures var s := EncodeAll(rs, unescaped); Text(s, Decode(s, reserved)) == Some(rs)
  {
    var s := EncodeAll(rs, unescaped);
    UnpercentEncoded(rs, unescaped, reserved);
    UnpercentLength(s, reserved);
    DecodeAllOfUtf8(rs);
  }

  // ---- the tables

  predicate AmongChars(c: int, s: string) { exists i :: 0 <= i < |s| && s[i] as int == c }

  predicate UriUnescaped(c: int) {
    || 'a' as int <= c <= 'z' as int || 'A' as int <= c <= 'Z' as int || '0' as int <= c <= '9' as int
    || AmongChars(c, "-_.!~*'()")
  }

  predicate UriReserved(c: int) { AmongChars(c, ";/?:@&=+$,") }

  predicate UriReservedHash(c: int) { UriReserved(c) || c == '#' as int }

  predicate UriReservedUnescapedHash(c: int) { UriUnescaped(c) || UriReserved(c) || c == '#' as int }

  predicate EmptyEscapeSet(c: int) { false }

  lemma TablesFit()
    ensures Fit(UriReservedUnescapedHash, UriReservedHash) && Fit(UriUnescaped, EmptyEscapeSet)
  {
    assert !AmongChars(PERCENT, "-_.!~*'()") && !AmongChars(PERCENT, ";/?:@&=+$,");
    forall c: int | UriReservedHash(c) ensures 0 <= c < RUNE_SELF {
      if UriReserved(c) {
        var s := ";/?:@&=+$,";
        var i :| 0 <= i < |s| && s[i] as int == c;
      }
    }
  }

  /** The characters left alone, by their codes: letters, digits, and eleven or nine more. */
  lemma TablesAre(c: int)
    ensures UriUnescaped(c) <==> 48 <= c <= 57 || 65 <= c <= 90 || 97 <= c <= 122 || c in {33, 39, 40, 41, 42, 45, 46, 95, 126}
    ensures UriReservedHash(c) <==> c in {35, 36, 38, 43, 44, 47, 58, 59, 61, 63, 64}
    ensures UriReservedUnescapedHash(c) <==> UriUnescaped(c) || UriReservedHash(c)
    ensures !EmptyEscapeSet(c) && !(UriUnescaped(c) && UriReservedHash(c))
  {
    var a, b := "-_.!~*'()", ";/?:@&=+$,";
    assert AmongChars(c, a) <==> c in {45, 95, 46, 33, 126, 42, 39, 40, 41} by {
      assert a[0] as int == 45 && a[1] as int == 95 && a[2] as int == 46 && a[3] as int == 33 && a[4] as int == 126;
      assert a[5] as int == 42 && a[6] as int == 39 && a[7] as int == 40 && a[8] as int == 41;
    }
    assert AmongChars(c, b) <==> c in {59, 47, 63, 58, 64, 38, 61, 43, 36, 44} by {
      assert b[0] as int == 59 && b[1] as int == 47 && b[2] as int == 63 && b[3] as int == 58 && b[4] as int == 64;
      assert b[5] as int == 38 && b[6] as int == 61 && b[7] as int == 43 && b[8] as int == 36 && b[9] as int == 44;
    }
  }

  /** A text in UTF-8 in which the reserved characters alone are escaped. */
  function ReservedEscaped(rs: seq<int>, reserved: Table): (s: seq<int>)
    requires Scalars(rs)
    ensures Bytes(s)
  {
    if rs == [] then []
    else (if rs[0] < RUNE_SELF && reserved(rs[0]) then Percent(rs[0]) else Utf8(rs[0])) + ReservedEscaped(rs[1..], reserved)
  }

  lemma UnpercentReserved(b: int, rest: seq<int>, reserved: Table)
    requires 0 <= b < 0x100 && reserved(b) && Bytes(rest) && Unpercent(rest, reserved).Some?
    ensures Unpercent(Percent(b) + rest, reserved) == Some(Percent(b) + Unpercent(rest, reserved).value)
  {
    var s := Percent(b) + rest;
    assert s[0] == PERCENT && s[1] == HexUpper(b / 16) && s[2] == HexUpper(b % 16) && s[3..] == rest && s[..3] == Percent(b);
    assert Escape(s) && Escaped(s) == b;
    hide Percent, HexUpper, Escape, Escaped;
  }

  /** Decoding leaves the escapes of reserved characters as they are, and replaces all others: what the encoding that escapes
      reserved characters made of a text comes back with just those escaped. */
  lemma {:induction false} ReservedStayEscaped(rs: seq<int>, unescaped: Table, reserved: Table)
    requires Scalars(rs) && !unescaped(PERCENT) && forall c: int :: reserved(c) ==> 0 <= c < RUNE_SELF && !unescaped(c)
    ensures Unpercent(EncodeAll(rs, unescaped), reserved) == Some(ReservedEscaped(rs, reserved))
    decreases |rs|
  {
    if rs != [] {
      var r, rest := rs[0], EncodeAll(rs[1..], unescaped);
      ReservedStayEscaped(rs[1..], unescaped, reserved);
      if r >= RUNE_SELF {
        Utf8IsHigh(r);
        UnpercentPercentAll(Utf8(r), rest, reserved);
      } else if reserved(r) {
        UnpercentReserved(r, rest, reserved);
      } else if !unescaped(r) {
        UnpercentPercent(r, rest, reserved);
      } else {
        assert ([r] + rest)[1..] == rest && ([r] + rest)[..1] == [r];
      }
    }
  }

  /** decodeURI after encodeURIComponent. */
  lemma DecodeUriOfComponent(rs: seq<int>)
    requires Scalars(rs)
    ensures Unpercent(EncodeAll(rs, UriUnescaped), UriReservedHash) == Some(ReservedEscaped(rs, UriReservedHash))
  {
    TablesFit();
    forall c: int | UriReservedHash(c) ensures 0 <= c < RUNE_SELF && !UriUnescaped(c) {
      TablesAre(c);
    }
    ReservedStayEscaped(rs, UriUnescaped, UriReservedHash);
  }

  /** The sixteen digits, in either case, and no others. */
  lemma HexIs(c: int)
    ensures IsHex(c) <==> exists d :: 0 <= d < 16 && (c == "0123456789ABCDEF"[d] as int || c == "0123456789abcdef"[d] as int)
    ensures forall d :: 0 <= d < 16 && (c == "0123456789ABCDEF"[d] as int || c == "0123456789abcdef"[d] as int) ==> Unhex(c) == d
  {
    var upper, lower := "0123456789ABCDEF", "0123456789abcdef";
    forall d | 0 <= d < 16
      ensures upper[d] as int == (if d < 10 then 48 + d else 55 + d) && lower[d] as int == (if d < 10 then 48 + d else 87 + d)
    {
    }
    if IsHex(c) {
      assert c == upper[Unhex(c)] as int || c == lower[Unhex(c)] as int;
    }
  }

  /** At k there is a percent sign that begins no escape. */
  predicate BadAt(s: seq<int>, k: nat) {
    k < |s| && s[k] == PERCENT && !Escape(s[k..])
  }

  lemma BadFurtherOn(s: seq<int>, n: nat)
    requires n <= |s| && forall k :: 0 <= k < n ==> !BadAt(s, k)
    ensures (exists k :: BadAt(s, k)) <==> exists k :: BadAt(s[n..], k)
  {
    forall k | n <= k < |s| ensures s[n..][k - n..] == s[k..] && s[n..][k - n] == s[k] {
    }
    if k: nat :| BadAt(s, k) {
      assert BadAt(s[n..], k - n);
    }
    if k: nat :| BadAt(s[n..], k) {
      assert BadAt(s, n + k);
    }
  }

  /** Decoding refuses a text exactly if somewhere in it a percent sign begins no escape, whatever is reserved. */
  lemma {:induction false} MalformedIff(s: seq<int>, reserved: Table)
    requires Bytes(s)
    ensures Unpercent(s, reserved).None? <==> exists k :: BadAt(s, k)
    decreases |s|
  {
    hide Escaped;
    if s != [] {
      assert s[0..] == s;
      if s[0] == PERCENT && !Escape(s) {
        assert BadAt(s, 0);
      } else {
        var n := if s[0] == PERCENT then 3 else 1;
        assert forall k :: 0 < k < n ==> s[k] != PERCENT;
        MalformedIff(s[n..], reserved);
        BadFurtherOn(s, n);
      }
    }
  }

  // ---- the routines, each of which measures first and then fills a buffer

  datatype Encoded = BadUri | Unchanged | Ascii(bytes: seq<int>)

  /** What encoding a string gives: an error if it is not well-formed, itself if there is nothing to escape. */
  ghost predicate IsEncoding(units: seq<int>, unescaped: Table, r: Encoded)
    requires Units(units)
  {
    match r
    case BadUri => ReadAll(units).None?
    case Unchanged => ReadAll(units).Some? && EncodeAll(ReadAll(units).value, unescaped) == units == ReadAll(units).value
    case Ascii(bytes) => ReadAll(units).Some? && EncodeAll(ReadAll(units).value, unescaped) == bytes
  }

  /** A string has been read up to pos. */
  ghost predicate ReadSoFar(units: seq<int>, pos: nat, done: seq<int>)
    requires Units(units)
  {
    && pos <= |units| && Scalars(done)
    && (ReadAll(units).None? <==> ReadAll(units[pos..]).None?)
    && (ReadAll(units).Some? ==> ReadAll(units).value == done + ReadAll(units[pos..]).value)
  }

  lemma ReadStart(units: seq<int>)
    requires Units(units)
    ensures ReadSoFar(units, 0, [])
  {
    assert units[0..] == units;
  }

  lemma ReadMore(units: seq<int>, pos: nat, done: seq<int>)
    requires Units(units) && pos < |units| && ReadSoFar(units, pos, done)
    ensures var x := ReadRune(units[pos..]);
      if x.None? then ReadAll(units).None? else ReadSoFar(units, pos + x.value.1, done + [x.value.0])
  {
    hide ReadRune, ReadAll, Utf16, Scalar;
    var x := ReadRune(units[pos..]);
    ReadStep(units[pos..]);
    if x.Some? {
      var (r, n) := x.value;
      assert units[pos..][n..] == units[pos + n..];
      if ReadAll(units).Some? {
        Associate(done, [r], ReadAll(units[pos + n..]).value);
      }
    }
  }

  lemma ReadEnd(units: seq<int>, done: seq<int>)
    requires Units(units) && ReadSoFar(units, |units|, done)
    ensures ReadAll(units) == Some(done)
  {
    assert units[|units|..] == [] && done + [] == done;
  }

  lemma OneUnit(units: seq<int>, pos: nat)
    requires Units(units) && pos < |units| && ReadRune(units[pos..]).Some? && ReadRune(units[pos..]).value.0 < RUNE_SELF
    ensures ReadRune(units[pos..]).value.1 == 1 && units[..pos + 1] == units[..pos] + [ReadRune(units[pos..]).value.0]
  {
  }

  /** The length of the encoding of a string, and whether it differs from the string; None if that is not
      well-formed. */
  method Measure(units: seq<int>, unescaped: Table) returns (l: Option<nat>, needed: bool)
    requires Units(units)
    ensures l.None? <==> ReadAll(units).None?
    ensures l.Some? ==> l.value == |EncodeAll(ReadAll(units).value, unescaped)|
    ensures l.Some? && !needed ==> EncodeAll(ReadAll(units).value, unescaped) == units == ReadAll(units).value
  {
    hide ReadAll, ReadRune, EncodeAll, Utf8, ReadSoFar, Percent, PercentAll;
    needed := false;
    var n, pos := 0, 0;
    ghost var done: seq<int> := [];
    ReadStart(units);
    EncodeNone(unescaped);
    while pos < |units|
      invariant pos <= |units| && Scalars(done) && n == |EncodeAll(done, unescaped)| && ReadSoFar(units, pos, done)
      invariant !needed ==> EncodeAll(done, unescaped) == done == units[..pos]
    {
      var x := ReadRune(units[pos..]);
      ReadMore(units, pos, done);
      if x.None? {
        return None, false;
      }
      var (r, size) := x.value;
      EncodeMore(done, r, unescaped);
      if r >= RUNE_SELF {
        needed := true;
        n := n + 3 * |Utf8(r)|;
      } else if !unescaped(r) {
        needed := true;
        n := n + 3;
      } else {
        n := n + 1;
        OneUnit(units, pos);
      }
      done := done + [r];
      pos := pos + size;
    }
    ReadEnd(units, done);
    assert units[..pos] == units;
    return Some(n), needed;
  }

  lemma EncodeNone(unescaped: Table)
    ensures EncodeAll([], unescaped) == []
  {
  }

  lemma {:induction false} EncodeMore(rs: seq<int>, r: int, unescaped: Table)
    requires Scalars(rs) && Scalar(r)
    ensures EncodeAll(rs + [r], unescaped) == EncodeAll(rs, unescaped) + EncodeRune(r, unescaped)
    decreases |rs|
  {
    if rs == [] {
      assert rs + [r] == [r] && [r][1..] == [];
      assert EncodeRune(r, unescaped) + [] == [] + EncodeRune(r, unescaped);
    } else {
      assert (rs + [r])[0] == rs[0] && (rs + [r])[1..] == rs[1..] + [r];
      EncodeMore(rs[1..], r, unescaped);
      var a, b, c := EncodeRune(rs[0], unescaped), EncodeAll(rs[1..], unescaped), EncodeRune(r, unescaped);
      assert a + (b + c) == a + b + c;
    }
  }

  /** Writes the escape of a byte. */
  method PutPercent(buf: array<int>, i: nat, b: int)
    requires 0 <= b < 0x100 && i + 3 <= buf.Length
    modifies buf
    ensures buf[..i + 3] == old(buf[..i]) + Percent(b)
  {
    buf[i] := PERCENT;
    buf[i + 1] := HexUpper(b / 16);
    buf[i + 2] := HexUpper(b % 16);
    assert buf[..i + 3] == buf[..i] + [buf[i], buf[i + 1], buf[i + 2]];
  }

  /** Writes the escapes of bytes. */
  method PutPercents(buf: array<int>, i: nat, s: seq<int>) returns (next: nat)
    requires Bytes(s) && i + 3 * |s| <= buf.Length
    modifies buf
    ensures next == i + 3 * |s| && buf[..next] == old(buf[..i]) + PercentAll(s)
  {
    hide Percent, PercentAll;
    next := i;
    assert s[..0] == [] && buf[..i] == old(buf[..i]) + PercentAll([]) by {
      PercentNone();
    }
    for k := 0 to |s|
      invariant next == i + 3 * k && buf[..next] == old(buf[..i]) + PercentAll(s[..k])
    {
      PutPercent(buf, next, s[k]);
      PercentMore(s[..k], s[k]);
      assert s[..k + 1] == s[..k] + [s[k]];
      Associate(old(buf[..i]), PercentAll(s[..k]), Percent(s[k]));
      next := next + 3;
    }
    assert s[..|s|] == s;
  }

  lemma PercentNone()
    ensures PercentAll([]) == []
  {
  }

  lemma Associate(a: seq<int>, b: seq<int>, c: seq<int>)
    ensures a + b + c == a + (b + c)
  {
  }

  /** Writes the encoding of a rune. */
  method PutRune(buf: array<int>, i: nat, r: int, unescaped: Table) returns (next: nat)
    requires Scalar(r) && i + |EncodeRune(r, unescaped)| <= buf.Length
    modifies buf
    ensures next == i + |EncodeRune(r, unescaped)| && buf[..next] == old(buf[..i]) + EncodeRune(r, unescaped)
  {
    hide Percent, PercentAll, Utf8;
    if r >= RUNE_SELF {
      next := PutPercents(buf, i, Utf8(r));
    } else if !unescaped(r) {
      PutPercent(buf, i, r);
      next := i + 3;
    } else {
      buf[i] := r;
      next := i + 1;
      assert buf[..next] == buf[..i] + [r];
    }
  }

  lemma {:induction false} PercentMore(bs: seq<int>, b: int)
    requires Bytes(bs) && 0 <= b < 0x100
    ensures PercentAll(bs + [b]) == PercentAll(bs) + Percent(b)
    decreases |bs|
  {
    if bs == [] {
      assert bs + [b] == [b] && [b][1..] == [];
      assert Percent(b) + [] == [] + Percent(b);
    } else {
      assert (bs + [b])[0] == bs[0] && (bs + [b])[1..] == bs[1..] + [b];
      PercentMore(bs[1..], b);
      assert Percent(bs[0]) + (PercentAll(bs[1..]) + Percent(b)) == Percent(bs[0]) + PercentAll(bs[1..]) + Percent(b);
    }
  }

  /** encodeURI and encodeURIComponent, depending on the table. */
  method EncodeUri(units: seq<int>, unescaped: Table) returns (r: Encoded)
    requires Units(units)
    ensures IsEncoding(units, unescaped, r)
  {
    hide ReadAll, ReadRune, EncodeAll, EncodeRune, ReadSoFar;
    var l, needed := Measure(units, unescaped);
    if l.None? {
      return BadUri;
    }
    if !needed {
      return Unchanged;
    }
    var buf := new int[l.value];
    ghost var done: seq<int> := [];
    ReadStart(units);
    EncodeNone(unescaped);
    var i, pos := 0, 0;
    while pos < |units|
      invariant pos <= |units| && Scalars(done) && ReadSoFar(units, pos, done)
      invariant i == |EncodeAll(done, unescaped)| <= buf.Length && buf[..i] == EncodeAll(done, unescaped)
    {
      ReadMore(units, pos, done);
      var (rn, size) := ReadRune(units[pos..]).value;
      EncodeMore(done, rn, unescaped);
      EncodeFits(units, pos + size, done + [rn], unescaped);
      i := PutRune(buf, i, rn, unescaped);
      done := done + [rn];
      pos := pos + size;
    }
    ReadEnd(units, done);
    assert buf[..] == buf[..i];
    return Ascii(buf[..]);
  }

  lemma EncodeFits(units: seq<int>, pos: nat, done: seq<int>, unescaped: Table)
    requires Units(units) && ReadAll(units).Some? && ReadSoFar(units, pos, done)
    ensures |EncodeAll(done, unescaped)| <= |EncodeAll(ReadAll(units).value, unescaped)|
  {
    EncodePrefix(done, ReadAll(units[pos..]).value, unescaped);
  }

  lemma {:induction false} EncodePrefix(rs: seq<int>, rest: seq<int>, unescaped: Table)
    requires Scalars(rs) && Scalars(rest)
    ensures |EncodeAll(rs, unescaped)| <= |EncodeAll(rs + rest, unescaped)|
    decreases |rs|
  {
    if rs != [] {
      assert (rs + rest)[0] == rs[0] && (rs + rest)[1..] == rs[1..] + rest;
      EncodePrefix(rs[1..], rest, unescaped);
    }
  }

  lemma CountStep(s: seq<int>, reserved: Table)
    requires Bytes(s) && s != []
    ensures s[0] == PERCENT && !Escape(s) ==> Unpercent(s, reserved).None?
    ensures var n := if s[0] == PERCENT then 3 else 1;
      (s[0] == PERCENT ==> Escape(s)) ==>
        && HexCount(s, reserved) == HexCount(s[n..], reserved) + (if s[0] == PERCENT && !reserved(Escaped(s)) then 1 else 0)
        && (Unpercent(s, reserved).None? <==> Unpercent(s[n..], reserved).None?)
        && (Unpercent(s, reserved).Some? ==>
              var put := if s[0] == PERCENT && !reserved(Escaped(s)) then [Escaped(s)] else s[..n];
              Unpercent(s, reserved).value == put + Unpercent(s[n..], reserved).value)
  {
  }

  /** How many escapes there are to replace; None if one is malformed. */
  method CountEscapes(s: seq<int>, reserved: Table) returns (n: Option<nat>)
    requires Bytes(s)
    ensures n == if Unpercent(s, reserved).None? then None else Some(HexCount(s, reserved))
  {
    hide Unpercent, HexCount, Escaped;
    var hexCount, i := 0, 0;
    assert s[0..] == s;
    while i < |s|
      invariant i <= |s| && HexCount(s, reserved) == hexCount + HexCount(s[i..], reserved)
      invariant Unpercent(s, reserved).None? <==> Unpercent(s[i..], reserved).None?
    {
      CountStep(s[i..], reserved);
      if s[i] == PERCENT {
        if i + 2 >= |s| || !IsHex(s[i + 1]) || !IsHex(s[i + 2]) {
          return None;
        }
        assert s[i..][3..] == s[i + 3..];
        assert Escaped(s[i..]) == Unhex(s[i + 1]) * 16 + Unhex(s[i + 2]) by {
          EscapedAt(s, i);
        }
        if !reserved(Unhex(s[i + 1]) * 16 + Unhex(s[i + 2])) {
          hexCount := hexCount + 1;
        }
        i := i + 3;
      } else {
        assert s[i..][1..] == s[i + 1..];
        i := i + 1;
      }
    }
    assert s[i..] == [];
    CountNone(reserved);
    return Some(hexCount);
  }

  lemma CountNone(reserved: Table)
    ensures HexCount([], reserved) == 0 && Unpercent([], reserved) == Some([])
  {
  }

  lemma EscapedAt(s: seq<int>, i: nat)
    requires i + 3 <= |s| && Escape(s[i..])
    ensures Escaped(s[i..]) == Unhex(s[i + 1]) * 16 + Unhex(s[i + 2])
  {
  }

  ghost predicate HasHigh(s: seq<int>) { exists k :: 0 <= k < |s| && s[k] >= RUNE_SELF }

  lemma HighAppend(a: seq<int>, b: seq<int>)
    ensures HasHigh(a + b) <==> HasHigh(a) || HasHigh(b)
  {
    if HasHigh(a) {
      var k :| 0 <= k < |a| && a[k] >= RUNE_SELF;
      assert (a + b)[k] >= RUNE_SELF;
    }
    if HasHigh(b) {
      var k :| 0 <= k < |b| && b[k] >= RUNE_SELF;
      assert (a + b)[|a| + k] >= RUNE_SELF;
    }
  }

  /** What becomes of the byte or escape at the start of s. */
  function Replacement(s: seq<int>, reserved: Table): seq<int>
    requires s != [] && (s[0] == PERCENT ==> Escape(s))
  {
    if s[0] != PERCENT then s[..1] else if reserved(Escaped(s)) then s[..3] else [Escaped(s)]
  }

  method PutReplacement(t: array<int>, j: nat, s: seq<int>, i: nat, reserved: Table) returns (next: nat, high: bool)
    requires Bytes(s) && i < |s| && (s[i] == PERCENT ==> Escape(s[i..])) && j + |Replacement(s[i..], reserved)| <= t.Length
    modifies t
    ensures next == j + |Replacement(s[i..], reserved)| && t[..next] == old(t[..j]) + Replacement(s[i..], reserved)
    ensures high <==> HasHigh(Replacement(s[i..], reserved))
  {
    if s[i] == PERCENT {
      EscapedAt(s, i);
      var c := Unhex(s[i + 1]) * 16 + Unhex(s[i + 2]);
      if reserved(c) {
        t[j], t[j + 1], t[j + 2] := s[i], s[i + 1], s[i + 2];
        next, high := j + 3, false;
      } else {
        t[j] := c;
        next, high := j + 1, c >= RUNE_SELF;
        assert [c][0] == c;
      }
    } else {
      t[j] := s[i];
      next, high := j + 1, s[i] >= RUNE_SELF;
      assert s[i..][..1][0] == s[i];
    }
  }

  /** Replaces the escapes, and tells whether anything but ASCII remains. The buffer is filled exactly. */
  method Replace(s: seq<int>, reserved: Table, hexCount: nat) returns (t: array<int>, isUnicode: bool)
    requires Bytes(s) && Unpercent(s, reserved).Some? && hexCount == HexCount(s, reserved)
    ensures t[..] == Unpercent(s, reserved).value && (isUnicode <==> HasHigh(t[..]))
  {
    hide Unpercent, HexCount, Escaped, Escape, Replacement, HasHigh;
    UnpercentLength(s, reserved);
    t := new int[|s| - hexCount * 2];
    ghost var all := Unpercent(s, reserved).value;
    ghost var done: seq<int> := [];
    var i: nat, j: nat := 0, 0;
    isUnicode := false;
    assert s[0..] == s && done + all == all;
    NothingHigh();
    while i < |s|
      invariant i <= |s| && j <= t.Length == |all| && Unpercent(s[i..], reserved).Some?
      invariant t[..j] == done && done + Unpercent(s[i..], reserved).value == all
      invariant isUnicode <==> HasHigh(done)
    {
      ghost var put := ReplaceStep(s, i, reserved);
      var n := if s[i] == PERCENT then 3 else 1;
      MoreDone(done, put, Unpercent(s[i + n..], reserved).value, all);
      HighAppend(done, put);
      var high;
      j, high := PutReplacement(t, j, s, i, reserved);
      done := done + put;
      isUnicode := isUnicode || high;
      i := i + n;
    }
    assert s[i..] == [];
    CountNone(reserved);
    assert done + [] == done && |done| == j;
    assert t[..] == t[..j];
  }

  lemma MoreDone(done: seq<int>, put: seq<int>, rest: seq<int>, all: seq<int>)
    requires done + (put + rest) == all
    ensures done + put + rest == all && |done| + |put| <= |all|
  {
    Associate(done, put, rest);
  }

  lemma NothingHigh()
    ensures !HasHigh([])
  {
  }

  lemma ReplaceStep(s: seq<int>, i: nat, reserved: Table) returns (put: seq<int>)
    requires Bytes(s) && i < |s| && Unpercent(s[i..], reserved).Some?
    ensures s[i] == PERCENT ==> Escape(s[i..])
    ensures put == Replacement(s[i..], reserved)
    ensures var n := if s[i] == PERCENT then 3 else 1;
      i + n <= |s| && Unpercent(s[i + n..], reserved).Some?
      && Unpercent(s[i..], reserved).value == put + Unpercent(s[i + n..], reserved).value
  {
    CountStep(s[i..], reserved);
    hide Unpercent, HexCount;
    put := Replacement(s[i..], reserved);
    var n := if s[i] == PERCENT then 3 else 1;
    assert s[i..][n..] == s[i + n..];
  }

  lemma {:induction false} AsciiDecodes(t: seq<int>)
    requires Bytes(t) && forall k :: 0 <= k < |t| ==> t[k] < RUNE_SELF
    ensures DecodeAll(t) == Some(t)
    decreases |t|
  {
    if t != [] {
      AsciiDecodes(t[1..]);
      assert [t[0]] + t[1..] == t;
    }
  }

  /** The runes of bytes; None if they are not UTF-8. */
  method DecodeBytes(bytes: seq<int>) returns (r: Option<seq<int>>)
    requires Bytes(bytes)
    ensures r == DecodeAll(bytes)
  {
    hide DecodeAll, DecodeRune, Utf8, Scalar;
    var us: seq<int>, t := [], bytes;
    while |t| > 0
      invariant Bytes(t) && (DecodeAll(bytes).None? <==> DecodeAll(t).None?)
      invariant DecodeAll(t).Some? ==> DecodeAll(bytes).value == us + DecodeAll(t).value
      decreases |t|
    {
      var (rn, size) := DecodeRune(t);
      DecodeStep(t);
      if rn == RUNE_ERROR {
        if size != 3 || t[0] != 0xEF || t[1] != 0xBF || t[2] != 0xBD {
          return None;
        }
      }
      if DecodeAll(t).Some? {
        assert us + ([rn] + DecodeAll(t[size..]).value) == us + [rn] + DecodeAll(t[size..]).value;
      }
      us := us + [rn];
      t := t[size..];
    }
    DecodeNone();
    assert us + [] == us;
    return Some(us);
  }

  /** decodeURI and decodeURIComponent, depending on the table. */
  method DecodeUri(s: seq<int>, reserved: Table) returns (r: Decoded)
    requires Bytes(s)
    ensures r == Decode(s, reserved)
  {
    hide Unpercent, HexCount, DecodeAll;
    var n := CountEscapes(s, reserved);
    if n.None? {
      return Malformed;
    }
    if n.value == 0 {
      return Same;
    }
    var t, isUnicode := Replace(s, reserved, n.value);
    if !isUnicode {
      assert forall k :: 0 <= k < t.Length ==> t[..][k] < RUNE_SELF;
      AsciiDecodes(t[..]);
      return Runes(t[..]);
    }
    var us := DecodeBytes(t[..]);
    return if us.None? then Malformed else Runes(us.value);
  }

  /** Decoding what a string was encoded as gives the string back, with the tables of either pair of functions. */
  method RoundTrip(units: seq<int>, component: bool) returns (r: Option<seq<int>>)
    requires Units(units)
    ensures r == if ReadAll(units).None? then None else Some(units)
  {
    var unescaped := if component then UriUnescaped else UriReservedUnescapedHash;
    var reserved := if component then EmptyEscapeSet else UriReservedHash;
    TablesFit();
    var e := EncodeUri(units, unescaped);
    if e.BadUri? {
      return None;
    }
    ghost var rs := ReadAll(units).value;
    var s := if e.Unchanged? then units else e.bytes;
    DecodeUndoesEncode(rs, unescaped, reserved);
    Utf16OfReadAll(units);
    var d := DecodeUri(s, reserved);
    if d.Same? {
      var rs1 := DecodeBytes(s);
      return Some(Utf16All(rs1.value));
    }
    return Some(Utf16All(d.rs));
  }

  // ---- escape and unescape

  predicate Unreserved(r: int) {
    || 'A' as int <= r <= 'Z' as int || 'a' as int <= r <= 'z' as int || '0' as int <= r <= '9' as int
    || AmongChars(r, "@*_+-./")
  }

  function EscapeUnit(r: int): (s: seq<int>)
    requires 0 <= r < 0x1_0000
    ensures Units(s)
  {
    if Unreserved(r) then [r]
    else if r <= 0xFF then Percent(r)
    else [PERCENT, 'u' as int, HexUpper(r / 0x1000), HexUpper(r / 0x100 % 0x10), HexUpper(r / 0x10 % 0x10), HexUpper(r % 0x10)]
  }

  function EscapeAll(units: seq<int>): (s: seq<int>)
    requires Units(units)
    ensures Units(s)
  {
    if units == [] then [] else EscapeUnit(units[0]) + EscapeAll(units[1..])
  }

  predicate LongEscape(s: seq<int>) {
    |s| >= 6 && s[0] == PERCENT && s[1] == 'u' as int && IsHex(s[2]) && IsHex(s[3]) && IsHex(s[4]) && IsHex(s[5])
  }

  /** The unit that a string begins with the escape of, or its first, and how many units it takes up. */
  function UnescapeUnit(s: seq<int>): (r: (int, nat))
    requires s != [] && Units(s)
    ensures 1 <= r.1 <= |s| && 0 <= r.0 < 0x1_0000
  {
    if LongEscape(s) then (Unhex(s[2]) * 0x1000 + Unhex(s[3]) * 0x100 + Unhex(s[4]) * 0x10 + Unhex(s[5]), 6)
    else if Escape(s) then (Escaped(s), 3)
    else (s[0], 1)
  }

  function UnescapeAll(s: seq<int>): (r: seq<int>)
    requires Units(s)
    decreases |s|
  {
    if s == [] then [] else [UnescapeUnit(s).0] + UnescapeAll(s[UnescapeUnit(s).1..])
  }

  /** At k there begins an escape, in either form. */
  predicate EscapeAt(s: seq<int>, k: nat) {
    k < |s| && (LongEscape(s[k..]) || Escape(s[k..]))
  }

  lemma EscapeFurtherOn(s: seq<int>)
    requires s != [] && !EscapeAt(s, 0)
    ensures (exists k :: EscapeAt(s, k)) <==> exists k :: EscapeAt(s[1..], k)
  {
    forall k | 1 <= k < |s| ensures s[1..][k - 1..] == s[k..] {
    }
    if k: nat :| EscapeAt(s, k) {
      assert EscapeAt(s[1..], k - 1);
    }
    if k: nat :| EscapeAt(s[1..], k) {
      assert EscapeAt(s, k + 1);
    }
  }

  /** unescape leaves a text as it is exactly if no escape begins anywhere in it. */
  lemma {:induction false} UnescapeSameIff(s: seq<int>)
    requires Units(s)
    ensures |UnescapeAll(s)| <= |s|
    ensures UnescapeAll(s) == s <==> !exists k :: EscapeAt(s, k)
    decreases |s|
  {
    hide LongEscape, Escape, Escaped;
    if s != [] {
      assert s[0..] == s;
      var n := UnescapeUnit(s).1;
      UnescapeSameIff(s[n..]);
      if EscapeAt(s, 0) {
        assert |UnescapeAll(s)| < |s|;
      } else {
        EscapeFurtherOn(s);
        assert s == [s[0]] + s[1..] && UnescapeAll(s)[1..] == UnescapeAll(s[1..]);
      }
    }
  }

  lemma UnescapeDigits(a: int, b: int, c: int, d: int, rest: seq<int>)
    requires 0 <= a < 16 && 0 <= b < 16 && 0 <= c < 16 && 0 <= d < 16 && Units(rest)
    ensures var e := [PERCENT, 'u' as int, HexUpper(a), HexUpper(b), HexUpper(c), HexUpper(d)];
      Units(e + rest) && UnescapeUnit(e + rest) == (a * 0x1000 + b * 0x100 + c * 0x10 + d, 6)
  {
    var s := [PERCENT, 'u' as int, HexUpper(a), HexUpper(b), HexUpper(c), HexUpper(d)] + rest;
    assert s[0] == PERCENT && s[1] == 'u' as int && s[2] == HexUpper(a) && s[3] == HexUpper(b) && s[4] == HexUpper(c) && s[5] == HexUpper(d);
    hide HexUpper, IsHex, Unhex;
    assert LongEscape(s);
  }

  lemma Nibbles(r: int)
    requires 0 <= r < 0x1_0000
    ensures r == r / 0x1000 * 0x1000 + r / 0x100 % 0x10 * 0x100 + r / 0x10 % 0x10 * 0x10 + r % 0x10
  {
    var q := r / 0x10;
    var p := q / 0x10;
    var o := p / 0x10;
    assert p == r / 0x100 && o == r / 0x1000;
    assert r == q * 0x10 + r % 0x10 && q == p * 0x10 + q % 0x10 && p == o * 0x10 + p % 0x10;
  }

  lemma UnescapeLong(r: int, rest: seq<int>)
    requires 0x100 <= r < 0x1_0000 && Units(rest) && !Unreserved(r)
    ensures UnescapeUnit(EscapeUnit(r) + rest) == (r, |EscapeUnit(r)|)
  {
    Nibbles(r);
    UnescapeDigits(r / 0x1000, r / 0x100 % 0x10, r / 0x10 % 0x10, r % 0x10, rest);
    hide UnescapeUnit, HexUpper;
  }

  lemma UnescapeShort(r: int, rest: seq<int>)
    requires 0 <= r < 0x100 && Units(rest) && !Unreserved(r)
    ensures UnescapeUnit(EscapeUnit(r) + rest) == (r, |EscapeUnit(r)|)
  {
    var s := EscapeUnit(r) + rest;
    assert !IsHex('u' as int);
    assert s[0] == PERCENT && s[1] == HexUpper(r / 0x10) && s[2] == HexUpper(r % 0x10);
    hide HexUpper, IsHex, Unhex, Unreserved;
    assert !LongEscape(s) && Escape(s);
    assert r == r / 0x10 * 0x10 + r % 0x10;
  }

  lemma UnescapeEscaped(r: int, rest: seq<int>)
    requires 0 <= r < 0x1_0000 && Units(rest)
    ensures UnescapeUnit(EscapeUnit(r) + rest) == (r, |EscapeUnit(r)|)
  {
    if Unreserved(r) {
      assert !AmongChars(PERCENT, "@*_+-./");
    } else if r < 0x100 {
      UnescapeShort(r, rest);
    } else {
      UnescapeLong(r, rest);
    }
  }

  /** unescape undoes escape, for any sequence of units. */
  lemma {:induction false} UnescapeUndoesEscape(units: seq<int>)
    requires Units(units)
    ensures UnescapeAll(EscapeAll(units)) == units
    decreases |units|
  {
    if units != [] {
      var e, rest := EscapeUnit(units[0]), EscapeAll(units[1..]);
      UnescapeEscaped(units[0], rest);
      UnescapeUndoesEscape(units[1..]);
      assert (e + rest)[|e|..] == rest;
      assert [units[0]] + units[1..] == units;
    }
  }

  lemma EscapeNone()
    ensures EscapeAll([]) == [] && UnescapeAll([]) == []
  {
  }

  lemma {:induction false} EscapeMore(units: seq<int>, r: int)
    requires Units(units) && 0 <= r < 0x1_0000
    ensures EscapeAll(units + [r]) == EscapeAll(units) + EscapeUnit(r)
    decreases |units|
  {
    hide EscapeUnit;
    if units == [] {
      assert units + [r] == [r] && [r][1..] == [];
      assert EscapeUnit(r) + [] == [] + EscapeUnit(r);
    } else {
      assert (units + [r])[0] == units[0] && (units + [r])[1..] == units[1..] + [r];
      EscapeMore(units[1..], r);
      Associate(EscapeUnit(units[0]), EscapeAll(units[1..]), EscapeUnit(r));
    }
  }

  method EscapeString(s: seq<int>) returns (sb: seq<int>)
    requires Units(s)
    ensures sb == EscapeAll(s)
  {
    hide EscapeAll;
    sb := [];
    EscapeNone();
    assert s[..0] == [];
    for i := 0 to |s|
      invariant sb == EscapeAll(s[..i])
    {
      assert s[..i + 1] == s[..i] + [s[i]];
      EscapeMore(s[..i], s[i]);
      var r := s[i];
      if Unreserved(r) {
        sb := sb + [r];
      } else if r <= 0xFF {
        sb := sb + [PERCENT, HexUpper(r / 16), HexUpper(r % 16)];
      } else {
        sb := sb + [PERCENT, 'u' as int, HexUpper(r / 0x1000), HexUpper(r / 0x100 % 0x10), HexUpper(r / 0x10 % 0x10), HexUpper(r % 0x10)];
      }
    }
    assert s[..|s|] == s;
  }

  /** The unit at i, or the one it is the start of the escape of, and how many units that takes up. */
  function UnescapeAt(s: seq<int>, i: nat): (r: (int, nat))
    requires Units(s) && i < |s|
    ensures r == UnescapeUnit(s[i..])
  {
    if s[i] == PERCENT && i + 6 <= |s| && s[i + 1] == 'u' as int && IsHex(s[i + 2]) && IsHex(s[i + 3]) && IsHex(s[i + 4])
       && IsHex(s[i + 5]) then
      (Unhex(s[i + 2]) * 0x1000 + Unhex(s[i + 3]) * 0x100 + Unhex(s[i + 4]) * 0x10 + Unhex(s[i + 5]), 6)
    else if s[i] == PERCENT && i + 3 <= |s| && IsHex(s[i + 1]) && IsHex(s[i + 2]) then
      (Unhex(s[i + 1]) * 16 + Unhex(s[i + 2]), 3)
    else (s[i], 1)
  }

  lemma OneHigh(c: int)
    ensures HasHigh([c]) <==> c >= RUNE_SELF
  {
    assert [c][0] == c;
  }

  /** The mark at the start of the buffer of a string that is not ASCII. */
  const BOM: int := 0xFEFF

  /** unescape. The buffer becomes one of 16-bit units when the first unit comes that is not ASCII; unicode tells
      whether s is not ASCII itself. */
  method UnescapeString(s: seq<int>, isUnicode: bool) returns (r: seq<int>, unicode: bool)
    requires Units(s) && (!isUnicode ==> forall i :: 0 <= i < |s| ==> s[i] < RUNE_SELF)
    ensures r == UnescapeAll(s) && (unicode <==> isUnicode || HasHigh(r))
  {
    hide UnescapeAll, HasHigh;
    unicode := isUnicode;
    var asciiBuf: seq<int>, unicodeBuf: seq<int> := [], [BOM];
    ghost var done: seq<int> := [];
    var i := 0;
    assert s[0..] == s && [] + UnescapeAll(s) == UnescapeAll(s);
    NothingHigh();
    while i < |s|
      invariant i <= |s| && done + UnescapeAll(s[i..]) == UnescapeAll(s)
      invariant if unicode then unicodeBuf == [BOM] + done else asciiBuf == done
      invariant unicode <==> isUnicode || HasHigh(done)
    {
      UnescapeStep(s, i);
      var (c, n) := UnescapeAt(s, i);
      if c >= RUNE_SELF && !unicode {
        unicodeBuf := [BOM] + asciiBuf;
        asciiBuf := [];
        unicode := true;
      }
      if unicode {
        unicodeBuf := unicodeBuf + [c];
      } else {
        asciiBuf := asciiBuf + [c];
      }
      Associate(done, [c], UnescapeAll(s[i + n..]));
      HighAppend(done, [c]);
      OneHigh(c);
      done := done + [c];
      assert [BOM] + done[..|done| - 1] + [c] == [BOM] + done;
      i := i + n;
    }
    assert s[i..] == [];
    EscapeNone();
    assert done + [] == done;
    r := if unicode then unicodeBuf[1..] else asciiBuf;
  }

  lemma UnescapeStep(s: seq<int>, i: nat)
    requires Units(s) && i < |s|
    ensures var (c, n) := UnescapeUnit(s[i..]); i + n <= |s| && UnescapeAll(s[i..]) == [c] + UnescapeAll(s[i + n..])
  {
    hide UnescapeUnit;
    assert s[i..][UnescapeUnit(s[i..]).1..] == s[i + UnescapeUnit(s[i..]).1..];
  }
}
