/** The parser for dates in other formats than that of ISO 8601. */
module DateParser {
  import opened Options

  datatype Date = Date(year: int, month: int, day: int, hour: int, min: int, sec: int, msec: int, timeZoneOffset: int, isLocal: bool)

  predicate Bytes(s: seq<int>) { forall i :: 0 <= i < |s| ==> 0 <= s[i] < 0x100 }

  predicate IsDigit(c: int) { '0' as int <= c <= '9' as int }

  predicate Digits(s: seq<int>) { forall i :: 0 <= i < |s| ==> IsDigit(s[i]) }

  predicate Among(c: int, stop: string) { exists i :: 0 <= i < |stop| && stop[i] as int == c }

  /** The number that digits stand for. */
  function Value(s: seq<int>): int {
    if s == [] then 0 else Value(s[..|s| - 1]) * 10 + (s[|s| - 1] - '0' as int)
  }

  function Power10(n: nat): nat { if n == 0 then 1 else 10 * Power10(n - 1) }

  lemma {:induction false} ValueBound(s: seq<int>)
    requires Digits(s)
    ensures 0 <= Value(s) < Power10(|s|)
  {
    if s != [] {
      ValueBound(s[..|s| - 1]);
    }
  }

  lemma {:induction false} PowerGrows(m: nat, n: nat)
    requires m <= n
    ensures 1 <= Power10(m) <= Power10(n)
    decreases n
  {
    if m < n {
      PowerGrows(m, n - 1);
    } else if n > 0 {
      PowerGrows(n - 1, n - 1);
    }
  }

  /** How many digits there are at the start, up to a maximum. */
  function DigitCount(s: seq<int>, max: nat): (n: nat)
    ensures n <= |s| && n <= max && Digits(s[..n])
    ensures n == max || n == |s| || !IsDigit(s[n])
  {
    if s == [] || max == 0 || !IsDigit(s[0]) then 0
    else
      var n := DigitCount(s[1..], max - 1);
      assert forall i :: 0 <= i < n + 1 ==> s[i] == if i == 0 then s[0] else s[1..][i - 1];
      1 + n
  }

  /** rest is what is left of s. */
  predicate Suffix(rest: seq<int>, s: seq<int>) { |rest| <= |s| && s[|s| - |rest|..] == rest }

  method Skip(s: seq<int>, c: int) returns (rest: seq<int>, ok: bool)
    ensures ok <==> s != [] && s[0] == c
    ensures rest == (if ok then s[1..] else s) && Suffix(rest, s)
  {
    if |s| > 0 && s[0] == c {
      return s[1..], true;
    }
    return s, false;
  }

  lemma SuffixTrans(a: seq<int>, b: seq<int>, c: seq<int>)
    requires Suffix(a, b) && Suffix(b, c)
    ensures Suffix(a, c)
  {
    assert forall i :: 0 <= i < |a| ==> a[i] == b[|b| - |a| + i] == c[|c| - |a| + i];
  }

  lemma SuffixSelf(s: seq<int>)
    ensures Suffix(s, s)
  {
  }

  /** What is left after spaces, up to one of these, and after all of these. */
  function AfterSpaces(s: seq<int>): (rest: seq<int>)
    ensures |rest| <= |s| && (rest != [] ==> rest[0] != ' ' as int)
  {
    if s != [] && s[0] == ' ' as int then AfterSpaces(s[1..]) else s
  }

  function Until(s: seq<int>, stop: string): (rest: seq<int>)
    ensures |rest| <= |s| && (rest != [] ==> Among(rest[0], stop))
  {
    if s != [] && !Among(s[0], stop) then Until(s[1..], stop) else s
  }

  function AfterAll(s: seq<int>, set_: string): (rest: seq<int>)
    ensures |rest| <= |s| && (s != [] && Among(s[0], set_) ==> |rest| < |s|)
  {
    if s != [] && Among(s[0], set_) then AfterAll(s[1..], set_) else s
  }

  method SkipSpaces(s: seq<int>) returns (rest: seq<int>)
    ensures rest == AfterSpaces(s)
    ensures Suffix(rest, s) && (rest != [] ==> rest[0] != ' ' as int)
    ensures forall i :: 0 <= i < |s| - |rest| ==> s[i] == ' ' as int
  {
    rest := s;
    while |rest| > 0 && rest[0] == ' ' as int
      invariant Suffix(rest, s) && AfterSpaces(s) == AfterSpaces(rest)
      invariant forall i :: 0 <= i < |s| - |rest| ==> s[i] == ' ' as int
    {
      assert s[|s| - |rest|] == rest[0];
      rest := rest[1..];
    }
  }

  method SkipUntil(s: seq<int>, stop: string) returns (rest: seq<int>)
    ensures rest == Until(s, stop)
    ensures Suffix(rest, s) && (rest != [] ==> Among(rest[0], stop))
    ensures forall i :: 0 <= i < |s| - |rest| ==> !Among(s[i], stop)
  {
    rest := s;
    while |rest| > 0 && !Among(rest[0], stop)
      invariant Suffix(rest, s) && Until(s, stop) == Until(rest, stop)
      invariant forall i :: 0 <= i < |s| - |rest| ==> !Among(s[i], stop)
    {
      assert s[|s| - |rest|] == rest[0];
      rest := rest[1..];
    }
  }

  /** Skips separators. */
  method SkipAll(s: seq<int>, set_: string) returns (rest: seq<int>)
    ensures rest == AfterAll(s, set_)
    ensures Suffix(rest, s) && (rest != [] ==> !Among(rest[0], set_))
    ensures s != [] && Among(s[0], set_) ==> |rest| < |s|
  {
    rest := s;
    while |rest| > 0 && Among(rest[0], set_)
      invariant Suffix(rest, s) && (rest == s || |rest| < |s|) && AfterAll(s, set_) == AfterAll(rest, set_)
    {
      rest := rest[1..];
    }
  }

  predicate LowerLetter(c: int) { 'a' as int <= c <= 'z' as int }

  /** The byte with the bit set that makes a letter lower-case. */
  function Lower(c: int): int {
    if c / 0x20 % 2 == 0 then c + 0x20 else c
  }

  /** c is the lower-case letter x in either case, or x itself. */
  predicate SameLetter(c: int, x: int) {
    c == x || (LowerLetter(x) && c == x - 0x20)
  }

  predicate StartsWith(s: seq<int>, lower: string) {
    |s| >= |lower| && forall i :: 0 <= i < |lower| ==> SameLetter(s[i], lower[i] as int)
  }

  method Match(s: seq<int>, lower: string) returns (rest: seq<int>, ok: bool)
    requires Bytes(s)
    ensures ok <==> StartsWith(s, lower)
    ensures rest == if ok then s[|lower|..] else s
  {
    if |s| < |lower| {
      return s, false;
    }
    for i := 0 to |lower|
      invariant forall j :: 0 <= j < i ==> SameLetter(s[j], lower[j] as int)
    {
      var c1, c2 := s[i], lower[i] as int;
      if c1 != c2 {
        c1 := Lower(c1);
        if c1 != c2 || c1 < 'a' as int || c1 > 'z' as int {
          return s, false;
        }
      }
    }
    return s[|lower|..], true;
  }

  /** Reads as many digits as there are, up to a maximum, unless there are too few. */
  method GetDigits(s: seq<int>, minDigits: nat, maxDigits: nat) returns (v: int, rest: seq<int>, ok: bool)
    ensures var n := DigitCount(s, maxDigits);
      && ok == (n >= minDigits)
      && v == (if ok then Value(s[..n]) else 0)
      && rest == (if ok then s[n..] else s)
  {
    var i := 0;
    v := 0;
    while i < |s| && i < maxDigits && IsDigit(s[i])
      invariant i <= |s| && i <= maxDigits && Digits(s[..i]) && v == Value(s[..i])
    {
      assert s[..i + 1][..i] == s[..i];
      v := v * 10 + (s[i] - '0' as int);
      i := i + 1;
    }
    CountIs(s, maxDigits, i);
    if i < minDigits {
      return 0, s, false;
    }
    return v, s[i..], true;
  }

  lemma CountIs(s: seq<int>, max: nat, i: nat)
    requires i <= |s| && i <= max && Digits(s[..i]) && (i == max || i == |s| || !IsDigit(s[i]))
    ensures DigitCount(s, max) == i
  {
    var n := DigitCount(s, max);
    assert forall k :: 0 <= k < i ==> IsDigit(s[..i][k]) && s[..i][k] == s[k];
    assert forall k :: 0 <= k < n ==> IsDigit(s[..n][k]) && s[..n][k] == s[k];
  }

  /** A fraction of a second, of which only the first three digits matter, and what follows. */
  function Milliseconds(s: seq<int>): (r: (int, seq<int>))
    ensures |r.1| <= |s|
  {
    if |s| >= 2 && (s[0] == '.' as int || s[0] == ',' as int) && IsDigit(s[1]) then
      var n := DigitCount(s[1..], 9);
      var k := if n < 3 then n else 3;
      (Value(s[1..1 + k]) * Power10(3 - k), s[1 + n..])
    else (0, s)
  }

  method GetMilliseconds(s: seq<int>) returns (v: int, rest: seq<int>)
    ensures Suffix(rest, s) && 0 <= v <= 999
    ensures (v, rest) == Milliseconds(s)
  {
    assert Power10(0) == 1 && Power10(1) == 10 && Power10(2) == 100 && Power10(3) == 1000;
    hide Power10, Value, Digits;
    DigitsNone(s);
    var mul := 100;
    v := 0;
    if |s| > 0 && (s[0] == '.' as int || s[0] == ',' as int) {
      var i := 1;
      assert Value(s[1..1]) == 0 by {
        ValueNone(s[1..1]);
      }
      while i < |s| && i - 1 < 9 && IsDigit(s[i])
        invariant 1 <= i <= |s| && i - 1 <= 9 && Digits(s[1..][..i - 1])
        invariant if i == 1 then mul == 100 else if i == 2 then mul == 10 else if i == 3 then mul == 1 else mul == 0
        invariant 0 <= v && v + (if mul == 0 then 1 else 10 * mul) <= 1000
        invariant if i == 1 then v == 0 && Value(s[1..i]) == 0 else if i == 2 then v == Value(s[1..i]) * 100
          else if i == 3 then v == Value(s[1..i]) * 10 else v == Value(s[1..4])
      {
        assert s[1..][i - 1] == s[i];
        DigitsMore(s[1..], i - 1);
        ValueMore(s, i);
        var d := s[i] - '0' as int;
        assert d * mul == if i == 1 then d * 100 else if i == 2 then d * 10 else if i == 3 then d else 0;
        v := v + d * mul;
        mul := mul / 10;
        i := i + 1;
      }
      assert i < |s| ==> s[1..][i - 1] == s[i];
      CountIs(s[1..], 9, i - 1);
      if i > 1 {
        return v, s[i..];
      }
    }
    return 0, s;
  }

  lemma DigitsNone(s: seq<int>)
    ensures |s| > 0 ==> Digits(s[1..][..0])
  {
  }

  lemma DigitsMore(s: seq<int>, n: nat)
    requires n < |s| && Digits(s[..n]) && IsDigit(s[n])
    ensures Digits(s[..n + 1])
  {
    assert forall i :: 0 <= i < n ==> s[..n + 1][i] == s[..n][i];
  }

  lemma ValueNone(s: seq<int>)
    requires s == []
    ensures Value(s) == 0
  {
  }

  lemma ValueMore(s: seq<int>, i: nat)
    requires 1 <= i < |s|
    ensures Value(s[1..i + 1]) == Value(s[1..i]) * 10 + (s[i] - '0' as int)
  {
    assert s[1..i + 1][..i - 1] == s[1..i] && s[1..i + 1][i - 1] == s[i];
  }

  // ---- zone offsets

  /** How many of n digits of an offset are looked at: all but pairs beyond the fourth. */
  function KeptDigits(n: nat): (k: nat)
    ensures k <= n && k <= 4 && (n >= 1 ==> k >= 1)
  {
    if n > 4 then KeptDigits(n - 2) else n
  }

  /** Hours and minutes, if they are in range, and how much has been read. */
  function InRange(negative: bool, hh: int, mm: int, size: nat): Zone {
    if hh > 23 || mm > 59 then NoZone else Zone(if negative then -(hh * 60 + mm) else hh * 60 + mm, size)
  }

  datatype Zone = NoZone | Zone(minutes: int, size: nat)

  /** The offset at the start of s: a sign and digits for hours, or hours and minutes, perhaps with a colon. */
  function ZoneOffset(s: seq<int>, strict: bool): Zone {
    if s == [] then NoZone
    else if s[0] == 'Z' as int then Zone(0, 1)
    else if s[0] != '+' as int && s[0] != '-' as int then NoZone
    else
      var t, negative := s[1..], s[0] == '-' as int;
      var n := DigitCount(t, 9);
      var k := KeptDigits(n);
      if n < 1 || (strict && n != 2 && n != 4) then NoZone
      else if k > 2 then InRange(negative, Value(t[..k - 2]), Value(t[..k]) - Value(t[..k - 2]) * 100, 1 + n)
      else if n < |t| && t[n] == ':' as int then
        if DigitCount(t[n + 1..], 2) < 2 then NoZone
        else InRange(negative, Value(t[..k]), Value(t[n + 1..n + 3]), 1 + n + 3)
      else InRange(negative, Value(t[..k]), 0, 1 + n)
  }

  lemma DropTwo(t: seq<int>)
    requires Digits(t) && |t| >= 2
    ensures Value(t) / 100 == Value(t[..|t| - 2]) && Value(t) % 100 == Value(t) - Value(t[..|t| - 2]) * 100
    ensures 0 <= Value(t) - Value(t[..|t| - 2]) * 100 < 100
  {
    var u := t[..|t| - 1];
    assert IsDigit(u[|u| - 1]) && IsDigit(t[|t| - 1]);
    assert u[..|u| - 1] == t[..|t| - 2];
  }

  /** What follows a colon at n. */
  lemma SliceTail(t: seq<int>, n: nat)
    requires n < |t|
    ensures t[n..][1..] == t[n + 1..] && t[n..][0] == t[n]
    ensures n + 3 <= |t| ==> t[n + 1..][..2] == t[n + 1..n + 3] && t[n + 1..][2..] == t[n + 3..]
  {
  }

  /** The hours and minutes after the sign; t are the n0 digits that hh is the value of, and what follows them. */
  method GetHoursAndMinutes(t: seq<int>, n0: nat, h: int) returns (hh: int, mm: int, rest: seq<int>, ok: bool)
    requires 1 <= n0 == DigitCount(t, 9) && h == Value(t[..n0])
    ensures var k := KeptDigits(n0);
      if k > 2 then ok && hh == Value(t[..k - 2]) && mm == Value(t[..k]) - Value(t[..k - 2]) * 100 && rest == t[n0..]
      else if n0 < |t| && t[n0] == ':' as int then
        ok == (DigitCount(t[n0 + 1..], 2) == 2) && (ok ==> hh == Value(t[..k]) && mm == Value(t[n0 + 1..n0 + 3]) && rest == t[n0 + 3..])
      else ok && hh == Value(t[..k]) && mm == 0 && rest == t[n0..]
  {
    hide Value, DigitCount;
    hh, mm, rest, ok := h, 0, t[n0..], true;
    var n := n0;
    while n > 4
      invariant 1 <= n <= n0 && KeptDigits(n) == KeptDigits(n0) && hh == Value(t[..n])
    {
      PrefixDigits(t, n0, n);
      DropTwo(t[..n]);
      assert t[..n][..n - 2] == t[..n - 2];
      n := n - 2;
      hh := hh / 100;
    }
    if n > 2 {
      PrefixDigits(t, n0, n);
      DropTwo(t[..n]);
      assert t[..n][..n - 2] == t[..n - 2];
      mm := hh % 100;
      hh := hh / 100;
    } else {
      rest, ok := Skip(rest, ':' as int);
      if !ok {
        return hh, 0, rest, true;
      }
      SliceTail(t, n0);
      mm, rest, ok := GetDigits(rest, 2, 2);
    }
  }

  /** The offset at the start of s. A number of hours and minutes may have more digits than it needs. */
  method GetTimeZoneOffset(s: seq<int>, strict: bool) returns (v: int, rest: seq<int>, ok: bool)
    ensures var z := ZoneOffset(s, strict);
      if z.NoZone? then !ok && v == 0 && rest == s else ok && v == z.minutes && z.size <= |s| && rest == s[z.size..]
  {
    hide Value, DigitCount, KeptDigits;
    if |s| == 0 {
      return 0, s, false;
    }
    var sign := s[0];
    if sign == '+' as int || sign == '-' as int {
      var t := s[1..];
      var hh, mm, u;
      hh, u, ok := GetDigits(t, 1, 9);
      if !ok {
        return 0, s, false;
      }
      var n := |t| - |u|;
      if strict && n != 2 && n != 4 {
        return 0, s, false;
      }
      hh, mm, u, ok := GetHoursAndMinutes(t, n, hh);
      if !ok || hh > 23 || mm > 59 {
        return 0, s, false;
      }
      v := hh * 60 + mm;
      if sign == '-' as int {
        v := -v;
      }
      assert t[n..] == s[1 + n..] && (n + 3 <= |t| ==> t[n + 3..] == s[1 + n + 3..]);
      return v, u, true;
    } else if sign == 'Z' as int {
      return 0, s[1..], true;
    }
    return 0, s, false;
  }

  /** No offset is a day or more. */
  lemma OffsetBound(s: seq<int>, strict: bool)
    ensures var z := ZoneOffset(s, strict); z.Zone? ==> -(23 * 60 + 59) <= z.minutes <= 23 * 60 + 59 && 1 <= z.size <= |s|
  {
    if s != [] {
      hide Value, DigitCount, KeptDigits;
      var t := s[1..];
      var n := DigitCount(t, 9);
      var k := KeptDigits(n);
      PrefixDigits(t, n, k);
      ValueBound(t[..k]);
      if k > 2 {
        PrefixDigits(t, n, k - 2);
        ValueBound(t[..k - 2]);
        DropTwo(t[..k]);
        assert t[..k][..k - 2] == t[..k - 2];
      } else if n < |t| && DigitCount(t[n + 1..], 2) == 2 {
        assert t[n + 1..][..2] == t[n + 1..n + 3];
        ValueBound(t[n + 1..n + 3]);
      }
    }
  }

  lemma PrefixDigits(t: seq<int>, n: nat, k: nat)
    requires k <= n <= |t| && Digits(t[..n])
    ensures Digits(t[..k])
  {
    assert forall i :: 0 <= i < k ==> t[..k][i] == t[..n][i];
  }

  function TwoDigits(v: int): (s: seq<int>)
    requires 0 <= v < 100
    ensures |s| == 2 && Digits(s)
  {
    ['0' as int + v / 10, '0' as int + v % 10]
  }

  /** An offset in the form +hh:mm or +hhmm. */
  function FormatOffset(negative: bool, hh: int, mm: int, colon: bool): seq<int>
    requires 0 <= hh < 100 && 0 <= mm < 100
  {
    [if negative then '-' as int else '+' as int] + TwoDigits(hh) + (if colon then [':' as int] else []) + TwoDigits(mm)
  }

  /** Every offset below a day is read back, with and without the colon, whatever follows that is not a digit. */
  lemma OffsetIsReadBack(negative: bool, hh: int, mm: int, colon: bool, rest: seq<int>, strict: bool)
    requires 0 <= hh <= 23 && 0 <= mm <= 59 && (rest != [] ==> !IsDigit(rest[0]))
    ensures var f := FormatOffset(negative, hh, mm, colon);
      ZoneOffset(f + rest, strict) == Zone(if negative then -(hh * 60 + mm) else hh * 60 + mm, |f|)
  {
    var h, m := TwoDigits(hh), TwoDigits(mm);
    ValueOfTwo(hh);
    ValueOfTwo(mm);
    ValueOfFour(hh, mm);
    hide TwoDigits, Value, DigitCount;
    var f := FormatOffset(negative, hh, mm, colon);
    var s := f + rest;
    var t := s[1..];
    if colon {
      assert t == h + [':' as int] + m + rest;
      ColonParts(h, m, rest);
    } else {
      assert t == h + m + rest;
      PlainParts(h, m, rest);
    }
  }

  lemma ColonParts(h: seq<int>, m: seq<int>, rest: seq<int>)
    requires |h| == 2 && |m| == 2 && Digits(h) && Digits(m)
    ensures var t := h + [':' as int] + m + rest;
      |t| >= 5 && t[..2] == h && t[2] == ':' as int && t[3..5] == m && DigitCount(t, 9) == 2 && DigitCount(t[3..], 2) == 2
  {
    var t := h + [':' as int] + m + rest;
    assert t[0] == h[0] && t[1] == h[1] && t[2] == ':' as int && t[3] == m[0] && t[4] == m[1];
    assert t[..2] == h && t[3..5] == m;
    CountIs(t, 9, 2);
    assert t[3..][..2] == m;
    CountIs(t[3..], 2, 2);
  }

  lemma PlainParts(h: seq<int>, m: seq<int>, rest: seq<int>)
    requires |h| == 2 && |m| == 2 && Digits(h) && Digits(m) && (rest != [] ==> !IsDigit(rest[0]))
    ensures var t := h + m + rest; |t| >= 4 && t[..2] == h && t[..4] == h + m && DigitCount(t, 9) == 4
  {
    var t := h + m + rest;
    assert t[0] == h[0] && t[1] == h[1] && t[2] == m[0] && t[3] == m[1];
    assert t[..2] == h && t[..4] == h + m;
    assert Digits(t[..4]);
    assert rest != [] ==> t[4] == rest[0];
    CountIs(t, 9, 4);
  }

  lemma ValueOfTwo(v: int)
    requires 0 <= v < 100
    ensures Value(TwoDigits(v)) == v
  {
    var s := TwoDigits(v);
    assert s[..1] == [s[0]] && [s[0]][..0] == [];
    assert Value([s[0]]) == v / 10;
  }

  lemma ValueOfFour(hh: int, mm: int)
    requires 0 <= hh < 100 && 0 <= mm < 100
    ensures Value(TwoDigits(hh) + TwoDigits(mm)) == hh * 100 + mm
  {
    var s := TwoDigits(hh) + TwoDigits(mm);
    assert s[..3] == TwoDigits(hh) + [TwoDigits(mm)[0]] && s[..3][..2] == TwoDigits(hh);
    ValueOfTwo(hh);
  }

  // ---- the parser

  const TZ_ABBRS: seq<(string, int)> := [
    ("gmt", 0), ("utc", 0), ("ut", 0), ("z", 0), ("edt", -240), ("est", -300), ("cdt", -300), ("cst", -360),
    ("mdt", -360), ("mst", -420), ("pdt", -420), ("pst", -480), ("wet", 0), ("west", 60), ("cet", 60),
    ("cest", 120), ("eet", 120), ("eest", 180)
  ]

  const MONTH_NAMES: seq<string> := ["jan", "feb", "mar", "apr", "may", "jun", "jul", "aug", "sep", "oct", "nov", "dec"]

  /** The k-th abbreviation is the first that s starts with. */
  predicate IsAbbr(s: seq<int>, k: nat, v: int, rest: seq<int>) {
    && k < |TZ_ABBRS| && StartsWith(s, TZ_ABBRS[k].0) && v == TZ_ABBRS[k].1 && rest == s[|TZ_ABBRS[k].0|..]
    && forall j :: 0 <= j < k ==> !StartsWith(s, TZ_ABBRS[j].0)
  }

  /** The first abbreviation from the k-th on that s starts with. */
  function AbbrFrom(s: seq<int>, k: nat): (r: nat)
    requires k <= |TZ_ABBRS|
    ensures k <= r <= |TZ_ABBRS| && (r < |TZ_ABBRS| ==> StartsWith(s, TZ_ABBRS[r].0))
    decreases |TZ_ABBRS| - k
  {
    if k == |TZ_ABBRS| || StartsWith(s, TZ_ABBRS[k].0) then k else AbbrFrom(s, k + 1)
  }

  /** The first month from the k-th on whose name s starts with. */
  function MonthFrom(s: seq<int>, k: nat): (r: nat)
    requires k <= |MONTH_NAMES|
    ensures k <= r <= |MONTH_NAMES| && (r < |MONTH_NAMES| ==> StartsWith(s, MONTH_NAMES[r]))
    decreases |MONTH_NAMES| - k
  {
    if k == |MONTH_NAMES| || StartsWith(s, MONTH_NAMES[k]) then k else MonthFrom(s, k + 1)
  }

  method GetTimeZoneAbbr(s: seq<int>) returns (v: int, rest: seq<int>, ok: bool)
    requires Bytes(s)
    ensures ok <==> exists k :: 0 <= k < |TZ_ABBRS| && StartsWith(s, TZ_ABBRS[k].0)
    ensures ok ==> (exists k :: IsAbbr(s, k, v, rest)) && |rest| < |s| && -480 <= v <= 180
    ensures var k := AbbrFrom(s, 0);
      ok == (k < |TZ_ABBRS|) && (ok ==> v == TZ_ABBRS[k].1 && rest == s[|TZ_ABBRS[k].0|..])
    ensures Suffix(rest, s)
    ensures !ok ==> rest == s && v == 0
  {
    hide StartsWith, TZ_ABBRS;
    for k := 0 to |TZ_ABBRS|
      invariant forall j :: 0 <= j < k ==> !StartsWith(s, TZ_ABBRS[j].0)
      invariant AbbrFrom(s, 0) == AbbrFrom(s, k)
    {
      rest, ok := Match(s, TZ_ABBRS[k].0);
      if ok {
        assert IsAbbr(s, k, TZ_ABBRS[k].1, rest);
        AbbrShortens(s, k, TZ_ABBRS[k].1, rest);
        return TZ_ABBRS[k].1, rest, true;
      }
    }
    return 0, s, false;
  }

  method GetMonth(s: seq<int>) returns (v: int, rest: seq<int>, ok: bool)
    requires Bytes(s)
    ensures ok <==> exists k :: 0 <= k < |MONTH_NAMES| && StartsWith(s, MONTH_NAMES[k])
    ensures ok ==> 1 <= v <= 12 && StartsWith(s, MONTH_NAMES[v - 1]) && rest == s[3..] && |rest| < |s|
    ensures ok == (MonthFrom(s, 0) < |MONTH_NAMES|) && (ok ==> v == MonthFrom(s, 0) + 1)
    ensures Suffix(rest, s)
    ensures !ok ==> rest == s && v == 0
  {
    hide StartsWith, MONTH_NAMES;
    for k := 0 to |MONTH_NAMES|
      invariant forall j :: 0 <= j < k ==> !StartsWith(s, MONTH_NAMES[j])
      invariant MonthFrom(s, 0) == MonthFrom(s, k)
    {
      rest, ok := Match(s, MONTH_NAMES[k]);
      if ok {
        MonthShortens(s, k);
        return k + 1, rest, true;
      }
    }
    return 0, s, false;
  }

  lemma AbbrShortens(s: seq<int>, k: nat, v: int, rest: seq<int>)
    requires IsAbbr(s, k, v, rest)
    ensures |rest| < |s| && -480 <= v <= 180 && Suffix(rest, s)
  {
    assert k == 0 || k == 1 || k == 2 || k == 3 || k == 4 || k == 5 || k == 6 || k == 7 || k == 8 || k == 9 || k == 10
      || k == 11 || k == 12 || k == 13 || k == 14 || k == 15 || k == 16 || k == 17;
  }

  lemma MonthShortens(s: seq<int>, k: nat)
    requires k < |MONTH_NAMES| && StartsWith(s, MONTH_NAMES[k])
    ensures |s| >= |MONTH_NAMES[k]| == 3 && |MONTH_NAMES| == 12
  {
    assert k == 0 || k == 1 || k == 2 || k == 3 || k == 4 || k == 5 || k == 6 || k == 7 || k == 8 || k == 9 || k == 10 || k == 11;
  }

  /** What holds of a date while it is being parsed. */
  predicate Sane(d: Date) {
    && -1_000_000_000 < d.year < 1_000_000_000 && 0 <= d.month <= 31 && 0 <= d.day <= 31
    && 0 <= d.hour < 1_000_000_000 && 0 <= d.min <= 99 && 0 <= d.sec <= 99 && 0 <= d.msec <= 999
    && -(23 * 60 + 59) <= d.timeZoneOffset <= 23 * 60 + 59
    && (d.isLocal ==> d.timeZoneOffset == 0)
  }

  /** Numbers of one or two digits stand for years from 1950 to 2049. */
  function FullYear(val: int): int {
    if val < 50 then val + 2000 else if val < 100 then val + 1900 else val
  }

  /** Years of two digits are those from 1950 to 2049; others are meant in full. */
  lemma FullYearIs(val: int)
    requires val >= 0
    ensures if val < 100 then 1950 <= FullYear(val) < 2050 && FullYear(val) % 100 == val else FullYear(val) == val
  {
  }

  datatype Reading = Nothing | Reading(v: int, rest: seq<int>)

  /** The number at the start, of at most max digits. */
  function NumberAt(s: seq<int>, max: nat): (r: Reading)
    ensures r.Reading? ==> |r.rest| < |s|
  {
    var n := DigitCount(s, max);
    if n < 1 then Nothing else Reading(Value(s[..n]), s[n..])
  }

  method ReadNumber(s: seq<int>, max: nat) returns (v: int, rest: seq<int>, ok: bool)
    requires 1 <= max <= 9
    ensures if ok then NumberAt(s, max) == Reading(v, rest) else NumberAt(s, max) == Nothing
    ensures Suffix(rest, s) && (ok <==> s != [] && IsDigit(s[0])) && (ok ==> |rest| < |s|) && (!ok ==> rest == s)
    ensures 0 <= v < 1_000_000_000 && (max == 2 ==> v <= 99)
  {
    v, rest, ok := GetDigits(s, 1, max);
    var n := DigitCount(s, max);
    ValueBound(s[..n]);
    PowerGrows(n, max);
    assert Power10(2) == 100;
    assert Power10(9) == 1_000_000_000 by {
      assert Power10(3) == 1000 && Power10(6) == 1_000_000;
    }
    PowerGrows(max, 9);
  }

  datatype Clock = NoClock | Clock(d: Date, rest: seq<int>)

  /** The time in s, after the hour, the minute, and a colon each. */
  function SecondsAt(s: seq<int>, d: Date): (r: Clock)
    ensures r.Clock? ==> |r.rest| < |s|
  {
    match NumberAt(s, 2)
    case Nothing => NoClock
    case Reading(sec, t) => var (msec, u) := Milliseconds(t); Clock(d.(sec := sec, msec := msec), u)
  }

  function TimeAt(s: seq<int>, d: Date): (r: Clock)
    ensures r.Clock? ==> |r.rest| < |s|
  {
    match NumberAt(s, 2)
    case Nothing => NoClock
    case Reading(min, t) =>
      if t != [] && t[0] == ':' as int then SecondsAt(t[1..], d.(min := min)) else Clock(d.(min := min), t)
  }

  /** Seconds, perhaps with a fraction. */
  method ParseSeconds(s: seq<int>) returns (sec: int, msec: int, rest: seq<int>, ok: bool)
    ensures forall d :: SecondsAt(s, d) == if ok then Clock(d.(sec := sec, msec := msec), rest) else NoClock
    ensures Suffix(rest, s) && 0 <= sec <= 99 && 0 <= msec <= 999
  {
    hide Value, Power10, DigitCount;
    msec := 0;
    sec, rest, ok := ReadNumber(s, 2);
    if ok {
      ghost var r := rest;
      msec, rest := GetMilliseconds(rest);
      SuffixTrans(rest, r, s);
    }
  }

  function WithMinutes(d: Date, min: int): (d': Date)
    requires Sane(d) && 0 <= min <= 99
    ensures Sane(d') && d' == d.(min := min)
  {
    Date(d.year, d.month, d.day, d.hour, min, d.sec, d.msec, d.timeZoneOffset, d.isLocal)
  }

  function WithSeconds(d: Date, sec: int, msec: int): (d': Date)
    requires Sane(d) && 0 <= sec <= 99 && 0 <= msec <= 999
    ensures Sane(d') && d' == d.(sec := sec, msec := msec)
  {
    Date(d.year, d.month, d.day, d.hour, d.min, sec, msec, d.timeZoneOffset, d.isLocal)
  }

  /** The time after the hours and the colon. */
  method ParseTime(s: seq<int>, d: Date) returns (d': Date, rest: seq<int>, ok: bool)
    requires Sane(d)
    ensures Suffix(rest, s) && (ok ==> Sane(d') && d'.hour == d.hour)
    ensures TimeAt(s, d) == if ok then Clock(d', rest) else NoClock
  {
    hide Suffix, Sane;
    d' := d;
    var min, colon;
    min, rest, ok := ReadNumber(s, 2);
    if !ok {
      return;
    }
    ghost var r1 := rest;
    rest, colon := Skip(rest, ':' as int);
    SuffixTrans(rest, r1, s);
    d' := WithMinutes(d, min);
    if colon {
      var sec, msec;
      ghost var r2 := rest;
      sec, msec, rest, ok := ParseSeconds(rest);
      SuffixTrans(rest, r2, s);
      d' := WithSeconds(d', sec, msec);
    }
  }

  /** am or pm after a time: the date, what follows, and whether there was any. */
  function HalfAt(s: seq<int>, d: Date): (r: (Date, seq<int>, bool))
    ensures |r.1| <= |s|
  {
    var t := AfterSpaces(s);
    if StartsWith(t, "pm") then (if d.hour < 12 then d.(hour := d.hour + 12) else d, t[2..], true)
    else if StartsWith(t, "am") then (if d.hour == 12 then d.(hour := 0) else d, t[2..], true)
    else (d, s, false)
  }

  /** An hour as a clock with twelve of them shows it. */
  function OnTwelve(hour: int): (h: int)
    requires 0 <= hour < 24
    ensures 1 <= h <= 12
  {
    if hour % 12 == 0 then 12 else hour % 12
  }

  /** Every hour of the day, printed with am or pm, is read back. */
  lemma HourIsReadBack(hour: int, half: seq<int>, rest: seq<int>, d: Date)
    requires 0 <= hour < 24 && d.hour == OnTwelve(hour)
    requires StartsWith(half, if hour < 12 then "am" else "pm") && |half| == 2
    ensures HalfAt([' ' as int] + half + rest, d) == (d.(hour := hour), rest, true)
  {
    var s := [' ' as int] + half + rest;
    assert s[1..] == half + rest && (half + rest)[2..] == rest;
    assert AfterSpaces(half + rest) == half + rest;
    assert StartsWith(half + rest, if hour < 12 then "am" else "pm");
  }

  method ParseHalf(s: seq<int>, d: Date) returns (d': Date, rest: seq<int>, found: bool)
    requires Bytes(s) && Sane(d)
    ensures Suffix(rest, s) && Sane(d') && (d', rest, found) == HalfAt(s, d)
  {
    hide AfterSpaces;
    d', rest, found := d, s, false;
    var t := SkipSpaces(s);
    if |t| > 0 {
      var u;
      u, found := Match(t, "pm");
      if found {
        SuffixTrans(u, t, s);
        rest := u;
        if d'.hour < 12 {
          d' := d'.(hour := d'.hour + 12);
        }
        return;
      }
      u, found := Match(t, "am");
      if found {
        SuffixTrans(u, t, s);
        rest := u;
        if d'.hour == 12 {
          d' := d'.(hour := 0);
        }
      }
    }
  }

  /** What follows a phrase in parentheses, so many of which are open, and how many are left open. */
  function PhraseAt(s: seq<int>, level: nat): (r: (seq<int>, nat))
    ensures |r.0| <= |s|
  {
    if s == [] || level == 0 then (s, level)
    else PhraseAt(s[1..], if s[0] == '(' as int then level + 1 else if s[0] == ')' as int then level - 1 else level)
  }

  /** Skips a phrase in parentheses; false if it does not end. */
  method SkipPhrase(s: seq<int>) returns (rest: seq<int>, ok: bool)
    requires s != [] && s[0] == '(' as int
    ensures Suffix(rest, s) && |rest| < |s|
    ensures rest == PhraseAt(s[1..], 1).0 && ok == (PhraseAt(s[1..], 1).1 == 0)
  {
    var level := 1;
    rest := s[1..];
    while |rest| > 0 && level != 0
      invariant Suffix(rest, s) && |rest| < |s| && level >= 0 && PhraseAt(s[1..], 1) == PhraseAt(rest, level)
      decreases |rest|
    {
      if rest[0] == '(' as int {
        level := level + 1;
      } else if rest[0] == ')' as int {
        level := level - 1;
      }
      rest := rest[1..];
    }
    ok := level == 0;
  }

  /** Which number is the month, the day and the year. */
  function Assigned(d: Date, nums: seq<int>, hasYear: bool, hasMon: bool): Option<Date> {
    if |nums| + (if hasYear then 1 else 0) + (if hasMon then 1 else 0) > 3 || (nums == [] && !hasYear) then None
    else
      var d' := d.(
        year := if |nums| == 3 || (|nums| == 2 && hasMon) then FullYear(nums[|nums| - 1]) else d.year,
        month := if hasMon || nums == [] then d.month else nums[0],
        day := if hasMon && nums != [] then nums[0] else if |nums| >= 2 then nums[1] else d.day);
      if d'.month > 0 && d'.day > 0 then Some(d') else None
  }

  /** The numbers found, besides a year and a month that were recognised as such, as what they must be. */
  method Assign(d: Date, nums: seq<int>, hasYear: bool, hasMon: bool) returns (d': Date, ok: bool)
    requires Sane(d) && |nums| <= 3 && forall i :: 0 <= i < |nums| ==> 1 <= nums[i] <= 31
    ensures Sane(d') && Assigned(d, nums, hasYear, hasMon) == if ok then Some(d') else None
    ensures ok == (|nums| + (if hasYear then 1 else 0) + (if hasMon then 1 else 0) <= 3 && (hasYear || nums != []) && d'.month > 0 && d'.day > 0)
    // of the numbers, the first is the month unless that was found; the next, if any, the day; and the last of as
    // many as a date has without a year is the year
    ensures ok ==>
      && d'.month == (if hasMon || nums == [] then d.month else nums[0])
      && d'.day == (if hasMon && nums != [] then nums[0] else if |nums| >= 2 then nums[1] else d.day)
      && d'.year == (if |nums| == 3 || (|nums| == 2 && hasMon) then FullYear(nums[|nums| - 1]) else d.year)
      && d' == d.(year := d'.year, month := d'.month, day := d'.day)
  {
    d' := d;
    var n := |nums| + (if hasYear then 1 else 0) + (if hasMon then 1 else 0);
    if n > 3 {
      return d', false;
    }
    if |nums| == 0 {
      if !hasYear {
        return d', false;
      }
    } else if |nums| == 1 {
      d' := if hasMon then d.(day := nums[0]) else d.(month := nums[0]);
    } else if |nums| == 2 {
      if hasYear || !hasMon {
        d' := d.(month := nums[0], day := nums[1]);
      } else {
        var year := nums[1];
        if nums[1] < 100 {
          year := year + 1900;
        }
        if nums[1] < 50 {
          year := year + 100;
        }
        d' := d.(year := year, day := nums[0]);
      }
    } else {
      var year := nums[2];
      if nums[2] < 100 {
        year := year + 1900;
      }
      if nums[2] < 50 {
        year := year + 100;
      }
      d' := d.(year := year, month := nums[0], day := nums[1]);
    }
    return d', d'.month > 0 && d'.day > 0;
  }

  function WithYear(d: Date, year: int): (d': Date)
    requires Sane(d) && -1_000_000_000 < year < 1_000_000_000
    ensures Sane(d') && d' == d.(year := year)
  {
    Date(year, d.month, d.day, d.hour, d.min, d.sec, d.msec, d.timeZoneOffset, d.isLocal)
  }

  function WithOffset(d: Date, minutes: int): (d': Date)
    requires Sane(d) && -(23 * 60 + 59) <= minutes <= 23 * 60 + 59
    ensures Sane(d') && d' == d.(timeZoneOffset := minutes, isLocal := false)
  {
    Date(d.year, d.month, d.day, d.hour, d.min, d.sec, d.msec, minutes, false)
  }

  function WithMonth(d: Date, month: int): (d': Date)
    requires Sane(d) && 1 <= month <= 12
    ensures Sane(d') && d' == d.(month := month)
  {
    Date(d.year, month, d.day, d.hour, d.min, d.sec, d.msec, d.timeZoneOffset, d.isLocal)
  }

  function WithHour(d: Date, hour: int): (d': Date)
    requires Sane(d) && 0 <= hour < 1_000_000_000
    ensures Sane(d') && d' == d.(hour := hour)
  {
    Date(d.year, d.month, d.day, hour, d.min, d.sec, d.msec, d.timeZoneOffset, d.isLocal)
  }

  /** What has been recognised so far. */
  datatype Found = Found(d: Date, nums: seq<int>, hasYear: bool, hasMon: bool, hasTime: bool)

  predicate SaneFound(f: Found) {
    Sane(f.d) && |f.nums| <= 3 && forall i :: 0 <= i < |f.nums| ==> 1 <= f.nums[i] <= 31
  }

  datatype Outcome = Reject | Goes(f: Found, rest: seq<int>)

  function FoundDate(f: Found, d: Date): (g: Found)
    requires SaneFound(f) && Sane(d)
    ensures SaneFound(g) && g == f.(d := d)
  {
    Found(d, f.nums, f.hasYear, f.hasMon, f.hasTime)
  }

  function FoundYear(f: Found, year: int): (g: Found)
    requires SaneFound(f) && -1_000_000_000 < year < 1_000_000_000
    ensures SaneFound(g) && g == f.(d := f.d.(year := year), hasYear := true)
  {
    Found(WithYear(f.d, year), f.nums, true, f.hasMon, f.hasTime)
  }

  function FoundMonth(f: Found, month: int): (g: Found)
    requires SaneFound(f) && 1 <= month <= 12
    ensures SaneFound(g) && g == f.(d := f.d.(month := month), hasMon := true)
  {
    Found(WithMonth(f.d, month), f.nums, f.hasYear, true, f.hasTime)
  }

  function FoundTime(f: Found, d: Date): (g: Found)
    requires SaneFound(f) && Sane(d)
    ensures SaneFound(g) && g == f.(d := d, hasTime := true)
  {
    Found(d, f.nums, f.hasYear, f.hasMon, true)
  }

  function FoundNumber(f: Found, val: int): (g: Found)
    requires SaneFound(f) && |f.nums| < 3 && 1 <= val <= 31
    ensures SaneFound(g) && g == f.(nums := f.nums + [val])
  {
    Found(f.d, f.nums + [val], f.hasYear, f.hasMon, f.hasTime)
  }

  lemma NumbersSane(f: Found)
    requires SaneFound(f)
    ensures Sane(f.d) && |f.nums| <= 3 && forall i :: 0 <= i < |f.nums| ==> 1 <= f.nums[i] <= 31
  {
  }

  lemma SaneDate(f: Found)
    requires SaneFound(f)
    ensures Sane(f.d) && |f.nums| <= 3
  {
  }

  /** Each pass of the parser: what it has found, and what is left of the string. */
  function SignedAt(s: seq<int>, f: Found): (r: Outcome)
    requires s != []
    ensures r.Goes? ==> |r.rest| < |s|
  {
    var z := if f.hasTime then ZoneOffset(s, false) else NoZone;
    if z.Zone? then
      OffsetBound(s, false);
      Goes(f.(d := f.d.(timeZoneOffset := z.minutes, isLocal := false)), s[z.size..])
    else
      match NumberAt(s[1..], 9)
      case Nothing => Goes(f, s[1..])
      case Reading(val, t) =>
        if s[0] == '-' as int && val == 0 then Reject
        else Goes(f.(d := f.d.(year := if s[0] == '-' as int then -val else val), hasYear := true), t)
  }

  function ClockAt(s: seq<int>, hour: int, f: Found): (r: (Outcome, bool))
    ensures r.0.Goes? ==> |r.0.rest| < |s|
  {
    match TimeAt(s, f.d.(hour := hour))
    case NoClock => (Reject, false)
    case Clock(d, t) => var (d', u, half) := HalfAt(t, d); (Goes(f.(d := d', hasTime := true), u), half)
  }

  function UnsignedAt(s: seq<int>, f: Found): (r: (Outcome, bool))
    ensures r.0.Goes? ==> |r.0.rest| < |s|
  {
    match NumberAt(s, 9)
    case Nothing => (Reject, false)
    case Reading(val, t) =>
      if t != [] && t[0] == ':' as int then ClockAt(t[1..], val, f)
      else if |s| - |t| > 2 then (Goes(f.(d := f.d.(year := val), hasYear := true), t), false)
      else if val < 1 || val > 31 then (Goes(f.(d := f.d.(year := FullYear(val)), hasYear := true), t), false)
      else if |f.nums| == 3 then (Reject, false)
      else (Goes(f.(nums := f.nums + [val]), t), false)
  }

  function WordAt(s: seq<int>, f: Found): (r: (Outcome, bool))
    requires s != [] && s[0] != ' ' as int && s[0] != '-' as int
    ensures r.0.Goes? ==> |r.0.rest| < |s| || (s[0] == '/' as int && r.0.rest == s && !r.1)
  {
    var m, k := MonthFrom(s, 0), AbbrFrom(s, 0);
    if m < |MONTH_NAMES| then
      MonthShortens(s, m);
      (Goes(f.(d := f.d.(month := m + 1), hasMon := true), Until(s[3..], "0123456789 -/(")), false)
    else if k < |TZ_ABBRS| then
      AbbrShort(s, k);
      var t := s[|TZ_ABBRS[k].0|..];
      if t != [] && (LowerLetter(t[0]) || 'A' as int <= t[0] <= 'Z' as int) then (Reject, false)
      else (Goes(f.(d := f.d.(timeZoneOffset := TZ_ABBRS[k].1, isLocal := false)), t), true)
    else if s[0] == '(' as int then
      var (t, level) := PhraseAt(s[1..], 1);
      if level > 0 then (Reject, false) else (Goes(f, t), false)
    else if s[0] == ')' as int || f.hasYear || f.hasMon || f.hasTime || |f.nums| > 0 then (Reject, false)
    else
      UntilShortens(s);
      (Goes(f, Until(s, " -/(")), false)
  }

  lemma AbbrShort(s: seq<int>, k: nat)
    requires k < |TZ_ABBRS| && StartsWith(s, TZ_ABBRS[k].0)
    ensures 1 <= |TZ_ABBRS[k].0| <= |s|
  {
    assert k == 0 || k == 1 || k == 2 || k == 3 || k == 4 || k == 5 || k == 6 || k == 7 || k == 8 || k == 9 || k == 10
      || k == 11 || k == 12 || k == 13 || k == 14 || k == 15 || k == 16 || k == 17;
  }

  lemma UntilShortens(s: seq<int>)
    requires s != [] && s[0] != ' ' as int && s[0] != '-' as int && s[0] != '(' as int
    ensures var t := Until(s, " -/("); |t| < |s| || (s[0] == '/' as int && t == s)
  {
    if Among(s[0], " -/(") {
      var stop := " -/(";
      var i :| 0 <= i < |stop| && stop[i] as int == s[0];
    }
  }

  function PassAt(s: seq<int>, f: Found): (r: Outcome)
    requires s != [] && s[0] != ' ' as int
    ensures r.Goes? ==> |r.rest| < |s|
  {
    var (r, skip) := if s[0] == '+' as int || s[0] == '-' as int then (SignedAt(s, f), false)
                     else if IsDigit(s[0]) then UnsignedAt(s, f) else WordAt(s, f);
    SlashSeparates();
    match r
    case Reject => Reject
    case Goes(g, t) => Goes(g, if skip then t else AfterAll(t, "-/.,"))
  }

  /** All passes. */
  function ParseAt(s: seq<int>, f: Found): Outcome
    decreases |s|
  {
    var t := AfterSpaces(s);
    if t == [] then Goes(f, [])
    else match PassAt(t, f) case Reject => Reject case Goes(g, u) => ParseAt(u, g)
  }

  const START := Found(Date(2001, 1, 1, 0, 0, 0, 0, 0, true), [], false, false, false)

  /** The date that a string stands for, if any. */
  function Parse(s: seq<int>): Option<Date> {
    match ParseAt(s, START)
    case Reject => None
    case Goes(f, _) => Assigned(f.d, f.nums, f.hasYear, f.hasMon)
  }

  /** A number after a sign: an offset after a time, and otherwise a year. The sign is gone in any case. */
  method ParseSigned(s: seq<int>, f: Found) returns (r: Outcome)
    requires SaneFound(f) && s != [] && (s[0] == '+' as int || s[0] == '-' as int)
    ensures r == SignedAt(s, f)
    ensures r.Goes? ==> SaneFound(r.f) && Suffix(r.rest, s) && |r.rest| < |s|
  {
    hide Sane, SaneFound, Value, DigitCount;
    SaneDate(f);
    var d, t, ok := f.d, s, false;
    var val;
    if f.hasTime {
      val, t, ok := GetTimeZoneOffset(t, false);
      OffsetBound(s, false);
      if ok {
        return Goes(FoundDate(f, WithOffset(d, val)), t);
      }
    }
    t := s[1..];
    var u;
    val, u, ok := ReadNumber(t, 9);
    SuffixTrans(u, t, s);
    if ok {
      if s[0] == '-' as int {
        if val == 0 {
          return Reject;
        }
        val := -val;
      }
      return Goes(FoundYear(f, val), u);
    }
    return Goes(f, u);
  }

  /** The rest of a time, after the hour and a colon. skip tells that it ended in am or pm. */
  method ParseClock(s: seq<int>, hour: int, f: Found) returns (r: Outcome, skip: bool)
    requires Bytes(s) && SaneFound(f) && 0 <= hour < 1_000_000_000
    ensures (r, skip) == ClockAt(s, hour, f)
    ensures r.Goes? ==> SaneFound(r.f) && Suffix(r.rest, s)
  {
    hide Sane, SaneFound, Suffix, Bytes;
    SaneDate(f);
    var d, t, ok := ParseTime(s, WithHour(f.d, hour));
    if !ok {
      return Reject, false;
    }
    SuffixIsShorter(t, s);
    var u;
    d, u, skip := ParseHalf(t, d);
    SuffixTrans(u, t, s);
    return Goes(FoundTime(f, d), u), skip;
  }

  /** A number without a sign: a time if a colon follows, a year if it is long or cannot be a day, and otherwise
      one to be assigned in the end. skip tells that separators after it are left alone. */
  method ParseUnsigned(s: seq<int>, f: Found) returns (r: Outcome, skip: bool)
    requires Bytes(s) && SaneFound(f) && s != [] && IsDigit(s[0])
    ensures (r, skip) == UnsignedAt(s, f)
    ensures r.Goes? ==> SaneFound(r.f) && Suffix(r.rest, s) && |r.rest| < |s|
  {
    hide Sane, SaneFound, Suffix, Value, DigitCount, Bytes;
    SaneDate(f);
    skip := false;
    var val, t, ok := ReadNumber(s, 9);
    var u, colon := Skip(t, ':' as int);
    SuffixTrans(u, t, s);
    SuffixIsShorter(u, t);
    SuffixIsShorter(u, s);
    if colon {
      r, skip := ParseClock(u, val, f);
      if r.Goes? {
        SuffixTrans(r.rest, u, s);
        SuffixIsShorter(r.rest, u);
      }
      return;
    }
    if |s| - |u| > 2 {
      return Goes(FoundYear(f, val), u), false;
    }
    if val < 1 || val > 31 {
      var year := val;
      if val < 100 {
        year := year + 1900;
      }
      if val < 50 {
        year := year + 100;
      }
      assert year == FullYear(val);
      return Goes(FoundYear(f, year), u), false;
    }
    if |f.nums| == 3 {
      return Reject, false;
    }
    return Goes(FoundNumber(f, val), u), false;
  }

  /** Anything but a number: a month, a zone, a phrase in parentheses, or a word at the start. A slash at the start
      is not consumed here; the caller skips it as a separator. */
  method ParseWord(s: seq<int>, f: Found) returns (r: Outcome, skip: bool)
    requires Bytes(s) && SaneFound(f) && s != [] && s[0] != ' ' as int && s[0] != '-' as int
    ensures (r, skip) == WordAt(s, f)
    ensures r.Goes? ==> SaneFound(r.f) && Suffix(r.rest, s) && (|r.rest| < |s| || (s[0] == '/' as int && !skip))
  {
    hide Sane, SaneFound, Bytes, StartsWith, Among, IsAbbr, Suffix;
    SaneDate(f);
    skip := false;
    var val, t, ok := GetMonth(s);
    if ok {
      ghost var t0 := t;
      t := SkipUntil(t, "0123456789 -/(");
      SuffixTrans(t, t0, s);
      SuffixIsShorter(t, t0);
      return Goes(FoundMonth(f, val), t), false;
    }
    val, t, ok := GetTimeZoneAbbr(s);
    if ok {
      if |t| > 0 && (LowerLetter(t[0]) || 'A' as int <= t[0] <= 'Z' as int) {
        return Reject, false;
      }
      return Goes(FoundDate(f, WithOffset(f.d, val)), t), true;
    }
    if s[0] == '(' as int {
      t, ok := SkipPhrase(s);
      if !ok {
        return Reject, false;
      }
      return Goes(f, t), false;
    }
    if s[0] == ')' as int || f.hasYear || f.hasMon || f.hasTime || |f.nums| > 0 {
      return Reject, false;
    }
    t := SkipUntil(s, " -/(");
    WordOrSlash(s, t);
    return Goes(f, t), false;
  }

  lemma WordOrSlash(s: seq<int>, t: seq<int>)
    requires s != [] && s[0] != ' ' as int && s[0] != '-' as int && s[0] != '(' as int
    requires Suffix(t, s) && (t != [] ==> Among(t[0], " -/("))
    ensures |t| <= |s| && (|t| < |s| || s[0] == '/' as int)
  {
    if |t| == |s| {
      assert t == s;
      var stop := " -/(";
      var i :| 0 <= i < |stop| && stop[i] as int == s[0];
    }
  }

  lemma SlashSeparates()
    ensures Among('/' as int, "-/.,")
  {
    assert "-/.,"[1] == '/';
  }

  /** Parses a date in any other format. Every pass of the loop leaves less of the string than there was. */
  method ParseDateOtherString(str: seq<int>) returns (d: Date, ok: bool)
    requires Bytes(str)
    ensures Parse(str) == if ok then Some(d) else None
    ensures ok ==> Sane(d) && d.month > 0 && d.day > 0
  {
    hide Sane, SaneFound, Suffix, Among, Bytes;
    var s := str;
    var f := START;
    SaneStart();
    while true
      invariant Bytes(s) && SaneFound(f) && ParseAt(str, START) == ParseAt(s, f)
      decreases |s|
    {
      ghost var s0 := s;
      s := SkipSpaces(s);
      SuffixIsShorter(s, s0);
      if |s| == 0 {
        break;
      }
      var r, skip := Reject, false;
      if s[0] == '+' as int || s[0] == '-' as int {
        r := ParseSigned(s, f);
      } else if IsDigit(s[0]) {
        r, skip := ParseUnsigned(s, f);
      } else {
        r, skip := ParseWord(s, f);
      }
      if r.Reject? {
        return f.d, false;
      }
      f := r.f;
      SuffixIsShorter(r.rest, s);
      SlashSeparates();
      var t := r.rest;
      if !skip {
        t := SkipAll(t, "-/.,");
        SuffixIsShorter(t, r.rest);
      }
      s := t;
    }
    NumbersSane(f);
    d, ok := Assign(f.d, f.nums, f.hasYear, f.hasMon);
  }

  lemma SaneStart()
    ensures SaneFound(Found(Date(2001, 1, 1, 0, 0, 0, 0, 0, true), [], false, false, false))
  {
  }

  lemma SuffixIsShorter(t: seq<int>, s: seq<int>)
    requires Suffix(t, s)
    ensures |t| <= |s| && (|t| == |s| ==> t == s) && (Bytes(s) ==> Bytes(t))
  {
    assert forall i :: 0 <= i < |t| ==> t[i] == s[|s| - |t| + i];
  }

  // ---- dates as toString and toUTCString print them are read back

  const WEEKDAYS: seq<string> := ["Sun", "Mon", "Tue", "Wed", "Thu", "Fri", "Sat"]
  const MONTHS: seq<string> := ["Jan", "Feb", "Mar", "Apr", "May", "Jun", "Jul", "Aug", "Sep", "Oct", "Nov", "Dec"]

  function Ascii(s: string): (r: seq<int>)
    ensures |r| == |s|
  {
    seq(|s|, i requires 0 <= i < |s| => s[i] as int)
  }

  /** The digits of a number, with zeros in front. */
  function Decimal(n: nat, width: nat): (r: seq<int>)
    ensures |r| >= width && Digits(r) && (n > 0 ==> r != [])
    decreases n + width
  {
    if n == 0 && width == 0 then [] else Decimal(n / 10, if width == 0 then 0 else width - 1) + ['0' as int + n % 10]
  }

  lemma Tenth(n: nat, p: nat)
    requires n < 10 * p
    ensures n / 10 < p && n / 10 * 10 + n % 10 == n
  {
  }

  lemma DecimalLast(n: nat, width: nat)
    requires n != 0 || width != 0
    ensures var r, init := Decimal(n, width), Decimal(n / 10, if width == 0 then 0 else width - 1);
      |r| == |init| + 1 && r[..|r| - 1] == init && Value(r) == Value(init) * 10 + n % 10
  {
    hide Digits;
    var r := Decimal(n, width);
    assert r[..|r| - 1] == Decimal(n / 10, if width == 0 then 0 else width - 1);
  }

  lemma {:induction false} DecimalIs(n: nat, width: nat, max: nat)
    requires n < Power10(max) && width <= max
    ensures Value(Decimal(n, width)) == n && |Decimal(n, width)| <= max
    decreases n + width
  {
    hide Digits;
    if n != 0 || width != 0 {
      hide Value, Decimal;
      Tenth(n, Power10(max - 1));
      DecimalIs(n / 10, if width == 0 then 0 else width - 1, max - 1);
      DecimalLast(n, width);
    } else {
      ValueNone([]);
    }
  }

  function YearString(year: int): seq<int> {
    if year < 0 then ['-' as int] + Decimal(-year, 4) else Decimal(year, 4)
  }

  function ClockString(d: Date): seq<int>
    requires 0 <= d.hour < 100 && 0 <= d.min < 100 && 0 <= d.sec < 100
  {
    TwoDigits(d.hour) + ([':' as int] + (TwoDigits(d.min) + ([':' as int] + TwoDigits(d.sec))))
  }

  /** The words with a space between each two. */
  function Spaced(words: seq<seq<int>>): seq<int> {
    if words == [] then [] else if |words| == 1 then words[0] else words[0] + ([' ' as int] + Spaced(words[1..]))
  }

  /** The fields of a date that can be printed. */
  predicate Printable(d: Date) {
    && -1_000_000_000 < d.year < 1_000_000_000 && 1 <= d.month <= 12 && 1 <= d.day <= 31
    && 0 <= d.hour <= 23 && 0 <= d.min <= 59 && 0 <= d.sec <= 59 && d.msec == 0
    && -(23 * 60 + 59) <= d.timeZoneOffset <= 23 * 60 + 59 && !d.isLocal
  }

  function UtcString(weekday: nat, d: Date): seq<int>
    requires weekday < 7 && Printable(d)
  {
    Spaced([Ascii(WEEKDAYS[weekday]) + [',' as int], TwoDigits(d.day), Ascii(MONTHS[d.month - 1]), YearString(d.year), ClockString(d), Ascii("GMT")])
  }

  function OffsetString(minutes: int): seq<int>
    requires -(23 * 60 + 59) <= minutes <= 23 * 60 + 59
  {
    var m := if minutes < 0 then -minutes else minutes;
    FormatOffset(minutes < 0, m / 60, m % 60, false)
  }

  function LocalString(weekday: nat, d: Date, zone: seq<int>): seq<int>
    requires weekday < 7 && Printable(d)
  {
    Spaced([Ascii(WEEKDAYS[weekday]), Ascii(MONTHS[d.month - 1]), TwoDigits(d.day), YearString(d.year), ClockString(d),
            Ascii("GMT") + OffsetString(d.timeZoneOffset), ['(' as int] + zone + [')' as int]])
  }

  /** A word ends here. */
  predicate Blank(rest: seq<int>) { rest == [] || rest[0] == ' ' as int }

  lemma BlankStays(rest: seq<int>)
    requires Blank(rest)
    ensures AfterAll(rest, "-/.,") == rest && Until(rest, " -/(") == rest && Until(rest, "0123456789 -/(") == rest
  {
    assert " -/("[0] == ' ' && "0123456789 -/("[10] == ' ';
    if rest != [] {
      assert Among(rest[0], " -/(") && Among(rest[0], "0123456789 -/(");
      assert !Among(rest[0], "-/.,") by {
        var stop := "-/.,";
        assert forall i :: 0 <= i < |stop| ==> stop[i] != ' ';
      }
    }
  }

  lemma SpaceStep(s: seq<int>, f: Found)
    ensures ParseAt([' ' as int] + s, f) == ParseAt(s, f)
  {
    var t := [' ' as int] + s;
    assert t[1..] == s;
    assert AfterSpaces(t) == AfterSpaces(s);
  }

  /** One word is one pass. */
  lemma WordStep(w: seq<int>, rest: seq<int>, f: Found, g: Found)
    requires w != [] && w[0] != ' ' as int && PassAt(w + rest, f) == Goes(g, rest)
    ensures ParseAt(w + rest, f) == ParseAt(rest, g)
  {
    assert (w + rest)[0] == w[0];
    assert AfterSpaces(w + rest) == w + rest;
  }

  /** So is the first of several words. */
  lemma NextWord(w: seq<int>, words: seq<seq<int>>, f: Found, g: Found)
    requires words != [] && w != [] && w[0] != ' ' as int
    requires var rest := [' ' as int] + Spaced(words); PassAt(w + rest, f) == Goes(g, rest)
    ensures ParseAt(Spaced([w] + words), f) == ParseAt(Spaced(words), g)
  {
    hide PassAt, ParseAt;
    assert ([w] + words)[1..] == words;
    WordStep(w, [' ' as int] + Spaced(words), f, g);
    SpaceStep(Spaced(words), g);
  }

  lemma {:induction false} NoMonth(s: seq<int>, k: nat)
    requires k <= |MONTH_NAMES| && forall j :: k <= j < |MONTH_NAMES| ==> !StartsWith(s, MONTH_NAMES[j])
    ensures MonthFrom(s, k) == |MONTH_NAMES|
    decreases |MONTH_NAMES| - k
  {
    hide StartsWith, MONTH_NAMES;
    if k < |MONTH_NAMES| { NoMonth(s, k + 1); }
  }

  lemma {:induction false} NoAbbr(s: seq<int>, k: nat)
    requires k <= |TZ_ABBRS| && forall j :: k <= j < |TZ_ABBRS| ==> !StartsWith(s, TZ_ABBRS[j].0)
    ensures AbbrFrom(s, k) == |TZ_ABBRS|
    decreases |TZ_ABBRS| - k
  {
    hide StartsWith, TZ_ABBRS;
    if k < |TZ_ABBRS| { NoAbbr(s, k + 1); }
  }

  lemma {:induction false} FirstMonth(s: seq<int>, k: nat, m: nat)
    requires k <= m < |MONTH_NAMES| && StartsWith(s, MONTH_NAMES[m]) && forall j :: k <= j < m ==> !StartsWith(s, MONTH_NAMES[j])
    ensures MonthFrom(s, k) == m
    decreases m - k
  {
    hide StartsWith, MONTH_NAMES;
    if k < m { FirstMonth(s, k + 1, m); }
  }

  /** A letter in which s differs, in whatever case. */
  lemma Differs(s: seq<int>, lower: string)
    requires exists i :: 0 <= i < |s| && i < |lower| && !SameLetter(s[i], lower[i] as int)
    ensures !StartsWith(s, lower)
  {
  }

  predicate StartsLike(s: seq<int>, name: string) {
    |s| >= |name| && forall i :: 0 <= i < |name| ==> s[i] == name[i] as int
  }

  lemma LettersOf(s: seq<int>, name: string)
    requires StartsLike(s, name) && |name| == 3
    ensures s[0] == name[0] as int && s[1] == name[1] as int && s[2] == name[2] as int
  {
  }

  lemma WeekdayIsNoMonth(s: seq<int>, wd: nat, j: nat)
    requires wd < 7 && StartsLike(s, WEEKDAYS[wd]) && j < |MONTH_NAMES|
    ensures !StartsWith(s, MONTH_NAMES[j])
  {
    var m := MONTH_NAMES[j];
    LettersOf(s, WEEKDAYS[wd]);
    assert |m| == 3;
    assert !SameLetter(s[0], m[0] as int) || !SameLetter(s[1], m[1] as int) || !SameLetter(s[2], m[2] as int);
    Differs(s, m);
  }

  lemma WeekdayIsNoAbbr(s: seq<int>, wd: nat, j: nat)
    requires wd < 7 && StartsLike(s, WEEKDAYS[wd]) && j < |TZ_ABBRS|
    ensures !StartsWith(s, TZ_ABBRS[j].0)
  {
    var m := TZ_ABBRS[j].0;
    LettersOf(s, WEEKDAYS[wd]);
    assert |m| >= 1 && (|m| == 1 ==> m[0] == 'z') && (|m| == 2 ==> m[1] == 't');
    assert !SameLetter(s[0], m[0] as int) || (|m| >= 2 && !SameLetter(s[1], m[1] as int)) || (|m| >= 3 && !SameLetter(s[2], m[2] as int));
    Differs(s, m);
  }

  lemma MonthIsItself(s: seq<int>, k: nat, j: nat)
    requires k < 12 && StartsLike(s, MONTHS[k]) && j < |MONTH_NAMES|
    ensures StartsWith(s, MONTH_NAMES[j]) <==> j == k
  {
    var m := MONTH_NAMES[j];
    LettersOf(s, MONTHS[k]);
    assert |m| == 3;
    if j == k {
      assert SameLetter(s[0], m[0] as int) && SameLetter(s[1], m[1] as int) && SameLetter(s[2], m[2] as int);
    } else {
      assert !SameLetter(s[0], m[0] as int) || !SameLetter(s[1], m[1] as int) || !SameLetter(s[2], m[2] as int);
      Differs(s, m);
    }
  }

  lemma GmtIsNoMonth(s: seq<int>, j: nat)
    requires StartsLike(s, "GMT") && j < |MONTH_NAMES|
    ensures !StartsWith(s, MONTH_NAMES[j]) && StartsWith(s, TZ_ABBRS[0].0)
  {
    LettersOf(s, "GMT");
    assert |MONTH_NAMES[j]| == 3 && MONTH_NAMES[j][0] != 'g';
    Differs(s, MONTH_NAMES[j]);
  }

  lemma ParenthesisIsNoName(s: seq<int>, j: nat)
    requires s != [] && s[0] == '(' as int
    ensures j < |MONTH_NAMES| ==> !StartsWith(s, MONTH_NAMES[j])
    ensures j < |TZ_ABBRS| ==> !StartsWith(s, TZ_ABBRS[j].0)
  {
    if j < |MONTH_NAMES| {
      assert |MONTH_NAMES[j]| == 3 && MONTH_NAMES[j][0] >= 'a';
      Differs(s, MONTH_NAMES[j]);
    }
    if j < |TZ_ABBRS| {
      assert |TZ_ABBRS[j].0| >= 1 && TZ_ABBRS[j].0[0] >= 'a';
      Differs(s, TZ_ABBRS[j].0);
    }
  }

  // ---- what each word adds

  lemma WeekdayNames(s: seq<int>, wd: nat)
    requires wd < 7 && StartsLike(s, WEEKDAYS[wd])
    ensures MonthFrom(s, 0) == |MONTH_NAMES| && AbbrFrom(s, 0) == |TZ_ABBRS|
  {
    hide StartsWith, StartsLike, MONTH_NAMES, TZ_ABBRS, WEEKDAYS;
    forall j | 0 <= j < |MONTH_NAMES| ensures !StartsWith(s, MONTH_NAMES[j]) { WeekdayIsNoMonth(s, wd, j); }
    forall j | 0 <= j < |TZ_ABBRS| ensures !StartsWith(s, TZ_ABBRS[j].0) { WeekdayIsNoAbbr(s, wd, j); }
    NoMonth(s, 0);
    NoAbbr(s, 0);
  }

  predicate Capital(s: seq<int>) { s != [] && 'A' as int <= s[0] <= 'Z' as int }

  lemma WeekdayShape(s: seq<int>, wd: nat, rest: seq<int>)
    requires wd < 7 && Blank(rest) && (s == Ascii(WEEKDAYS[wd]) || s == Ascii(WEEKDAYS[wd]) + [',' as int])
    ensures StartsLike(s + rest, WEEKDAYS[wd]) && Capital(s + rest) && Until(s + rest, " -/(") == rest
  {
    hide Among, Until;
    var t := s + rest;
    assert forall i :: 0 <= i < |WEEKDAYS[wd]| ==> t[i] == s[i];
    WeekdayLetters(s, wd);
    BlankStays(rest);
    UntilWord(s, rest, " -/(");
  }

  /** A pass over a word. */
  lemma WordPass(s: seq<int>, f: Found, g: Found, rest: seq<int>, skip: bool)
    requires s != [] && s[0] != ' ' as int && s[0] != '+' as int && s[0] != '-' as int && !IsDigit(s[0])
    requires WordAt(s, f) == (Goes(g, rest), skip) && (Blank(rest) || skip)
    ensures PassAt(s, f) == Goes(g, rest)
  {
    hide WordAt, SignedAt, UnsignedAt, AfterAll;
    if Blank(rest) { BlankStays(rest); }
  }

  lemma WeekdayStep(s: seq<int>, wd: nat, rest: seq<int>)
    requires wd < 7 && Blank(rest) && (s == Ascii(WEEKDAYS[wd]) || s == Ascii(WEEKDAYS[wd]) + [',' as int])
    ensures PassAt(s + rest, START) == Goes(START, rest)
  {
    hide PassAt, MonthFrom, AbbrFrom, Until, AfterAll, StartsWith, StartsLike, TZ_ABBRS, MONTH_NAMES, WEEKDAYS, Ascii, Among, SignedAt, UnsignedAt, PhraseAt;
    WeekdayShape(s, wd, rest);
    WeekdayNames(s + rest, wd);
    WordPass(s + rest, START, START, rest, false);
  }

  lemma WeekdayLetters(s: seq<int>, wd: nat)
    requires wd < 7 && (s == Ascii(WEEKDAYS[wd]) || s == Ascii(WEEKDAYS[wd]) + [',' as int])
    ensures |s| >= 3 && 'A' as int <= s[0] <= 'Z' as int && forall i :: 0 <= i < |s| ==> !Among(s[i], " -/(")
  {
    var stop := " -/(";
    var w := WEEKDAYS[wd];
    assert |w| == 3;
    assert forall i :: 0 <= i < 3 ==> 'A' <= w[i] <= 'z';
    assert forall i :: 0 <= i < |s| ==> s[i] == if i < 3 then w[i] as int else ',' as int;
    assert forall k :: 0 <= k < |stop| ==> stop[k] < 'A' && stop[k] != ',';
  }

  lemma {:induction false} UntilWord(s: seq<int>, rest: seq<int>, stop: string)
    requires (forall i :: 0 <= i < |s| ==> !Among(s[i], stop)) && Until(rest, stop) == rest
    ensures Until(s + rest, stop) == rest
  {
    if s == [] {
      assert s + rest == rest;
    } else {
      assert (s + rest)[1..] == s[1..] + rest && (s + rest)[0] == s[0];
      hide Among;
      UntilWord(s[1..], rest, stop);
    }
  }

  lemma MonthShape(m: nat, rest: seq<int>)
    requires m < 12 && Blank(rest)
    ensures var t := Ascii(MONTHS[m]) + rest;
      |t| >= 3 && StartsLike(t, MONTHS[m]) && Capital(t) && t[3..] == rest && Until(rest, "0123456789 -/(") == rest
  {
    hide Among, Until;
    var s := Ascii(MONTHS[m]);
    assert |s| == 3 && forall i :: 0 <= i < 3 ==> (s + rest)[i] == s[i];
    BlankStays(rest);
  }

  lemma MonthStep(m: nat, rest: seq<int>, f: Found)
    requires m < 12 && Blank(rest)
    ensures PassAt(Ascii(MONTHS[m]) + rest, f) == Goes(f.(d := f.d.(month := m + 1), hasMon := true), rest)
  {
    hide PassAt, MonthFrom, AbbrFrom, Until, AfterAll, StartsWith, StartsLike, TZ_ABBRS, Ascii, Among, SignedAt, UnsignedAt, PhraseAt;
    assert |MONTH_NAMES| == 12;
    MonthShape(m, rest);
    MonthNames(Ascii(MONTHS[m]) + rest, m);
    WordPass(Ascii(MONTHS[m]) + rest, f, f.(d := f.d.(month := m + 1), hasMon := true), rest, false);
  }

  lemma MonthNames(s: seq<int>, m: nat)
    requires m < 12 && StartsLike(s, MONTHS[m])
    ensures MonthFrom(s, 0) == m
  {
    assert |MONTH_NAMES| == 12;
    hide StartsWith, StartsLike, MONTH_NAMES, MONTHS;
    forall j | 0 <= j < |MONTH_NAMES| ensures StartsWith(s, MONTH_NAMES[j]) <==> j == m { MonthIsItself(s, m, j); }
    FirstMonth(s, 0, m);
  }

  /** Digits up to something that is none are one number. */
  lemma NumberIs(s: seq<int>, rest: seq<int>, max: nat)
    requires Digits(s) && 1 <= |s| <= max && (rest == [] || !IsDigit(rest[0]) || |s| == max)
    ensures NumberAt(s + rest, max) == Reading(Value(s), rest)
  {
    var t := s + rest;
    assert t[..|s|] == s && t[|s|..] == rest;
    CountIs(t, max, |s|);
  }

  lemma DayStep(v: int, rest: seq<int>, f: Found)
    requires 1 <= v <= 31 && |f.nums| < 3 && Blank(rest)
    ensures PassAt(TwoDigits(v) + rest, f) == Goes(f.(nums := f.nums + [v]), rest)
  {
    var s := TwoDigits(v);
    ValueOfTwo(v);
    assert IsDigit(s[0]) && (s + rest)[0] == s[0];
    hide TwoDigits, Value, AfterAll, DigitCount, WordAt, SignedAt, NumberAt;
    NumberIs(s, rest, 9);
    BlankStays(rest);
  }

  lemma DecimalAt(n: nat, rest: seq<int>)
    requires n < 1_000_000_000 && Blank(rest)
    ensures var s := Decimal(n, 4) + rest;
      NumberAt(s, 9) == Reading(n, rest) && IsDigit(s[0]) && |s| - |rest| > 2
  {
    hide Value, NumberAt, Decimal, Power10;
    var r := Decimal(n, 4);
    assert Power10(9) == 1_000_000_000 by { PowerNine(); }
    DecimalIs(n, 4, 9);
    NumberIs(r, rest, 9);
    assert (r + rest)[0] == r[0];
  }

  lemma PowerNine()
    ensures Power10(9) == 1_000_000_000
  {
    assert Power10(3) == 1000 && Power10(6) == 1_000_000;
  }

  lemma SignRest(u: seq<int>)
    ensures var t := ['-' as int] + u; t != [] && t[0] == '-' as int && t[1..] == u
  {
  }

  lemma YearStep(year: int, rest: seq<int>, f: Found)
    requires -1_000_000_000 < year < 1_000_000_000 && Blank(rest) && !f.hasTime
    ensures PassAt(YearString(year) + rest, f) == Goes(f.(d := f.d.(year := year), hasYear := true), rest)
  {
    hide Decimal, AfterAll, WordAt, NumberAt, ClockAt;
    var n := if year < 0 then -year else year;
    DecimalAt(n, rest);
    BlankStays(rest);
    if year < 0 {
      SignRest(Decimal(n, 4) + rest);
      assert YearString(year) + rest == ['-' as int] + (Decimal(n, 4) + rest);
    }
  }

  lemma TwoDigitsAt(v: int, rest: seq<int>, max: nat)
    requires 0 <= v < 100 && 2 <= max && (max == 2 || rest == [] || !IsDigit(rest[0]))
    ensures NumberAt(TwoDigits(v) + rest, max) == Reading(v, rest)
  {
    hide Value, NumberAt;
    ValueOfTwo(v);
    NumberIs(TwoDigits(v), rest, max);
  }

  lemma ColonRest(u: seq<int>)
    ensures var t := [':' as int] + u; t != [] && t[0] == ':' as int && t[1..] == u
  {
  }

  lemma NoFraction(rest: seq<int>)
    requires Blank(rest)
    ensures Milliseconds(rest) == (0, rest)
  {
  }

  lemma MinutesAt(min: int, sec: int, rest: seq<int>, d: Date)
    requires 0 <= min < 100 && 0 <= sec < 100 && Blank(rest)
    ensures TimeAt(TwoDigits(min) + ([':' as int] + (TwoDigits(sec) + rest)), d) == Clock(d.(min := min, sec := sec, msec := 0), rest)
  {
    hide TwoDigits, NumberAt, Milliseconds;
    var u := TwoDigits(sec) + rest;
    ColonRest(u);
    TwoDigitsAt(min, [':' as int] + u, 2);
    TwoDigitsAt(sec, rest, 2);
    NoFraction(rest);
  }

  lemma ClockShape(d: Date, rest: seq<int>)
    requires 0 <= d.hour < 100 && 0 <= d.min < 100 && 0 <= d.sec < 100
    ensures var s := ClockString(d) + rest;
      && s != [] && IsDigit(s[0])
      && s == TwoDigits(d.hour) + ([':' as int] + (TwoDigits(d.min) + ([':' as int] + (TwoDigits(d.sec) + rest))))
  {
    var h, c := TwoDigits(d.hour), [':' as int];
    assert (c + TwoDigits(d.sec)) + rest == c + (TwoDigits(d.sec) + rest);
    assert (ClockString(d) + rest)[0] == h[0];
  }

  lemma ClockStep(d: Date, rest: seq<int>, f: Found)
    requires 0 <= d.hour <= 23 && 0 <= d.min <= 59 && 0 <= d.sec <= 59
    requires |rest| >= 2 && rest[0] == ' ' as int && rest[1] == 'G' as int
    ensures PassAt(ClockString(d) + rest, f) == Goes(f.(d := f.d.(hour := d.hour, min := d.min, sec := d.sec, msec := 0), hasTime := true), rest)
  {
    hide TwoDigits, NumberAt, ClockString, AfterAll, HalfAt, TimeAt, WordAt, SignedAt;
    ClockShape(d, rest);
    var u := TwoDigits(d.min) + ([':' as int] + (TwoDigits(d.sec) + rest));
    ColonRest(u);
    TwoDigitsAt(d.hour, [':' as int] + u, 9);
    MinutesAt(d.min, d.sec, rest, f.d.(hour := d.hour));
    NoHalf(rest);
    BlankStays(rest);
  }

  lemma NoHalf(rest: seq<int>)
    requires |rest| >= 2 && rest[0] == ' ' as int && rest[1] == 'G' as int
    ensures forall d :: HalfAt(rest, d) == (d, rest, false)
  {
    var t := rest[1..];
    assert AfterSpaces(t) == t && AfterSpaces(rest) == t;
    assert "pm"[0] == 'p' && "am"[0] == 'a';
    Differs(t, "pm");
    Differs(t, "am");
  }

  lemma GmtShape(rest: seq<int>)
    ensures var t := Ascii("GMT") + rest; StartsLike(t, "GMT") && Capital(t) && |t| >= 3 && t[3..] == rest
  {
    var s := Ascii("GMT");
    assert forall i :: 0 <= i < 3 ==> (s + rest)[i] == s[i];
  }

  lemma GmtEntry()
    ensures |TZ_ABBRS| > 0 && |TZ_ABBRS[0].0| == 3 && TZ_ABBRS[0].1 == 0
  {
  }

  lemma GmtStep(rest: seq<int>, f: Found)
    requires rest == [] || rest[0] == '+' as int || rest[0] == '-' as int
    ensures PassAt(Ascii("GMT") + rest, f) == Goes(f.(d := f.d.(timeZoneOffset := 0, isLocal := false)), rest)
  {
    hide PassAt, MonthFrom, AbbrFrom, Until, StartsWith, StartsLike, TZ_ABBRS, MONTH_NAMES, Ascii, Among, PhraseAt;
    GmtShape(rest);
    GmtNames(Ascii("GMT") + rest);
    GmtEntry();
    WordPass(Ascii("GMT") + rest, f, f.(d := f.d.(timeZoneOffset := 0, isLocal := false)), rest, true);
  }

  lemma GmtNames(s: seq<int>)
    requires StartsLike(s, "GMT")
    ensures MonthFrom(s, 0) == |MONTH_NAMES| && AbbrFrom(s, 0) == 0
  {
    assert |TZ_ABBRS| > 0 && |MONTH_NAMES| > 0;
    hide StartsWith, StartsLike, MONTH_NAMES, TZ_ABBRS;
    forall j | 0 <= j < |MONTH_NAMES| ensures !StartsWith(s, MONTH_NAMES[j]) { GmtIsNoMonth(s, j); }
    NoMonth(s, 0);
    GmtIsNoMonth(s, 0);
  }

  lemma OffsetStep(minutes: int, rest: seq<int>, f: Found)
    requires -(23 * 60 + 59) <= minutes <= 23 * 60 + 59 && f.hasTime && Blank(rest)
    ensures PassAt(OffsetString(minutes) + rest, f) == Goes(f.(d := f.d.(timeZoneOffset := minutes, isLocal := false)), rest)
  {
    var m := if minutes < 0 then -minutes else minutes;
    var s := OffsetString(minutes);
    OffsetIsReadBack(minutes < 0, m / 60, m % 60, false, rest, false);
    assert m / 60 * 60 + m % 60 == m;
    assert (s + rest)[0] == s[0] && (s + rest)[|s|..] == rest;
    assert s[0] == '+' as int || s[0] == '-' as int;
    hide OffsetString, ZoneOffset, AfterAll, WordAt, UnsignedAt, FormatOffset;
    BlankStays(rest);
  }

  predicate NoParentheses(s: seq<int>) {
    forall i :: 0 <= i < |s| ==> s[i] != '(' as int && s[i] != ')' as int
  }

  lemma {:induction false} PhraseIs(s: seq<int>)
    requires NoParentheses(s)
    ensures PhraseAt(s + [')' as int], 1) == ([], 0)
  {
    var t := s + [')' as int];
    if s == [] {
      assert t[1..] == [] && PhraseAt([], 0) == ([], 0);
    } else {
      assert t[1..] == s[1..] + [')' as int] && t[0] == s[0];
      PhraseIs(s[1..]);
    }
  }

  lemma ParenthesisNames(s: seq<int>)
    requires s != [] && s[0] == '(' as int
    ensures MonthFrom(s, 0) == |MONTH_NAMES| && AbbrFrom(s, 0) == |TZ_ABBRS|
  {
    hide StartsWith, MONTH_NAMES, TZ_ABBRS;
    forall j | 0 <= j < |MONTH_NAMES| ensures !StartsWith(s, MONTH_NAMES[j]) { ParenthesisIsNoName(s, j); }
    forall j | 0 <= j < |TZ_ABBRS| ensures !StartsWith(s, TZ_ABBRS[j].0) { ParenthesisIsNoName(s, j); }
    NoMonth(s, 0);
    NoAbbr(s, 0);
  }

  lemma PhraseShape(zone: seq<int>)
    ensures var s := ['(' as int] + zone + [')' as int]; s != [] && s[0] == '(' as int && s[1..] == zone + [')' as int]
  {
  }

  lemma PhraseStep(zone: seq<int>, f: Found)
    requires NoParentheses(zone)
    ensures PassAt(['(' as int] + zone + [')' as int], f) == Goes(f, [])
  {
    hide PassAt, MonthFrom, AbbrFrom, StartsWith, TZ_ABBRS, MONTH_NAMES, PhraseAt, Until, NoParentheses;
    var s := ['(' as int] + zone + [')' as int];
    PhraseShape(zone);
    PhraseIs(zone);
    ParenthesisNames(s);
    WordPass(s, f, f, [], false);
  }

  // ---- the whole

  lemma LastWord(w: seq<int>, f: Found, g: Found)
    requires w != [] && w[0] != ' ' as int && PassAt(w, f) == Goes(g, [])
    ensures ParseAt(w, f) == Goes(g, [])
  {
    assert AfterSpaces(w) == w;
  }

  lemma BlankWords(words: seq<seq<int>>)
    requires words != []
    ensures var rest := [' ' as int] + Spaced(words); Blank(rest) && rest[0] == ' ' as int
    ensures words[0] != [] ==> |[' ' as int] + Spaced(words)| >= 2 && ([' ' as int] + Spaced(words))[1] == words[0][0]
  {
  }

  predicate Plain(s: seq<int>) { s != [] && s[0] != ' ' as int }

  lemma PlainWords(wd: nat, d: Date)
    requires wd < 7 && Printable(d)
    ensures Plain(Ascii(WEEKDAYS[wd])) && Plain(Ascii(WEEKDAYS[wd]) + [',' as int]) && Plain(TwoDigits(d.day))
    ensures Plain(Ascii(MONTHS[d.month - 1])) && Plain(YearString(d.year)) && Plain(ClockString(d))
  {
    assert Digits(Decimal(if d.year < 0 then -d.year else d.year, 4));
    WeekdayLetters(Ascii(WEEKDAYS[wd]), wd);
    assert IsDigit(TwoDigits(d.day)[0]) && IsDigit(TwoDigits(d.hour)[0]);
    assert forall c :: IsDigit(c) ==> c != ' ' as int;
    hide Decimal, TwoDigits;
  }

  /** A year, a time and what follows. */
  lemma YearAndClock(d: Date, zone: seq<int>, words: seq<seq<int>>, f: Found)
    requires Printable(d) && zone != [] && zone[0] == 'G' as int && !f.hasTime
    ensures ParseAt(Spaced([YearString(d.year), ClockString(d), zone] + words), f)
      == ParseAt(Spaced([zone] + words), Found(f.d.(year := d.year, hour := d.hour, min := d.min, sec := d.sec, msec := 0), f.nums, true, f.hasMon, true))
  {
    hide ParseAt, PassAt, Spaced, YearString, ClockString, Blank;
    var y, c := YearString(d.year), ClockString(d);
    var ws := [zone] + words;
    var g := f.(d := f.d.(year := d.year), hasYear := true);
    var h := g.(d := g.d.(hour := d.hour, min := d.min, sec := d.sec, msec := 0), hasTime := true);
    PlainWords(0, d);
    BlankWords([c] + ws);
    YearStep(d.year, [' ' as int] + Spaced([c] + ws), f);
    NextWord(y, [c] + ws, f, g);
    BlankWords(ws);
    ClockStep(d, [' ' as int] + Spaced(ws), g);
    NextWord(c, ws, g, h);
    assert [y] + ([c] + ws) == [y, c, zone] + words;
  }

  /** The form of toUTCString. */
  lemma UtcStringIsReadBack(wd: nat, d: Date)
    requires wd < 7 && Printable(d) && d.timeZoneOffset == 0
    ensures Parse(UtcString(wd, d)) == Some(d)
  {
    hide ParseAt, PassAt, Spaced, YearString, ClockString, Blank, Ascii, TwoDigits;
    var gmt := Ascii("GMT");
    var w, m, day := Ascii(WEEKDAYS[wd]) + [',' as int], Ascii(MONTHS[d.month - 1]), TwoDigits(d.day);
    var ws := [YearString(d.year), ClockString(d), gmt];
    var f := START.(nums := [d.day]);
    var g := f.(d := f.d.(month := d.month), hasMon := true);
    PlainWords(wd, d);
    BlankWords([day, m] + ws);
    WeekdayStep(w, wd, [' ' as int] + Spaced([day, m] + ws));
    NextWord(w, [day, m] + ws, START, START);
    BlankWords([m] + ws);
    DayStep(d.day, [' ' as int] + Spaced([m] + ws), START);
    NextWord(day, [m] + ws, START, f);
    BlankWords(ws);
    MonthStep(d.month - 1, [' ' as int] + Spaced(ws), f);
    NextWord(m, ws, f, g);
    assert gmt != [] && gmt[0] == 'G' as int by { GmtShape([]); assert gmt + [] == gmt; }
    YearAndClock(d, gmt, [], g);
    assert ws == ws + [] && [gmt] + [] == [gmt];
    assert [w] + ([day, m] + ws) == [w, day, m, YearString(d.year), ClockString(d), gmt] && [day] + ([m] + ws) == [day, m] + ws;
    var h := Found(g.d.(year := d.year, hour := d.hour, min := d.min, sec := d.sec, msec := 0), g.nums, true, true, true);
    GmtEnd(h);
  }

  lemma GmtEnd(f: Found)
    ensures ParseAt(Spaced([Ascii("GMT")]), f) == Goes(f.(d := f.d.(timeZoneOffset := 0, isLocal := false)), [])
  {
    hide ParseAt, PassAt, Ascii;
    var gmt := Ascii("GMT");
    GmtShape([]);
    assert gmt + [] == gmt;
    GmtStep([], f);
    LastWord(gmt, f, f.(d := f.d.(timeZoneOffset := 0, isLocal := false)));
  }

  lemma ZoneEnd(minutes: int, zone: seq<int>, f: Found)
    requires -(23 * 60 + 59) <= minutes <= 23 * 60 + 59 && f.hasTime && NoParentheses(zone)
    ensures var gmt := Ascii("GMT") + OffsetString(minutes);
      gmt != [] && gmt[0] == 'G' as int
      && ParseAt(Spaced([gmt] + [['(' as int] + zone + [')' as int]]), f) == Goes(f.(d := f.d.(timeZoneOffset := minutes, isLocal := false)), [])
  {
    hide ParseAt, PassAt, Ascii, Blank, NoParentheses;
    var gmt, o, p := Ascii("GMT"), OffsetString(minutes), ['(' as int] + zone + [')' as int];
    var rest := [' ' as int] + p;
    var g, h := f.(d := f.d.(timeZoneOffset := 0, isLocal := false)), f.(d := f.d.(timeZoneOffset := minutes, isLocal := false));
    GmtShape(o + rest);
    OffsetShape(minutes, rest);
    GmtStep(o + rest, f);
    WordStep(gmt, o + rest, f, g);
    BlankWords([p]);
    OffsetStep(minutes, rest, g);
    WordStep(o, rest, g, h);
    SpaceStep(p, h);
    PhraseStep(zone, h);
    LastWord(p, h, h);
    assert [gmt + o] + [p] == [gmt + o, p] && [gmt + o, p][1..] == [p];
    assert gmt + o + rest == gmt + (o + rest);
  }

  lemma OffsetShape(minutes: int, rest: seq<int>)
    requires -(23 * 60 + 59) <= minutes <= 23 * 60 + 59
    ensures var o := OffsetString(minutes);
      o != [] && (o[0] == '+' as int || o[0] == '-' as int) && o + rest != [] && (o + rest)[0] == o[0]
  {
  }

  /** The form of toString, whatever name the zone goes by. */
  lemma LocalStringIsReadBack(wd: nat, d: Date, zone: seq<int>)
    requires wd < 7 && Printable(d) && NoParentheses(zone)
    ensures Parse(LocalString(wd, d, zone)) == Some(d)
  {
    hide ParseAt, PassAt, Spaced, YearString, ClockString, Blank, Ascii, TwoDigits, OffsetString, NoParentheses;
    var gmt, p := Ascii("GMT") + OffsetString(d.timeZoneOffset), ['(' as int] + zone + [')' as int];
    var w, m, day := Ascii(WEEKDAYS[wd]), Ascii(MONTHS[d.month - 1]), TwoDigits(d.day);
    var ws := [YearString(d.year), ClockString(d), gmt, p];
    var f := START.(d := START.d.(month := d.month), hasMon := true);
    var g := f.(nums := [d.day]);
    PlainWords(wd, d);
    BlankWords([m, day] + ws);
    WeekdayStep(w, wd, [' ' as int] + Spaced([m, day] + ws));
    NextWord(w, [m, day] + ws, START, START);
    BlankWords([day] + ws);
    MonthStep(d.month - 1, [' ' as int] + Spaced([day] + ws), START);
    NextWord(m, [day] + ws, START, f);
    BlankWords(ws);
    DayStep(d.day, [' ' as int] + Spaced(ws), f);
    NextWord(day, ws, f, g);
    var h := Found(g.d.(year := d.year, hour := d.hour, min := d.min, sec := d.sec, msec := 0), g.nums, true, true, true);
    ZoneEnd(d.timeZoneOffset, zone, h);
    YearAndClock(d, gmt, [p], g);
    assert ws == [YearString(d.year), ClockString(d), gmt] + [p] && [gmt] + [p] == [gmt, p];
    assert [w] + ([m, day] + ws) == [w, m, day, YearString(d.year), ClockString(d), gmt, p] && [m] + ([day] + ws) == [m, day] + ws;
  }
}
