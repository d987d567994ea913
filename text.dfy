/** The JavaScript string operations the intake form and the views rely on, over `string`
    (`seq<char>`): `trim`, ASCII `toLowerCase`, `includes`, `padStart`, `split("/")`,
    `parseInt(s, 10)`, `parseInt(s)` with its "0x" prefix, and the decimal rendering of a
    non-negative integer. */
module Text {
  import opened Wrappers

  /** The code points JavaScript counts as WhiteSpace or LineTerminator: what `trim()`
      strips, what the regular-expression class `\s` matches and what `parseInt` skips. */
  predicate IsSpace(c: char) {
    || c == ' ' || c == '\t' || c == '\n' || c == '\r' || c == '\U{000B}' || c == '\U{000C}'
    || c == '\U{00A0}' || c == '\U{1680}' || ('\U{2000}' <= c <= '\U{200A}')
    || c == '\U{2028}' || c == '\U{2029}' || c == '\U{202F}' || c == '\U{205F}'
    || c == '\U{3000}' || c == '\U{FEFF}'
  }

  // ---------------------------------------------------------------- trim

  /** `s` without its leading whitespace. */
  function TrimStart(s: string): (r: string)
    ensures |r| <= |s| && r == s[|s| - |r|..]
    ensures r == [] || !IsSpace(r[0])
  {
    if s != [] && IsSpace(s[0]) then TrimStart(s[1..]) else s
  }

  /** `s` without its trailing whitespace. */
  function TrimEnd(s: string): (r: string)
    ensures |r| <= |s| && r == s[..|r|]
    ensures r == [] || !IsSpace(r[|r| - 1])
  {
    if s != [] && IsSpace(s[|s| - 1]) then TrimEnd(s[..|s| - 1]) else s
  }

  /** A string with no whitespace at either end. */
  predicate IsTrimmed(t: string) {
    t == [] || (!IsSpace(t[0]) && !IsSpace(t[|t| - 1]))
  }

  /** `s.trim()`. */
  function Trim(s: string): (r: string)
    ensures |r| <= |s| && IsTrimmed(r)
  {
    var t := TrimStart(s);
    var r := TrimEnd(t);
    assert r != [] ==> r[0] == t[0];
    r
  }

  /** `trim()` removes whitespace from the two ends and nothing else: the result is a
      contiguous run of `s`, and everything before and after it is whitespace. */
  lemma TrimDropsOnlySpace(s: string)
    ensures exists i, j :: && 0 <= i <= j <= |s| && Trim(s) == s[i..j]
                           && (forall k :: 0 <= k < i ==> IsSpace(s[k]))
                           && (forall k :: j <= k < |s| ==> IsSpace(s[k]))
  {
    var t := TrimStart(s);
    var r := Trim(s);
    var i := |s| - |t|;
    var j := i + |r|;
    assert r == s[i..j];
    assert forall k :: 0 <= k < i ==> IsSpace(s[k]) by {
      TrimStartDropsSpace(s);
    }
    assert forall k :: j <= k < |s| ==> IsSpace(s[k]) by {
      TrimEndDropsSpace(t);
      forall k | j <= k < |s|
        ensures IsSpace(s[k])
      {
        assert s[k] == t[k - i];
      }
    }
  }

  /** What `TrimStart` drops is whitespace. */
  lemma {:induction false} TrimStartDropsSpace(s: string)
    ensures forall i :: 0 <= i < |s| - |TrimStart(s)| ==> IsSpace(s[i])
  {
    if s != [] && IsSpace(s[0]) {
      TrimStartDropsSpace(s[1..]);
      forall i | 0 < i < |s| - |TrimStart(s)| ensures IsSpace(s[i]) {
        assert s[i] == s[1..][i - 1];
      }
    }
  }

  /** What `TrimEnd` drops is whitespace. */
  lemma {:induction false} TrimEndDropsSpace(s: string)
    ensures forall i :: |TrimEnd(s)| <= i < |s| ==> IsSpace(s[i])
  {
    if s != [] && IsSpace(s[|s| - 1]) {
      TrimEndDropsSpace(s[..|s| - 1]);
      forall i | |TrimEnd(s)| <= i < |s| - 1 ensures IsSpace(s[i]) {
        assert s[i] == s[..|s| - 1][i];
      }
    }
  }

  /** `trim` gives the empty string exactly for an all-whitespace string. */
  lemma TrimEmptyIffAllSpace(s: string)
    ensures Trim(s) == [] <==> forall i :: 0 <= i < |s| ==> IsSpace(s[i])
  {
    var t := TrimStart(s);
    TrimStartDropsSpace(s);
    TrimEndDropsSpace(t);
    assert forall i :: |s| - |t| <= i < |s| ==> s[i] == t[i - (|s| - |t|)];
  }

  /** The trimmed strings are exactly the ones `trim` leaves as they are. */
  lemma TrimmedIffFixed(t: string)
    ensures IsTrimmed(t) <==> Trim(t) == t
  {
  }

  /** `trim` is idempotent. */
  lemma TrimIdempotent(s: string)
    ensures Trim(Trim(s)) == Trim(s)
  {
    TrimmedIffFixed(Trim(s));
  }

  /** JavaScript's `!s.trim()`: the string is empty or all whitespace
      (`BlankIffTrimEmpty` ties the two readings together). */
  predicate IsBlank(s: string) {
    s == [] || (IsSpace(s[0]) && IsBlank(s[1..]))
  }

  lemma {:induction false} BlankIffAllSpace(s: string)
    ensures IsBlank(s) <==> forall i :: 0 <= i < |s| ==> IsSpace(s[i])
  {
    if s != [] {
      BlankIffAllSpace(s[1..]);
      assert forall i :: 0 < i < |s| ==> s[i] == s[1..][i - 1];
    }
  }

  /** A string is blank exactly when `trim` empties it. */
  lemma BlankIffTrimEmpty(s: string)
    ensures IsBlank(s) <==> Trim(s) == []
  {
    BlankIffAllSpace(s);
    TrimEmptyIffAllSpace(s);
  }

  // ---------------------------------------------------------------- case and search

  /** `toLowerCase` on one character, ASCII letters only. */
  function LowerChar(c: char): char {
    if 'A' <= c <= 'Z' then (c as int + 32) as char else c
  }

  /** `s.toLowerCase()`, ASCII letters only. */
  function ToLower(s: string): (r: string)
    ensures |r| == |s| && forall i :: 0 <= i < |s| ==> r[i] == LowerChar(s[i])
  {
    seq(|s|, i requires 0 <= i < |s| => LowerChar(s[i]))
  }

  /** `hay.includes(needle)`: `needle` occurs in `hay` as a contiguous run. */
  predicate Contains(hay: string, needle: string)
    decreases |hay|
  {
    needle <= hay || (hay != [] && Contains(hay[1..], needle))
  }

  /** `needle` occurs in `hay` starting at index `i`. */
  predicate OccursAt(hay: string, needle: string, i: int) {
    0 <= i <= |hay| - |needle| && hay[i..i + |needle|] == needle
  }

  /** The occurrence-based reading of `includes`. */
  lemma {:induction false} ContainsAt(hay: string, needle: string)
    ensures Contains(hay, needle) <==> exists i :: OccursAt(hay, needle, i)
    decreases |hay|
  {
    if needle <= hay {
      assert OccursAt(hay, needle, 0);
    } else if hay != [] {
      ContainsAt(hay[1..], needle);
      if exists i :: OccursAt(hay, needle, i) {
        var i :| OccursAt(hay, needle, i);
        assert i != 0;
        OccursShift(hay, needle, i);
      }
      if Contains(hay[1..], needle) {
        var j :| OccursAt(hay[1..], needle, j);
        OccursShift(hay, needle, j + 1);
      }
    }
  }

  /** An occurrence past index 0 is an occurrence in the tail, one index lower. */
  lemma OccursShift(hay: string, needle: string, i: int)
    requires hay != [] && 1 <= i
    ensures OccursAt(hay, needle, i) <==> OccursAt(hay[1..], needle, i - 1)
  {
    if 0 <= i - 1 <= |hay[1..]| - |needle| {
      var a, b := hay[i..i + |needle|], hay[1..][i - 1..i - 1 + |needle|];
      forall k | 0 <= k < |needle|
        ensures a[k] == b[k]
      {
        assert a[k] == hay[i + k] && b[k] == hay[1..][i - 1 + k];
      }
      assert a == b;
    }
  }

  /** Every string contains the empty string, as `"abc".includes("")` does. */
  lemma ContainsEmpty(hay: string)
    ensures Contains(hay, "")
  {
  }

  // ---------------------------------------------------------------- padStart

  /** `c` repeated `n` times. */
  function Repeat(c: char, n: nat): (r: string)
    ensures |r| == n && forall i :: 0 <= i < n ==> r[i] == c
  {
    if n == 0 then [] else [c] + Repeat(c, n - 1)
  }

  /** `s.padStart(n, [c])`: `s` left-padded with `c` up to length `n`. */
  function PadStart(s: string, n: nat, c: char): (r: string)
    ensures |r| == if |s| >= n then |s| else n
    ensures r[|r| - |s|..] == s
    ensures forall i :: 0 <= i < |r| - |s| ==> r[i] == c
  {
    if |s| >= n then s else Repeat(c, n - |s|) + s
  }

  // ---------------------------------------------------------------- split

  /** The number of occurrences of `c` in `s`. */
  function CountChar(s: string, c: char): nat {
    if s == [] then 0 else (if s[0] == c then 1 else 0) + CountChar(s[1..], c)
  }

  lemma {:induction false} CountCharAppend(a: string, b: string, c: char)
    ensures CountChar(a + b, c) == CountChar(a, c) + CountChar(b, c)
  {
    if a == [] {
      assert a + b == b;
    } else {
      assert (a + b)[1..] == a[1..] + b;
      CountCharAppend(a[1..], b, c);
    }
  }

  lemma {:induction false} CountCharAbsent(s: string, c: char)
    requires forall i :: 0 <= i < |s| ==> s[i] != c
    ensures CountChar(s, c) == 0
  {
    if s != [] {
      CountCharAbsent(s[1..], c);
    }
  }

  /** The index of the first `c` in `s`, or `|s|` when there is none. */
  function IndexOf(s: string, c: char): (k: nat)
    ensures k <= |s|
    ensures k < |s| ==> s[k] == c
    ensures forall i :: 0 <= i < k ==> s[i] != c
  {
    if s == [] then 0 else if s[0] == c then 0 else 1 + IndexOf(s[1..], c)
  }

  /** `s.split(sep)` for a one-character separator: one part more than there are
      separators, none containing the separator. */
  function Split(s: string, sep: char): (parts: seq<string>)
    ensures |parts| == CountChar(s, sep) + 1
    ensures forall i :: 0 <= i < |parts| ==> sep !in parts[i]
    decreases |s|
  {
    var k := IndexOf(s, sep);
    if k == |s| then
      CountCharAbsent(s, sep);
      [s]
    else
      assert s == s[..k] + ([s[k]] + s[k + 1..]);
      CountCharAppend(s[..k], [s[k]] + s[k + 1..], sep);
      CountCharAppend([s[k]], s[k + 1..], sep);
      CountCharAbsent(s[..k], sep);
      [s[..k]] + Split(s[k + 1..], sep)
  }

  lemma {:induction false} IndexOfAfter(a: string, b: string, c: char)
    requires c !in a
    ensures IndexOf(a + b, c) == |a| + IndexOf(b, c)
  {
    if a == [] {
      assert a + b == b;
    } else {
      assert (a + b)[0] == a[0] && (a + b)[1..] == a[1..] + b;
      IndexOfAfter(a[1..], b, c);
    }
  }

  /** A string without the separator is one part. */
  lemma SplitNone(a: string, sep: char)
    requires sep !in a
    ensures Split(a, sep) == [a]
  {
  }

  /** The text before the first separator is the first part; the rest is split on. */
  lemma SplitHead(a: string, rest: string, sep: char)
    requires sep !in a
    ensures Split(a + [sep] + rest, sep) == [a] + Split(rest, sep)
  {
    var s := a + [sep] + rest;
    assert s == a + ([sep] + rest);
    IndexOfAfter(a, [sep] + rest, sep);
    assert IndexOf(s, sep) == |a|;
    assert s[..|a|] == a && s[|a| + 1..] == rest;
  }

  /** A number typed with leading zeros has no character but digits, so no separator such
      as '/'. */
  lemma PaddedHasNoSlash(z: nat, n: nat)
    ensures '/' !in PaddedNat(z, n)
  {
  }

  /** `parts.join(sep)`. */
  function Join(parts: seq<string>, sep: char): string
    requires |parts| >= 1
  {
    if |parts| == 1 then parts[0] else parts[0] + [sep] + Join(parts[1..], sep)
  }

  /** Splitting loses nothing: joining the parts back gives the string. */
  lemma {:induction false} JoinSplit(s: string, sep: char)
    ensures Join(Split(s, sep), sep) == s
    decreases |s|
  {
    var k := IndexOf(s, sep);
    if k < |s| {
      JoinSplit(s[k + 1..], sep);
      assert Split(s, sep)[1..] == Split(s[k + 1..], sep);
      assert s == s[..k] + [sep] + s[k + 1..];
    }
  }

  // ---------------------------------------------------------------- numbers

  predicate IsDigit(c: char) {
    '0' <= c <= '9'
  }

  function DigitValue(c: char): nat
    requires IsDigit(c)
  {
    c as int - '0' as int
  }

  function DigitChar(d: nat): (c: char)
    requires d < 10
    ensures IsDigit(c) && DigitValue(c) == d
  {
    ('0' as int + d) as char
  }

  /** The number of decimal digits at the start of `s`. */
  function LeadingDigits(s: string): (k: nat)
    ensures k <= |s|
    ensures forall i :: 0 <= i < k ==> IsDigit(s[i])
    ensures k < |s| ==> !IsDigit(s[k])
  {
    if s != [] && IsDigit(s[0]) then 1 + LeadingDigits(s[1..]) else 0
  }

  /** The value of a string of decimal digits. */
  function DigitsValue(d: string): nat
    requires forall i :: 0 <= i < |d| ==> IsDigit(d[i])
  {
    if d == [] then 0 else 10 * DigitsValue(d[..|d| - 1]) + DigitValue(d[|d| - 1])
  }

  /** `parseInt(s, 10)` on its integer path: leading whitespace skipped, an optional sign,
      then as many decimal digits as follow; `None` (JavaScript's `NaN`) when no digit
      follows. */
  function ParseLeadingInt(s: string): Option<int> {
    var t := TrimStart(s);
    var negative := t != [] && t[0] == '-';
    var rest := if t != [] && (t[0] == '-' || t[0] == '+') then t[1..] else t;
    var k := LeadingDigits(rest);
    var magnitude: int := if k == 0 then 0 else DigitsValue(rest[..k]);
    if k == 0 then None
    else if negative then Some(-magnitude)
    else Some(magnitude)
  }

  /** `String(n)` for a non-negative integer: its decimal digits, no leading zero. */
  function NatToString(n: nat): (r: string)
    ensures r != [] && forall i :: 0 <= i < |r| ==> IsDigit(r[i])
    ensures |r| > 1 ==> r[0] != '0'
  {
    if n < 10 then [DigitChar(n)] else NatToString(n / 10) + [DigitChar(n % 10)]
  }

  /** Reading back the digits `String(n)` writes gives `n`. */
  lemma {:induction false} NatToStringValue(n: nat)
    ensures DigitsValue(NatToString(n)) == n
  {
    var r := NatToString(n);
    if n >= 10 {
      NatToStringValue(n / 10);
      assert r[..|r| - 1] == NatToString(n / 10);
    }
  }

  /** `parseInt` of a rendered number followed by a non-digit (the " anos" of an age label)
      gives the number back. */
  lemma ParseRendered(n: nat, rest: string)
    requires rest == [] || !IsDigit(rest[0])
    ensures ParseLeadingInt(NatToString(n) + rest) == Some(n)
  {
    var d := NatToString(n);
    var s := d + rest;
    assert s[0] == d[0] && IsDigit(s[0]) && !IsSpace(s[0]);
    assert TrimStart(s) == s;
    assert LeadingDigits(s) == |d| by {
      LeadingDigitsPrefix(d, rest);
    }
    assert s[..|d|] == d;
    NatToStringValue(n);
  }

  /** `parseInt(String(n))` is `n`. */
  lemma ParseNatToString(n: nat)
    ensures ParseLeadingInt(NatToString(n)) == Some(n)
  {
    ParseRendered(n, []);
    assert NatToString(n) + [] == NatToString(n);
  }

  /** `n` as a person may type it: its decimal digits behind `z` zeros ("05", "007"). */
  function PaddedNat(z: nat, n: nat): (r: string)
    ensures |r| > 0 && forall i :: 0 <= i < |r| ==> IsDigit(r[i])
  {
    Repeat('0', z) + NatToString(n)
  }

  /** A run of zeros is worth 0. */
  lemma {:induction false} ZerosValue(k: nat)
    ensures DigitsValue(Repeat('0', k)) == 0
  {
    if k > 0 {
      var z := Repeat('0', k);
      ZerosValue(k - 1);
      assert z[..k - 1] == Repeat('0', k - 1);
    }
  }

  /** Zeros in front of a string of digits leave its value as it is. */
  lemma {:induction false} DigitsValueZeros(k: nat, d: string)
    requires forall i :: 0 <= i < |d| ==> IsDigit(d[i])
    ensures forall i :: 0 <= i < |Repeat('0', k) + d| ==> IsDigit((Repeat('0', k) + d)[i])
    ensures DigitsValue(Repeat('0', k) + d) == DigitsValue(d)
    decreases |d|
  {
    var z := Repeat('0', k);
    if d == [] {
      assert z + d == z;
      ZerosValue(k);
    } else {
      var e := d[..|d| - 1];
      DigitsValueZeros(k, e);
      assert (z + d)[..|z + d| - 1] == z + e;
      assert (z + d)[|z + d| - 1] == d[|d| - 1];
    }
  }

  /** `parseInt(s, 10)` reads a number typed with leading zeros and followed by a non-digit
      as that number: "05" is 5. */
  lemma ParsePadded(z: nat, n: nat, rest: string)
    requires rest == [] || !IsDigit(rest[0])
    ensures ParseLeadingInt(PaddedNat(z, n) + rest) == Some(n)
  {
    var d := PaddedNat(z, n);
    ParseDigitsThen(d, rest);
    assert DigitsValue(d) == n by {
      DigitsValueZeros(z, NatToString(n));
      NatToStringValue(n);
    }
  }

  /** `parseInt(s, 10)` of a run of digits followed by a non-digit is the value of the run. */
  lemma ParseDigitsThen(d: string, rest: string)
    requires d != [] && forall i :: 0 <= i < |d| ==> IsDigit(d[i])
    requires rest == [] || !IsDigit(rest[0])
    ensures ParseLeadingInt(d + rest) == Some(DigitsValue(d))
  {
    var s := d + rest;
    DigitStartUnsigned(s);
    assert LeadingDigits(s) == |d| by {
      LeadingDigitsPrefix(d, rest);
    }
    assert s[..|d|] == d;
  }

  /** A string that starts with a digit has nothing for `parseInt` to skip. */
  lemma DigitStartUnsigned(s: string)
    requires s != [] && IsDigit(s[0])
    ensures TrimStart(s) == s && Unsigned(s) == s
  {
    assert !IsSpace(s[0]);
  }

  /** `parseInt(s, 10)` of a number typed with leading zeros is that number. */
  lemma ParsePaddedNat(z: nat, n: nat)
    ensures ParseLeadingInt(PaddedNat(z, n)) == Some(n)
  {
    ParsePadded(z, n, []);
    assert PaddedNat(z, n) + [] == PaddedNat(z, n);
  }

  /** `parseInt` of a string that starts with a single digit. */
  lemma ParseOneDigit(s: string)
    requires |s| >= 1 && IsDigit(s[0]) && (|s| == 1 || !IsDigit(s[1]))
    ensures ParseLeadingInt(s) == Some(DigitValue(s[0]))
  {
    assert !IsSpace(s[0]);
    assert TrimStart(s) == s;
    assert LeadingDigits(s[1..]) == 0;
    assert LeadingDigits(s) == 1;
    var d := s[..1];
    assert d[..0] == [] && d[0] == s[0];
    assert DigitsValue(d) == 10 * DigitsValue(d[..0]) + DigitValue(d[0]);
  }

  /** `parseInt` of a string that starts with exactly two digits. */
  lemma ParseTwoDigits(s: string)
    requires |s| >= 2 && IsDigit(s[0]) && IsDigit(s[1]) && (|s| == 2 || !IsDigit(s[2]))
    ensures ParseLeadingInt(s) == Some(10 * DigitValue(s[0]) + DigitValue(s[1]))
  {
    assert !IsSpace(s[0]);
    assert TrimStart(s) == s;
    assert LeadingDigits(s[2..]) == 0;
    assert s[1..][1..] == s[2..];
    assert LeadingDigits(s) == 2;
    var d := s[..2];
    assert d[..1][..0] == [] && d[..1][0] == s[0] && d[1] == s[1];
    assert DigitsValue(d[..1]) == DigitValue(s[0]);
  }

  /** `parseInt` of a string that starts with neither whitespace, a sign nor a digit. */
  lemma ParseNoDigit(s: string)
    requires |s| >= 1 && !IsSpace(s[0]) && !IsDigit(s[0]) && s[0] != '-' && s[0] != '+'
    ensures ParseLeadingInt(s) == None
  {
    assert TrimStart(s) == s;
  }

  lemma {:induction false} LeadingDigitsPrefix(d: string, rest: string)
    requires forall i :: 0 <= i < |d| ==> IsDigit(d[i])
    requires rest == [] || !IsDigit(rest[0])
    ensures LeadingDigits(d + rest) == |d|
  {
    if d != [] {
      assert (d + rest)[1..] == d[1..] + rest;
      LeadingDigitsPrefix(d[1..], rest);
    } else {
      assert d + rest == rest;
    }
  }

  // ---------------------------------------------------------------- parseInt without a radix

  predicate IsHexDigit(c: char) {
    IsDigit(c) || ('a' <= c <= 'f') || ('A' <= c <= 'F')
  }

  function HexDigitValue(c: char): (v: nat)
    requires IsHexDigit(c)
    ensures v < 16
  {
    if IsDigit(c) then DigitValue(c)
    else if 'a' <= c <= 'f' then c as int - 'a' as int + 10
    else c as int - 'A' as int + 10
  }

  /** The number of hexadecimal digits at the start of `s`. */
  function LeadingHexDigits(s: string): (k: nat)
    ensures k <= |s|
    ensures forall i :: 0 <= i < k ==> IsHexDigit(s[i])
    ensures k < |s| ==> !IsHexDigit(s[k])
  {
    if s != [] && IsHexDigit(s[0]) then 1 + LeadingHexDigits(s[1..]) else 0
  }

  /** The value of a string of hexadecimal digits. */
  function HexDigitsValue(d: string): nat
    requires forall i :: 0 <= i < |d| ==> IsHexDigit(d[i])
  {
    if d == [] then 0 else 16 * HexDigitsValue(d[..|d| - 1]) + HexDigitValue(d[|d| - 1])
  }

  /** What `parseInt` reads after the leading whitespace and the optional sign. */
  function Unsigned(s: string): string {
    var t := TrimStart(s);
    if t != [] && (t[0] == '-' || t[0] == '+') then t[1..] else t
  }

  /** The "0x" or "0X" that makes `parseInt` without a radix read hexadecimal. */
  predicate HasHexPrefix(u: string) {
    |u| >= 2 && u[0] == '0' && (u[1] == 'x' || u[1] == 'X')
  }

  /** `parseInt(s)` with no radix: as `parseInt(s, 10)`, except that a "0x" or "0X" after
      the optional sign switches to radix 16, and gives `NaN` when no hexadecimal digit
      follows it. */
  function ParseInt(s: string): Option<int> {
    var t := TrimStart(s);
    var negative := t != [] && t[0] == '-';
    var u := Unsigned(s);
    if HasHexPrefix(u) then
      var h := u[2..];
      var k := LeadingHexDigits(h);
      if k == 0 then None
      else
        var magnitude: int := HexDigitsValue(h[..k]);
        if negative then Some(-magnitude) else Some(magnitude)
    else ParseLeadingInt(s)
  }

  /** Without the "0x" prefix, `parseInt(s)` and `parseInt(s, 10)` agree. */
  lemma ParseIntDecimal(s: string)
    requires !HasHexPrefix(Unsigned(s))
    ensures ParseInt(s) == ParseLeadingInt(s)
  {
  }

  /** `parseInt` of a rendered number followed by a text that starts with no digit (and,
      after a lone "0", with no "x") gives the number back. */
  lemma ParseIntRendered(n: nat, rest: string)
    requires rest == [] || !IsDigit(rest[0])
    requires n == 0 && rest != [] ==> rest[0] != 'x' && rest[0] != 'X'
    ensures ParseInt(NatToString(n) + rest) == Some(n)
  {
    RenderedIsDecimal(n, rest);
    ParseIntDecimal(NatToString(n) + rest);
    ParseRendered(n, rest);
  }

  /** A rendered number followed by such a text carries no sign, blank or "0x" prefix. */
  lemma RenderedIsDecimal(n: nat, rest: string)
    requires n == 0 && rest != [] ==> rest[0] != 'x' && rest[0] != 'X'
    ensures Unsigned(NatToString(n) + rest) == NatToString(n) + rest
    ensures !HasHexPrefix(NatToString(n) + rest)
  {
    var d := NatToString(n);
    var s := d + rest;
    assert s[0] == d[0] && IsDigit(s[0]) && !IsSpace(s[0]);
    assert TrimStart(s) == s;
    if n >= 10 {
      assert |d| >= 2 && s[0] == d[0];
    } else if n > 0 {
      assert d == [DigitChar(n)];
    } else {
      assert d == ['0'];
      assert |s| >= 2 ==> s[1] == rest[0];
    }
  }

  /** `parseInt` of a string that starts with a single digit, not followed by an "x". */
  lemma ParseIntOneDigit(s: string)
    requires |s| >= 1 && IsDigit(s[0]) && (|s| == 1 || !IsDigit(s[1]))
    requires |s| >= 2 ==> s[1] != 'x' && s[1] != 'X'
    ensures ParseInt(s) == Some(DigitValue(s[0]))
  {
    assert !IsSpace(s[0]);
    assert TrimStart(s) == s;
    assert Unsigned(s) == s;
    ParseIntDecimal(s);
    ParseOneDigit(s);
  }

  /** `parseInt` of a string that starts with neither whitespace, a sign nor a digit. */
  lemma ParseIntNoDigit(s: string)
    requires |s| >= 1 && !IsSpace(s[0]) && !IsDigit(s[0]) && s[0] != '-' && s[0] != '+'
    ensures ParseInt(s) == None
  {
    assert TrimStart(s) == s;
    assert Unsigned(s) == s;
    ParseIntDecimal(s);
    ParseNoDigit(s);
  }

  /** `parseInt` of a string that starts with exactly two digits. */
  lemma ParseIntTwoDigits(s: string)
    requires |s| >= 2 && IsDigit(s[0]) && IsDigit(s[1]) && (|s| == 2 || !IsDigit(s[2]))
    ensures ParseInt(s) == Some(10 * DigitValue(s[0]) + DigitValue(s[1]))
  {
    assert !IsSpace(s[0]);
    assert TrimStart(s) == s;
    assert Unsigned(s) == s;
    ParseIntDecimal(s);
    ParseTwoDigits(s);
  }

  /** `parseInt(s)` of "0x" and exactly two hexadecimal digits. */
  lemma ParseTwoHexDigits(s: string)
    requires |s| >= 4 && s[0] == '0' && (s[1] == 'x' || s[1] == 'X')
    requires IsHexDigit(s[2]) && IsHexDigit(s[3]) && (|s| == 4 || !IsHexDigit(s[4]))
    ensures ParseInt(s) == Some(16 * HexDigitValue(s[2]) + HexDigitValue(s[3]))
  {
    DigitStartUnsigned(s);
    var h := s[2..];
    TwoHexDigits(h);
  }

  /** Exactly two hexadecimal digits at the start of `h`, and their value. */
  lemma TwoHexDigits(h: string)
    requires |h| >= 2 && IsHexDigit(h[0]) && IsHexDigit(h[1]) && (|h| == 2 || !IsHexDigit(h[2]))
    ensures LeadingHexDigits(h) == 2
    ensures HexDigitsValue(h[..2]) == 16 * HexDigitValue(h[0]) + HexDigitValue(h[1])
  {
    assert LeadingHexDigits(h) == 2 by {
      assert h[1..][1..] == h[2..];
      assert LeadingHexDigits(h[2..]) == 0;
    }
    var d := h[..2];
    assert d[..1][..0] == [] && d[..1][0] == h[0] && d[1] == h[1];
    assert HexDigitsValue(d[..1]) == HexDigitValue(h[0]);
  }

  /** `parseInt("0x1F")` is 31: a number in the hexadecimal form. */
  lemma ParseHexExample(s: string)
    requires s == "0x1F anos"
    ensures ParseInt(s) == Some(31)
  {
    assert s[0] == '0' && s[1] == 'x' && s[2] == '1' && s[3] == 'F' && s[4] == ' ';
    ParseTwoHexDigits(s);
  }
}
