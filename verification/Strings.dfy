/**
 * String operations the controllers and the seeder rely on: ASCII case
 * mapping (Str::lower, strtoupper), substring search (Str::contains),
 * PHP's default trim() character set, explode/implode on a separator, and
 * is_numeric/intval on runs of ASCII digits.
 */
module Strings {

  import opened Options

  // ---------------------------------------------------------------------
  // Case mapping
  // ---------------------------------------------------------------------

  predicate IsUpper(c: char) { 'A' <= c <= 'Z' }

  predicate IsLower(c: char) { 'a' <= c <= 'z' }

  function LowerChar(c: char): char {
    if IsUpper(c) then (c as int + 32) as char else c
  }

  function UpperChar(c: char): char {
    if IsLower(c) then (c as int - 32) as char else c
  }

  function Lower(s: string): string {
    seq(|s|, i requires 0 <= i < |s| => LowerChar(s[i]))
  }

  function Upper(s: string): string {
    seq(|s|, i requires 0 <= i < |s| => UpperChar(s[i]))
  }

  /** No ASCII capital letter occurs in `s`. */
  predicate NoUpper(s: string) {
    forall i :: 0 <= i < |s| ==> !IsUpper(s[i])
  }

  /** Reference notion of case-insensitive equality: letter by letter. */
  predicate SameIgnoringCase(a: string, b: string) {
    |a| == |b| && forall i :: 0 <= i < |a| ==> LowerChar(a[i]) == LowerChar(b[i])
  }

  /** Lower-casing yields lower case and leaves lower-case strings alone. */
  lemma LowerNormalises(s: string)
    ensures NoUpper(Lower(s))
    ensures NoUpper(s) ==> Lower(s) == s
  {
    if NoUpper(s) {
      assert forall i :: 0 <= i < |s| ==> Lower(s)[i] == s[i];
    }
  }

  /**
   * Looking the lower-cased token up in an all-lower-case list is the same
   * as asking whether the token equals some listed name up to case.
   */
  lemma LowerMemberIff(t: string, names: set<string>)
    requires forall n :: n in names ==> NoUpper(n)
    ensures Lower(t) in names <==> exists n :: n in names && SameIgnoringCase(t, n)
  {
    if Lower(t) in names {
      assert SameIgnoringCase(t, Lower(t));
    }
    if n :| n in names && SameIgnoringCase(t, n) {
      LowerNormalises(n);
      assert Lower(t) == Lower(n);
    }
  }

  // ---------------------------------------------------------------------
  // Substring search
  // ---------------------------------------------------------------------

  /** `needle` occurs in `hay` starting at index `i`. */
  predicate OccursAt(hay: string, needle: string, i: int) {
    0 <= i && i + |needle| <= |hay| && hay[i..i + |needle|] == needle
  }

  /**
   * Left-to-right search for a non-empty `needle` in `hay`, as Str::contains
   * does (which answers false for an empty needle; no caller passes one).
   */
  predicate Contains(hay: string, needle: string)
    requires |needle| > 0
    decreases |hay|
  {
    if |needle| > |hay| then false
    else hay[..|needle|] == needle || Contains(hay[1..], needle)
  }

  lemma {:induction false} ContainsIff(hay: string, needle: string)
    requires |needle| > 0
    ensures Contains(hay, needle) <==> exists i :: OccursAt(hay, needle, i)
    decreases |hay|
  {
    if |needle| > |hay| {
    } else if hay[..|needle|] == needle {
      assert OccursAt(hay, needle, 0);
    } else {
      ContainsIff(hay[1..], needle);
      if i :| OccursAt(hay[1..], needle, i) {
        assert hay[1..][i..i + |needle|] == hay[i + 1..i + 1 + |needle|];
        assert OccursAt(hay, needle, i + 1);
      }
      if i :| OccursAt(hay, needle, i) {
        assert i != 0;
        assert hay[1..][i - 1..i - 1 + |needle|] == hay[i..i + |needle|];
        assert OccursAt(hay[1..], needle, i - 1);
      }
    }
  }

  /** Upper-casing commutes with taking a slice. */
  lemma UpperSlice(s: string, i: int, j: int)
    requires 0 <= i <= j <= |s|
    ensures Upper(s)[i..j] == Upper(s[i..j])
  {
  }

  // ---------------------------------------------------------------------
  // trim()
  // ---------------------------------------------------------------------

  /** The characters PHP's trim() strips by default: space, tab, LF, CR, NUL and vertical tab. */
  predicate IsTrimChar(c: char) {
    c == ' ' || c == '\t' || c == '\n' || c == '\r' || c == '\0' || c == '\U{B}'
  }

  function TrimStart(s: string): (r: string)
    ensures |r| <= |s| && r == s[|s| - |r|..]
    ensures |r| > 0 ==> !IsTrimChar(r[0])
    ensures forall i :: 0 <= i < |s| - |r| ==> IsTrimChar(s[i])
    decreases |s|
  {
    if |s| > 0 && IsTrimChar(s[0]) then TrimStart(s[1..]) else s
  }

  function TrimEnd(s: string): (r: string)
    ensures |r| <= |s| && r == s[..|r|]
    ensures |r| > 0 ==> !IsTrimChar(r[|r| - 1])
    ensures forall i :: |r| <= i < |s| ==> IsTrimChar(s[i])
    decreases |s|
  {
    if |s| > 0 && IsTrimChar(s[|s| - 1]) then TrimEnd(s[..|s| - 1]) else s
  }

  /** `r` sits at `i` in `s`, and everything of `s` around it is trim characters. */
  predicate TrimCut(s: string, r: string, i: int) {
    && OccursAt(s, r, i)
    && (forall k :: 0 <= k < i ==> IsTrimChar(s[k]))
    && (forall k :: i + |r| <= k < |s| ==> IsTrimChar(s[k]))
  }

  /** trim(): `s` with its leading and trailing trim characters removed. */
  function Trim(s: string): (r: string)
    ensures exists i :: TrimCut(s, r, i)
    ensures |r| > 0 ==> !IsTrimChar(r[0]) && !IsTrimChar(r[|r| - 1])
  {
    var t := TrimStart(s);
    var r := TrimEnd(t);
    var i := |s| - |t|;
    assert OccursAt(s, r, i);
    forall k | i + |r| <= k < |s|
      ensures IsTrimChar(s[k])
    {
      assert s[k] == t[k - i];
    }
    assert TrimCut(s, r, i);
    r
  }

  /**
   * trim() is the only cut of `s` that drops nothing but trim characters
   * from either end and leaves none at the ends of what remains.
   */
  lemma TrimCharacterised(s: string, r: string, i: int)
    requires TrimCut(s, r, i)
    requires |r| > 0 ==> !IsTrimChar(r[0]) && !IsTrimChar(r[|r| - 1])
    ensures Trim(s) == r
  {
    var t := Trim(s);
    var j :| TrimCut(s, t, j);
    if |r| > 0 && |t| > 0 {
      assert r[0] == s[i] && t[0] == s[j];
      assert i == j;
      assert r[|r| - 1] == s[i + |r| - 1] && t[|t| - 1] == s[j + |t| - 1];
      assert |r| == |t|;
    }
  }

  /** A string with no trim character at either end is its own trim. */
  lemma TrimmedIsFixed(s: string)
    requires |s| > 0 ==> !IsTrimChar(s[0]) && !IsTrimChar(s[|s| - 1])
    ensures Trim(s) == s
  {
  }

  lemma TrimIdempotent(s: string)
    ensures Trim(Trim(s)) == Trim(s)
  {
    TrimmedIsFixed(Trim(s));
  }

  // ---------------------------------------------------------------------
  // explode / implode
  // ---------------------------------------------------------------------

  /** explode(sep, s): the pieces of `s` between non-overlapping occurrences of `sep`, found left to right. */
  function Explode(s: string, sep: string): (r: seq<string>)
    requires |sep| > 0
    ensures |r| >= 1
    ensures |r[0]| <= |s| && r[0] == s[..|r[0]|]
    ensures forall k :: 0 <= k < |r| ==> !Contains(r[k], sep)
    decreases |s|
  {
    if |s| < |sep| then [s]
    else if s[..|sep|] == sep then [""] + Explode(s[|sep|..], sep)
    else
      var rest := Explode(s[1..], sep);
      var head := [s[0]] + rest[0];
      assert head == s[..|head|];
      assert head[1..] == rest[0];
      assert |sep| <= |head| ==> head[..|sep|] == s[..|sep|];
      [head] + rest[1..]
  }

  /** implode(sep, parts). */
  function Join(parts: seq<string>, sep: string): string
    requires |parts| >= 1
    decreases |parts|
  {
    if |parts| == 1 then parts[0] else parts[0] + sep + Join(parts[1..], sep)
  }

  lemma JoinConsHead(c: string, parts: seq<string>, sep: string)
    requires |parts| >= 1
    ensures Join([c + parts[0]] + parts[1..], sep) == c + Join(parts, sep)
  {
    var ps := [c + parts[0]] + parts[1..];
    if |parts| > 1 {
      assert ps[1..] == parts[1..];
    }
  }

  /** Imploding the exploded pieces restores the original string. */
  lemma {:induction false} JoinExplode(s: string, sep: string)
    requires |sep| > 0
    ensures Join(Explode(s, sep), sep) == s
    decreases |s|
  {
    if |s| < |sep| {
    } else if s[..|sep|] == sep {
      var rest := Explode(s[|sep|..], sep);
      JoinExplode(s[|sep|..], sep);
      assert ([""] + rest)[1..] == rest;
      assert s == "" + sep + s[|sep|..];
    } else {
      var rest := Explode(s[1..], sep);
      JoinExplode(s[1..], sep);
      JoinConsHead([s[0]], rest, sep);
      assert s == [s[0]] + s[1..];
    }
  }

  // ---------------------------------------------------------------------
  // Digit strings: is_numeric / intval on `\d` captures
  // ---------------------------------------------------------------------

  predicate IsDigit(c: char) { '0' <= c <= '9' }

  predicate AllDigits(s: string) {
    forall i :: 0 <= i < |s| ==> IsDigit(s[i])
  }

  function DigitValue(c: char): nat
    requires IsDigit(c)
  {
    c as int - '0' as int
  }

  function DigitChar(d: nat): (c: char)
    requires d < 10
    ensures IsDigit(c) && DigitValue(c) == d
  {
    ('0' as int + d) as char
  }

  /** intval() of a run of decimal digits, most significant first. */
  function DecimalValue(s: string): nat
    requires AllDigits(s)
    decreases |s|
  {
    if |s| == 0 then 0 else DecimalValue(s[..|s| - 1]) * 10 + DigitValue(s[|s| - 1])
  }

  /**
   * is_numeric() followed by intval() on a capture of `\d*`: a non-empty
   * run of digits is numeric and has its decimal value; the empty capture
   * (the group did not participate) is not numeric.
   */
  function Numeric(s: string): Option<nat> {
    if |s| > 0 && AllDigits(s) then Some(DecimalValue(s)) else None
  }

  /** Decimal rendering of a natural number, without leading zeros. */
  function Decimal(n: nat): (s: string)
    ensures |s| > 0 && AllDigits(s)
    decreases n
  {
    if n < 10 then [DigitChar(n)] else Decimal(n / 10) + [DigitChar(n % 10)]
  }

  /** Reading back a rendered number gives the number. */
  lemma {:induction false} NumericDecimal(n: nat)
    ensures Numeric(Decimal(n)) == Some(n)
    decreases n
  {
    var s := Decimal(n);
    if n >= 10 {
      NumericDecimal(n / 10);
      assert s[..|s| - 1] == Decimal(n / 10);
      assert s[|s| - 1] == DigitChar(n % 10);
      assert DecimalValue(s) == DecimalValue(Decimal(n / 10)) * 10 + n % 10;
    }
  }

  /** Leading zeros do not change the value: intval("007") is 7. */
  lemma {:induction false} LeadingZero(s: string)
    requires AllDigits(s)
    ensures AllDigits("0" + s) && DecimalValue("0" + s) == DecimalValue(s)
    decreases |s|
  {
    if |s| > 0 {
      var t := "0" + s;
      assert t[..|t| - 1] == "0" + s[..|s| - 1];
      LeadingZero(s[..|s| - 1]);
    }
  }
}
