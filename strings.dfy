/** The parts of the C++ string library the server relies on: searching
    (find, rfind, find_last_of, find_first_not_of), clamped substr,
    std::to_string, and the strtol/strtoull scanning behind std::stoi,
    std::stol and std::stoull.  Strings are sequences of char; the
    server only ever handles ASCII text, so no encoding is modelled. */
module Strings {
  import opened Wrappers

  /** isspace() in the "C" locale. */
  predicate IsSpace(c: char)
  {
    c == ' ' || c == '\t' || c == '\n' || c == '\U{B}' || c == '\U{C}' || c == '\r'
  }

  predicate IsDigit(c: char)
  {
    '0' <= c <= '9'
  }

  predicate StartsWith(s: string, p: string)
  {
    |p| <= |s| && s[..|p|] == p
  }

  predicate EndsWith(s: string, p: string)
  {
    |p| <= |s| && s[|s| - |p|..] == p
  }

  /** The pattern p occurs in s starting at index i. */
  predicate OccursAt(s: string, p: string, i: nat)
  {
    i + |p| <= |s| && s[i..i + |p|] == p
  }

  predicate Contains(s: string, p: string)
  {
    exists i :: 0 <= i <= |s| && OccursAt(s, p, i)
  }

  /** front() == c, reading an empty string as "not c". */
  predicate FrontIs(s: string, c: char)
  {
    |s| > 0 && s[0] == c
  }

  /** back() == c, reading an empty string as "not c". */
  predicate BackIs(s: string, c: char)
  {
    |s| > 0 && s[|s| - 1] == c
  }

  lemma ConcatAssoc(x: string, y: string, z: string)
    ensures (x + y) + z == x + (y + z)
  {
  }

  /** std::string::find(c, from): the first index at or after from holding c. */
  function FindChar(s: string, c: char, from: nat): (r: Option<nat>)
    ensures r.Some? ==> from <= r.value < |s| && s[r.value] == c
    ensures r.Some? ==> forall i :: from <= i < r.value ==> s[i] != c
    ensures r.None? ==> forall i :: from <= i < |s| ==> s[i] != c
    decreases |s| - from
  {
    if from >= |s| then None
    else if s[from] == c then Some(from)
    else FindChar(s, c, from + 1)
  }

  /** std::string::rfind(c) and find_last_of(c): the last index holding c. */
  function RFindChar(s: string, c: char): (r: Option<nat>)
    ensures r.Some? ==> r.value < |s| && s[r.value] == c
    ensures r.Some? ==> forall i :: r.value < i < |s| ==> s[i] != c
    ensures r.None? ==> forall i :: 0 <= i < |s| ==> s[i] != c
  {
    if |s| == 0 then None
    else if s[|s| - 1] == c then Some(|s| - 1)
    else RFindChar(s[..|s| - 1], c)
  }

  /** std::string::find(p, from): the first occurrence of p at or after from. */
  function FindFrom(s: string, p: string, from: nat): (r: Option<nat>)
    ensures r.Some? ==> from <= r.value && OccursAt(s, p, r.value)
    ensures r.Some? ==> forall i: nat :: from <= i < r.value ==> !OccursAt(s, p, i)
    ensures r.None? ==> forall i: nat :: from <= i ==> !OccursAt(s, p, i)
    decreases |s| - from
  {
    if from + |p| > |s| then None
    else if s[from..from + |p|] == p then Some(from)
    else FindFrom(s, p, from + 1)
  }

  function Find(s: string, p: string): (r: Option<nat>)
    ensures r.Some? ==> OccursAt(s, p, r.value)
    ensures r.Some? ==> forall i: nat :: i < r.value ==> !OccursAt(s, p, i)
    ensures r.None? <==> !Contains(s, p)
  {
    FindFrom(s, p, 0)
  }

  /** find_first_not_of(" \t") from index i: the first index that is neither. */
  function FirstNotBlank(s: string, i: nat): (r: Option<nat>)
    ensures r.Some? ==> i <= r.value < |s| && s[r.value] != ' ' && s[r.value] != '\t'
    ensures r.Some? ==> forall k :: i <= k < r.value ==> s[k] == ' ' || s[k] == '\t'
    ensures r.None? ==> forall k :: i <= k < |s| ==> s[k] == ' ' || s[k] == '\t'
    decreases |s| - i
  {
    if i >= |s| then None
    else if s[i] != ' ' && s[i] != '\t' then Some(i)
    else FirstNotBlank(s, i + 1)
  }

  /** std::string::substr(pos, n): the count is clamped to the end of s. */
  function Substr(s: string, pos: nat, n: nat): (r: string)
    requires pos <= |s|
    ensures |r| <= n && pos + |r| <= |s| && s[pos..] == r + s[pos + |r|..]
    ensures |r| == n || pos + |r| == |s|
  {
    if pos + n <= |s| then s[pos..pos + n] else s[pos..]
  }

  /** toupper() in the "C" locale. */
  function ToUpper(c: char): (r: char)
    ensures 'a' <= c <= 'z' ==> 'A' <= r <= 'Z' && r as int == c as int - 32
    ensures !('a' <= c <= 'z') ==> r == c
  {
    if 'a' <= c <= 'z' then (c as int - 32) as char else c
  }

  // ---------------------------------------------------------------------
  // Decimal numbers

  predicate AllDigits(s: string)
  {
    forall i :: 0 <= i < |s| ==> IsDigit(s[i])
  }

  function DigitValue(c: char): (d: nat)
    requires IsDigit(c)
    ensures d < 10
  {
    c as int - '0' as int
  }

  function DigitChar(d: nat): (c: char)
    requires d < 10
    ensures IsDigit(c) && DigitValue(c) == d
  {
    ('0' as int + d) as char
  }

  /** The value of a string of decimal digits, most significant first. */
  function DigitsValue(s: string): nat
    requires AllDigits(s)
    decreases |s|
  {
    if s == [] then 0 else 10 * DigitsValue(s[..|s| - 1]) + DigitValue(s[|s| - 1])
  }

  function Pow10(k: nat): (r: nat)
    ensures r >= 1
  {
    if k == 0 then 1 else 10 * Pow10(k - 1)
  }

  /** k decimal digits denote less than 10^k. */
  lemma {:induction false} DigitsValueBound(s: string)
    requires AllDigits(s)
    ensures DigitsValue(s) < Pow10(|s|)
    decreases |s|
  {
    if s != [] {
      DigitsValueBound(s[..|s| - 1]);
    }
  }

  /** std::to_string for an unsigned value. */
  function NatToString(n: nat): (s: string)
    ensures |s| > 0 && AllDigits(s)
    decreases n
  {
    if n < 10 then [DigitChar(n)] else NatToString(n / 10) + [DigitChar(n % 10)]
  }

  /** std::to_string for a signed value: the digits of its magnitude, behind
      a '-' when it is negative. */
  function IntToString(i: int): (s: string)
    ensures i >= 0 ==> AllDigits(s) && DigitsValue(s) == i
    ensures i < 0 ==> |s| > 1 && s[0] == '-' && AllDigits(s[1..]) && DigitsValue(s[1..]) == -i
  {
    if i < 0 then
      NatToStringRoundTrip(-i);
      assert ("-" + NatToString(-i))[1..] == NatToString(-i);
      "-" + NatToString(-i)
    else
      NatToStringRoundTrip(i);
      NatToString(i)
  }

  /** A value that is not negative prints as its digits alone. */
  lemma IntToStringOfNat(n: nat)
    ensures IntToString(n) == NatToString(n)
  {
  }

  /** Reading back the decimal text of n gives n. */
  lemma {:induction false} NatToStringRoundTrip(n: nat)
    ensures DigitsValue(NatToString(n)) == n
    decreases n
  {
    if n >= 10 {
      NatToStringRoundTrip(n / 10);
      var s := NatToString(n);
      assert s[..|s| - 1] == NatToString(n / 10);
    }
  }

  // ---------------------------------------------------------------------
  // strtol / strtoull scanning: leading white space, an optional sign,
  // then the longest run of decimal digits (base 10 only).

  /** The first index at or after i that is not white space. */
  function SkipSpaces(s: string, i: nat): (j: nat)
    requires i <= |s|
    ensures i <= j <= |s|
    ensures forall k :: i <= k < j ==> IsSpace(s[k])
    ensures j < |s| ==> !IsSpace(s[j])
    decreases |s| - i
  {
    if i == |s| || !IsSpace(s[i]) then i else SkipSpaces(s, i + 1)
  }

  /** The end of the run of digits starting at i. */
  function DigitRunEnd(s: string, i: nat): (j: nat)
    requires i <= |s|
    ensures i <= j <= |s|
    ensures AllDigits(s[i..j])
    ensures j < |s| ==> !IsDigit(s[j])
    decreases |s| - i
  {
    if i == |s| || !IsDigit(s[i]) then i else DigitRunEnd(s, i + 1)
  }

  /** Where a number starts and ends in s: digits at s[start..end], possibly none. */
  datatype Scan = Scan(negative: bool, start: nat, end: nat)

  function ScanInteger(s: string, from: nat): (r: Scan)
    requires from <= |s|
    ensures from <= r.start <= r.end <= |s|
    ensures AllDigits(s[r.start..r.end])
    ensures r.end < |s| ==> !IsDigit(s[r.end])
  {
    var i := SkipSpaces(s, from);
    var j := if i < |s| && (s[i] == '-' || s[i] == '+') then i + 1 else i;
    Scan(i < |s| && s[i] == '-', j, DigitRunEnd(s, j))
  }

  /** The magnitude of the digits a scan found. */
  function ScanMagnitude(s: string, r: Scan): nat
    requires r.start <= r.end <= |s| && AllDigits(s[r.start..r.end])
  {
    DigitsValue(s[r.start..r.end])
  }

  /** The outcome of std::stoi / std::stol / std::stoull: a value or one of
      the two exceptions they throw. */
  datatype Conversion = Converted(value: int) | InvalidArgument | OutOfRange

  const ULLONG_MAX: nat := 0xFFFF_FFFF_FFFF_FFFF
  const LONG_MAX: int := 0x7FFF_FFFF_FFFF_FFFF
  const INT_MAX: int := 0x7FFF_FFFF

  /** std::stoull: strtoull negates a '-' value modulo 2^64; a magnitude
      beyond 2^64 - 1 is out of range. */
  function Stoull(s: string): (r: Conversion)
    ensures r.Converted? ==> 0 <= r.value <= ULLONG_MAX
  {
    var sc := ScanInteger(s, 0);
    if sc.start == sc.end then InvalidArgument
    else
      var m := ScanMagnitude(s, sc);
      if m > ULLONG_MAX then OutOfRange
      else if sc.negative && m > 0 then Converted(ULLONG_MAX + 1 - m)
      else Converted(m)
  }

  /** A signed conversion into [-max - 1, max]. */
  function SignedConversion(s: string, max: int): (r: Conversion)
    ensures r.Converted? ==> -max - 1 <= r.value <= max
  {
    var sc := ScanInteger(s, 0);
    if sc.start == sc.end then InvalidArgument
    else
      var m: int := ScanMagnitude(s, sc);
      var v: int := if sc.negative then -m else m;
      if v < -max - 1 || v > max then OutOfRange else Converted(v)
  }

  /** std::stol on a 64-bit long. */
  function Stol(s: string): Conversion
  {
    SignedConversion(s, LONG_MAX)
  }

  /** std::stoi on a 32-bit int. */
  function Stoi(s: string): Conversion
  {
    SignedConversion(s, INT_MAX)
  }

  /** A scan over digits followed by a non-digit reads exactly those digits. */
  lemma ScanOfDigits(d: string, rest: string)
    requires d != [] && AllDigits(d)
    requires rest == [] || !IsDigit(rest[0])
    ensures ScanInteger(d + rest, 0) == Scan(false, 0, |d|)
    ensures (d + rest)[0..|d|] == d
  {
    var s := d + rest;
    assert !IsSpace(s[0]) && s[0] != '-' && s[0] != '+';
    assert forall k :: 0 <= k < |d| ==> IsDigit(s[k]);
    assert |d| < |s| ==> !IsDigit(s[|d|]);
    var e := DigitRunEnd(s, 0);
    assert forall k :: 0 <= k < e ==> IsDigit(s[0..e][k]);
  }

  /** std::stoull reads back std::to_string of any unsigned 64-bit value. */
  lemma StoullOfDecimal(n: nat, rest: string)
    requires n <= ULLONG_MAX
    requires rest == [] || !IsDigit(rest[0])
    ensures Stoull(NatToString(n) + rest) == Converted(n)
  {
    ScanOfDigits(NatToString(n), rest);
    NatToStringRoundTrip(n);
  }

  /** std::stoi reads back std::to_string of any non-negative int. */
  lemma StoiOfDecimal(n: nat, rest: string)
    requires n <= INT_MAX
    requires rest == [] || !IsDigit(rest[0])
    ensures Stoi(NatToString(n) + rest) == Converted(n)
  {
    ScanOfDigits(NatToString(n), rest);
    NatToStringRoundTrip(n);
  }

  /** std::stol reads back std::to_string of any non-negative long. */
  lemma StolOfDecimal(n: nat, rest: string)
    requires n <= LONG_MAX
    requires rest == [] || !IsDigit(rest[0])
    ensures Stol(NatToString(n) + rest) == Converted(n)
  {
    ScanOfDigits(NatToString(n), rest);
    NatToStringRoundTrip(n);
  }
}
