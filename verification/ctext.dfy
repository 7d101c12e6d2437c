/** The pieces of the C and C++ libraries that the rating store leans on,
    stated over Dafny strings: C `int`, NUL-terminated strings, the
    `std::string` searches, `%d` formatting and `>>` extraction of an `int`
    from a stream. Characters stand for the bytes of the C++ program. */
module CText {

  datatype Option<T> = None | Some(value: T)

  const INT32_MIN: int := -0x8000_0000
  const INT32_MAX: int := 0x7fff_ffff

  /** A C `int`. Signed overflow is undefined in C++, so an operation that
      could overflow carries a precondition rather than a wrap-around. */
  type Int32 = x: int | INT32_MIN <= x <= INT32_MAX

  /** The characters of a NUL-terminated C string. */
  type CString = s: string | '\0' !in s

  /** `std::string(buf)` built from a character buffer: everything before the
      first NUL. */
  function CStr(s: string): (r: CString)
    ensures r <= s
    ensures |r| < |s| ==> s[|r|] == '\0'
    ensures '\0' !in s ==> r == s
  {
    if s == [] || s[0] == '\0' then [] else [s[0]] + CStr(s[1..])
  }

  /** `s.find_first_of(c)`: the first position holding c, None for `npos`. */
  function FindFirst(s: string, c: char): (r: Option<nat>)
    ensures r.Some? ==> r.value < |s| && s[r.value] == c && c !in s[..r.value]
    ensures r.None? ==> c !in s
  {
    if s == [] then None
    else if s[0] == c then Some(0)
    else match FindFirst(s[1..], c)
      case None => None
      case Some(i) =>
        assert s[..i + 1] == [s[0]] + s[1..][..i];
        Some(i + 1)
  }

  /** `s.find_last_of(c)`: the last position holding c, None for `npos`. */
  function FindLast(s: string, c: char): (r: Option<nat>)
    ensures r.Some? ==> r.value < |s| && s[r.value] == c && c !in s[r.value + 1..]
    ensures r.None? ==> c !in s
  {
    if s == [] then None
    else if s[|s| - 1] == c then Some(|s| - 1)
    else
      assert s == s[..|s| - 1] + [s[|s| - 1]];
      match FindLast(s[..|s| - 1], c)
      case None => None
      case Some(i) =>
        assert s[i + 1..] == s[..|s| - 1][i + 1..] + [s[|s| - 1]];
        Some(i)
  }

  /** The position of the first c is the one that holds c with no c before it. */
  lemma FirstAt(s: string, c: char, i: nat)
    requires i < |s| && s[i] == c
    requires forall k :: 0 <= k < i ==> s[k] != c
    ensures FindFirst(s, c) == Some(i)
  {
    var r := FindFirst(s, c);
    assert c in s by { assert s[i] == c; }
  }

  /** The position of the last c is the one that holds c with no c after it. */
  lemma LastAt(s: string, c: char, i: nat)
    requires i < |s| && s[i] == c
    requires forall k :: i < k < |s| ==> s[k] != c
    ensures FindLast(s, c) == Some(i)
  {
    assert c in s by { assert s[i] == c; }
  }

  predicate IsDigit(c: char) { '0' <= c <= '9' }

  /** The white space `>>` skips before a number (`isspace` in the C locale). */
  predicate IsSpace(c: char) { c == ' ' || '\t' <= c <= '\r' }

  predicate AllDigits(s: string) { forall i :: 0 <= i < |s| ==> IsDigit(s[i]) }

  function DigitChar(d: int): (c: char)
    requires 0 <= d <= 9
    ensures IsDigit(c)
  {
    (48 + d) as char
  }

  /** The decimal digits of n, as `%d` prints a non-negative number. */
  function NatToDec(n: nat): (s: string)
    ensures |s| >= 1
    decreases n
  {
    if n < 10 then [DigitChar(n)] else NatToDec(n / 10) + [DigitChar(n % 10)]
  }

  /** `%d`: a minus sign for a negative number, then its digits. */
  function IntToDec(n: int): (s: string)
    ensures |s| >= 1
    ensures 0 <= n ==> s == NatToDec(n)
  {
    if n < 0 then "-" + NatToDec(-n) else NatToDec(n)
  }

  /** `%d` of a non-negative number prints only digits. */
  lemma {:induction false} NatToDecDigits(n: nat)
    ensures AllDigits(NatToDec(n))
    decreases n
  {
    if n >= 10 {
      NatToDecDigits(n / 10);
      var s := NatToDec(n);
      assert s == NatToDec(n / 10) + [DigitChar(n % 10)];
      forall k | 0 <= k < |s| ensures IsDigit(s[k]) {
        if k < |s| - 1 {
          assert s[k] == NatToDec(n / 10)[k];
        }
      }
    }
  }

  /** `%d` of a negative number is a minus sign followed by the digits of
      its magnitude. */
  lemma IntToDecNegative(n: int)
    requires n < 0
    ensures IntToDec(n)[0] == '-'
    ensures AllDigits(IntToDec(n)[1..]) && DecValue(IntToDec(n)[1..]) == -n
  {
    DecValueOfNatToDec(-n);
    assert IntToDec(n)[1..] == NatToDec(-n);
  }

  /** `%d` prints digits, after a minus sign for a negative number. */
  lemma IntToDecDigits(n: int)
    ensures forall i :: 0 <= i < |IntToDec(n)| ==>
              IsDigit(IntToDec(n)[i]) || (i == 0 && n < 0 && IntToDec(n)[i] == '-')
  {
    if n < 0 {
      NatToDecDigits(-n);
      var s := IntToDec(n);
      assert s == "-" + NatToDec(-n);
      forall i | 1 <= i < |s| ensures IsDigit(s[i]) {
        assert s[i] == NatToDec(-n)[i - 1];
      }
    } else {
      NatToDecDigits(n);
    }
  }

  /** The number a run of decimal digits denotes. */
  function DecValue(s: string): nat
    requires AllDigits(s)
  {
    if s == [] then 0
    else DecValue(s[..|s| - 1]) * 10 + (s[|s| - 1] as int - 48)
  }

  /** Reading back what `%d` printed gives the number again. */
  lemma {:induction false} DecValueOfNatToDec(n: nat)
    ensures AllDigits(NatToDec(n)) && DecValue(NatToDec(n)) == n
    decreases n
  {
    NatToDecDigits(n);
    if n >= 10 {
      var s := NatToDec(n);
      assert s[..|s| - 1] == NatToDec(n / 10);
      DecValueOfNatToDec(n / 10);
    }
  }

  /** The first position at or after i that is not white space. */
  function SkipSpace(s: string, i: nat): (j: nat)
    requires i <= |s|
    ensures i <= j <= |s|
    ensures forall k :: i <= k < j ==> IsSpace(s[k])
    ensures j < |s| ==> !IsSpace(s[j])
    decreases |s| - i
  {
    if i < |s| && IsSpace(s[i]) then SkipSpace(s, i + 1) else i
  }

  /** The end of the run of digits that starts at i. */
  function DigitsEnd(s: string, i: nat): (j: nat)
    requires i <= |s|
    ensures i <= j <= |s|
    ensures forall k :: i <= k < j ==> IsDigit(s[k])
    ensures j < |s| ==> !IsDigit(s[j])
    decreases |s| - i
  {
    if i < |s| && IsDigit(s[i]) then DigitsEnd(s, i + 1) else i
  }

  /** `stream >> n` for an `int` n, reading from position i: white space is
      skipped, an optional sign and at least one digit are read, and reading
      stops at the first character that is not a digit. Yields the number and
      the position after it, or None where the extraction fails (no digit,
      or a value that does not fit an `int`). */
  function ScanInt(s: string, i: nat): (r: Option<(Int32, nat)>)
    requires i <= |s|
    ensures r.Some? ==> i < r.value.1 <= |s| && IsDigit(s[r.value.1 - 1])
    ensures r.Some? ==> r.value.1 == |s| || !IsDigit(s[r.value.1])
  {
    var j := SkipSpace(s, i);
    var signed := j < |s| && (s[j] == '-' || s[j] == '+');
    var k := if signed then j + 1 else j;
    var e := DigitsEnd(s, k);
    assert AllDigits(s[k..e]);
    var magnitude: int := DecValue(s[k..e]);
    var v: int := if signed && s[j] == '-' then -magnitude else magnitude;
    if e == k || v < INT32_MIN || v > INT32_MAX then None else Some((v, e))
  }

  /** White space skipping stops at the first character that is not white
      space. */
  lemma {:induction false} SkipSpaceTo(s: string, i: nat, j: nat)
    requires i <= j < |s| && !IsSpace(s[j])
    requires forall k :: i <= k < j ==> IsSpace(s[k])
    ensures SkipSpace(s, i) == j
    decreases j - i
  {
    if i < j {
      SkipSpaceTo(s, i + 1, j);
    }
  }

  /** A run of digits ends at the first character that is not a digit. */
  lemma {:induction false} DigitsEndAt(s: string, j: nat, e: nat)
    requires j <= e <= |s| && (e == |s| || !IsDigit(s[e]))
    requires forall k :: j <= k < e ==> IsDigit(s[k])
    ensures DigitsEnd(s, j) == e
    decreases e - j
  {
    if j < e {
      DigitsEndAt(s, j + 1, e);
    }
  }

  /** A slice holding only digits puts a digit at each of its positions. */
  lemma SliceDigits(s: string, j: nat, d: string)
    requires j + |d| <= |s| && s[j..j + |d|] == d && AllDigits(d)
    ensures forall k :: j <= k < j + |d| ==> IsDigit(s[k])
  {
    forall k | j <= k < j + |d| ensures IsDigit(s[k]) {
      assert s[k] == d[k - j];
    }
  }

  /** Extraction from i when the white space ends at j and is followed by
      the digits d, denoting v, and then by no further digit. */
  lemma ScanDigits(s: string, i: nat, j: nat, d: string, v: nat)
    requires i <= j && j + |d| <= |s| && |d| >= 1
    requires forall k :: i <= k < j ==> IsSpace(s[k])
    requires s[j..j + |d|] == d && AllDigits(d) && DecValue(d) == v && v <= INT32_MAX
    requires j + |d| < |s| ==> !IsDigit(s[j + |d|])
    ensures ScanInt(s, i) == Some((v, j + |d|))
  {
    var e := j + |d|;
    SliceDigits(s, j, d);
    assert IsDigit(s[j]);
    SkipSpaceTo(s, i, j);
    DigitsEndAt(s, j, e);
    assert s[j..e] == d;
    ScanUnsigned(s, i, j, e);
  }

  /** Extraction from i when the white space ends at j and the digits, with
      no sign in front, run from j to e. */
  lemma ScanUnsigned(s: string, i: nat, j: nat, e: nat)
    requires i <= j < e <= |s| && IsDigit(s[j])
    requires SkipSpace(s, i) == j && DigitsEnd(s, j) == e
    requires AllDigits(s[j..e]) && DecValue(s[j..e]) <= INT32_MAX
    ensures ScanInt(s, i) == Some((DecValue(s[j..e]), e))
  {
  }

  /** Extraction reads back a number that `%d` printed, after any white
      space and when what follows it is not a digit. */
  lemma ScanNatToDec(s: string, i: nat, j: nat, n: nat)
    requires n <= INT32_MAX
    requires i <= j && j + |NatToDec(n)| <= |s|
    requires forall k :: i <= k < j ==> IsSpace(s[k])
    requires s[j..j + |NatToDec(n)|] == NatToDec(n)
    requires j + |NatToDec(n)| < |s| ==> !IsDigit(s[j + |NatToDec(n)|])
    ensures ScanInt(s, i) == Some((n, j + |NatToDec(n)|))
  {
    DecValueOfNatToDec(n);
    ScanDigits(s, i, j, NatToDec(n), n);
  }
}
