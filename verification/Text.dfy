/** Searching, trimming and decimal numbers, as std::string and std::stoi have them. */
module Text {
  import opened Common

  /** The first position of c, or |s|. */
  function IndexOf(s: string, c: char): (i: nat)
    ensures i <= |s| && (i < |s| ==> s[i] == c) && forall k | 0 <= k < i :: s[k] != c
  {
    if s == "" || s[0] == c then 0 else 1 + IndexOf(s[1..], c)
  }

  lemma IndexOfFirst(s: string, c: char, i: nat)
    requires i <= |s| && (i < |s| ==> s[i] == c) && forall k | 0 <= k < i :: s[k] != c
    ensures IndexOf(s, c) == i
  {
  }

  // ---- decimal numbers ----

  function Digit(d: int): char
    requires 0 <= d < 10
  {
    '0' + d as char
  }

  predicate IsDigit(c: char) {
    '0' <= c <= '9'
  }

  function Digits(n: nat): string {
    if n < 10 then [Digit(n)] else Digits(n / 10) + [Digit(n % 10)]
  }

  /** std::to_string. */
  function ToString(n: int): string {
    if n < 0 then "-" + Digits(-n) else Digits(n)
  }

  /** The value of a run of digits. */
  function Value(s: string): nat
    requires forall c | c in s :: IsDigit(c)
  {
    if s == "" then 0
    else
      assert s[|s| - 1] in s && IsDigit(s[|s| - 1]);
      Value(s[..|s| - 1]) * 10 + (s[|s| - 1] as int - '0' as int)
  }

  lemma {:induction false} DigitsRoundTrip(n: nat)
    ensures Digits(n) != "" && forall c | c in Digits(n) :: IsDigit(c)
    ensures Value(Digits(n)) == n
  {
    if n >= 10 {
      DigitsRoundTrip(n / 10);
      assert Digits(n)[..|Digits(n)| - 1] == Digits(n / 10);
    } else {
      assert Digits(n)[..|Digits(n)| - 1] == "";
    }
  }

  /** Digits are written without leading zeros. */
  lemma {:induction false} NoLeadingZero(n: nat)
    ensures Digits(n) != "" && (Digits(n)[0] == '0' <==> n == 0)
  {
    if n >= 10 {
      NoLeadingZero(n / 10);
    }
  }

  /** isspace in the C locale. */
  predicate IsSpace(c: char) {
    c == ' ' || 9 <= c as int <= 13
  }

  function SkipSpaces(s: string): (r: string)
    ensures |r| <= |s| && (r != "" ==> !IsSpace(r[0]))
  {
    if s != "" && IsSpace(s[0]) then SkipSpaces(s[1..]) else s
  }

  function LeadingDigits(s: string): (r: string)
    ensures r <= s && (forall c | c in r :: IsDigit(c)) && (|r| < |s| ==> !IsDigit(s[|r|]))
  {
    if s == "" || !IsDigit(s[0]) then "" else [s[0]] + LeadingDigits(s[1..])
  }

  /** std::stoi and std::stoll: leading spaces, a sign, then as many digits as there are; no digits or a
      value outside [low, high] throws. */
  function ParseInt(s: string, low: int, high: int): Option<int> {
    var t := SkipSpaces(s);
    var negative := t != "" && t[0] == '-';
    var u := if t != "" && (t[0] == '-' || t[0] == '+') then t[1..] else t;
    var digits := LeadingDigits(u);
    if digits == "" then None
    else
      var v := if negative then -(Value(digits) as int) else Value(digits);
      if low <= v <= high then Some(v) else None
  }

  lemma {:induction false} LeadingDigitsStop(s: string, rest: string)
    requires (forall c | c in s :: IsDigit(c)) && (rest != "" ==> !IsDigit(rest[0]))
    ensures LeadingDigits(s + rest) == s
  {
    if s == "" {
      assert s + rest == rest;
    } else {
      assert s[0] in s;
      assert (s + rest)[1..] == s[1..] + rest;
      LeadingDigitsStop(s[1..], rest);
    }
  }

  lemma SignAndDigits(digits: string, rest: string)
    requires digits != "" && (forall c | c in digits :: IsDigit(c)) && (rest != "" ==> !IsDigit(rest[0]))
    ensures LeadingDigits(digits + rest) == digits
    ensures SkipSpaces(digits + rest) == digits + rest && IsDigit((digits + rest)[0])
    ensures SkipSpaces("-" + (digits + rest)) == "-" + (digits + rest)
    ensures ("-" + (digits + rest))[1..] == digits + rest
  {
    LeadingDigitsStop(digits, rest);
    assert digits[0] in digits;
  }

  /** Reading back a printed number, whatever follows it. */
  lemma ParsePrinted(n: int, rest: string, low: int, high: int)
    requires rest != "" ==> !IsDigit(rest[0])
    ensures ParseInt(ToString(n) + rest, low, high) == if low <= n <= high then Some(n) else None
  {
    var digits := Digits(if n < 0 then -n else n);
    DigitsRoundTrip(if n < 0 then -n else n);
    SignAndDigits(digits, rest);
    if n < 0 {
      Associates("-", digits, rest);
    }
  }

  lemma ParsePrintedWhole(n: int, low: int, high: int)
    ensures ParseInt(ToString(n), low, high) == if low <= n <= high then Some(n) else None
  {
    ParsePrinted(n, "", low, high);
    assert ToString(n) + "" == ToString(n);
  }

  lemma {:induction false} SpacesAreSkipped(spaces: string, s: string)
    requires (forall c | c in spaces :: IsSpace(c)) && (s == "" || !IsSpace(s[0]))
    ensures SkipSpaces(spaces + s) == s
  {
    if spaces == "" {
      assert spaces + s == s;
    } else {
      assert spaces[0] in spaces && (spaces + s)[1..] == spaces[1..] + s;
      SpacesAreSkipped(spaces[1..], s);
    }
  }

  /** Leading spaces and a plus sign do not matter, nor does what follows the digits; text that does not
      go on with a digit after them is no number. */
  lemma ParseSpelled(spaces: string, plus: string, n: nat, rest: string, low: int, high: int)
    requires (forall c | c in spaces :: IsSpace(c)) && (plus == "" || plus == "+") && (rest != "" ==> !IsDigit(rest[0]))
    ensures ParseInt(spaces + (plus + (ToString(n) + rest)), low, high) == if low <= n <= high then Some(n) else None
    ensures rest == "" || (!IsSpace(rest[0]) && rest[0] != '-' && rest[0] != '+') ==>
              ParseInt(spaces + (plus + rest), low, high) == None
  {
    DigitsRoundTrip(n);
    LeadingDigitsStop(Digits(n), rest);
    var number := Digits(n) + rest;
    assert Digits(n)[0] in Digits(n);
    assert plus == "" ==> plus + number == number;
    assert plus == "+" ==> (plus + number)[1..] == number;
    SpacesAreSkipped(spaces, plus + number);
    if rest == "" || (!IsSpace(rest[0]) && rest[0] != '-' && rest[0] != '+') {
      assert plus == "" ==> plus + rest == rest;
      assert plus == "+" ==> (plus + rest)[1..] == rest;
      SpacesAreSkipped(spaces, plus + rest);
    }
  }

  const INT_MIN: int := -0x8000_0000
  const INT_MAX: int := 0x7fff_ffff
  const LONG_MIN: int := -0x8000_0000_0000_0000
  const LONG_MAX: int := 0x7fff_ffff_ffff_ffff

  // ---- searching for a string ----

  predicate At(s: string, i: nat, pat: string) {
    i + |pat| <= |s| && s[i..i + |pat|] == pat
  }

  /** std::string::find: the first occurrence. */
  function Find(s: string, pat: string): (r: Option<nat>)
    ensures r.Some? ==> r.value + |pat| <= |s|
  {
    if At(s, 0, pat) then Some(0)
    else if s == "" then None
    else match Find(s[1..], pat) case Some(i) => Some(i + 1) case None => None
  }

  lemma ShiftedSlice(s: string, k: nat, n: nat)
    requires 0 < k && k + n <= |s|
    ensures s[1..][k - 1..k - 1 + n] == s[k..k + n]
  {
  }

  lemma SliceOfSlice(s: string, i: nat, j: nat)
    requires i <= |s| && j <= |s| - i
    ensures s[i..][j..] == s[i + j..]
  {
  }

  lemma {:induction false} FindIsFirst(s: string, pat: string)
    ensures Find(s, pat).Some? ==> At(s, Find(s, pat).value, pat) && forall k: nat | k < Find(s, pat).value :: !At(s, k, pat)
    ensures Find(s, pat).None? ==> forall k: nat :: !At(s, k, pat)
  {
    if !At(s, 0, pat) && s != "" {
      FindIsFirst(s[1..], pat);
      forall k: nat | 0 < k && k + |pat| <= |s| ensures At(s, k, pat) == At(s[1..], k - 1, pat) {
        ShiftedSlice(s, k, |pat|);
      }
    }
  }

  lemma FoundAt(s: string, pat: string, i: nat)
    requires At(s, i, pat) && forall k: nat | k < i :: !At(s, k, pat)
    ensures Find(s, pat) == Some(i)
  {
    FindIsFirst(s, pat);
  }

  lemma FoundNowhere(s: string, pat: string)
    requires forall k: nat :: !At(s, k, pat)
    ensures Find(s, pat) == None
  {
    FindIsFirst(s, pat);
  }

  /** A prefix shows the first occurrence exactly when it is long enough to hold it. */
  lemma FindInPrefix(s: string, p: string, pat: string, i: nat)
    requires p <= s && Find(s, pat) == Some(i)
    ensures Find(p, pat) == if i + |pat| <= |p| then Some(i) else None
  {
    FindIsFirst(s, pat);
    forall k: nat ensures At(p, k, pat) <==> At(s, k, pat) && k + |pat| <= |p| {
      if k + |pat| <= |p| {
        assert p[k..k + |pat|] == s[k..k + |pat|];
      }
    }
    if i + |pat| <= |p| {
      FoundAt(p, pat, i);
    } else {
      FoundNowhere(p, pat);
    }
  }

  lemma Associates(a: string, b: string, c: string)
    ensures a + (b + c) == a + b + c
  {
  }
}
