/** The parts of Go's `fmt`, `strconv` and `strings` that the annotation and profile formats rest on. */
module Text {

  datatype Option<+T> = None | Some(value: T)

  // ----- decimal numbers -----

  const MAX_INT: int := 0x7fff_ffff_ffff_ffff
  const MIN_INT: int := -0x8000_0000_0000_0000

  /** Values of Go's `int` on 64-bit platforms. */
  predicate IsInt(n: int) {
    MIN_INT <= n <= MAX_INT
  }

  predicate IsDigit(c: char) {
    '0' <= c <= '9'
  }

  function DigitChar(d: nat): (c: char)
    requires d < 10
    ensures IsDigit(c) && c as int - '0' as int == d
  {
    ('0' as int + d) as char
  }

  function Digits(n: nat): (s: string)
    ensures s != "" && forall i | 0 <= i < |s| :: IsDigit(s[i])
  {
    if n < 10 then [DigitChar(n)] else Digits(n / 10) + [DigitChar(n % 10)]
  }

  /** `%d`. */
  function Itoa(n: int): (s: string)
    ensures s != ""
  {
    if n < 0 then "-" + Digits(-n) else Digits(n)
  }

  /** Decimal notation, digit by digit. */
  lemma DecimalNotation(n: int, d: int)
    requires n >= 0 && 0 <= d < 10
    ensures Itoa(d) == [('0' as int + d) as char]
    ensures n > 0 ==> Itoa(10 * n + d) == Itoa(n) + [('0' as int + d) as char] && Itoa(-n) == "-" + Itoa(n)
  {
    assert (10 * n + d) / 10 == n && (10 * n + d) % 10 == d;
  }

  function DigitsValue(s: string): (n: int)
    requires forall i | 0 <= i < |s| :: IsDigit(s[i])
    ensures n >= 0
  {
    if s == "" then 0 else
      assert IsDigit(s[|s| - 1]);
      10 * DigitsValue(s[..|s| - 1]) + (s[|s| - 1] as int - '0' as int)
  }

  predicate AllDigits(s: string) {
    s != "" && forall i | 0 <= i < |s| :: IsDigit(s[i])
  }

  /** `strconv.Atoi`: an optional sign, at least one digit, nothing else, and in range. */
  function Atoi(s: string): (r: Option<int>)
    ensures r.Some? ==> IsInt(r.value)
  {
    var body := if s != "" && (s[0] == '-' || s[0] == '+') then s[1..] else s;
    if !AllDigits(body) then None else
      var n := if s[0] == '-' then -DigitsValue(body) else DigitsValue(body);
      if IsInt(n) then Some(n) else None
  }

  lemma {:induction false} DigitsRoundTrip(n: nat)
    ensures DigitsValue(Digits(n)) == n
  {
    if n >= 10 {
      DigitsRoundTrip(n / 10);
      assert Digits(n)[..|Digits(n)| - 1] == Digits(n / 10);
    } else {
      assert Digits(n)[..0] == "";
    }
  }

  /** Every int that is printed is read back. */
  lemma AtoiItoa(n: int)
    requires IsInt(n)
    ensures Atoi(Itoa(n)) == Some(n)
  {
    DigitsRoundTrip(if n < 0 then -n else n);
    hide Digits, DigitsValue;
    if n < 0 {
      assert Itoa(n)[1..] == Digits(-n);
    } else {
      assert IsDigit(Digits(n)[0]);
    }
  }

  lemma ItoaHasNoDash(n: int)
    requires n >= 0
    ensures '-' !in Itoa(n)
  {
  }

  // ----- strings -----

  predicate HasPrefix(s: string, prefix: string) {
    prefix <= s
  }

  function TrimPrefix(s: string, prefix: string): string {
    if prefix <= s then s[|prefix|..] else s
  }

  function TrimSuffix(s: string, suffix: string): string {
    if |suffix| <= |s| && s[|s| - |suffix|..] == suffix then s[..|s| - |suffix|] else s
  }

  function ToLower(s: string): (r: string)
    ensures |r| == |s|
  {
    seq(|s|, i requires 0 <= i < |s| => if 'A' <= s[i] <= 'Z' then (s[i] as int + 32) as char else s[i])
  }

  /** `strings.Split(s, "-")`. */
  function SplitDash(s: string): (parts: seq<string>)
    ensures parts != []
  {
    if s == "" then [""] else
      var rest := SplitDash(s[1..]);
      if s[0] == '-' then [""] + rest else [[s[0]] + rest[0]] + rest[1..]
  }

  lemma {:induction false} SplitWhole(a: string)
    requires '-' !in a
    ensures SplitDash(a) == [a]
  {
    if a != "" {
      SplitWhole(a[1..]);
      assert a == [a[0]] + a[1..];
    }
  }

  lemma {:induction false} SplitFirst(a: string, b: string)
    requires '-' !in a
    ensures SplitDash(a + "-" + b) == [a] + SplitDash(b)
  {
    if a == "" {
      assert a + "-" + b == "-" + b;
    } else {
      SplitFirst(a[1..], b);
      assert (a + "-" + b)[1..] == a[1..] + "-" + b;
      assert a == [a[0]] + a[1..];
    }
  }

  lemma DashAt(u: string, a: string, i: int)
    requires '-' !in u && 0 <= i < |u|
    ensures (u + "-" + a)[i] != '-'
  {
    assert (u + "-" + a)[i] == u[i] && u[i] in u;
  }

  /** A string is cut at its first dash in one way only. */
  lemma FirstDash(u: string, a: string, v: string, b: string)
    requires '-' !in u && '-' !in v && u + "-" + a == v + "-" + b
    ensures u == v && a == b
  {
    var x, y := u + "-" + a, v + "-" + b;
    assert x[|u|] == '-' && y[|v|] == '-';
    if |u| < |v| {
      DashAt(v, b, |u|);
      assert false;
    }
    if |v| < |u| {
      DashAt(u, a, |v|);
      assert false;
    }
    assert x[..|u|] == u && y[..|v|] == v;
    assert x[|u| + 1..] == a && y[|v| + 1..] == b;
  }

  lemma UnsignedInjective(m: nat, a: string, n: nat, b: string)
    requires Digits(m) + "-" + a == Digits(n) + "-" + b
    ensures m == n && a == b
  {
    DigitsRoundTrip(m);
    DigitsRoundTrip(n);
    hide Digits, DigitsValue;
    FirstDash(Digits(m), a, Digits(n), b);
  }

  lemma DropSign(u: string, a: string)
    ensures (("-" + u) + "-" + a)[1..] == u + "-" + a
  {
  }

  /** "%d-%s" tells its two arguments apart, for every int and every string. */
  lemma IndexedNameInjective(i: int, a: string, j: int, b: string)
    requires Itoa(i) + "-" + a == Itoa(j) + "-" + b
    ensures i == j && a == b
  {
    hide Digits;
    SignIsSame(i, a, j, b);
    if i < 0 {
      DropSign(Digits(-i), a);
      DropSign(Digits(-j), b);
      UnsignedInjective(-i, a, -j, b);
    } else {
      UnsignedInjective(i, a, j, b);
    }
  }

  lemma SignIsSame(i: int, a: string, j: int, b: string)
    requires Itoa(i) + "-" + a == Itoa(j) + "-" + b
    ensures i < 0 <==> j < 0
  {
    assert (Itoa(i) + "-" + a)[0] == Itoa(i)[0] && (Itoa(j) + "-" + b)[0] == Itoa(j)[0];
    assert i >= 0 ==> IsDigit(Itoa(i)[0]);
    assert j >= 0 ==> IsDigit(Itoa(j)[0]);
  }

  /** A sign and leading zeros are accepted; an empty text and other characters are not. Numbers have 64 bits. */
  lemma AtoiCases()
    ensures Atoi("+7") == Some(7) && Atoi("-7") == Some(-7) && Atoi("07") == Some(7)
    ensures Atoi("").None? && Atoi("-").None? && Atoi("7a").None?
    ensures IsInt(9223372036854775807) && !IsInt(9223372036854775808)
    ensures IsInt(-9223372036854775808) && !IsInt(-9223372036854775809)
  {
  }

  /** `a < b` on Go strings. */
  predicate StringLess(a: string, b: string) {
    if b == "" then false
    else if a == "" then true
    else if a[0] != b[0] then a[0] < b[0]
    else StringLess(a[1..], b[1..])
  }

  /** A string comes before its extensions, and otherwise the first difference decides. */
  lemma {:induction false} StringLessMeans(common: string, a: string, b: string)
    ensures StringLess(common + a, common + b) <==> (a == "" && b != "") || (a != "" && b != "" && StringLess(a, b))
    ensures a != "" && b != "" && a[0] != b[0] ==> (StringLess(common + a, common + b) <==> a[0] < b[0])
  {
    if common == "" {
      assert common + a == a && common + b == b;
    } else {
      var rest := common[1..];
      assert (common + a)[1..] == rest + a && (common + b)[1..] == rest + b;
      StringLessMeans(rest, a, b);
    }
  }

  lemma {:induction false} StringLessOrder(a: string, b: string, c: string)
    ensures StringLess(a, b) ==> !StringLess(b, a)
    ensures !StringLess(b, a) && !StringLess(c, b) ==> !StringLess(c, a)
    ensures !StringLess(a, b) && !StringLess(b, a) ==> a == b
  {
    if a != "" && b != "" && a[0] == b[0] {
      StringLessOrder(a[1..], b[1..], if c == "" then "" else c[1..]);
      assert a == [a[0]] + a[1..] && b == [b[0]] + b[1..];
    }
  }
}
