/** C strings, the formatted-print truncation and decimal numbers, as the server's C library calls see them. */
module Text {

  datatype Option<+T> = None | Some(value: T)

  /** snprintf(buffer, size, ...): the buffer keeps at most `size - 1` characters of the formatted text. */
  function Snprintf(size: nat, s: string): (r: string)
    requires size > 0
    ensures r <= s && |r| < size
    ensures r == s <==> |s| < size
    ensures |s| >= size ==> |r| == size - 1
  {
    if |s| < size then s else s[..size - 1]
  }

  predicate IsDigit(c: char) {
    '0' <= c <= '9'
  }

  predicate AllDigits(s: string) {
    forall i :: 0 <= i < |s| ==> IsDigit(s[i])
  }

  function DigitOf(d: nat): (c: char)
    requires d < 10
    ensures IsDigit(c) && c as int - '0' as int == d
  {
    (d + '0' as int) as char
  }

  /** "%d" of a non-negative number. */
  function Decimal(n: nat): (s: string)
    ensures s != "" && AllDigits(s)
  {
    if n < 10 then [DigitOf(n)] else Decimal(n / 10) + [DigitOf(n % 10)]
  }

  /** "%d" of an int. */
  function FormatInt(n: int): (s: string)
    ensures s != ""
    ensures forall c :: c in s ==> IsDigit(c) || c == '-'
  {
    if n < 0 then "-" + Decimal(-n) else Decimal(n)
  }

  function Value(s: string): nat
    requires AllDigits(s)
  {
    if s == "" then 0 else Value(s[..|s| - 1]) * 10 + (s[|s| - 1] as int - '0' as int)
  }

  const INT_MAX := 2147483647
  const INT_MIN := -2147483648

  /** std::isspace. */
  predicate IsSpace(c: char) {
    c == ' ' || '\t' <= c <= '\r'
  }

  function LeadingSpaces(s: string): (n: nat)
    ensures n <= |s|
  {
    if s == "" || !IsSpace(s[0]) then 0 else 1 + LeadingSpaces(s[1..])
  }

  function LeadingDigits(s: string): (n: nat)
    ensures n <= |s| && AllDigits(s[..n])
  {
    if s == "" || !IsDigit(s[0]) then 0 else 1 + LeadingDigits(s[1..])
  }

  /** std::stoi: spaces, a sign and as many digits as there are; `None` stands for the exceptions it throws. */
  function Stoi(s: string): Option<int> {
    var t := s[LeadingSpaces(s)..];
    var signed := t != "" && (t[0] == '-' || t[0] == '+');
    var u := if signed then t[1..] else t;
    var n := LeadingDigits(u);
    var magnitude: int := Value(u[..n]);
    var v: int := if signed && t[0] == '-' then -magnitude else magnitude;
    if n > 0 && INT_MIN <= v <= INT_MAX then Some(v) else None
  }

  /** On a string of digits nothing but the size of the number matters. */
  lemma StoiOfDigits(s: string)
    requires s != "" && AllDigits(s)
    ensures Stoi(s) == if Value(s) <= INT_MAX then Some(Value(s)) else None
  {
    hide LeadingSpaces, LeadingDigits, Value;
    DigitIsNoSpace(s);
    DigitsToTheEnd(s);
    assert s[0..] == s && s[..|s|] == s;
  }

  lemma DigitIsNoSpace(s: string)
    requires s != "" && IsDigit(s[0])
    ensures LeadingSpaces(s) == 0 && s[0] != '-' && s[0] != '+'
  {
  }

  lemma {:induction false} DigitsToTheEnd(s: string)
    requires AllDigits(s)
    ensures LeadingDigits(s) == |s|
  {
    if s != "" {
      DigitsToTheEnd(s[1..]);
    }
  }

  /** Reading back a printed number gives the number. */
  lemma {:induction false} ValueOfDecimal(n: nat)
    ensures Value(Decimal(n)) == n
  {
    if n >= 10 {
      ValueOfDecimal(n / 10);
      var s := Decimal(n);
      assert s[..|s| - 1] == Decimal(n / 10);
    }
  }

  function Power(digits: nat): nat {
    if digits == 0 then 1 else 10 * Power(digits - 1)
  }

  lemma {:induction false} DecimalLength(n: nat, digits: nat)
    requires digits >= 1 && n < Power(digits)
    ensures |Decimal(n)| <= digits
  {
    if n >= 10 {
      DecimalLength(n / 10, digits - 1);
    }
  }

  lemma NumberLength(n: nat)
    requires n <= INT_MAX
    ensures 1 <= |FormatInt(n)| <= 10
  {
    assert Power(10) == 10000000000;
    DecimalLength(n, 10);
  }

  /** A printed number has no digit too many. */
  lemma {:induction false} DecimalHasNoLeadingZero(n: nat)
    ensures Decimal(n)[0] == '0' <==> n == 0
  {
    if n >= 10 {
      DecimalHasNoLeadingZero(n / 10);
    }
  }

  lemma FrontAndLast(a: string, b: string)
    requires b != ""
    ensures (a + b)[..|a + b| - 1] == a + b[..|b| - 1] && (a + b)[|a + b| - 1] == b[|b| - 1]
  {
  }

  /** Positional notation: what stands in front counts ten times as much for every digit behind it. */
  lemma {:induction false} ValueOfConcat(a: string, b: string)
    requires AllDigits(a) && AllDigits(b)
    ensures AllDigits(a + b) && Value(a + b) == Value(a) * Power(|b|) + Value(b)
    decreases |b|
  {
    if b == "" {
      assert a + b == a;
    } else {
      var front := b[..|b| - 1];
      ValueOfConcat(a, front);
      FrontAndLast(a, b);
      assert Power(|b|) == 10 * Power(|front|);
      TimesTen(Value(a), Power(|front|));
    }
  }

  lemma TimesTen(x: int, y: int)
    ensures x * y * 10 == x * (10 * y)
  {
  }

  /** Leading zeros do not count. */
  lemma {:induction false} ValueOfZeros(zeros: string, digits: string)
    requires (forall i :: 0 <= i < |zeros| ==> zeros[i] == '0') && AllDigits(digits)
    ensures AllDigits(zeros + digits) && Value(zeros + digits) == Value(digits)
  {
    ValueIsZero(zeros);
    ValueOfConcat(zeros, digits);
  }

  lemma {:induction false} ValueIsZero(zeros: string)
    requires forall i :: 0 <= i < |zeros| ==> zeros[i] == '0'
    ensures AllDigits(zeros) && Value(zeros) == 0
  {
    if zeros != "" {
      ValueIsZero(zeros[..|zeros| - 1]);
    }
  }

  /** std::stoi takes a text apart into spaces, a sign, digits and what it leaves. */
  lemma StoiOfParts(spaces: string, sign: string, digits: string, rest: string)
    requires forall i :: 0 <= i < |spaces| ==> spaces[i] as int in {9, 10, 11, 12, 13, 32}
    requires sign == "" || sign == "-" || sign == "+"
    requires digits != "" && AllDigits(digits) && (rest != "" ==> !IsDigit(rest[0]))
    ensures var v := if sign == "-" then -1 * Value(digits) else Value(digits);
            Stoi(spaces + (sign + (digits + rest))) == if INT_MIN <= v <= INT_MAX then Some(v) else None
  {
    hide Value;
    var u := digits + rest;
    SpacesAre(spaces, sign + u);
    DigitsAre(digits, rest);
    assert (spaces + (sign + u))[|spaces|..] == sign + u;
    assert sign != "" ==> (sign + u)[1..] == u;
    assert sign == "" ==> sign + u == u && u[0] == digits[0];
    assert u[..|digits|] == digits;
  }

  lemma {:induction false} SpacesAre(spaces: string, rest: string)
    requires forall i :: 0 <= i < |spaces| ==> spaces[i] as int in {9, 10, 11, 12, 13, 32}
    requires rest != "" && !IsSpace(rest[0])
    ensures LeadingSpaces(spaces + rest) == |spaces|
  {
    if spaces == "" {
      assert spaces + rest == rest;
    } else {
      assert (spaces + rest)[1..] == spaces[1..] + rest;
      SpacesAre(spaces[1..], rest);
    }
  }

  lemma {:induction false} DigitsAre(digits: string, rest: string)
    requires AllDigits(digits) && (rest != "" ==> !IsDigit(rest[0]))
    ensures LeadingDigits(digits + rest) == |digits|
  {
    if digits == "" {
      assert digits + rest == rest;
    } else {
      assert (digits + rest)[1..] == digits[1..] + rest;
      DigitsAre(digits[1..], rest);
    }
  }

  /** What has been printed is read back, whatever follows that is no digit. */
  lemma StoiOfPrinted(n: nat, rest: string)
    requires n <= INT_MAX && (rest != "" ==> !IsDigit(rest[0]))
    ensures Stoi(FormatInt(n) + rest) == Some(n)
  {
    ValueOfDecimal(n);
    StoiOfParts("", "", Decimal(n), rest);
    assert "" + ("" + (Decimal(n) + rest)) == Decimal(n) + rest;
  }

  predicate OccursAt(s: string, pattern: string, i: nat) {
    i + |pattern| <= |s| && s[i..i + |pattern|] == pattern
  }

  /** std::string::find(pattern) != npos. */
  predicate Contains(s: string, pattern: string) {
    exists i :: 0 <= i <= |s| && OccursAt(s, pattern, i)
  }

  /** What is put behind the same front part is equal iff the whole is. */
  lemma SameBehind<T>(front: seq<T>, a: seq<T>, b: seq<T>)
    ensures front + a == front + b <==> a == b
  {
    if front + a == front + b {
      assert a == (front + a)[|front|..] == (front + b)[|front|..] == b;
    }
  }

  function Concat(ts: seq<string>): string {
    if ts == [] then "" else ts[0] + Concat(ts[1..])
  }
}
