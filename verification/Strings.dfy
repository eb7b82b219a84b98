/** Python string operations that the tools rely on: stripping, lower-casing, decimal numbers. */
module Strings {

  /** The characters that Python's `str.strip` removes. */
  predicate IsSpace(c: char) {
    || '\t' <= c <= '\r' || '\U{1c}' <= c <= ' ' || c == '\U{85}' || c == '\U{a0}' || c == '\U{1680}'
    || '\U{2000}' <= c <= '\U{200a}' || c == '\U{2028}' || c == '\U{2029}' || c == '\U{202f}' || c == '\U{205f}'
    || c == '\U{3000}'
  }

  predicate AllSpace(s: string) {
    forall i | 0 <= i < |s| :: IsSpace(s[i])
  }

  function LStrip(s: string): string {
    if s != [] && IsSpace(s[0]) then LStrip(s[1..]) else s
  }

  function RStrip(s: string): string {
    if s != [] && IsSpace(s[|s| - 1]) then RStrip(s[..|s| - 1]) else s
  }

  function Strip(s: string): string {
    RStrip(LStrip(s))
  }

  /** Lower case on the ASCII letters. */
  function LowerChar(c: char): char {
    if 'A' <= c <= 'Z' then c + ' ' else c
  }

  function Lower(s: string): string {
    seq(|s|, i requires 0 <= i < |s| => LowerChar(s[i]))
  }

  function Digits(n: nat): string {
    if n < 10 then [('0' as int + n) as char] else Digits(n / 10) + [('0' as int + n % 10) as char]
  }

  /** `str` of an integer. */
  function Decimal(n: int): string {
    if n < 0 then ['-'] + Digits(-n) else Digits(n)
  }

  /** The code points of white space. */
  lemma SpaceMeaning(c: char)
    ensures IsSpace(c) <==> c as int in {9, 10, 11, 12, 13, 28, 29, 30, 31, 32, 133, 160, 5760, 8192, 8193, 8194, 8195, 8196, 8197,
                                         8198, 8199, 8200, 8201, 8202, 8232, 8233, 8239, 8287, 12288}
  {
  }

  /** The capitals become small letters, everything else stays, and every character is treated on its own. */
  lemma LowerMeaning(s: string, t: string)
    ensures Lower("ABCDEFGHIJKLMNOPQRSTUVWXYZ") == "abcdefghijklmnopqrstuvwxyz"
    ensures (forall c | c in s :: !('A' <= c <= 'Z')) ==> Lower(s) == s
    ensures Lower(s + t) == Lower(s) + Lower(t)
  {
    assert forall i | 0 <= i < |s| :: s[i] in s;
  }

  /** The number that decimal digits stand for. */
  function NumberOf(digits: string): int {
    if digits == [] then 0 else 10 * NumberOf(digits[..|digits| - 1]) + (digits[|digits| - 1] as int - '0' as int)
  }

  predicate AllDigits(s: string) {
    s != [] && forall i | 0 <= i < |s| :: '0' <= s[i] <= '9'
  }

  lemma {:induction false} DigitsReadBack(n: nat)
    ensures AllDigits(Digits(n)) && NumberOf(Digits(n)) == n
    ensures Digits(n)[0] == '0' ==> n == 0 && |Digits(n)| == 1
  {
    if n >= 10 {
      DigitsReadBack(n / 10);
      assert Digits(n)[..|Digits(n)| - 1] == Digits(n / 10);
    }
  }

  /** An integer is shown by its digits, without leading zeros, after a minus sign if it is negative. */
  lemma DecimalMeaning(n: int)
    ensures n >= 0 ==> AllDigits(Decimal(n)) && NumberOf(Decimal(n)) == n && (Decimal(n)[0] == '0' ==> n == 0)
    ensures n < 0 ==> Decimal(n)[0] == '-' && AllDigits(Decimal(n)[1..]) && NumberOf(Decimal(n)[1..]) == -n && Decimal(n)[1] != '0'
  {
    DigitsReadBack(if n < 0 then -n else n);
    if n < 0 {
      assert Decimal(n)[1..] == Digits(-n);
    }
  }

  /** Text that starts and ends with something other than white space. */
  predicate Solid(s: string) {
    s != [] ==> !IsSpace(s[0]) && !IsSpace(s[|s| - 1])
  }

  lemma {:induction false} StripSolid(s: string)
    requires Solid(s)
    ensures Strip(s) == s
  {
  }

  lemma {:induction false} LStripPadded(a: string, s: string)
    requires AllSpace(a)
    ensures LStrip(a + s) == LStrip(s)
  {
    if a != [] {
      assert (a + s)[1..] == a[1..] + s;
      LStripPadded(a[1..], s);
    } else {
      assert a + s == s;
    }
  }

  lemma {:induction false} RStripPadded(s: string, b: string)
    requires AllSpace(b)
    ensures RStrip(s + b) == RStrip(s)
  {
    if b != [] {
      assert (s + b)[..|s + b| - 1] == s + b[..|b| - 1];
      RStripPadded(s, b[..|b| - 1]);
    } else {
      assert s + b == s;
    }
  }

  lemma {:induction false} LStripTail(s: string, b: string)
    ensures LStrip(s) != [] ==> LStrip(s + b) == LStrip(s) + b
    ensures LStrip(s) == [] ==> AllSpace(s) && LStrip(s + b) == LStrip(b)
  {
    if s != [] && IsSpace(s[0]) {
      assert (s + b)[1..] == s[1..] + b;
      LStripTail(s[1..], b);
      assert LStrip(s) == [] ==> forall i | 0 < i < |s| :: s[i] == s[1..][i - 1];
    } else if s == [] {
      assert s + b == b;
    }
  }

  /** White space around the text does not matter. */
  lemma StripPadded(a: string, s: string, b: string)
    requires AllSpace(a) && AllSpace(b)
    ensures Strip(a + s + b) == Strip(s)
  {
    assert a + s + b == a + (s + b);
    LStripPadded(a, s + b);
    LStripTail(s, b);
    if LStrip(s) != [] {
      RStripPadded(LStrip(s), b);
    } else {
      LStripPadded(b, []);
      assert b + [] == b;
    }
  }

  lemma LowerSpace(c: char)
    ensures IsSpace(LowerChar(c)) <==> IsSpace(c)
  {
  }

  lemma {:induction false} LowerStrip(s: string)
    ensures Lower(LStrip(s)) == LStrip(Lower(s)) && Lower(RStrip(s)) == RStrip(Lower(s))
  {
    if s != [] {
      LowerSpace(s[0]);
      LowerSpace(s[|s| - 1]);
      assert Lower(s)[1..] == Lower(s[1..]) && Lower(s)[..|s| - 1] == Lower(s[..|s| - 1]);
      LowerStrip(s[1..]);
      LowerStrip(s[..|s| - 1]);
    }
  }

  /** Text that differs only in white space around it and in letter case is normalized to the same text. */
  lemma NormalizedEqually(a: string, s: string, b: string, t: string)
    requires AllSpace(a) && AllSpace(b) && Lower(s) == Lower(t)
    ensures Lower(Strip(a + s + b)) == Lower(Strip(t))
  {
    StripPadded(a, s, b);
    LowerStrip(s);
    LowerStrip(t);
    LowerStrip(LStrip(s));
    LowerStrip(LStrip(t));
  }
}
