/** Decimal text: what Python's `str` writes for an integer and C's `atoi` reads back. */
module Decimal {
  predicate IsDigit(c: char) { '0' <= c <= '9' }

  function DigitChar(d: nat): (c: char)
    requires d < 10
    ensures IsDigit(c) && DigitValue(c) == d
  {
    '0' + d as char
  }

  function DigitValue(c: char): nat
    requires IsDigit(c)
  {
    c as int - '0' as int
  }

  function Digits(n: nat): (s: string)
    ensures s != "" && forall i :: 0 <= i < |s| ==> IsDigit(s[i])
  {
    if n < 10 then [DigitChar(n)] else Digits(n / 10) + [DigitChar(n % 10)]
  }

  function ToString(n: int): (s: string)
    ensures s != "" && forall i :: 0 <= i < |s| ==> IsDigit(s[i]) || s[i] == '-'
  {
    if n < 0 then "-" + Digits(-n) else Digits(n)
  }

  /** The value of the leading digits of s, continuing a number whose value so far is acc. */
  function Leading(s: string, acc: nat): nat {
    if s == "" || !IsDigit(s[0]) then acc else Leading(s[1..], acc * 10 + DigitValue(s[0]))
  }

  predicate IsSpace(c: char) { c == ' ' || '\t' <= c <= '\r' }

  /** Leading blanks, an optional sign, then the leading digits; anything after them is ignored. */
  function Atoi(s: string): int {
    if s == "" then 0
    else if IsSpace(s[0]) then Atoi(s[1..])
    else if s[0] == '-' then 0 - (Leading(s[1..], 0) as int)
    else if s[0] == '+' then Leading(s[1..], 0)
    else Leading(s, 0)
  }

  lemma {:induction false} LeadingAppend(a: string, b: string, acc: nat)
    requires forall i :: 0 <= i < |a| ==> IsDigit(a[i])
    ensures Leading(a + b, acc) == Leading(b, Leading(a, acc))
  {
    if a == "" {
      assert a + b == b;
    } else {
      assert (a + b)[1..] == a[1..] + b;
      LeadingAppend(a[1..], b, acc * 10 + DigitValue(a[0]));
    }
  }

  lemma {:induction false} LeadingDigits(n: nat, rest: string)
    requires rest == "" || !IsDigit(rest[0])
    ensures Leading(Digits(n) + rest, 0) == n
  {
    var last := [DigitChar(n % 10)];
    assert (last + rest)[1..] == rest;
    if n < 10 {
      assert Digits(n) == last;
    } else {
      assert Digits(n) + rest == Digits(n / 10) + (last + rest);
      LeadingAppend(Digits(n / 10), last + rest, 0);
      assert Digits(n / 10) + "" == Digits(n / 10);
      LeadingDigits(n / 10, "");
    }
  }

  lemma AtoiSigned(t: string)
    ensures Atoi("-" + t) == 0 - (Leading(t, 0) as int)
  {
    assert ("-" + t)[1..] == t;
  }

  lemma AtoiPlain(s: string)
    requires s != "" && IsDigit(s[0])
    ensures Atoi(s) == Leading(s, 0)
  {
  }

  /** Blanks before a number and a plus are passed over, text without a number is worth nothing. */
  lemma AtoiForms(blank: char, s: string, t: string)
    requires blank in " \t\n\U{0B}\U{0C}\r" && (t != "" ==> t[0] !in "0123456789+- \t\n\U{0B}\U{0C}\r")
    ensures Atoi([blank] + s) == Atoi(s) && Atoi("+" + s) == Leading(s, 0) && Atoi(t) == 0
  {
    BlanksAre(blank);
    assert t != "" ==> !IsDigit(t[0]) && !IsSpace(t[0]) && t[0] != '-' && t[0] != '+' by {
      if t != "" {
        BlanksAre(t[0]);
      }
    }
    hide IsDigit, IsSpace;
    assert ([blank] + s)[1..] == s && ("+" + s)[1..] == s;
    if t != "" {
      assert Leading(t, 0) == 0;
    }
  }

  lemma BlanksAre(c: char)
    ensures IsSpace(c) <==> c in " \t\n\U{0B}\U{0C}\r"
    ensures IsDigit(c) <==> c in "0123456789"
  {
  }

  /** Reading back a written integer, whatever text other than a digit follows it. */
  lemma AtoiToString(n: int, rest: string)
    requires rest == "" || !IsDigit(rest[0])
    ensures Atoi(ToString(n) + rest) == n
  {
    hide Leading, Digits, Atoi;
    var s := ToString(n) + rest;
    if n < 0 {
      LeadingDigits(-n, rest);
      AtoiSigned(Digits(-n) + rest);
      assert s == "-" + (Digits(-n) + rest);
    } else {
      LeadingDigits(n, rest);
      assert s[0] == Digits(n)[0];
      AtoiPlain(s);
    }
  }
}
