/** Node identifiers as canonical decimal text. */
module Decimal {
  import opened Basics

  predicate IsDigit(c: char) { '0' <= c <= '9' }

  function DigitOf(d: nat): (c: char)
    requires d < 10
    ensures IsDigit(c) && ValueOf(c) == d
  {
    ('0' as int + d) as char
  }

  function ValueOf(c: char): (d: nat)
    requires IsDigit(c)
    ensures d < 10
  {
    c as int - '0' as int
  }

  predicate AllDigits(s: string) { forall i :: 0 <= i < |s| ==> IsDigit(s[i]) }

  /** The number a string of digits spells. */
  function Spells(s: string): (n: nat)
    requires AllDigits(s)
  {
    if s == "" then 0 else 10 * Spells(s[..|s| - 1]) + ValueOf(s[|s| - 1])
  }

  /** The shortest spelling of a number; zero is spelled "0". */
  function Format(n: nat): (s: string)
    ensures s != "" && AllDigits(s)
  {
    if n < 10 then [DigitOf(n)] else Format(n / 10) + [DigitOf(n % 10)]
  }

  /** What a node identifier text must look like. */
  predicate NodeIdText(s: string) {
    s != "" && AllDigits(s) && !(|s| > 1 && s[0] == '0') && 0 < Spells(s) < U64
  }

  lemma {:induction false} FormatSpells(n: nat)
    ensures Spells(Format(n)) == n && (n >= 1 ==> Format(n)[0] != '0') && (n >= 10 <==> |Format(n)| > 1)
  {
    var s := Format(n);
    if n >= 10 {
      FormatSpells(n / 10);
      assert s[..|s| - 1] == Format(n / 10) && s[|s| - 1] == DigitOf(n % 10);
      assert s[0] == Format(n / 10)[0];
    } else {
      assert s[..0] == "" && s == [DigitOf(n)];
    }
  }

  /** Formatting an identifier gives a text the validator accepts, and distinct ones give distinct texts. */
  lemma FormatIsCanonical(n: NodeId, m: NodeId)
    requires n != 0
    ensures NodeIdText(Format(n))
    ensures Format(n) == Format(m) ==> n == m
  {
    FormatSpells(n);
    FormatSpells(m);
  }

  /** The accepted texts are exactly the formatted non-zero identifiers. */
  lemma {:induction false} CanonicalIsFormat(s: string)
    requires s != "" && AllDigits(s) && !(|s| > 1 && s[0] == '0')
    ensures s == Format(Spells(s))
  {
    var n := Spells(s);
    if |s| == 1 {
      assert s[..|s| - 1] == "" && Spells("") == 0;
      assert n == ValueOf(s[0]) && s == [s[0]];
    } else {
      var front := s[..|s| - 1];
      CanonicalIsFormat(front);
      LeadingDigit(front);
      assert n / 10 == Spells(front) && n % 10 == ValueOf(s[|s| - 1]);
      assert s == front + [s[|s| - 1]];
    }
  }

  lemma {:induction false} LeadingDigit(s: string)
    requires s != "" && AllDigits(s) && s[0] != '0'
    ensures Spells(s) >= 1
  {
    if |s| > 1 { LeadingDigit(s[..|s| - 1]); } else { assert s[..0] == ""; }
  }
}
