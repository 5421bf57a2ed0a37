/** Decimal numerals, and splitting a string at a separator. */
module Text {
  import opened Options

  // ----- strconv.Itoa -----

  function Digit(d: nat): (c: char)
    requires d < 10
    ensures c != '/' && c != '='
  {
    "0123456789"[d]
  }

  function Decimal(n: nat): (s: string)
    ensures s != [] && '/' !in s && '=' !in s
  {
    if n < 10 then [Digit(n)] else Decimal(n / 10) + [Digit(n % 10)]
  }

  /** What a numeral stands for. */
  function NumberOf(numeral: string): int {
    if numeral == [] then 0
    else 10 * NumberOf(Front(numeral)) + (Last(numeral) as int - '0' as int)
  }

  /** The numeral of a number stands for it, is made of digits, and does not begin with 0 unless it is "0". */
  lemma {:induction false} DecimalIsNumeral(n: nat)
    ensures NumberOf(Decimal(n)) == n
    ensures forall c :: c in Decimal(n) ==> '0' <= c <= '9'
    ensures Decimal(n)[0] == '0' <==> n == 0
  {
    if n < 10 {
      assert Front([Digit(n)]) == [];
    } else {
      DecimalIsNumeral(n / 10);
      assert Front(Decimal(n)) == Decimal(n / 10) && Last(Decimal(n)) == Digit(n % 10);
      DigitStandsFor(n % 10);
    }
  }

  lemma DigitStandsFor(d: nat)
    requires d < 10
    ensures Digit(d) as int == '0' as int + d
  {
  }

  lemma DigitInjective(a: nat, b: nat)
    requires a < 10 && b < 10 && Digit(a) == Digit(b)
    ensures a == b
  {
  }

  /** No two numbers have the same numeral. */
  lemma {:induction false} DecimalInjective(a: nat, b: nat)
    requires Decimal(a) == Decimal(b)
    ensures a == b
  {
    DigitInjective(a % 10, b % 10) by {
      assert Last(Decimal(a)) == Digit(a % 10);
      assert Last(Decimal(b)) == Digit(b % 10);
    }
    if a >= 10 && b >= 10 {
      assert Front(Decimal(a)) == Decimal(a / 10);
      assert Front(Decimal(b)) == Decimal(b / 10);
      DecimalInjective(a / 10, b / 10);
    }
  }

  // ----- Splitting at the first separator -----

  /** Where `c` first occurs, or the length if it does not. */
  function IndexOf(s: string, c: char): (i: nat)
    ensures i <= |s| && c !in s[..i]
    ensures c in s <==> i < |s|
    ensures i < |s| ==> s[i] == c
  {
    if s == [] || s[0] == c then 0
    else
      var i := 1 + IndexOf(s[1..], c);
      assert s[..i] == [s[0]] + s[1..][..i - 1];
      i
  }

  /** The first occurrence is after a prefix that has none. */
  lemma {:induction false} IndexAfter(before: string, c: char, after: string)
    requires c !in before
    ensures IndexOf(before + [c] + after, c) == |before|
  {
    var s := before + [c] + after;
    if before != [] {
      assert s[0] == before[0] && s[1..] == before[1..] + [c] + after;
      IndexAfter(before[1..], c, after);
    }
  }

  /** Splitting at the first separator undoes joining with it. */
  lemma SplitJoin(before: string, c: char, after: string)
    requires c !in before
    ensures var s := before + [c] + after;
            && c in s && s[..IndexOf(s, c)] == before && s[IndexOf(s, c) + 1..] == after
  {
    IndexAfter(before, c, after);
    assert (before + [c] + after)[|before|] == c;
  }

  // ----- Entries of an environment -----

  function Name(entry: string): string {
    entry[..IndexOf(entry, '=')]
  }

  function Value(entry: string): string
    requires '=' in entry
  {
    entry[IndexOf(entry, '=') + 1..]
  }
}
