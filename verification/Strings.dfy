/** Text that several parts share: the order of identifiers, decimal numerals and lists of names. */
module Strings {

  // ---------------------------------------------------------------- the order of identifiers

  predicate StringLess(a: string, b: string) {
    if b == "" then false
    else if a == "" then true
    else a[0] < b[0] || (a[0] == b[0] && StringLess(a[1..], b[1..]))
  }

  lemma {:induction false} Connected(a: string, b: string)
    ensures StringLess(a, b) || a == b || StringLess(b, a)
  {
    if a != "" && b != "" && a[0] == b[0] {
      Connected(a[1..], b[1..]);
      assert a == [a[0]] + a[1..] && b == [b[0]] + b[1..];
    }
  }

  lemma {:induction false} Transitive(a: string, b: string, c: string)
    requires StringLess(a, b) && StringLess(b, c)
    ensures StringLess(a, c)
  {
    if a != "" && a[0] == b[0] == c[0] {
      Transitive(a[1..], b[1..], c[1..]);
    }
  }

  lemma {:induction false} Irreflexive(a: string)
    ensures !StringLess(a, a)
  {
    if a != "" { Irreflexive(a[1..]); }
  }

  /** The order is that of the first difference, a text being before those it begins. */
  lemma {:induction false} StringLessIff(a: string, b: string)
    ensures StringLess(a, b) <==>
      exists k :: 0 <= k < |b| && k <= |a| && a[..k] == b[..k] && (k == |a| || a[k] < b[k])
  {
    if a != "" && b != "" && a[0] == b[0] {
      StringLessIff(a[1..], b[1..]);
      if StringLess(a, b) {
        var k :| 0 <= k < |b[1..]| && k <= |a[1..]| && a[1..][..k] == b[1..][..k]
          && (k == |a[1..]| || a[1..][k] < b[1..][k]);
        assert a[..k + 1] == [a[0]] + a[1..][..k] && b[..k + 1] == [b[0]] + b[1..][..k];
      }
      forall k | 0 <= k < |b| && k <= |a| && a[..k] == b[..k] && (k == |a| || a[k] < b[k])
        ensures StringLess(a, b)
      {
        assert k > 0 && a[1..][..k - 1] == a[..k][1..] && b[1..][..k - 1] == b[..k][1..];
      }
    } else if b != "" {
      assert a[..0] == b[..0];
    }
  }

  // ---------------------------------------------------------------- numerals

  function Decimal(n: nat): string {
    if n < 10 then ["0123456789"[n]] else Decimal(n / 10) + ["0123456789"[n % 10]]
  }

  predicate IsDigit(c: char) { '0' <= c <= '9' }

  /** The number that a text of digits spells. */
  function Spells(s: string): int {
    if s == "" then 0 else Spells(s[..|s| - 1]) * 10 + (s[|s| - 1] as int - '0' as int)
  }

  /** A numeral spells its number, in digits, without a leading zero but for zero itself. */
  lemma {:induction false} DecimalSpells(n: nat)
    ensures var s := Decimal(n);
      && Spells(s) == n && s != "" && (forall i :: 0 <= i < |s| ==> IsDigit(s[i]))
      && (n > 0 ==> s[0] != '0')
  {
    if n < 10 {
      assert Decimal(n)[..0] == "";
    } else {
      DecimalSpells(n / 10);
      assert Decimal(n)[..|Decimal(n)| - 1] == Decimal(n / 10);
    }
  }

  /** The characters an identifier may hold. */
  predicate IdChar(c: char) {
    'A' <= c <= 'Z' || 'a' <= c <= 'z' || IsDigit(c) || c == '.' || c == '_' || c == ':' || c == '-'
  }

  predicate Identifier(s: string, max: nat) { 4 <= |s| <= max && forall i :: 0 <= i < |s| ==> IdChar(s[i]) }

  // ---------------------------------------------------------------- lists of names

  predicate Distinct(s: seq<string>) { forall i, j :: 0 <= i < j < |s| ==> s[i] != s[j] }

  lemma {:induction false} SetOf(s: seq<string>)
    requires Distinct(s)
    ensures |set id | id in s| == |s|
  {
    if s != [] {
      var front, last := s[..|s| - 1], s[|s| - 1];
      SetOf(front);
      assert s == front + [last] && last !in front;
      assert (set id | id in s) == (set id | id in front) + {last};
    }
  }
}
