/** When numbered ids sort by their numbers, although they are compared as strings. */
module IdOrder {
  import opened Text
  import opened Order

  function Digits(n: nat): nat {
    |Decimal(n)|
  }

  function Pow10(k: nat): nat {
    if k == 0 then 1 else 10 * Pow10(k - 1)
  }

  lemma {:induction false} LePrefix(prefix: string, a: string, b: string)
    ensures Le(prefix + a, prefix + b) <==> Le(a, b)
  {
    if prefix == [] {
      assert prefix + a == a && prefix + b == b;
    } else {
      assert (prefix + a)[1..] == prefix[1..] + a && (prefix + b)[1..] == prefix[1..] + b;
      LePrefix(prefix[1..], a, b);
    }
  }

  /** Only the characters of `b` up to the length of `a` matter. */
  lemma {:induction false} LeUpToLength(a: string, b: string)
    requires |a| <= |b|
    ensures Le(a, b) <==> Le(a, b[..|a|])
  {
    if a == [] {
    } else {
      LeUpToLength(a[1..], b[1..]);
      assert b[..|a|][1..] == b[1..][..|a| - 1];
    }
  }

  lemma {:induction false} LeLast(a: string, x: char, b: string, y: char)
    requires |a| == |b|
    ensures Le(a + [x], b + [y]) <==> if a == b then x <= y else Le(a, b)
  {
    if a == [] {
      assert a + [x] == [x] && b + [y] == [y] && [x][1..] == [] && [y][1..] == [];
    } else {
      assert (a + [x])[1..] == a[1..] + [x] && (b + [y])[1..] == b[1..] + [y];
      assert a == [a[0]] + a[1..] && b == [b[0]] + b[1..];
      LeLast(a[1..], x, b[1..], y);
    }
  }

  /** Numerals of one length sort by their numbers. */
  lemma {:induction false} LeOfEqualLength(m: nat, n: nat)
    requires Digits(m) == Digits(n)
    ensures Le(Decimal(m), Decimal(n)) <==> m <= n
  {
    DecimalRoundTrip(m / 10);
    DecimalRoundTrip(n / 10);
    if m < 10 {
      LeLast([], DigitChar(m), [], DigitChar(n));
      assert [] + [DigitChar(m)] == Decimal(m) && [] + [DigitChar(n)] == Decimal(n);
    } else {
      LeOfEqualLength(m / 10, n / 10);
      LeLast(Decimal(m / 10), DigitChar(m % 10), Decimal(n / 10), DigitChar(n % 10));
    }
  }

  lemma {:induction false} DigitsGrow(m: nat, n: nat)
    requires m <= n
    ensures Digits(m) <= Digits(n)
  {
    if m < 10 {
      DecimalRoundTrip(n);
    } else {
      DigitsGrow(m / 10, n / 10);
    }
  }

  /** The number without its last `k` digits. */
  function Leading(n: nat, k: nat): nat {
    if k == 0 then n else Leading(n / 10, k - 1)
  }

  lemma {:induction false} LeadingDigits(n: nat, k: nat)
    requires k < Digits(n)
    ensures Decimal(n)[..Digits(n) - k] == Decimal(Leading(n, k))
  {
    if k == 0 {
    } else {
      DecimalRoundTrip(n / 10);
      LeadingDigits(n / 10, k - 1);
      assert Decimal(n)[..Digits(n) - k] == Decimal(n / 10)[..Digits(n / 10) - (k - 1)];
    }
  }

  lemma {:induction false} AtMostLeading(m: nat, n: nat, k: nat)
    ensures m <= Leading(n, k) <==> m * Pow10(k) <= n
  {
    if k == 0 {
    } else {
      AtMostLeading(m, n / 10, k - 1);
      assert m * Pow10(k) == 10 * (m * Pow10(k - 1));
    }
  }

  /** Filled up with zeros to the length of `n`, `m` does not exceed it. */
  predicate StaysAhead(m: nat, n: nat) {
    Digits(m) <= Digits(n) && m * Pow10(Digits(n) - Digits(m)) <= n
  }

  /** The smaller number sorts first iff it stays ahead when filled up with zeros. */
  lemma IdOrderIff(kind: string, m: nat, n: nat)
    requires m <= n
    ensures Le(Id(kind, m), Id(kind, n)) <==> StaysAhead(m, n)
  {
    hide Le, Pow10, Leading;
    DigitsGrow(m, n);
    DecimalRoundTrip(m);
    var k := Digits(n) - Digits(m);
    LePrefix(kind + ":", Decimal(m), Decimal(n));
    LeUpToLength(Decimal(m), Decimal(n));
    LeadingDigits(n, k);
    LeOfEqualLength(m, Leading(n, k));
    AtMostLeading(m, n, k);
  }
}
