/** The ids the exchange hands out: "ORD-", the symbol, "-", a counter in decimal. */
module OrderIds {

  function Digit(d: nat): char
    requires d < 10
  {
    ('0' as int + d) as char
  }

  function Decimal(n: nat): string {
    if n < 10 then [Digit(n)] else Decimal(n / 10) + [Digit(n % 10)]
  }

  function OrderId(symbol: string, n: nat): string {
    "ORD-" + symbol + "-" + Decimal(n)
  }

  lemma {:induction false} DecimalHasNoHyphen(n: nat)
    ensures '-' !in Decimal(n)
  {
    if n >= 10 {
      DecimalHasNoHyphen(n / 10);
    }
  }

  lemma {:induction false} DecimalInjective(m: nat, n: nat)
    requires Decimal(m) == Decimal(n)
    ensures m == n
  {
    var a, b := Decimal(m), Decimal(n);
    assert a[|a| - 1] == b[|b| - 1] && a[|a| - 1] == Digit(m % 10) && b[|b| - 1] == Digit(n % 10);
    if m >= 10 && n >= 10 {
      assert a[..|a| - 1] == Decimal(m / 10) && b[..|b| - 1] == Decimal(n / 10);
      DecimalInjective(m / 10, n / 10);
    } else if m >= 10 {
      DecimalLength(m / 10);
    } else if n >= 10 {
      DecimalLength(n / 10);
    }
  }

  lemma DecimalLength(n: nat)
    ensures |Decimal(n)| >= 1
  {
  }

  /** The hyphen before a hyphen-free suffix is the last one. */
  lemma LastHyphen(p: string, a: string)
    requires '-' !in a
    ensures (p + "-" + a)[|p|] == '-'
    ensures forall k :: |p| < k < |p + "-" + a| ==> (p + "-" + a)[k] != '-'
  {
  }

  /** The suffix can be read off the whole, whatever hyphens the rest holds. */
  lemma SuffixAligned(p: string, a: string, q: string, b: string)
    requires p + "-" + a == q + "-" + b && '-' !in a && '-' !in b
    ensures p == q && a == b
  {
    var w := p + "-" + a;
    LastHyphen(p, a);
    LastHyphen(q, b);
    assert |p| == |q|;
    assert w[..|p|] == p && w[..|q|] == q;
    assert w[|p| + 1..] == a && w[|q| + 1..] == b;
  }

  /** Different counter values give different ids, for all symbols. */
  lemma OrderIdInjective(s: string, m: nat, t: string, n: nat)
    requires OrderId(s, m) == OrderId(t, n)
    ensures s == t && m == n
  {
    DecimalHasNoHyphen(m);
    DecimalHasNoHyphen(n);
    SuffixAligned("ORD-" + s, Decimal(m), "ORD-" + t, Decimal(n));
    assert ("ORD-" + s)[4..] == s && ("ORD-" + t)[4..] == t;
    DecimalInjective(m, n);
  }
}
