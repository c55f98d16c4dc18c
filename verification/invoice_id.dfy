/** Invoice identifiers: "FP-" followed by the last six characters of the
    creation time in decimal (src/app/page.js, `generateInvoiceId`). The clock
    reading is a parameter: milliseconds since the epoch. */
module InvoiceIds {

  const Prefix: string := "FP-"

  predicate IsDigit(c: char)
  {
    '0' <= c <= '9'
  }

  predicate AllDigits(s: string)
  {
    forall i :: 0 <= i < |s| ==> IsDigit(s[i])
  }

  function DigitChar(d: nat): (c: char)
    requires d < 10
    ensures IsDigit(c)
  {
    "0123456789"[d]
  }

  function DigitValue(c: char): (d: nat)
    requires IsDigit(c)
    ensures d < 10
    ensures DigitChar(d) == c
  {
    (c as int - '0' as int) as nat
  }

  function Pow10(k: nat): (p: nat)
    ensures p >= 1
  {
    if k == 0 then 1 else 10 * Pow10(k - 1)
  }

  /** The number a string of decimal digits denotes, most significant first. */
  function Value(s: string): nat
    requires AllDigits(s)
  {
    if |s| == 0 then 0 else Value(s[..|s| - 1]) * 10 + DigitValue(s[|s| - 1])
  }

  /** `n.toString()` for a non-negative integer: no sign, no leading zero. */
  function Decimal(n: nat): (s: string)
    ensures |s| >= 1 && AllDigits(s)
    ensures n >= 10 ==> s[0] != '0'
    ensures |s| == 1 <==> n < 10
  {
    if n < 10 then [DigitChar(n)] else Decimal(n / 10) + [DigitChar(n % 10)]
  }

  /** `s.slice(-6)`: the last six characters, or all of `s` when shorter. */
  function LastSix(s: string): (r: string)
    ensures |r| == if |s| < 6 then |s| else 6
    ensures s == s[..|s| - |r|] + r
  {
    if |s| <= 6 then s else s[|s| - 6..]
  }

  function InvoiceId(now: nat): (id: string)
    ensures |id| >= 4 && id[..3] == Prefix
    ensures AllDigits(id[3..])
  {
    Prefix + LastSix(Decimal(now))
  }

  /** The `k` lowest decimal digits of `n`, zero-padded to exactly `k`. */
  function Padded(n: nat, k: nat): (s: string)
    ensures |s| == k && AllDigits(s)
  {
    if k == 0 then [] else Padded(n / 10, k - 1) + [DigitChar(n % 10)]
  }

  /** Reading back the decimal rendering gives the number. */
  lemma {:induction false} DecimalRoundTrip(n: nat)
    ensures Value(Decimal(n)) == n
  {
    if n >= 10 {
      DecimalRoundTrip(n / 10);
      var s := Decimal(n);
      assert s[..|s| - 1] == Decimal(n / 10);
    }
  }

  /** Splitting off the lowest digit commutes with reducing modulo a power
      of ten. */
  lemma ModStep(n: nat, p: nat)
    requires p >= 1
    ensures (n / 10) % p * 10 + n % 10 == n % (10 * p)
  {
    var q := n / 10;
    var r := n % 10;
    var a := q / p;
    var b := q % p;
    assert n == 10 * q + r;
    assert q == p * a + b;
    assert n == (10 * p) * a + (10 * b + r);
    assert 0 <= 10 * b + r < 10 * p;
    ModUnique(n, 10 * p, a, 10 * b + r);
  }

  lemma ModUnique(n: nat, m: nat, a: int, c: int)
    requires m >= 1 && 0 <= c < m && n == m * a + c
    ensures n % m == c
  {
    var d := n / m - a;
    assert m * d == c - n % m;
    MultipleInOpenBand(m, d);
  }

  /** The only multiple of `m` strictly between -m and m is 0. */
  lemma MultipleInOpenBand(m: int, d: int)
    requires m >= 1 && -m < m * d < m
    ensures d == 0
  {
  }

  /** The zero-padded digits denote `n` modulo 10^k. */
  lemma {:induction false} PaddedValue(n: nat, k: nat)
    ensures Value(Padded(n, k)) == n % Pow10(k)
  {
    if k > 0 {
      var p := Pow10(k - 1);
      var s := Padded(n, k);
      assert s[..|s| - 1] == Padded(n / 10, k - 1);
      assert DigitValue(s[|s| - 1]) == n % 10;
      calc {
        Value(s);
        Value(Padded(n / 10, k - 1)) * 10 + n % 10;
        { PaddedValue(n / 10, k - 1); }
        (n / 10) % p * 10 + n % 10;
        { ModStep(n, p); }
        n % (10 * p);
      }
    }
  }

  /** Once `n` has at least `k` digits, the last `k` characters of its
      decimal rendering are its `k` lowest digits. */
  lemma {:induction false} DecimalSuffix(n: nat, k: nat)
    requires k >= 1 && n >= Pow10(k - 1)
    ensures |Decimal(n)| >= k
    ensures Decimal(n)[|Decimal(n)| - k..] == Padded(n, k)
  {
    if k == 1 {
      assert Padded(n / 10, 0) == [];
    } else {
      assert n >= 10 by { assert Pow10(k - 1) >= 10 by { PowMono(k - 1); } }
      assert n / 10 >= Pow10(k - 2);
      DecimalSuffix(n / 10, k - 1);
      var d := Decimal(n / 10);
      assert Decimal(n) == d + [DigitChar(n % 10)];
      assert Decimal(n)[|Decimal(n)| - k..] == d[|d| - (k - 1)..] + [DigitChar(n % 10)];
    }
  }

  lemma PowMono(k: nat)
    requires k >= 1
    ensures Pow10(k) >= 10
  {
  }

  /** For any creation time of six or more digits, the suffix is exactly six
      digits and denotes the time modulo 1,000,000. */
  lemma SixDigitSuffix(now: nat)
    requires now >= 100000
    ensures |InvoiceId(now)| == 9
    ensures InvoiceId(now)[3..] == Padded(now % 1000000, 6)
    ensures Value(InvoiceId(now)[3..]) == now % 1000000
  {
    assert Pow10(5) == 100000 && Pow10(6) == 1000000;
    DecimalSuffix(now, 6);
    PaddedValue(now, 6);
    PaddedValue(now % 1000000, 6);
    PaddedMod(now, 6);
  }

  /** Only the `k` lowest digits of `n` decide its padded rendering. */
  lemma {:induction false} PaddedMod(n: nat, k: nat)
    ensures Padded(n, k) == Padded(n % Pow10(k), k)
    decreases k
  {
    if k > 0 {
      var p := Pow10(k - 1);
      var m := n % Pow10(k);
      calc {
        Padded(n, k);
        Padded(n / 10, k - 1) + [DigitChar(n % 10)];
        { PaddedMod(n / 10, k - 1); }
        Padded((n / 10) % p, k - 1) + [DigitChar(n % 10)];
        { ModOfMod(n, p); }
        Padded((m / 10) % p, k - 1) + [DigitChar(m % 10)];
        { PaddedMod(m / 10, k - 1); }
        Padded(m / 10, k - 1) + [DigitChar(m % 10)];
        Padded(m, k);
      }
    }
  }

  lemma ModOfMod(n: nat, p: nat)
    requires p >= 1
    ensures (n % (10 * p)) % 10 == n % 10
    ensures ((n % (10 * p)) / 10) % p == (n / 10) % p
  {
    var m := n % (10 * p);
    var a := n / (10 * p);
    assert n == 10 * p * a + m;
    var q := n / 10;
    assert n == 10 * q + n % 10;
    assert m == 10 * (m / 10) + m % 10;
    assert n == 10 * (p * a + m / 10) + m % 10;
    ModUnique(n, 10, p * a + m / 10, m % 10);
    assert n / 10 == p * a + m / 10 by {
      DivUnique(n, 10, p * a + m / 10, m % 10);
    }
    assert m / 10 < p;
    ModUnique(n / 10, p, a, m / 10);
    ModUnique(m / 10, p, 0, m / 10);
  }

  lemma DivUnique(n: nat, m: nat, a: int, c: int)
    requires m >= 1 && 0 <= c < m && n == m * a + c
    ensures n / m == a
  {
    ModUnique(n, m, a, c);
  }

  /** Two creation times of six or more digits share an identifier exactly
      when they agree modulo 1,000,000: identifiers are not unique. */
  lemma IdCollision(t1: nat, t2: nat)
    requires t1 >= 100000 && t2 >= 100000
    ensures InvoiceId(t1) == InvoiceId(t2) <==> t1 % 1000000 == t2 % 1000000
  {
    SixDigitSuffix(t1);
    SixDigitSuffix(t2);
  }

  /** Below 100000 the rendering has fewer than six digits; `slice(-6)` keeps
      all of them and nothing pads the suffix. */
  lemma ShortTimestamp(now: nat)
    requires now < 100000
    ensures InvoiceId(now) == Prefix + Decimal(now)
    ensures |InvoiceId(now)| < 9
    ensures Value(InvoiceId(now)[3..]) == now
  {
    DecimalShort(now, 5);
    DecimalRoundTrip(now);
    assert InvoiceId(now)[3..] == Decimal(now);
  }

  lemma {:induction false} DecimalShort(n: nat, k: nat)
    requires n < Pow10(k)
    ensures |Decimal(n)| <= if k == 0 then 1 else k
  {
    if n >= 10 {
      assert k >= 2;
      DecimalShort(n / 10, k - 1);
    }
  }
}
