// Numerals as the exporter writes them, and the reading of numerals as ISO 32000-1
// section 7.3.3 describes it.  A byte of the file is a character below 128.
module Numbers {
  import opened Wrappers

  predicate IsDigit(c: char) {
    '0' <= c <= '9'
  }

  predicate AllDigits(s: string) {
    forall i | 0 <= i < |s| :: IsDigit(s[i])
  }

  function Pow10(k: nat): (p: nat)
    ensures p >= 1
  {
    if k == 0 then 1 else 10 * Pow10(k - 1)
  }

  // ---- writing ----

  // `str(n)` for a natural number.
  function Dec(n: nat): (s: string)
    ensures |s| >= 1 && AllDigits(s)
  {
    var d := '0' + (n % 10) as char;
    if n < 10 then [d] else Dec(n / 10) + [d]
  }

  function Zeros(k: nat): (s: string)
    ensures |s| == k && AllDigits(s)
  {
    if k == 0 then "" else Zeros(k - 1) + "0"
  }

  // `f"{n:0kd}"`: zeros on the left up to width k, never a truncation.
  function Pad(n: nat, k: nat): (s: string)
    ensures AllDigits(s)
  {
    if |Dec(n)| < k then Zeros(k - |Dec(n)|) + Dec(n) else Dec(n)
  }

  function Abs(x: real): real {
    if x < 0.0 then -x else x
  }

  // Rounding to the nearest integer, ties to even, as Python's fixed-point formatting does.
  function RoundHalfEven(x: real): (n: nat)
    requires x >= 0.0
    ensures -0.5 <= n as real - x <= 0.5
    ensures n as real - x == 0.5 || x - n as real == 0.5 ==> n % 2 == 0
  {
    var f := x.Floor;
    var d := x - f as real;
    if d < 0.5 || (d == 0.5 && f % 2 == 0) then f else f + 1
  }

  // How many units of 1/p the digits of x show, sign aside.
  function Scaled(x: real, p: real): nat {
    RoundHalfEven(Abs(x * p))
  }

  // Whole units, a point, and k digits, for m units of 10^-k.
  function Point(m: nat, k: nat): string {
    var (q, r) := DivMod(m, Pow10(k));
    Dec(q) + "." + Pad(r, k)
  }

  function DivMod(m: nat, p: nat): (qr: (nat, nat))
    requires p >= 1
    ensures m == qr.0 * p + qr.1 && qr.1 < p
  {
    (m / p, m % p)
  }

  // `f"{x:.kf}"`.
  function Fixed(x: real, k: nat): string {
    (if x < 0.0 then "-" else "") + Point(Scaled(x, Pow10(k) as real), k)
  }

  // The number those digits denote.
  function Rounded(x: real, k: nat): real {
    Near(x, Pow10(k) as real)
  }

  function Near(x: real, p: real): real
    requires p >= 1.0
  {
    if x < 0.0 then -(Scaled(x, p) as real / p) else Scaled(x, p) as real / p
  }

  // ---- reading ----

  function Value(s: string): nat
    requires AllDigits(s)
  {
    if s == [] then 0 else 10 * Value(s[..|s| - 1]) + (s[|s| - 1] - '0') as nat
  }

  // Length of the longest prefix made of digits.
  function DigitRun(s: string): (k: nat)
    ensures k <= |s| && AllDigits(s[..k])
    ensures k < |s| ==> !IsDigit(s[k])
  {
    if s == [] || !IsDigit(s[0]) then 0
    else
      var k := 1 + DigitRun(s[1..]);
      assert s[1..][..k - 1] == s[1..k];
      assert forall i | 0 <= i < k :: s[..k][i] == if i == 0 then s[0] else s[1..][..k - 1][i - 1];
      k
  }

  // A natural number at the front of s, and what follows it.
  function ReadNat(s: string): Option<(nat, string)> {
    var k := DigitRun(s);
    if k == 0 then None else Some((Value(s[..k]), s[k..]))
  }

  // A whole token read as an integer or a decimal fraction.
  function ReadNumber(token: string): Option<real> {
    if token != [] && token[0] == '-' then
      var m :- ReadMagnitude(token[1..]);
      Some(-m)
    else
      ReadMagnitude(token)
  }

  function ReadMagnitude(s: string): Option<real> {
    var i := DigitRun(s);
    if s == [] then None
    else if i == |s| then Some(Value(s) as real)
    else if s[i] == '.' && |s| > 1 && AllDigits(s[i + 1..]) then
      Some(Value(s[..i] + s[i + 1..]) as real / Pow10(|s| - i - 1) as real)
    else None
  }

  // ---- reading undoes writing ----

  lemma {:induction false} ValueDec(n: nat)
    ensures Value(Dec(n)) == n
  {
    if n >= 10 {
      ValueDec(n / 10);
      assert Dec(n)[..|Dec(n)| - 1] == Dec(n / 10);
    }
  }

  lemma {:induction false} ValueZeros(k: nat, s: string)
    requires AllDigits(s)
    ensures Value(Zeros(k) + s) == Value(s)
  {
    if s != [] {
      assert (Zeros(k) + s)[..k + |s| - 1] == Zeros(k) + s[..|s| - 1];
      ValueZeros(k, s[..|s| - 1]);
    } else if k > 0 {
      assert Zeros(k) + s == Zeros(k);
      assert Zeros(k)[..k - 1] == Zeros(k - 1);
      ValueZeros(k - 1, []);
      assert Zeros(k - 1) + [] == Zeros(k - 1);
    }
  }

  lemma ValuePad(n: nat, k: nat)
    ensures Value(Pad(n, k)) == n
  {
    ValueDec(n);
    if |Dec(n)| < k {
      ValueZeros(k - |Dec(n)|, Dec(n));
    }
  }

  lemma {:induction false} ValueConcat(a: string, b: string)
    requires AllDigits(a) && AllDigits(b)
    ensures Value(a + b) == Value(a) * Pow10(|b|) + Value(b)
  {
    if b == [] {
      assert a + b == a;
    } else {
      var c := b[..|b| - 1];
      assert (a + b)[..|a| + |b| - 1] == a + c;
      ValueConcat(a, c);
      TenTimes(Value(a), Pow10(|c|));
    }
  }

  lemma TenTimes(v: nat, p: nat)
    ensures v * (10 * p) == 10 * (v * p)
  {
  }

  // `str(n)` has at most k digits exactly when n is below 10^k.
  lemma {:induction false} DecWidth(n: nat, k: nat)
    requires k >= 1
    ensures |Dec(n)| <= k <==> n < Pow10(k)
  {
    if n >= 10 {
      if k > 1 {
        DecWidth(n / 10, k - 1);
      }
    } else {
      assert Pow10(k - 1) >= 1;
    }
  }

  // A padded numeral has exactly k characters if and only if the number is below 10^k.
  lemma PadWidth(n: nat, k: nat)
    requires k >= 1
    ensures |Pad(n, k)| >= k
    ensures |Pad(n, k)| == k <==> n < Pow10(k)
  {
    DecWidth(n, k);
  }

  lemma {:induction false} DigitRunOf(d: string, rest: string)
    requires AllDigits(d)
    requires rest == [] || !IsDigit(rest[0])
    ensures DigitRun(d + rest) == |d|
  {
    if d == [] {
      assert d + rest == rest;
    } else {
      assert (d + rest)[1..] == d[1..] + rest;
      DigitRunOf(d[1..], rest);
    }
  }

  lemma ReadDec(n: nat, rest: string)
    requires rest == [] || !IsDigit(rest[0])
    ensures ReadNat(Dec(n) + rest) == Some((n, rest))
  {
    DigitRunOf(Dec(n), rest);
    ValueDec(n);
    assert (Dec(n) + rest)[..|Dec(n)|] == Dec(n);
    assert (Dec(n) + rest)[|Dec(n)|..] == rest;
  }

  lemma ReadNumberDec(n: nat)
    ensures ReadNumber(Dec(n)) == Some(n as real)
  {
    DigitRunOf(Dec(n), "");
    assert Dec(n) + "" == Dec(n);
    ValueDec(n);
    assert IsDigit(Dec(n)[0]);
  }

  lemma {:induction false} ReadMagnitudeFraction(a: string, b: string)
    requires AllDigits(a) && AllDigits(b) && a != []
    ensures ReadMagnitude(a + "." + b) == Some(Value(a + b) as real / Pow10(|b|) as real)
  {
    var s := a + "." + b;
    assert s == a + ("." + b);
    DigitRunOf(a, "." + b);
    assert s[..|a|] == a && s[|a| + 1..] == b;
  }

  lemma {:induction false} ReadPoint(m: nat, k: nat)
    requires k >= 1
    ensures ReadMagnitude(Point(m, k)) == Some(m as real / Pow10(k) as real)
    ensures IsDigit(Point(m, k)[0])
  {
    var (q, r) := DivMod(m, Pow10(k));
    ValueDec(q);
    ValuePad(r, k);
    PadWidth(r, k);
    ValueConcat(Dec(q), Pad(r, k));
    ReadMagnitudeFraction(Dec(q), Pad(r, k));
  }

  // Reading a formatted number gives the number rounded to the digits shown.
  lemma ReadFixed(x: real, k: nat)
    requires k >= 1
    ensures ReadNumber(Fixed(x, k)) == Some(Rounded(x, k))
  {
    ReadPoint(Scaled(x, Pow10(k) as real), k);
    if x < 0.0 {
      assert Fixed(x, k)[1..] == Point(Scaled(x, Pow10(k) as real), k);
    } else {
      assert Fixed(x, k) == Point(Scaled(x, Pow10(k) as real), k);
    }
  }

  // A number that is a whole count of 1/p is written exactly; no number moves by more than half of 1/p.
  lemma NearBounds(x: real, p: real)
    requires p >= 1.0
    ensures -0.5 <= Near(x, p) * p - x * p <= 0.5
    ensures (x * p).Floor as real == x * p ==> Near(x, p) == x
  {
    NearOf(x, p, x * p, Scaled(x, p), Near(x, p));
  }

  // Rounding never crosses a whole count of 1/p.
  lemma NearOrder(x: real, g: real, p: real)
    requires p >= 1.0 && (g * p).Floor as real == g * p
    ensures x <= g ==> Near(x, p) <= g
    ensures x >= g ==> Near(x, p) >= g
  {
    NearBounds(x, p);
    Quotient(Scaled(x, p) as real, p);
    var n: int := Scaled(x, p);
    hide Scaled;
    WholeOrder(x, g, Near(x, p), p, if x < 0.0 then -n else n);
  }

  lemma WholeOrder(x: real, g: real, z: real, p: real, n: int)
    requires p >= 1.0 && (g * p).Floor as real == g * p
    requires z * p == n as real && -0.5 <= n as real - x * p <= 0.5
    ensures x <= g ==> z <= g
    ensures x >= g ==> z >= g
  {
    var m := (g * p).Floor;
    if x <= g {
      Scale(x, g, p);
      assert n <= m;
      Unscale(z, g, p);
    }
    if x >= g {
      Scale(g, x, p);
      assert n >= m;
      Unscale(g, z, p);
    }
  }

  lemma Unscale(a: real, b: real, p: real)
    requires a * p <= b * p && p >= 1.0
    ensures a <= b
  {
    assert a > b ==> (a - b) * p > 0.0;
  }

  lemma Scale(a: real, b: real, p: real)
    requires a <= b && p >= 1.0
    ensures a * p <= b * p
  {
    assert (b - a) * p >= 0.0;
  }

  lemma NearOf(x: real, p: real, y: real, n: nat, z: real)
    requires p >= 1.0 && y == x * p && n == RoundHalfEven(Abs(y))
    requires z == if x < 0.0 then -(n as real / p) else n as real / p
    ensures -0.5 <= z * p - y <= 0.5
    ensures y.Floor as real == y ==> z == x
  {
    Quotient(n as real, p);
    SameSign(x, p);
    if y.Floor as real == y {
      WholeRound(y);
      Cancel(x, z, p);
    }
  }

  lemma Quotient(n: real, p: real)
    requires p >= 1.0
    ensures (n / p) * p == n && (-(n / p)) * p == -n
  {
  }

  lemma SameSign(x: real, p: real)
    requires p >= 1.0
    ensures x < 0.0 <==> x * p < 0.0
  {
    if x < 0.0 {
      assert (-x) * p > 0.0;
    } else {
      assert x * p >= 0.0;
    }
  }

  lemma WholeRound(y: real)
    requires y.Floor as real == y
    ensures RoundHalfEven(Abs(y)) as real == Abs(y)
  {
    var m := RoundHalfEven(Abs(y));
    var w: int := if y < 0.0 then -(y.Floor) else y.Floor;
    assert w as real == Abs(y);
  }

  lemma Cancel(a: real, b: real, p: real)
    requires p >= 1.0 && a * p == b * p
    ensures a == b
  {
    assert (a - b) * p == 0.0;
  }
}
