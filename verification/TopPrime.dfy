/** 2^32 - 5 is prime, by powers of one number modulo it (Pocklington's criterion). */
module TopPrime {
  import opened Primes

  const TOP: nat := 4294967291
  const FACTOR: nat := 22605091    // of TOP - 1; FACTOR - 1 has the factor 181 twice

  /** a times b, modulo m */
  function Mul(a: nat, b: nat, m: nat): (r: nat)
    requires m > 0
    ensures r < m
  {
    a * b % m
  }

  /** g to the e, modulo m */
  function Power(g: nat, e: nat, m: nat): (r: nat)
    requires m > 0
    ensures r < m
  {
    if e == 0 then 1 % m else Mul(g, Power(g, e - 1, m), m)
  }

  lemma SameRemainder(a: int, b: int, m: nat, k: int)
    requires m > 0 && a == b + m * k
    ensures a % m == b % m
  {
    var q := a / m - k - b / m;
    assert m * q == b % m - a % m;
    Times(m, q);
  }

  /** Reducing a factor modulo a multiple of m does not matter modulo m. */
  lemma ReduceFactor(a: nat, b: nat, n: nat, m: nat)
    requires n > 0 && m > 0 && Divides(m, n)
    ensures a % n * b % m == a * b % m
  {
    var q, d := a / n, n / m;
    assert a == a % n + n * q && n == m * d;
    Factored(a, a % n, m, d, q, b);
    SameRemainder(a * b, a % n * b, m, d * q * b);
  }

  lemma Factored(a: nat, r: nat, m: nat, d: nat, q: nat, b: nat)
    requires a == r + m * d * q
    ensures a * b == r * b + m * (d * q * b)
  {
    assert m * d * q * b == m * (d * q * b);
  }

  lemma MulAssociates(a: nat, b: nat, c: nat, m: nat)
    requires m > 0
    ensures Mul(Mul(a, b, m), c, m) == Mul(a, Mul(b, c, m), m)
  {
    ReduceFactor(a * b, c, m, m);
    ReduceFactor(b * c, a, m, m);
    assert a * b * c == b * c * a && a * (b * c % m) == b * c % m * a;
  }

  lemma MulOne(a: nat, m: nat)
    requires a < m
    ensures Mul(1, a, m) == a && Mul(a, 1, m) == a && Mul(0, a, m) == 0
  {
  }

  lemma PowerZero(g: nat, m: nat)
    requires m > 1
    ensures Power(g, 0, m) == 1
  {
  }

  lemma MulModulo(a: nat, b: nat, m: nat, p: nat)
    requires m > 0 && p > 0 && Divides(p, m)
    ensures Mul(a, b, m) % p == Mul(a, b % p, p)
  {
    ReduceFactor(a * b, 1, m, p);
    ReduceFactor(b, a, p, p);
    assert b % p * a == a * (b % p) && b * a == a * b;
  }

  lemma {:induction false} PowerSum(g: nat, a: nat, b: nat, m: nat)
    requires m > 1
    ensures Power(g, a + b, m) == Mul(Power(g, a, m), Power(g, b, m), m)
    decreases a
  {
    hide Mul;
    if a == 0 {
      PowerZero(g, m);
      MulOne(Power(g, b, m), m);
    } else {
      PowerSum(g, a - 1, b, m);
      assert a + b - 1 == (a - 1) + b;
      MulAssociates(g, Power(g, a - 1, m), Power(g, b, m), m);
    }
  }

  /** Modulo a divisor of m */
  lemma {:induction false} PowerModulo(g: nat, e: nat, m: nat, p: nat)
    requires m > 0 && p > 0 && Divides(p, m)
    ensures Power(g, e, m) % p == Power(g, e, p)
    decreases e
  {
    hide Mul, Divides;
    if e == 0 {
      ReduceFactor(1, 1, m, p);
    } else {
      PowerModulo(g, e - 1, m, p);
      MulModulo(g, Power(g, e - 1, m), m, p);
    }
  }

  // ---- the period of the powers of h modulo p

  /** t is the first exponent above 0 with power 1. */
  ghost predicate Period(h: nat, p: nat, t: nat) {
    p > 1 && t > 0 && Power(h, t, p) == 1 && forall j :: 0 < j < t ==> Power(h, j, p) != 1
  }

  lemma FindPeriod(h: nat, p: nat, e: nat, t0: nat) returns (t: nat)
    requires p > 1 && 0 < t0 <= e && Power(h, e, p) == 1 && forall j :: 0 < j < t0 ==> Power(h, j, p) != 1
    ensures Period(h, p, t)
    decreases e - t0
  {
    hide Power;
    if Power(h, t0, p) == 1 { t := t0; } else { t := FindPeriod(h, p, e, t0 + 1); }
  }

  lemma {:induction false} Periods(h: nat, p: nat, t: nat, q: nat)
    requires p > 1 && Power(h, t, p) == 1
    ensures Power(h, t * q, p) == 1
    decreases q
  {
    hide Power, Mul;
    if q == 0 {
      PowerZero(h, p);
    } else {
      Periods(h, p, t, q - 1);
      Beyond(h, p, t * (q - 1), t);
      assert t * q == t * (q - 1) + t;
    }
  }

  lemma PeriodDivides(h: nat, p: nat, t: nat, e: nat)
    requires Period(h, p, t)
    ensures Power(h, e, p) == 1 <==> Divides(t, e)
  {
    hide Power, Mul;
    var q, r := e / t, e % t;
    assert t * q + r == e;
    Periods(h, p, t, q);
    Beyond(h, p, t * q, r);
    PowerZero(h, p);
  }

  lemma Beyond(h: nat, p: nat, e: nat, r: nat)
    requires p > 1 && Power(h, e, p) == 1
    ensures Power(h, e + r, p) == Power(h, r, p)
  {
    hide Power, Mul;
    PowerSum(h, e, r, p);
    MulOne(Power(h, r, p), p);
  }

  // ---- divisors of a prime and of its square

  /** x is the first number above 0 whose product with s is a multiple of f. */
  ghost predicate First(f: nat, s: nat, x: nat) {
    f > 0 && x > 0 && Divides(f, x * s) && forall y :: 0 < y < x ==> !Divides(f, y * s)
  }

  lemma FindFirst(f: nat, s: nat, x0: nat) returns (x: nat)
    requires f > 0 && 0 < x0 <= f && forall y :: 0 < y < x0 ==> !Divides(f, y * s)
    ensures First(f, s, x) && x <= f
    decreases f - x0
  {
    if Divides(f, x0 * s) {
      x := x0;
    } else {
      Multiple(f, s);
      x := FindFirst(f, s, x0 + 1);
    }
  }

  lemma FirstDivides(f: nat, s: nat, x: nat, y: nat)
    requires First(f, s, x) && Divides(f, y * s)
    ensures Divides(x, y)
  {
    var q, r, k := y / x, y % x, x * s / f;
    Expand(x, q, r, s, f, k);
    SameRemainder(y * s, r * s, f, k * q);
    assert Divides(f, r * s);
  }

  lemma Expand(x: nat, q: nat, r: nat, s: nat, f: nat, k: nat)
    requires x * s == f * k
    ensures (x * q + r) * s == r * s + f * (k * q)
  {
    assert (x * q + r) * s == r * s + x * s * q;
    assert f * k * q == f * (k * q);
  }

  /** Euclid's lemma */
  lemma PrimeDivides(f: nat, t: nat, s: nat)
    requires Prime(f) && Divides(f, t * s) && !Divides(f, t)
    ensures Divides(f, s)
  {
    var x := FindFirst(f, s, 1);
    Multiple(f, s);
    FirstDivides(f, s, x, f);
    FirstDivides(f, s, x, t);
    assert x == 1 || x == f;
  }

  /** A divisor of f or f * f that does not divide it with one f less is all of it. */
  lemma WholePower(f: nat, big: nat, t: nat)
    requires Prime(f) && (big == f || big == f * f) && t > 0 && Divides(t, big) && !Divides(t, big / f)
    ensures t == big
  {
    if big == f {
      Quotients(1, f);
      DivisorBound(t, f);
      Multiple(1, 1);
      assert t == 1 || t == f;
    } else {
      var s := big / t;
      assert big == t * s;
      Quotients(f, f);
      SquareDivisor(f, t, s);
    }
  }

  lemma SquareDivisor(f: nat, t: nat, s: nat)
    requires Prime(f) && f > 0 && t > 0 && t * s == f * f && !Divides(t, f)
    ensures t == f * f
  {
    hide Divides, Prime;
    Multiple(f, f);
    if Divides(f, s) {
      var w: nat := Cofactor(f, s);
      assert f * f == t * (f * w) == f * (t * w);
      Cancel(f, f, t * w);
      Multiple(t, w);
    } else {
      assert t * s == s * t;
      PrimeDivides(f, s, t);
      var w := Cofactor(f, t);
      assert f * w * s == f * (w * s);
      Cancel(f, f, w * s);
      Multiple(s, w);
      assert s * w == w * s;
      PrimeDivisor(f, s);
      Multiple(f, 1);
      assert s != f;
    }
  }

  lemma Cofactor(f: nat, s: nat) returns (w: nat)
    requires f > 0 && Divides(f, s)
    ensures s == f * w
  {
    w := s / f;
  }

  lemma PrimeDivisor(f: nat, s: nat)
    requires Prime(f) && s > 0 && Divides(s, f)
    ensures s == 1 || s == f
  {
    DivisorBound(s, f);
  }

  lemma Quotients(a: nat, b: nat)
    requires b > 0
    ensures a * b / b == a
  {
    var d := a * b / b - a;
    assert b * d == 0 - a * b % b;
    Multiple(b, a);
    Times(b, d);
  }

  lemma Cancel(f: nat, a: nat, b: nat)
    requires f > 0 && f * a == f * b
    ensures a == b
  {
    assert f * (a - b) == 0;
    Times(f, a - b);
  }

  lemma DivisorBound(t: nat, f: nat)
    requires t > 0 && f > 0 && Divides(t, f)
    ensures t <= f
  {
  }

  // ---- as many different powers as the period is long

  lemma {:induction false} DistinctFit(s: seq<nat>, n: nat)
    requires forall i :: 0 <= i < |s| ==> 0 < s[i] < n
    requires forall i, j :: 0 <= i < j < |s| ==> s[i] != s[j]
    ensures n > 0 ==> |s| < n
    ensures n == 0 ==> s == []
    decreases n
  {
    var first := if s == [] then 1 else s[0];
    if n <= 1 {
      assert s == [];
    } else if i :| 0 <= i < |s| && s[i] == n - 1 {
      var r := s[..i] + s[i + 1..];
      assert forall k :: 0 <= k < |r| ==> r[k] == if k < i then s[k] else s[k + 1];
      DistinctFit(r, n - 1);
    } else {
      DistinctFit(s, n - 1);
    }
  }

  lemma PowersApart(h: nat, p: nat, t: nat, i: nat, j: nat)
    requires Period(h, p, t) && i < j < t
    ensures Power(h, i, p) != Power(h, j, p)
  {
    hide Power, Mul;
    Around(h, p, t, i, t - i, 0);
    Around(h, p, t, j, t - i, j - i);
    PowerZero(h, p);
  }

  /** Up to the end of the period, and d beyond it. */
  lemma Around(h: nat, p: nat, t: nat, j: nat, k: nat, d: nat)
    requires p > 1 && Power(h, t, p) == 1 && j + k == d + t
    ensures Mul(Power(h, j, p), Power(h, k, p), p) == Power(h, d, p)
  {
    hide Power, Mul;
    PowerSum(h, j, k, p);
    PowerSum(h, d, t, p);
    MulOne(Power(h, d, p), p);
  }

  lemma PeriodFits(h: nat, p: nat, t: nat)
    requires Period(h, p, t)
    ensures t < p
  {
    hide Power, Mul;
    var s := seq(t, (i: nat) => Power(h, i, p));
    forall i | 0 <= i < t ensures 0 < s[i] < p {
      PowerSum(h, i, t - i, p);
      MulOne(Power(h, t - i, p), p);
    }
    forall i, j | 0 <= i < j < t ensures s[i] != s[j] {
      PowersApart(h, p, t, i, j);
    }
    DistinctFit(s, p);
  }

  // ---- the criterion

  /** A number h with these powers shows that every prime divisor of n is above `big`. */
  lemma DivisorAbove(n: nat, f: nat, big: nat, h: nat, k: nat, u: nat, p: nat)
    requires Prime(f) && (big == f || big == f * f) && n > 1
    requires Power(h, big, n) == 1 && Power(h, big / f, n) == k >= 1 && u * (k - 1) % n == 1
    requires Prime(p) && Divides(p, n)
    ensures p > big
  {
    hide Power, Mul, Divides;
    assert 1 % p == 1;
    PowerModulo(h, big, n, p);
    PowerModulo(h, big / f, n, p);
    var t := FindPeriod(h, p, big, 1);
    PeriodDivides(h, p, t, big);
    PeriodDivides(h, p, t, big / f);
    if Divides(t, big / f) {
      NotBoth(n, p, k, u);
    } else {
      WholePower(f, big, t);
      PeriodFits(h, p, t);
    }
  }

  /** k - 1 has an inverse modulo n, so no divisor of n divides it. */
  lemma NotBoth(n: nat, p: nat, k: nat, u: nat)
    requires p > 1 && n > 1 && Divides(p, n) && k >= 1 && u * (k - 1) % n == 1
    ensures k % p != 1
  {
    if k % p == 1 {
      var a, y := k / p, u * (k - 1);
      assert k - 1 == p * a && y == p * (u * a);
      var d := n / p;
      assert n == p * d && y == n * (y / n) + 1;
      assert p * (u * a - d * (y / n)) == 1;
      Times(p, u * a - d * (y / n));
    }
  }

  lemma Criterion(n: nat, f: nat, big: nat, h: nat, k: nat, u: nat)
    requires f > 0 && Prime(f) && (big == f || big == f * f) && n > 1 && big >= 2 && big * big > n
    requires Power(h, big, n) == 1 && Power(h, big / f, n) == k >= 1 && u * (k - 1) % n == 1
    ensures Prime(n)
  {
    forall e | 2 <= e < big ensures !Divides(e, n) {
      if Divides(e, n) {
        var p := LeastDivisor(e, 2);
        Through(p, e, n);
        DivisorAbove(n, f, big, h, k, u, p);
      }
    }
    RootBound(n, big);
  }

  // ---- the numbers

  predicate PowerIs(h: nat, m: nat, e: nat, x: nat) { m > 1 && Power(h, e, m) == x }

  lemma One(h: nat, m: nat)
    requires 1 < m && h < m
    ensures PowerIs(h, m, 1, h)
  {
    PowerZero(h, m);
    MulOne(h, m);
  }

  lemma Even(h: nat, m: nat, e: nat, x: nat, q: nat, y: nat)
    requires PowerIs(h, m, e, x) && x * x == m * q + y && y < m
    ensures PowerIs(h, m, e + e, y)
  {
    hide Power;
    PowerSum(h, e, e, m);
    Remainder(x * x, q, y, m);
  }

  lemma Odd(h: nat, m: nat, e: nat, x: nat, q: nat, y: nat, q': nat, z: nat)
    requires PowerIs(h, m, e, x) && x * x == m * q + y && h * y == m * q' + z && y < m && z < m
    ensures PowerIs(h, m, e + e + 1, z)
  {
    Even(h, m, e, x, q, y);
    Remainder(h * y, q', z, m);
  }

  lemma Prime181()
    ensures Prime(181)
  {
    assert forall e :: 2 <= e < 14 ==> !Divides(e, 181);
    RootBound(181, 14);
  }

  lemma FactorPower181()
    ensures PowerIs(18389778, 22605091, 181, 13954217)
  {
    hide PowerIs;
    One(18389778, 22605091);
    Even(18389778, 22605091, 1, 18389778, 14960520, 18881964);
    Odd(18389778, 22605091, 2, 18881964, 15772047, 6806019, 5536857, 22134795);
    Odd(18389778, 22605091, 5, 22134795, 21674283, 10117272, 8230640, 19857376);
    Even(18389778, 22605091, 11, 19857376, 17443653, 18167953);
    Odd(18389778, 22605091, 22, 18167953, 14601777, 18363502, 14939144, 15500452);
    Even(18389778, 22605091, 45, 15500452, 10628756, 15607508);
    Odd(18389778, 22605091, 90, 15607508, 10776081, 14341693, 11667307, 13954217);
  }

  lemma FactorPower32761()
    ensures PowerIs(18389778, 22605091, 32761, 1)
  {
    hide PowerIs;
    One(18389778, 22605091);
    Odd(18389778, 22605091, 1, 18389778, 14960520, 18881964, 15360925, 18694817);
    Odd(18389778, 22605091, 3, 18694817, 15460950, 967039, 786709, 3991823);
    Odd(18389778, 22605091, 7, 3991823, 704914, 5746155, 4674633, 10446987);
    Odd(18389778, 22605091, 15, 10446987, 4828095, 10546524, 8579847, 12830595);
    Odd(18389778, 22605091, 31, 12830595, 7282614, 15866151, 12907490, 8572888);
    Odd(18389778, 22605091, 63, 8572888, 3251232, 13438432, 10932483, 8077143);
    Odd(18389778, 22605091, 127, 8077143, 2886086, 2378623, 1935066, 5894688);
    Odd(18389778, 22605091, 255, 5894688, 1537146, 21407058, 17415149, 16329565);
    Odd(18389778, 22605091, 511, 16329565, 11796222, 21323023, 17346785, 5776459);
    Odd(18389778, 22605091, 1023, 5776459, 1476104, 13333217, 10846888, 10349018);
    Odd(18389778, 22605091, 2047, 10349018, 4737966, 20979418, 17067254, 9799090);
    Even(18389778, 22605091, 4095, 9799090, 4247811, 10622299);
    Even(18389778, 22605091, 8190, 10622299, 4991496, 14739265);
    Odd(18389778, 22605091, 16380, 14739265, 9610486, 22155999, 18024431, 1);
  }

  lemma FactorPrime()
    ensures Prime(FACTOR)
  {
    hide Prime, Power;
    Prime181();
    FactorPower181();
    FactorPower32761();
    Criterion(FACTOR, 181, 181 * 181, 18389778, 13954217, 19569746);
  }

  lemma TopPower()
    ensures PowerIs(1073745729, 4294967291, 22605091, 1)
  {
    hide PowerIs;
    One(1073745729, 4294967291);
    Even(1073745729, 4294967291, 1, 1073745729, 268437408, 3504919713);
    Odd(1073745729, 4294967291, 2, 3504919713, 2860199243, 148041656, 37010548, 2762101756);
    Even(1073745729, 4294967291, 5, 2762101756, 1776312971, 1474251975);
    Odd(1073745729, 4294967291, 10, 1474251975, 506038518, 2995285887, 748824195, 4065820878);
    Odd(1073745729, 4294967291, 21, 4065820878, 3848899954, 3219286270, 804824495, 1820247785);
    Even(1073745729, 4294967291, 43, 1820247785, 771438237, 3855700258);
    Even(1073745729, 4294967291, 86, 3855700258, 3461359184, 1858816020);
    Even(1073745729, 4294967291, 172, 1858816020, 804475741, 2210652769);
    Odd(1073745729, 4294967291, 344, 2210652769, 1137840019, 1091548832, 272888200, 3255072328);
    Odd(1073745729, 4294967291, 689, 3255072328, 2466956123, 3894166791, 973545239, 2036108090);
    Odd(1073745729, 4294967291, 1379, 2036108090, 965254418, 1360206462, 340052852, 2579436866);
    Even(1073745729, 4294967291, 2759, 2579436866, 1549137419, 1810740027);
    Odd(1073745729, 4294967291, 5518, 1810740027, 763400329, 2386321990, 596582667, 3638735613);
    Odd(1073745729, 4294967291, 11037, 3638735613, 3082770127, 177569812, 44392614, 2142344274);
    Even(1073745729, 4294967291, 22075, 2142344274, 1068608601, 164317185);
    Odd(1073745729, 4294967291, 44150, 164317185, 6286459, 1505111656, 376279282, 3827152162);
    Even(1073745729, 4294967291, 88301, 3827152162, 3410292251, 305512203);
    Even(1073745729, 4294967291, 176602, 305512203, 21731878, 999910711);
    Odd(1073745729, 4294967291, 353204, 999910711, 232789067, 1505118024, 376280874, 3852027162);
    Even(1073745729, 4294967291, 706409, 3852027162, 3454767464, 894754220);
    Even(1073745729, 4294967291, 1412818, 894754220, 186400747, 2824842023);
    Even(1073745729, 4294967291, 2825636, 2824842023, 1857926245, 3541280234);
    Odd(1073745729, 4294967291, 5651272, 3541280234, 2919851269, 779252477, 194813827, 4191888076);
    Odd(1073745729, 4294967291, 11302545, 4191888076, 4091282762, 688844034, 172211635, 1);
  }

  lemma TopIsPrime()
    ensures Prime(TOP)
  {
    hide Prime, Power;
    FactorPrime();
    TopPower();
    One(1073745729, TOP);
    Criterion(TOP, FACTOR, FACTOR, 1073745729, 1073745729, 1771216906);
  }
}
