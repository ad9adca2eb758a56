/**
  The table sizes of kernel/hashmap.h: trial division by 2, 3 and 6k +- 1, and the search for the
  next prime, over naturals (the source's products are 32-bit).
*/
module Primes {
  predicate Divides(d: nat, n: nat)
    requires d > 0
  {
    n % d == 0
  }

  predicate Prime(n: nat) {
    n >= 2 && forall d :: 2 <= d < n ==> !Divides(d, n)
  }

  lemma Multiple(d: nat, q: nat)
    requires d > 0
    ensures Divides(d, d * q)
    decreases q
  {
    if q > 0 {
      Multiple(d, q - 1);
      assert d * q == d * (q - 1) + d;
      AddDivisor(d * (q - 1), d);
    }
  }

  lemma AddDivisor(n: nat, d: nat)
    requires d > 0
    ensures (n + d) % d == n % d
  {
    var q, r := n / d, n % d;
    assert n + d == d * (q + 1) + r;
    Remainder(n + d, q + 1, r, d);
  }

  lemma Remainder(a: nat, q: nat, r: nat, d: nat)
    requires d > 0 && a == d * q + r && r < d
    ensures a % d == r
  {
    var q' := a / d;
    assert d * (q - q') == a % d - r;
    Times(d, q - q');
  }

  lemma Times(d: nat, k: int)
    ensures k >= 1 ==> d * k >= d
    ensures k <= -1 ==> d * k <= 0 - d
  {
  }

  /** A divisor of a divisor divides. */
  lemma Through(d: nat, e: nat, n: nat)
    requires d > 0 && e > 0 && Divides(d, e) && Divides(e, n)
    ensures Divides(d, n)
  {
    var p, q := e / d, n / e;
    assert e == d * p && n == e * q;
    assert n == d * (p * q);
    Multiple(d, p * q);
  }

  /** Six numbers on from 6k - 1, only two need a test once 2 and 3 are known not to divide n. */
  lemma SixApart(n: nat, d: nat, e: nat)
    requires d % 6 == 0 && d >= 6 && !Divides(2, n) && !Divides(3, n)
    requires !Divides(d - 1, n) && !Divides(d + 1, n) && d - 1 <= e < d + 5
    ensures !Divides(e, n)
  {
    hide Divides;
    Residue(d, e);
    if Divides(e, n) && e != d - 1 && e != d + 1 {
      if Divides(2, e) { Through(2, e, n); } else { Through(3, e, n); }
    }
  }

  lemma Residue(d: nat, e: nat)
    requires d % 6 == 0 && d >= 6 && d - 1 <= e < d + 5
    ensures e == d - 1 || e == d + 1 || Divides(2, e) || Divides(3, e)
  {
  }

  /** With no divisor below r and r * r > n there is none at all. */
  lemma RootBound(n: nat, r: nat)
    requires n >= 2 && r >= 2 && r * r > n && forall e :: 2 <= e < r ==> !Divides(e, n)
    ensures forall e :: 2 <= e < n ==> !Divides(e, n)
  {
    forall e | 2 <= e < n ensures !Divides(e, n) {
      if e >= r && Divides(e, n) {
        var q := n / e;
        assert n == e * q;
        Middle(e, q, r);
        assert n == q * e;
        Multiple(q, e);
      }
    }
  }

  lemma Middle(e: nat, q: nat, r: nat)
    requires r <= e < e * q < r * r
    ensures 2 <= q < r
  {
    if q <= 1 { Times(e, q - 1); }
    if q >= r { Larger(e, q, r); }
  }

  lemma Larger(a: nat, b: nat, r: nat)
    requires a >= r && b >= r
    ensures a * b >= r * r
  {
    assert a * b >= r * b && r * b >= r * r;
  }

  predicate NoDivisor(n: nat, end: nat) {
    forall e :: 2 <= e < end ==> !Divides(e, n)
  }

  /** (d - 1) squared, as the loop computes it */
  function Bound(d: nat): int { d * d - 2 * d + 1 }

  /** IsPrime: right for every number but 1, which it takes for a prime. */
  method IsPrime(number: nat) returns (r: bool)
    ensures r <==> Prime(number) || number == 1
  {
    hide Prime, NoDivisor, Divides, Bound;
    Small();
    if number == 2 || number == 3 {
      return true;
    }
    if number % 2 == 0 || number % 3 == 0 {
      NotPrime(number);
      return false;
    }
    NoneBelowFive(number);
    var divisor := 6;
    while Bound(divisor) <= number
      invariant divisor >= 6 && divisor % 6 == 0 && NoDivisor(number, divisor - 1)
      decreases number + 6 - divisor
    {
      Inside(divisor, number);
      if number % (divisor - 1) == 0 {
        HasDivisor(number, divisor - 1);
        return false;
      }
      if number % (divisor + 1) == 0 {
        HasDivisor(number, divisor + 1);
        return false;
      }
      NoneInSix(number, divisor);
      divisor := divisor + 6;
    }
    NoneAtAll(number, divisor);
    return true;
  }

  lemma Small()
    ensures Prime(2) && Prime(3)
  {
    assert !Divides(2, 3);
  }

  lemma NoneBelowFive(n: nat)
    requires n % 2 != 0 && n % 3 != 0
    ensures NoDivisor(n, 5)
  {
    if Divides(4, n) {
      assert Divides(2, 4);
      Through(2, 4, n);
    }
  }

  lemma HasDivisor(n: nat, d: nat)
    requires 2 <= d < n && n % d == 0
    ensures !Prime(n) && n != 1
  {
    assert Divides(d, n);
  }

  lemma NoneInSix(n: nat, d: nat)
    requires d % 6 == 0 && d >= 6 && NoDivisor(n, d - 1) && n % (d - 1) != 0 && n % (d + 1) != 0
    ensures NoDivisor(n, d + 5)
  {
    assert !Divides(2, n) && !Divides(3, n);
    forall e | d - 1 <= e < d + 5 ensures !Divides(e, n) {
      SixApart(n, d, e);
    }
  }

  lemma NoneAtAll(n: nat, d: nat)
    requires d >= 6 && NoDivisor(n, d - 1) && Bound(d) > n && n != 0
    ensures Prime(n) || n == 1
  {
    assert (d - 1) * (d - 1) == d * d - 2 * d + 1;
    if n >= 2 {
      RootBound(n, d - 1);
    }
  }

  lemma NotPrime(n: nat)
    requires n != 2 && n != 3 && (n % 2 == 0 || n % 3 == 0)
    ensures !Prime(n) && n != 1
  {
    if n > 3 {
      assert Divides(2, n) || Divides(3, n);
    }
  }

  lemma Inside(d: nat, n: nat)
    requires d >= 6 && Bound(d) <= n
    ensures d + 1 < n
  {
    assert d * d >= 6 * d;
  }

  // ---- there is always a next prime

  function Factorial(n: nat): (f: nat)
    ensures f >= 1
  {
    if n == 0 then 1 else n * Factorial(n - 1)
  }

  lemma {:induction false} FactorialDivides(n: nat, d: nat)
    requires 1 <= d <= n
    ensures Divides(d, Factorial(n))
    decreases n
  {
    if d == n {
      Multiple(d, Factorial(n - 1));
    } else {
      FactorialDivides(n - 1, d);
      var q := Factorial(n - 1) / d;
      assert Factorial(n - 1) == d * q;
      assert Factorial(n) == d * (n * q);
      Multiple(d, n * q);
    }
  }

  /** The least divisor from 2 on is prime. */
  lemma {:induction false} LeastDivisor(n: nat, k: nat) returns (p: nat)
    requires 2 <= k <= n && forall e :: 2 <= e < k ==> !Divides(e, n)
    ensures Prime(p) && k <= p <= n && Divides(p, n)
    decreases n - k
  {
    if Divides(k, n) {
      p := k;
      forall d | 2 <= d < k ensures !Divides(d, k) {
        if Divides(d, k) { Through(d, k, n); }
      }
    } else {
      Itself(n);
      p := LeastDivisor(n, k + 1);
    }
  }

  lemma Itself(n: nat)
    requires n > 0
    ensures Divides(n, n)
  {
    Multiple(n, 1);
  }

  /** Euclid: beyond every number there is a prime. */
  lemma LargerPrime(a: nat) returns (p: nat)
    ensures Prime(p) && p > a
  {
    var n := Factorial(a) + 1;
    p := LeastDivisor(n, 2);
    if p <= a {
      FactorialDivides(a, p);
      Consecutive(n - 1, p);
    }
  }

  lemma Consecutive(n: nat, d: nat)
    requires d >= 2 && Divides(d, n)
    ensures !Divides(d, n + 1)
  {
    Remainder(n + 1, n / d, 1, d);
  }

  /** NextPrime: the least prime above a, for every a but 0. */
  method NextPrime(a: nat) returns (r: nat)
    ensures a >= 1 ==> Prime(r) && r > a && forall p :: a < p < r ==> !Prime(p)
    ensures a == 0 ==> r == 1
  {
    hide Prime, Divides;
    ghost var bound := LargerPrime(a + 1);
    r := a + 1;
    var prime := IsPrime(r);
    while !prime
      invariant a < r <= bound && (prime <==> Prime(r) || r == 1)
      invariant a == 0 ==> r == 1
      invariant forall p :: a < p < r ==> !Prime(p)
      decreases bound - r
    {
      r := r + 1;
      prime := IsPrime(r);
    }
  }
}
