/**
  IsPrime and NextPrime of kernel/hashmap.h on 32-bit words, as the kernel runs them: the square
  that the loop tests against wraps around.  It decides every word but one as it does over naturals.
*/
module PrimeWords {
  import P = Primes
  import T = TopPrime

  const WORD: nat := 0x1_0000_0000

  /** The largest 32-bit prime: no wrapped square exceeds it, so the search runs into the number itself. */
  const TOP: nat := T.TOP

  /** The square of this one wraps around to WORD - 15. */
  const ROOT: nat := 34716455

  type Word = x: nat | x < WORD

  /** (d - 1) squared, in 32 bits */
  function Square(d: nat): nat { P.Bound(d) % WORD }

  lemma SquareIs(d: nat)
    requires d >= 1
    ensures P.Bound(d) == (d - 1) * (d - 1) && Square(d) <= P.Bound(d)
    ensures P.Bound(d) < WORD ==> Square(d) == P.Bound(d)
  {
  }

  lemma Monotone(a: nat, b: nat)
    requires a <= b
    ensures a * a <= b * b
  {
  }

  /** Odd squares are 1 modulo 8, wrapped or not. */
  lemma OddSquare(x: nat)
    requires x % 2 == 1
    ensures x * x % WORD % 8 == 1
  {
    var h := x / 2;
    assert x == 2 * h + 1 && x * x == 4 * (h * (h + 1)) + 1;
    EvenProduct(h);
    Quadruple(h * (h + 1));
    WrapKeeps(x * x);
  }

  lemma Quadruple(m: nat)
    requires m % 2 == 0
    ensures (4 * m + 1) % 8 == 1
  {
  }

  lemma WrapKeeps(y: nat)
    requires y % 8 == 1
    ensures y % WORD % 8 == 1
  {
  }

  lemma EvenProduct(h: nat)
    ensures h * (h + 1) % 2 == 0
    decreases h
  {
    if h > 0 {
      EvenProduct(h - 1);
      assert h * (h + 1) == (h - 1) * h + 2 * h;
    }
  }

  /** The words above WORD - 16 are composite, TOP apart. */
  lemma NearTop(n: Word) returns (c: nat)
    requires n > WORD - 16 && n != TOP && n % 2 != 0 && n % 3 != 0
    ensures 2 <= c < 100000 && n % c == 0
  {
    c := if n == WORD - 15 then 11 else if n == WORD - 11 then 5 else if n == WORD - 9 then 13 else 9241;
  }

  /** How far the search can get for each number: below the first case no square wraps. */
  ghost predicate Reach(n: Word, d: nat) {
    && d >= 6 && d % 6 == 0
    && (n < 65531 * 65531 ==> d - 1 <= 65531)
    && (n <= WORD - 16 ==> d - 1 <= ROOT)
    && (n == TOP ==> d - 1 <= TOP)
  }

  /** Where a divisor is tried it is below the number, or it is TOP itself. */
  lemma Inside(n: Word, d: nat)
    requires Reach(n, d) && P.NoDivisor(n, d - 1) && Square(d) <= n && n % 2 != 0 && n % 3 != 0
    ensures d + 1 < n || (n == TOP && d - 1 == TOP)
  {
    if n < 65531 * 65531 {
      SmallSquare(d);
      P.Inside(d, n);
    } else if n > WORD - 16 && n != TOP {
      var c := NearTop(n);
      assert P.Divides(c, n);
    }
  }

  lemma SmallSquare(d: nat)
    requires 1 <= d <= 65532
    ensures Square(d) == P.Bound(d) <= 65531 * 65531
  {
    SquareIs(d);
    Monotone(d - 1, 65531);
  }

  lemma Onward(n: Word, d: nat)
    requires Reach(n, d) && Square(d) <= n && !(n == TOP && d - 1 == TOP)
    ensures Reach(n, d + 6)
  {
    if n < 65531 * 65531 { SmallSquare(d); }
    if d - 1 == 65531 { SquareIs(d); }
    if d - 1 == ROOT { RootSquare(); }
  }

  lemma RootSquare()
    ensures Square(ROOT + 1) == WORD - 15
  {
    SquareIs(ROOT + 1);
  }

  /** Where the search stops there is no divisor at all, and the number is not TOP. */
  lemma Stops(n: Word, d: nat)
    requires Reach(n, d) && P.NoDivisor(n, d - 1) && Square(d) > n && n != 0
    ensures (P.Prime(n) || n == 1) && n != TOP
  {
    hide P.NoDivisor, P.Prime, P.Bound;
    SquareIs(d);
    P.NoneAtAll(n, d);
    BelowTop(d);
  }

  lemma BelowTop(d: nat)
    requires d >= 1 && d % 6 == 0
    ensures Square(d) < TOP
  {
    SquareIs(d);
    OddSquare(d - 1);
  }

  /** What IsPrime takes for a prime: the primes but TOP, and 1. */
  predicate Taken(n: nat) { (P.Prime(n) || n == 1) && n != TOP }

  /** So it is wrong about two words: 1, and the prime TOP. */
  lemma WrongAtTwo(n: Word)
    ensures (Taken(n) <==> P.Prime(n)) <==> n != 1 && n != TOP
    ensures Taken(1) && !P.Prime(1) && !Taken(TOP) && P.Prime(TOP)
  {
    T.TopIsPrime();
  }

  method IsPrime(number: Word) returns (r: bool)
    ensures r <==> Taken(number)
  {
    hide P.Prime, P.NoDivisor, P.Divides, P.Bound, Reach, Square;
    P.Small();
    if number == 2 || number == 3 {
      return true;
    }
    if number % 2 == 0 || number % 3 == 0 {
      P.NotPrime(number);
      return false;
    }
    P.NoneBelowFive(number);
    var divisor: Word := 6;
    assert Reach(number, 6) by { Begin(number); }
    while Square(divisor) <= number
      invariant Reach(number, divisor) && P.NoDivisor(number, divisor - 1) && divisor >= 6 && divisor % 6 == 0
      decreases number + 6 - divisor
    {
      Inside(number, divisor);
      if number % (divisor - 1) == 0 {
        if divisor - 1 < number { P.HasDivisor(number, divisor - 1); }
        return false;
      }
      if number % (divisor + 1) == 0 {
        P.HasDivisor(number, divisor + 1);
        return false;
      }
      Onward(number, divisor);
      P.NoneInSix(number, divisor);
      divisor := divisor + 6;
    }
    Stops(number, divisor);
    return true;
  }

  lemma Begin(n: Word)
    ensures Reach(n, 6)
  {
  }

  /** Some number above a is taken for a prime. */
  ghost predicate More(a: Word) { exists p: Word :: a < p && Taken(p) }

  /**
    NextPrime: the least number above a that is taken for a prime; when there is none, `++a` has
    wrapped around and 1 is returned.
  */
  method NextPrime(a: Word) returns (r: Word)
    ensures More(a) ==> a < r && Taken(r) && forall p :: a < p < r ==> !Taken(p)
    ensures !More(a) ==> r == 1
  {
    hide Taken;
    ghost var steps := 1;
    r := (a + 1) % WORD;
    var prime := IsPrime(r);
    OneTaken();
    while !prime
      invariant 1 <= steps <= WORD + 1 - a && r == (a + steps) % WORD && (prime <==> Taken(r))
      invariant forall p :: a < p < a + steps && p < WORD ==> !Taken(p)
      decreases WORD + 1 - a - steps
    {
      steps := steps + 1;
      r := (r + 1) % WORD;
      prime := IsPrime(r);
    }
    if a + steps >= WORD {
      assert r <= 1;
      NoneTaken();
    }
  }

  lemma OneTaken()
    ensures Taken(1)
  {
  }

  lemma NoneTaken()
    ensures !Taken(0)
  {
  }

  /** So it is the least prime above a wherever there is a 32-bit prime other than TOP above a. */
  lemma LeastPrime(a: Word, r: Word)
    requires a >= 1 && exists p: Word :: a < p && P.Prime(p) && p != TOP
    requires a < r && Taken(r) && forall p :: a < p < r ==> !Taken(p)
    ensures P.Prime(r) && forall p :: a < p < r ==> !P.Prime(p)
  {
    hide P.Prime;
    if r > TOP { TopLast(r); }
    forall p | a < p < r ensures !P.Prime(p) {
      assert !Taken(p);
    }
  }

  lemma TopLast(n: Word)
    requires n > TOP
    ensures !P.Prime(n)
  {
    if n % 2 == 0 || n % 3 == 0 {
      P.NotPrime(n);
    } else {
      var c := NearTop(n);
      P.HasDivisor(n, c);
    }
  }
}
