/** The sieve of `utils/utilsNumbers.go`. */
module Sieve {
  import opened Prelude

  /** `k` is the product of two numbers above 1. */
  ghost predicate Splits(k: int, d: int, q: int) {
    d > 1 && q > 1 && k == d * q
  }

  ghost predicate IsPrime(p: int) {
    p >= 2 && forall d, q :: !Splits(p, d, q)
  }

  lemma ProductMonotone(a: int, b: int, c: int, d: int)
    requires 0 <= a <= c && 0 <= b <= d
    ensures a * b <= c * d
  {
    assert c * d - a * b == (c - a) * d + a * (d - b);
    NonNegativeProduct(c - a, d);
    NonNegativeProduct(a, d - b);
  }

  lemma NonNegativeProduct(a: int, b: int)
    requires a >= 0 && b >= 0
    ensures a * b >= 0
  {
  }

  /** Some factor not above `d` is prime. */
  lemma {:induction false} PrimeFactorUpTo(k: int, d: int, q: int) returns (p: int, r: int)
    requires Splits(k, d, q)
    ensures IsPrime(p) && Splits(k, p, r) && p <= d
    decreases d
  {
    if IsPrime(d) {
      p, r := d, q;
    } else {
      var e, f :| Splits(d, e, f);
      ProductMonotone(e, 2, e, f);
      ProductMonotone(1, 2, f, q);
      assert k == e * (f * q);
      p, r := PrimeFactorUpTo(k, e, f * q);
    }
  }

  /** A composite number has a prime factor not above its cofactor. */
  lemma SmallPrimeFactor(k: int) returns (p: int, r: int)
    requires k >= 2 && !IsPrime(k)
    ensures IsPrime(p) && Splits(k, p, r) && p <= r
  {
    var d, q :| Splits(k, d, q);
    var lo, hi := if d <= q then d else q, if d <= q then q else d;
    p, r := PrimeFactorUpTo(k, lo, hi);
    if r < p {
      ProductMonotone(p, r, p, p - 1);
      ProductMonotone(p, p, lo, hi);
    }
  }

  /** Everything marked is composite. */
  ghost predicate OnlyCompositesMarked(c: seq<bool>) {
    forall k :: 2 <= k < |c| && c[k] ==> !IsPrime(k)
  }

  /** Every multiple of a prime below `i`, from the prime's square on, is marked. */
  ghost predicate MultiplesMarked(c: seq<bool>, i: int) {
    forall k, p, r :: Splits(k, p, r) && p < i && IsPrime(p) && p <= r && k < |c| ==> c[k]
  }

  /** The multiples `i * r` with `i <= r < m` are marked. */
  ghost predicate MarkedUpTo(c: seq<bool>, i: int, m: int) {
    forall k, r :: Splits(k, i, r) && i <= r < m && k < |c| ==> c[k]
  }

  /** Marking up to the square root is enough. */
  lemma MarkedIffComposite(c: seq<bool>, i: int)
    requires OnlyCompositesMarked(c) && MultiplesMarked(c, i) && i >= 2 && i * i >= |c|
    ensures forall k :: 2 <= k < |c| ==> (c[k] <==> !IsPrime(k))
  {
    forall k | 2 <= k < |c| && !IsPrime(k) ensures c[k] {
      var p, r := SmallPrimeFactor(k);
      if p >= i {
        ProductMonotone(i, i, p, r);
      }
    }
  }

  /** The next multiple of `i` is composite and may be marked. */
  lemma MarkNext(c: seq<bool>, i: int, m: int, j: int)
    requires 2 <= i <= m && j == i * m && j < |c|
    requires OnlyCompositesMarked(c) && MultiplesMarked(c, i) && MarkedUpTo(c, i, m)
    ensures 0 <= j
    ensures var d := c[j := true]; OnlyCompositesMarked(d) && MultiplesMarked(d, i) && MarkedUpTo(d, i, m + 1)
  {
    assert Splits(j, i, m);
  }

  /** Once the multiples run out of the table, all multiples of `i` are marked. */
  lemma MarkingEnds(c: seq<bool>, i: int, m: int)
    requires 2 <= i <= m && i * m >= |c|
    requires MultiplesMarked(c, i) && MarkedUpTo(c, i, m)
    ensures MultiplesMarked(c, i + 1)
  {
    forall k, p, r | Splits(k, p, r) && p < i + 1 && IsPrime(p) && p <= r && k < |c| ensures c[k] {
      if p == i && r >= m {
        ProductMonotone(i, m, i, r);
      }
    }
  }

  lemma AppendLargest(ps: seq<int>, j: int)
    requires forall p :: p in ps ==> p < j
    requires forall a, b :: 0 <= a < b < |ps| ==> ps[a] < ps[b]
    ensures forall a, b :: 0 <= a < b < |ps + [j]| ==> (ps + [j])[a] < (ps + [j])[b]
    ensures forall p :: p in ps + [j] <==> p in ps || p == j
  {
    assert forall a :: 0 <= a < |ps| ==> ps[a] in ps;
  }

  /** The inner loop: marks the multiples of `i` from its square on. */
  method MarkMultiples(composite: array<bool>, i: int)
    requires i >= 2 && OnlyCompositesMarked(composite[..]) && MultiplesMarked(composite[..], i)
    modifies composite
    ensures OnlyCompositesMarked(composite[..]) && MultiplesMarked(composite[..], i + 1)
  {
    var j := i * i;
    ghost var m := i;
    while j < composite.Length
      invariant m >= i && j == i * m
      invariant OnlyCompositesMarked(composite[..]) && MultiplesMarked(composite[..], i)
      invariant MarkedUpTo(composite[..], i, m)
      decreases composite.Length - j
    {
      MarkNext(composite[..], i, m, j);
      ghost var before := composite[..];
      composite[j] := true;
      assert composite[..] == before[j := true];
      j := j + i;
      m := m + 1;
    }
    MarkingEnds(composite[..], i, m);
  }

  /** A marked number has its multiples marked already, being composite. */
  lemma CompositeNeedsNoMarking(c: seq<bool>, i: int)
    requires 2 <= i < |c| && c[i] && OnlyCompositesMarked(c) && MultiplesMarked(c, i)
    ensures MultiplesMarked(c, i + 1)
  {
  }

  method SieveOfEratosthenes(M: int, N: int) returns (primes: seq<int>)
    ensures forall p :: p in primes <==> Max(M, 2) <= p < N && IsPrime(p)
    ensures forall i, j :: 0 <= i < j < |primes| ==> primes[i] < primes[j]
  {
    if N < 3 {
      primes := [];
      return;
    }
    var composite := new bool[N](_ => false);
    var i := 2;
    while i * i < N
      invariant i >= 2
      invariant OnlyCompositesMarked(composite[..]) && MultiplesMarked(composite[..], i)
      decreases N - i
    {
      ProductMonotone(i, 1, i, i);
      if !composite[i] {
        MarkMultiples(composite, i);
      } else {
        CompositeNeedsNoMarking(composite[..], i);
      }
      i := i + 1;
    }
    ghost var marked := composite[..];
    MarkedIffComposite(marked, i);
    var j := if M < 2 then 2 else M;
    primes := [];
    while j < N
      invariant j >= Max(M, 2) && composite[..] == marked
      invariant forall p :: p in primes <==> Max(M, 2) <= p < j && p < N && IsPrime(p)
      invariant forall a, b :: 0 <= a < b < |primes| ==> primes[a] < primes[b]
    {
      assert composite[j] == marked[j];
      if !composite[j] {
        AppendLargest(primes, j);
        primes := primes + [j];
      }
      j := j + 1;
    }
  }
}
