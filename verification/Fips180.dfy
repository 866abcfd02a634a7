/**
 * The words of SHA-256 against their definition in FIPS 180-4: the round constants are the fractional
 * parts of the cube roots of the first 64 primes, the initial words those of the square roots of the
 * first eight, and the functions on words are given bit by bit.
 */
module Fips180 {
  import opened SecureHash
  import opened WordBits
  import opened Sha256

  // ----- the first primes ---------------------------------------------------------------------

  predicate Divides(d: nat, n: nat)
    requires d > 0
  {
    n % d == 0
  }

  ghost predicate IsPrime(n: nat) {
    n >= 2 && forall d {:trigger Divides(d, n)} :: 2 <= d < n ==> !Divides(d, n)
  }

  /** q is the next prime after p. */
  ghost predicate NextPrime(p: nat, q: nat) {
    p < q && IsPrime(q) && forall n {:trigger IsPrime(n)} :: p < n < q ==> !IsPrime(n)
  }

  const PRIMES: seq<seq<nat>> :=
    [[2, 3, 5, 7, 11, 13, 17, 19],
     [23, 29, 31, 37, 41, 43, 47, 53],
     [59, 61, 67, 71, 73, 79, 83, 89],
     [97, 101, 103, 107, 109, 113, 127, 131],
     [137, 139, 149, 151, 157, 163, 167, 173],
     [179, 181, 191, 193, 197, 199, 211, 223],
     [227, 229, 233, 239, 241, 251, 257, 263],
     [269, 271, 277, 281, 283, 293, 307, 311]]

  /** The t-th prime, counted from 0. */
  function Prime(t: nat): nat
    requires t < 64
  {
    PRIMES[t / 8][t % 8]
  }

  /** No small prime divides the number, unless it is that prime. */
  predicate Sieved(n: nat) {
    && n >= 2
    && (n == 2 || n % 2 != 0) && (n == 3 || n % 3 != 0) && (n == 5 || n % 5 != 0) && (n == 7 || n % 7 != 0)
    && (n == 11 || n % 11 != 0) && (n == 13 || n % 13 != 0) && (n == 17 || n % 17 != 0)
  }

  lemma Multiple(n: nat, m: nat, p: nat)
    requires p > 0 && m > 0 && n % m == 0 && m % p == 0
    ensures n % p == 0
  {
    var k, j := n / m, m / p;
    assert n == m * k && m == p * j;
    assert n == p * (j * k);
    MultipleOf(p, j * k);
  }

  lemma ZeroFactor(p: nat, d: int)
    requires 0 <= p * d < p
    ensures d == 0
  {
    assert d >= 1 ==> p * d >= p * 1;
    assert d <= -1 ==> p * d <= p * -1;
  }

  lemma MultipleOf(p: nat, k: nat)
    requires p > 0
    ensures (p * k) % p == 0
  {
    var q, r := p * k / p, p * k % p;
    assert p * k == p * q + r;
    assert p * (k - q) == r;
    ZeroFactor(p, k - q);
  }

  /** A divisor below 19 shows in the sieve. */
  lemma SmallDivisor(n: nat, m: nat)
    requires 2 <= m < 19 && m < n && n % m == 0
    ensures !Sieved(n)
  {
    var p := if m % 2 == 0 then 2 else if m % 3 == 0 then 3 else if m % 5 == 0 then 5 else if m % 7 == 0 then 7 else m;
    Multiple(n, m, p);
  }

  lemma Cofactor(n: nat, d: nat)
    requires 2 <= d < n && n % d == 0
    ensures 2 <= n / d < n && n % (n / d) == 0 && d * (n / d) == n
  {
    var e := n / d;
    assert n == d * e;
    MultipleOf(e, d);
    assert e * d == n;
    assert 2 * e <= d * e;
  }

  /** Below 19 * 19 the sieve finds exactly the primes. */
  lemma SieveIsExact(n: nat)
    requires n < 361
    ensures IsPrime(n) <==> Sieved(n)
  {
    if IsPrime(n) && !Sieved(n) {
      var p := if n % 2 == 0 && n != 2 then 2 else if n % 3 == 0 && n != 3 then 3 else if n % 5 == 0 && n != 5 then 5
               else if n % 7 == 0 && n != 7 then 7 else if n % 11 == 0 && n != 11 then 11
               else if n % 13 == 0 && n != 13 then 13 else 17;
      assert Divides(p, n);
    }
    if Sieved(n) && !IsPrime(n) {
      var d :| 2 <= d < n && Divides(d, n);
      Cofactor(n, d);
      Smaller(n, d, n / d);
    }
  }

  lemma Smaller(n: nat, d: nat, e: nat)
    requires n < 361 && 2 <= d < n && 2 <= e < n && d * e == n && n % d == 0 && n % e == 0
    ensures !Sieved(n)
  {
    assert d < 19 || e < 19 || d * e >= 19 * e;
    SmallDivisor(n, if d < 19 then d else e);
  }

  /** The sieve finds nothing strictly between the two. */
  predicate NoneBetween(p: nat, q: nat)
    decreases q - p
  {
    p + 1 >= q || (!Sieved(p + 1) && NoneBetween(p + 1, q))
  }

  lemma {:induction false} NothingBetween(p: nat, q: nat, n: nat)
    requires NoneBetween(p, q) && p < n < q
    ensures !Sieved(n)
    decreases q - p
  {
    if p + 1 < n {
      NothingBetween(p + 1, q, n);
    }
  }

  /** What the table below checks of two neighbours. */
  predicate Neighbours(p: nat, q: nat) {
    p < q < 361 && Sieved(q) && NoneBetween(p, q)
  }

  lemma NeighboursAreNext(p: nat, q: nat)
    requires Neighbours(p, q)
    ensures NextPrime(p, q)
  {
    SieveIsExact(q);
    forall n {:trigger IsPrime(n)} | p < n < q ensures !IsPrime(n) {
      NothingBetween(p, q, n);
      SieveIsExact(n);
    }
  }

  // ----- sections 4.2.2 and 5.3.3: fractional parts of roots -----------------------------------

  const TWO_96 := 0x1_0000_0000_0000_0000_0000_0000

  /** c is the integer part of 2^32 times the cube root of p. */
  predicate CubeRoot(p: nat, c: nat) {
    c * c * c <= p * TWO_96 < (c + 1) * (c + 1) * (c + 1)
  }

  /** c is the integer part of 2^32 times the square root of p. */
  predicate SquareRoot(p: nat, c: nat) {
    c * c <= p * TWO_64 < (c + 1) * (c + 1)
  }

  /** q is the integer part of the cube root of p, and the word the first 32 bits of its fractional part. */
  predicate CubeParts(p: nat, q: nat, w: Word) {
    q * q * q <= p < (q + 1) * (q + 1) * (q + 1) && CubeRoot(p, q * TWO_32 + w)
  }

  predicate SquareParts(p: nat, q: nat, w: Word) {
    q * q <= p < (q + 1) * (q + 1) && SquareRoot(p, q * TWO_32 + w)
  }

  /** The word is the first 32 bits of the fractional part of the cube root of p. */
  ghost predicate CubeFraction(p: nat, w: Word) {
    exists q: nat :: CubeParts(p, q, w)
  }

  ghost predicate SquareFraction(p: nat, w: Word) {
    exists q: nat :: SquareParts(p, q, w)
  }

  lemma Constants0(t: nat)
    requires 0 <= t < 8
    ensures CubeFraction(Prime(t), Constant(t))
  {
    match t
    case 0 => assert CubeParts(2, 1, 0x428a2f98);
    case 1 => assert CubeParts(3, 1, 0x71374491);
    case 2 => assert CubeParts(5, 1, 0xb5c0fbcf);
    case 3 => assert CubeParts(7, 1, 0xe9b5dba5);
    case 4 => assert CubeParts(11, 2, 0x3956c25b);
    case 5 => assert CubeParts(13, 2, 0x59f111f1);
    case 6 => assert CubeParts(17, 2, 0x923f82a4);
    case 7 => assert CubeParts(19, 2, 0xab1c5ed5);
  }

  lemma Constants1(t: nat)
    requires 8 <= t < 16
    ensures CubeFraction(Prime(t), Constant(t))
  {
    match t
    case 8 => assert CubeParts(23, 2, 0xd807aa98);
    case 9 => assert CubeParts(29, 3, 0x12835b01);
    case 10 => assert CubeParts(31, 3, 0x243185be);
    case 11 => assert CubeParts(37, 3, 0x550c7dc3);
    case 12 => assert CubeParts(41, 3, 0x72be5d74);
    case 13 => assert CubeParts(43, 3, 0x80deb1fe);
    case 14 => assert CubeParts(47, 3, 0x9bdc06a7);
    case 15 => assert CubeParts(53, 3, 0xc19bf174);
  }

  lemma Constants2(t: nat)
    requires 16 <= t < 24
    ensures CubeFraction(Prime(t), Constant(t))
  {
    match t
    case 16 => assert CubeParts(59, 3, 0xe49b69c1);
    case 17 => assert CubeParts(61, 3, 0xefbe4786);
    case 18 => assert CubeParts(67, 4, 0x0fc19dc6);
    case 19 => assert CubeParts(71, 4, 0x240ca1cc);
    case 20 => assert CubeParts(73, 4, 0x2de92c6f);
    case 21 => assert CubeParts(79, 4, 0x4a7484aa);
    case 22 => assert CubeParts(83, 4, 0x5cb0a9dc);
    case 23 => assert CubeParts(89, 4, 0x76f988da);
  }

  lemma Constants3(t: nat)
    requires 24 <= t < 32
    ensures CubeFraction(Prime(t), Constant(t))
  {
    match t
    case 24 => assert CubeParts(97, 4, 0x983e5152);
    case 25 => assert CubeParts(101, 4, 0xa831c66d);
    case 26 => assert CubeParts(103, 4, 0xb00327c8);
    case 27 => assert CubeParts(107, 4, 0xbf597fc7);
    case 28 => assert CubeParts(109, 4, 0xc6e00bf3);
    case 29 => assert CubeParts(113, 4, 0xd5a79147);
    case 30 => assert CubeParts(127, 5, 0x06ca6351);
    case 31 => assert CubeParts(131, 5, 0x14292967);
  }

  lemma Constants4(t: nat)
    requires 32 <= t < 40
    ensures CubeFraction(Prime(t), Constant(t))
  {
    match t
    case 32 => assert CubeParts(137, 5, 0x27b70a85);
    case 33 => assert CubeParts(139, 5, 0x2e1b2138);
    case 34 => assert CubeParts(149, 5, 0x4d2c6dfc);
    case 35 => assert CubeParts(151, 5, 0x53380d13);
    case 36 => assert CubeParts(157, 5, 0x650a7354);
    case 37 => assert CubeParts(163, 5, 0x766a0abb);
    case 38 => assert CubeParts(167, 5, 0x81c2c92e);
    case 39 => assert CubeParts(173, 5, 0x92722c85);
  }

  lemma Constants5(t: nat)
    requires 40 <= t < 48
    ensures CubeFraction(Prime(t), Constant(t))
  {
    match t
    case 40 => assert CubeParts(179, 5, 0xa2bfe8a1);
    case 41 => assert CubeParts(181, 5, 0xa81a664b);
    case 42 => assert CubeParts(191, 5, 0xc24b8b70);
    case 43 => assert CubeParts(193, 5, 0xc76c51a3);
    case 44 => assert CubeParts(197, 5, 0xd192e819);
    case 45 => assert CubeParts(199, 5, 0xd6990624);
    case 46 => assert CubeParts(211, 5, 0xf40e3585);
    case 47 => assert CubeParts(223, 6, 0x106aa070);
  }

  lemma Constants6(t: nat)
    requires 48 <= t < 56
    ensures CubeFraction(Prime(t), Constant(t))
  {
    match t
    case 48 => assert CubeParts(227, 6, 0x19a4c116);
    case 49 => assert CubeParts(229, 6, 0x1e376c08);
    case 50 => assert CubeParts(233, 6, 0x2748774c);
    case 51 => assert CubeParts(239, 6, 0x34b0bcb5);
    case 52 => assert CubeParts(241, 6, 0x391c0cb3);
    case 53 => assert CubeParts(251, 6, 0x4ed8aa4a);
    case 54 => assert CubeParts(257, 6, 0x5b9cca4f);
    case 55 => assert CubeParts(263, 6, 0x682e6ff3);
  }

  lemma Constants7(t: nat)
    requires 56 <= t < 64
    ensures CubeFraction(Prime(t), Constant(t))
  {
    match t
    case 56 => assert CubeParts(269, 6, 0x748f82ee);
    case 57 => assert CubeParts(271, 6, 0x78a5636f);
    case 58 => assert CubeParts(277, 6, 0x84c87814);
    case 59 => assert CubeParts(281, 6, 0x8cc70208);
    case 60 => assert CubeParts(283, 6, 0x90befffa);
    case 61 => assert CubeParts(293, 6, 0xa4506ceb);
    case 62 => assert CubeParts(307, 6, 0xbef9a3f7);
    case 63 => assert CubeParts(311, 6, 0xc67178f2);
  }

  /** Every round constant is the fraction of the cube root of its prime. */
  lemma RoundConstants(t: nat)
    requires t < 64
    ensures CubeFraction(Prime(t), Constant(t))
  {
    match t / 8
    case 0 => Constants0(t);
    case 1 => Constants1(t);
    case 2 => Constants2(t);
    case 3 => Constants3(t);
    case 4 => Constants4(t);
    case 5 => Constants5(t);
    case 6 => Constants6(t);
    case 7 => Constants7(t);
  }

  /** Every initial word is the fraction of the square root of its prime. */
  lemma InitialWords(t: nat)
    requires t < 8
    ensures |INITIAL| == 8 && SquareFraction(Prime(t), INITIAL[t])
  {
    match t
    case 0 => assert SquareParts(2, 1, 0x6a09e667);
    case 1 => assert SquareParts(3, 1, 0xbb67ae85);
    case 2 => assert SquareParts(5, 2, 0x3c6ef372);
    case 3 => assert SquareParts(7, 2, 0xa54ff53a);
    case 4 => assert SquareParts(11, 3, 0x510e527f);
    case 5 => assert SquareParts(13, 3, 0x9b05688c);
    case 6 => assert SquareParts(17, 4, 0x1f83d9ab);
    case 7 => assert SquareParts(19, 4, 0x5be0cd19);
  }

  lemma Primes0(t: nat)
    requires 1 <= t < 8
    ensures Neighbours(Prime(t - 1), Prime(t))
  {
    match t
    case 1 => assert Neighbours(2, 3);
    case 2 => assert Neighbours(3, 5);
    case 3 => assert Neighbours(5, 7);
    case 4 => assert Neighbours(7, 11);
    case 5 => assert Neighbours(11, 13);
    case 6 => assert Neighbours(13, 17);
    case 7 => assert Neighbours(17, 19);
  }

  lemma Primes1(t: nat)
    requires 8 <= t < 16
    ensures Neighbours(Prime(t - 1), Prime(t))
  {
    match t
    case 8 => assert Neighbours(19, 23);
    case 9 => assert Neighbours(23, 29);
    case 10 => assert Neighbours(29, 31);
    case 11 => assert Neighbours(31, 37);
    case 12 => assert Neighbours(37, 41);
    case 13 => assert Neighbours(41, 43);
    case 14 => assert Neighbours(43, 47);
    case 15 => assert Neighbours(47, 53);
  }

  lemma Primes2(t: nat)
    requires 16 <= t < 24
    ensures Neighbours(Prime(t - 1), Prime(t))
  {
    match t
    case 16 => assert Neighbours(53, 59);
    case 17 => assert Neighbours(59, 61);
    case 18 => assert Neighbours(61, 67);
    case 19 => assert Neighbours(67, 71);
    case 20 => assert Neighbours(71, 73);
    case 21 => assert Neighbours(73, 79);
    case 22 => assert Neighbours(79, 83);
    case 23 => assert Neighbours(83, 89);
  }

  lemma Primes3(t: nat)
    requires 24 <= t < 32
    ensures Neighbours(Prime(t - 1), Prime(t))
  {
    match t
    case 24 => assert Neighbours(89, 97);
    case 25 => assert Neighbours(97, 101);
    case 26 => assert Neighbours(101, 103);
    case 27 => assert Neighbours(103, 107);
    case 28 => assert Neighbours(107, 109);
    case 29 => assert Neighbours(109, 113);
    case 30 => assert Neighbours(113, 127);
    case 31 => assert Neighbours(127, 131);
  }

  lemma Primes4(t: nat)
    requires 32 <= t < 40
    ensures Neighbours(Prime(t - 1), Prime(t))
  {
    match t
    case 32 => assert Neighbours(131, 137);
    case 33 => assert Neighbours(137, 139);
    case 34 => assert Neighbours(139, 149);
    case 35 => assert Neighbours(149, 151);
    case 36 => assert Neighbours(151, 157);
    case 37 => assert Neighbours(157, 163);
    case 38 => assert Neighbours(163, 167);
    case 39 => assert Neighbours(167, 173);
  }

  lemma Primes5(t: nat)
    requires 40 <= t < 48
    ensures Neighbours(Prime(t - 1), Prime(t))
  {
    match t
    case 40 => assert Neighbours(173, 179);
    case 41 => assert Neighbours(179, 181);
    case 42 => assert Neighbours(181, 191);
    case 43 => assert Neighbours(191, 193);
    case 44 => assert Neighbours(193, 197);
    case 45 => assert Neighbours(197, 199);
    case 46 => assert Neighbours(199, 211);
    case 47 => assert Neighbours(211, 223);
  }

  lemma Primes6(t: nat)
    requires 48 <= t < 56
    ensures Neighbours(Prime(t - 1), Prime(t))
  {
    match t
    case 48 => assert Neighbours(223, 227);
    case 49 => assert Neighbours(227, 229);
    case 50 => assert Neighbours(229, 233);
    case 51 => assert Neighbours(233, 239);
    case 52 => assert Neighbours(239, 241);
    case 53 => assert Neighbours(241, 251);
    case 54 => assert Neighbours(251, 257);
    case 55 => assert Neighbours(257, 263);
  }

  lemma Primes7(t: nat)
    requires 56 <= t < 64
    ensures Neighbours(Prime(t - 1), Prime(t))
  {
    match t
    case 56 => assert Neighbours(263, 269);
    case 57 => assert Neighbours(269, 271);
    case 58 => assert Neighbours(271, 277);
    case 59 => assert Neighbours(277, 281);
    case 60 => assert Neighbours(281, 283);
    case 61 => assert Neighbours(283, 293);
    case 62 => assert Neighbours(293, 307);
    case 63 => assert Neighbours(307, 311);
  }

  /** The primes are counted from the first, with none left out. */
  lemma PrimesInOrder(t: nat)
    requires t < 64
    ensures t == 0 ==> Prime(t) == 2
    ensures t > 0 ==> NextPrime(Prime(t - 1), Prime(t))
  {
    if t > 0 {
      match t / 8 {
        case 0 => Primes0(t);
        case 1 => Primes1(t);
        case 2 => Primes2(t);
        case 3 => Primes3(t);
        case 4 => Primes4(t);
        case 5 => Primes5(t);
        case 6 => Primes6(t);
        case 7 => Primes7(t);
      }
      NeighboursAreNext(Prime(t - 1), Prime(t));
    }
  }

  // ----- section 4.1.2: functions on words, bit by bit -----------------------------------------

  predicate Odd3(a: bool, b: bool, c: bool) {
    (a != b) != c
  }

  /** Each bit of the first word chooses between the bits of the other two. */
  lemma ChBit(x: Word, y: Word, z: Word, i: nat)
    requires i < 32
    ensures Bit(Ch(x, y, z), i) == if Bit(x, i) then Bit(y, i) else Bit(z, i)
  {
    XorBit(And(x, y), And(Not(x), z), i);
    AndBit(x, y, i);
    AndBit(Not(x), z, i);
    NotBit(x, i);
  }

  /** Each bit is that of at least two of the words. */
  lemma MajBit(x: Word, y: Word, z: Word, i: nat)
    requires i < 32
    ensures Bit(Maj(x, y, z), i) ==
            ((Bit(x, i) && Bit(y, i)) || (Bit(x, i) && Bit(z, i)) || (Bit(y, i) && Bit(z, i)))
  {
    XorBit(Xor(And(x, y), And(x, z)), And(y, z), i);
    XorBit(And(x, y), And(x, z), i);
    AndBit(x, y, i);
    AndBit(x, z, i);
    AndBit(y, z, i);
  }

  lemma Xor3Bit(a: Word, b: Word, c: Word, i: nat)
    requires i < 32
    ensures Bit(Xor(Xor(a, b), c), i) == Odd3(Bit(a, i), Bit(b, i), Bit(c, i))
  {
    XorBit(Xor(a, b), c, i);
    XorBit(a, b, i);
  }

  lemma BigSigma0Bit(x: Word, i: nat)
    requires i < 32
    ensures Bit(BigSigma0(x), i) == Odd3(Bit(x, (i + 2) % 32), Bit(x, (i + 13) % 32), Bit(x, (i + 22) % 32))
  {
    Xor3Bit(RotR(x, 2), RotR(x, 13), RotR(x, 22), i);
    RotRBit(x, 2, i);
    RotRBit(x, 13, i);
    RotRBit(x, 22, i);
  }

  lemma BigSigma1Bit(x: Word, i: nat)
    requires i < 32
    ensures Bit(BigSigma1(x), i) == Odd3(Bit(x, (i + 6) % 32), Bit(x, (i + 11) % 32), Bit(x, (i + 25) % 32))
  {
    Xor3Bit(RotR(x, 6), RotR(x, 11), RotR(x, 25), i);
    RotRBit(x, 6, i);
    RotRBit(x, 11, i);
    RotRBit(x, 25, i);
  }

  /** The shifted word has zeros above. */
  lemma SmallSigma0Bit(x: Word, i: nat)
    requires i < 32
    ensures Bit(SmallSigma0(x), i) ==
            Odd3(Bit(x, (i + 7) % 32), Bit(x, (i + 18) % 32), i + 3 < 32 && Bit(x, i + 3))
  {
    Xor3Bit(RotR(x, 7), RotR(x, 18), ShiftRight(x, 3), i);
    RotRBit(x, 7, i);
    RotRBit(x, 18, i);
    ShiftedBit(x, 3, i);
  }

  lemma SmallSigma1Bit(x: Word, i: nat)
    requires i < 32
    ensures Bit(SmallSigma1(x), i) ==
            Odd3(Bit(x, (i + 17) % 32), Bit(x, (i + 19) % 32), i + 10 < 32 && Bit(x, i + 10))
  {
    Xor3Bit(RotR(x, 17), RotR(x, 19), ShiftRight(x, 10), i);
    RotRBit(x, 17, i);
    RotRBit(x, 19, i);
    ShiftedBit(x, 10, i);
  }

  lemma ShiftedBit(x: Word, n: nat, i: nat)
    ensures Bit(ShiftRight(x, n), i) == (i + n < 32 && Bit(x, i + n))
  {
    ShiftRightBit(x, n, i);
    if i + n >= 32 {
      WordBitAbove(x, i + n);
    }
  }

  // ----- all together -------------------------------------------------------------------------

  ghost predicate ChoosesBits(f: WordRules<Word, Byte>) {
    forall x: Word, y: Word, z: Word, i: nat {:trigger Bit(f.ch(x, y, z), i)} ::
      i < 32 ==> Bit(f.ch(x, y, z), i) == if Bit(x, i) then Bit(y, i) else Bit(z, i)
  }

  ghost predicate TakesMajority(f: WordRules<Word, Byte>) {
    forall x: Word, y: Word, z: Word, i: nat {:trigger Bit(f.maj(x, y, z), i)} ::
      i < 32 ==> Bit(f.maj(x, y, z), i) ==
                 ((Bit(x, i) && Bit(y, i)) || (Bit(x, i) && Bit(z, i)) || (Bit(y, i) && Bit(z, i)))
  }

  /** The functions whose bits are the sums of three rotated bits. */
  ghost predicate RotatesBits(f: WordRules<Word, Byte>) {
    && (forall x: Word, i: nat {:trigger Bit(f.bigSigma0(x), i)} :: i < 32 ==>
          Bit(f.bigSigma0(x), i) == Odd3(Bit(x, (i + 2) % 32), Bit(x, (i + 13) % 32), Bit(x, (i + 22) % 32)))
    && (forall x: Word, i: nat {:trigger Bit(f.bigSigma1(x), i)} :: i < 32 ==>
          Bit(f.bigSigma1(x), i) == Odd3(Bit(x, (i + 6) % 32), Bit(x, (i + 11) % 32), Bit(x, (i + 25) % 32)))
  }

  /** The functions whose third bit is shifted, not rotated. */
  ghost predicate ShiftsBits(f: WordRules<Word, Byte>) {
    && (forall x: Word, i: nat {:trigger Bit(f.smallSigma0(x), i)} :: i < 32 ==>
          Bit(f.smallSigma0(x), i) ==
          Odd3(Bit(x, (i + 7) % 32), Bit(x, (i + 18) % 32), i + 3 < 32 && Bit(x, i + 3)))
    && (forall x: Word, i: nat {:trigger Bit(f.smallSigma1(x), i)} :: i < 32 ==>
          Bit(f.smallSigma1(x), i) ==
          Odd3(Bit(x, (i + 17) % 32), Bit(x, (i + 19) % 32), i + 10 < 32 && Bit(x, i + 10)))
  }

  ghost predicate AddsAndReads(f: WordRules<Word, Byte>) {
    && (forall x: Word, y: Word {:trigger f.add(x, y)} ::
          f.add(x, y) == if x + y < TWO_32 then x + y else x + y - TWO_32)
    && (forall a: Byte, b: Byte, c: Byte, d: Byte {:trigger f.word(a, b, c, d)} ::
          f.word(a, b, c, d) == ((a * 256 + b) * 256 + c) * 256 + d)
  }

  lemma BitwiseStandard()
    ensures ChoosesBits(Words()) && TakesMajority(Words())
  {
    forall x: Word, y: Word, z: Word, i: nat | i < 32
      ensures Bit(Words().ch(x, y, z), i) == if Bit(x, i) then Bit(y, i) else Bit(z, i)
      ensures Bit(Words().maj(x, y, z), i) ==
              ((Bit(x, i) && Bit(y, i)) || (Bit(x, i) && Bit(z, i)) || (Bit(y, i) && Bit(z, i)))
    {
      ChBit(x, y, z, i);
      MajBit(x, y, z, i);
    }
  }

  lemma RotationsStandard()
    ensures RotatesBits(Words())
  {
    forall x: Word, i: nat | i < 32
      ensures Bit(Words().bigSigma0(x), i) == Odd3(Bit(x, (i + 2) % 32), Bit(x, (i + 13) % 32), Bit(x, (i + 22) % 32))
      ensures Bit(Words().bigSigma1(x), i) == Odd3(Bit(x, (i + 6) % 32), Bit(x, (i + 11) % 32), Bit(x, (i + 25) % 32))
    {
      BigSigma0Bit(x, i);
      BigSigma1Bit(x, i);
    }
  }

  lemma ShiftsStandard()
    ensures ShiftsBits(Words())
  {
    forall x: Word, i: nat | i < 32
      ensures Bit(Words().smallSigma0(x), i) ==
              Odd3(Bit(x, (i + 7) % 32), Bit(x, (i + 18) % 32), i + 3 < 32 && Bit(x, i + 3))
      ensures Bit(Words().smallSigma1(x), i) ==
              Odd3(Bit(x, (i + 17) % 32), Bit(x, (i + 19) % 32), i + 10 < 32 && Bit(x, i + 10))
    {
      SmallSigma0Bit(x, i);
      SmallSigma1Bit(x, i);
    }
  }

  /** The words the digest is computed with are those of the standard, each by its definition. */
  lemma WordsAreStandard()
    ensures ChoosesBits(Words()) && TakesMajority(Words()) && RotatesBits(Words()) && ShiftsBits(Words())
    ensures AddsAndReads(Words())
    ensures forall t {:trigger Words().constant(t)} :: 0 <= t < 64 ==> CubeFraction(Prime(t), Words().constant(t))
    ensures |Sha256Hash().initial| == 8
    ensures forall t :: 0 <= t < 8 ==> SquareFraction(Prime(t), Sha256Hash().initial[t])
  {
    BitwiseStandard();
    RotationsStandard();
    ShiftsStandard();
    forall t | 0 <= t < 64 ensures CubeFraction(Prime(t), Words().constant(t)) {
      RoundConstants(t);
    }
    InitialWords(0);
    forall t | 0 <= t < 8 ensures SquareFraction(Prime(t), Sha256Hash().initial[t]) {
      InitialWords(t);
    }
  }

  lemma SameWord(x: Word, y: Word)
    requires forall i :: 0 <= i < 32 ==> Bit(x, i) == Bit(y, i)
    ensures x == y
  {
    Power32();
    BitsDetermine(x, y, 32);
  }

  /** The bits decide: whatever meets the definitions on every input is the function the digest uses. */
  lemma DefinitionsDecide(f: WordRules<Word, Byte>, x: Word, y: Word, z: Word)
    requires ChoosesBits(f) && TakesMajority(f) && RotatesBits(f) && ShiftsBits(f)
    ensures f.ch(x, y, z) == Ch(x, y, z) && f.maj(x, y, z) == Maj(x, y, z)
    ensures f.bigSigma0(x) == BigSigma0(x) && f.bigSigma1(x) == BigSigma1(x)
    ensures f.smallSigma0(x) == SmallSigma0(x) && f.smallSigma1(x) == SmallSigma1(x)
  {
    ChoiceDecided(f, x, y, z);
    MajorityDecided(f, x, y, z);
    RotationsDecided(f, x);
    ShiftsDecided(f, x);
  }

  lemma ChoiceDecided(f: WordRules<Word, Byte>, x: Word, y: Word, z: Word)
    requires ChoosesBits(f)
    ensures f.ch(x, y, z) == Ch(x, y, z)
  {
    forall i | 0 <= i < 32 ensures Bit(f.ch(x, y, z), i) == Bit(Ch(x, y, z), i) {
      ChBit(x, y, z, i);
    }
    SameWord(f.ch(x, y, z), Ch(x, y, z));
  }

  lemma MajorityDecided(f: WordRules<Word, Byte>, x: Word, y: Word, z: Word)
    requires TakesMajority(f)
    ensures f.maj(x, y, z) == Maj(x, y, z)
  {
    forall i | 0 <= i < 32 ensures Bit(f.maj(x, y, z), i) == Bit(Maj(x, y, z), i) {
      MajBit(x, y, z, i);
    }
    SameWord(f.maj(x, y, z), Maj(x, y, z));
  }

  lemma RotationsDecided(f: WordRules<Word, Byte>, x: Word)
    requires RotatesBits(f)
    ensures f.bigSigma0(x) == BigSigma0(x) && f.bigSigma1(x) == BigSigma1(x)
  {
    forall i | 0 <= i < 32
      ensures Bit(f.bigSigma0(x), i) == Bit(BigSigma0(x), i) && Bit(f.bigSigma1(x), i) == Bit(BigSigma1(x), i)
    {
      BigSigma0Bit(x, i);
      BigSigma1Bit(x, i);
    }
    SameWord(f.bigSigma0(x), BigSigma0(x));
    SameWord(f.bigSigma1(x), BigSigma1(x));
  }

  lemma ShiftsDecided(f: WordRules<Word, Byte>, x: Word)
    requires ShiftsBits(f)
    ensures f.smallSigma0(x) == SmallSigma0(x) && f.smallSigma1(x) == SmallSigma1(x)
  {
    forall i | 0 <= i < 32
      ensures Bit(f.smallSigma0(x), i) == Bit(SmallSigma0(x), i) && Bit(f.smallSigma1(x), i) == Bit(SmallSigma1(x), i)
    {
      SmallSigma0Bit(x, i);
      SmallSigma1Bit(x, i);
    }
    SameWord(f.smallSigma0(x), SmallSigma0(x));
    SameWord(f.smallSigma1(x), SmallSigma1(x));
  }

  // ----- section 6.2.2: the rounds as two recurrences ------------------------------------------

  /** The value of the first working variable after round t - 4; before the rounds those of d, c, b and a. */
  function First<W, B>(f: WordRules<W, B>, v: seq<W>, w: seq<W>, t: nat): W
    requires |v| == 8 && |w| == 64 && t <= 67
    decreases t, 1
  {
    if t < 4 then v[3 - t] else
    f.add(Step(f, v, w, t),
          f.add(f.bigSigma0(First(f, v, w, t - 1)),
                f.maj(First(f, v, w, t - 1), First(f, v, w, t - 2), First(f, v, w, t - 3))))
  }

  /** The value of the fifth working variable after round t - 4; before the rounds those of h, g, f and e. */
  function Fifth<W, B>(f: WordRules<W, B>, v: seq<W>, w: seq<W>, t: nat): W
    requires |v| == 8 && |w| == 64 && t <= 67
    decreases t, 1
  {
    if t < 4 then v[7 - t] else f.add(First(f, v, w, t - 4), Step(f, v, w, t))
  }

  function Step<W, B>(f: WordRules<W, B>, v: seq<W>, w: seq<W>, t: nat): W
    requires |v| == 8 && |w| == 64 && 4 <= t <= 67
    decreases t, 0
  {
    f.add(f.add(f.add(f.add(Fifth(f, v, w, t - 4), f.bigSigma1(Fifth(f, v, w, t - 1))),
                      f.ch(Fifth(f, v, w, t - 1), Fifth(f, v, w, t - 2), Fifth(f, v, w, t - 3))),
                f.constant(t - 4)), w[t - 4])
  }

  /** The eight working variables are the last four values of each recurrence. */
  lemma {:induction false} RoundsAreRecurrences<W, B>(f: WordRules<W, B>, v: seq<W>, w: seq<W>, n: nat)
    requires |v| == 8 && |w| == 64 && n <= 64
    ensures Rounds(f, v, w, n) ==
            [First(f, v, w, n + 3), First(f, v, w, n + 2), First(f, v, w, n + 1), First(f, v, w, n),
             Fifth(f, v, w, n + 3), Fifth(f, v, w, n + 2), Fifth(f, v, w, n + 1), Fifth(f, v, w, n)]
  {
    if n > 0 {
      RoundsAreRecurrences(f, v, w, n - 1);
    }
  }

  // ----- text ---------------------------------------------------------------------------------

  /** The value of a hexadecimal digit. */
  function DigitValue(c: char): nat {
    if '0' <= c <= '9' then c as nat - '0' as nat else if 'a' <= c <= 'f' then c as nat - 'a' as nat + 10 else 16
  }

  /** The number a text of hexadecimal digits stands for. */
  function TextValue(text: string): nat {
    if text == "" then 0 else 16 * TextValue(text[..|text| - 1]) + DigitValue(text[|text| - 1])
  }

  lemma DigitOf(n: nat)
    requires n < 16
    ensures DigitValue(HEX[n]) == n
  {
    if n < 8 {
      assert HEX[..8] == "01234567";
      assert HEX[n] == HEX[..8][n];
    } else {
      assert HEX[8..] == "89abcdef";
      assert HEX[n] == HEX[8..][n - 8];
    }
  }

  lemma {:induction false} DigitsSoFar(w: Word, n: nat)
    requires n <= 8
    ensures TextValue(HexDigits(w, n)) == w / Power16(8 - n)
  {
    if n == 0 {
      assert Power16(8) == TWO_32;
    } else {
      DigitsSoFar(w, n - 1);
      var p := Power16(8 - n);
      assert Power16(8 - (n - 1)) == 16 * p;
      DigitOf(w / p % 16);
      var text := HexDigits(w, n);
      assert text[..n - 1] == HexDigits(w, n - 1) && text[n - 1] == HEX[w / p % 16];
      SixteenTimes(w, p);
    }
  }

  lemma Distribute(p: nat, k: nat, s: nat)
    ensures p * (16 * k + s) == 16 * p * k + p * s
  {
  }

  lemma AtMost(p: nat, s: nat)
    requires s < 16
    ensures p * s <= 15 * p
  {
  }

  lemma SixteenTimes(w: nat, p: nat)
    requires p > 0
    ensures w / (16 * p) == w / p / 16
  {
    var q, r := w / p, w % p;
    Distribute(p, q / 16, q % 16);
    AtMost(p, q % 16);
    DividesOnce(w, 16 * p, q / 16, p * (q % 16) + r);
  }

  lemma DividesOnce(x: nat, d: nat, q: nat, r: nat)
    requires x == d * q + r && r < d
    ensures x / d == q
  {
    var p, s := x / d, x % d;
    assert d * p + s == d * q + r;
    assert d * (p - q) == r - s;
    assert p - q >= 1 ==> d * (p - q) >= d * 1;
    assert p - q <= -1 ==> d * (p - q) <= d * -1;
  }

  /** The eight digits of a word, read back, are the word. */
  lemma HexRoundTrip(w: Word)
    ensures |HexDigits(w, 8)| == 8 && TextValue(HexDigits(w, 8)) == w
  {
    DigitsSoFar(w, 8);
  }
}
