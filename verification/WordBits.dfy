/**
 * Words of 32 bits as numbers: their bits, and the operators of the program on them. A shift by n is
 * n halvings, or n doublings modulo 2^32.
 */
module WordBits {

  const TWO_32 := 0x1_0000_0000

  type Word = n: nat | n < TWO_32

  function Power2(n: nat): (r: nat)
    ensures r > 0
  {
    if n == 0 then 1 else 2 * Power2(n - 1)
  }

  /** The bit of weight 2^i. */
  predicate Bit(x: nat, i: nat) {
    if i == 0 then x % 2 == 1 else Bit(x / 2, i - 1)
  }

  /** The number with the given bits, the lowest first. */
  function Joined(bits: seq<bool>): (r: nat)
    ensures r < Power2(|bits|)
  {
    if bits == [] then 0 else (if bits[0] then 1 else 0) + 2 * Joined(bits[1..])
  }

  function Word32(bits: seq<bool>): Word
    requires |bits| == 32
  {
    Power32();
    Joined(bits)
  }

  lemma Power32()
    ensures Power2(31) == 0x8000_0000 && Power2(32) == TWO_32
  {
    assert Power2(8) == 0x100;
    assert Power2(16) == 0x1_0000;
    assert Power2(24) == 0x100_0000;
  }

  // ----- the operators of the program ---------------------------------------------------------

  function And(x: Word, y: Word): Word { Word32(seq(32, i requires 0 <= i < 32 => Bit(x, i) && Bit(y, i))) }

  function Or(x: Word, y: Word): Word { Word32(seq(32, i requires 0 <= i < 32 => Bit(x, i) || Bit(y, i))) }

  function Xor(x: Word, y: Word): Word { Word32(seq(32, i requires 0 <= i < 32 => Bit(x, i) != Bit(y, i))) }

  function Not(x: Word): Word { Word32(seq(32, i requires 0 <= i < 32 => !Bit(x, i))) }

  function ShiftRight(x: Word, n: nat): Word
    decreases n
  {
    if n == 0 then x else ShiftRight(x / 2, n - 1)
  }

  function ShiftLeft(x: Word, n: nat): Word
    decreases n
  {
    if n == 0 then x else ShiftLeft(2 * x % TWO_32, n - 1)
  }

  function RotR(x: Word, n: nat): Word
    requires 0 < n < 32
  {
    Or(ShiftRight(x, n), ShiftLeft(x, 32 - n))
  }

  // ----- their bits ---------------------------------------------------------------------------

  lemma {:induction false} BitOfJoined(bits: seq<bool>, i: nat)
    requires i < |bits|
    ensures Bit(Joined(bits), i) == bits[i]
  {
    var rest, x := Joined(bits[1..]), Joined(bits);
    assert x == (if bits[0] then 1 else 0) + 2 * rest;
    assert x % 2 == (if bits[0] then 1 else 0) && x / 2 == rest;
    if i > 0 {
      BitOfJoined(bits[1..], i - 1);
    }
  }

  lemma AndBit(x: Word, y: Word, i: nat)
    requires i < 32
    ensures Bit(And(x, y), i) == (Bit(x, i) && Bit(y, i))
  {
    BitOfJoined(seq(32, i requires 0 <= i < 32 => Bit(x, i) && Bit(y, i)), i);
  }

  lemma OrBit(x: Word, y: Word, i: nat)
    requires i < 32
    ensures Bit(Or(x, y), i) == (Bit(x, i) || Bit(y, i))
  {
    BitOfJoined(seq(32, i requires 0 <= i < 32 => Bit(x, i) || Bit(y, i)), i);
  }

  lemma XorBit(x: Word, y: Word, i: nat)
    requires i < 32
    ensures Bit(Xor(x, y), i) == (Bit(x, i) != Bit(y, i))
  {
    BitOfJoined(seq(32, i requires 0 <= i < 32 => Bit(x, i) != Bit(y, i)), i);
  }

  lemma NotBit(x: Word, i: nat)
    requires i < 32
    ensures Bit(Not(x), i) == !Bit(x, i)
  {
    BitOfJoined(seq(32, i requires 0 <= i < 32 => !Bit(x, i)), i);
  }

  lemma {:induction false} ShiftRightBit(x: Word, n: nat, i: nat)
    ensures Bit(ShiftRight(x, n), i) == Bit(x, i + n)
    decreases n
  {
    if n > 0 {
      ShiftRightBit(x / 2, n - 1, i);
    }
  }

  /** A number below 2^n has no bit from n on. */
  lemma {:induction false} BitAbove(x: nat, n: nat, i: nat)
    requires x < Power2(n) && n <= i
    ensures !Bit(x, i)
    decreases i
  {
    if i > 0 {
      BitAbove(x / 2, if n > 0 then n - 1 else 0, i - 1);
    }
  }

  lemma WordBitAbove(x: Word, i: nat)
    requires i >= 32
    ensures !Bit(x, i)
  {
    Power32();
    BitAbove(x, 32, i);
  }

  /** Adding 2^k leaves the lower bits alone. */
  lemma {:induction false} HigherBit(x: nat, k: nat, i: nat)
    requires i < k
    ensures Bit(x + Power2(k), i) == Bit(x, i)
    decreases i
  {
    var p := Power2(k - 1);
    assert Power2(k) == 2 * p;
    assert (x + 2 * p) % 2 == x % 2 && (x + 2 * p) / 2 == x / 2 + p;
    if i > 0 {
      HigherBit(x / 2, k - 1, i - 1);
    }
  }

  lemma DoubleBit(x: Word, i: nat)
    requires i < 32
    ensures Bit(2 * x % TWO_32, i) == (i > 0 && Bit(x, i - 1))
  {
    Power32();
    var half := if x < 0x8000_0000 then x else x - 0x8000_0000;
    assert 2 * x % TWO_32 == 2 * half;
    if i > 0 {
      assert (2 * half) / 2 == half;
      if x >= 0x8000_0000 {
        HigherBit(half, 31, i - 1);
      }
    }
  }

  lemma {:induction false} ShiftLeftBit(x: Word, n: nat, i: nat)
    requires i < 32
    ensures Bit(ShiftLeft(x, n), i) == (i >= n && Bit(x, i - n))
    decreases n
  {
    if n > 0 {
      ShiftLeftBit(2 * x % TWO_32, n - 1, i);
      if i >= n - 1 {
        DoubleBit(x, i - (n - 1));
      }
    }
  }

  /** Rotation moves every bit n places down, around the end. */
  lemma RotRBit(x: Word, n: nat, i: nat)
    requires 0 < n < 32 && i < 32
    ensures Bit(RotR(x, n), i) == Bit(x, (i + n) % 32)
  {
    var a, b := ShiftRight(x, n), ShiftLeft(x, 32 - n);
    ShiftRightBit(x, n, i);
    ShiftLeftBit(x, 32 - n, i);
    if i + n >= 32 {
      WordBitAbove(x, i + n);
      assert (i + n) % 32 == i - (32 - n);
    }
    assert (Bit(a, i) || Bit(b, i)) == Bit(x, (i + n) % 32);
    OrBit(a, b, i);
  }

  /** Words with the same bits are the same. */
  lemma {:induction false} BitsDetermine(x: nat, y: nat, n: nat)
    requires x < Power2(n) && y < Power2(n) && forall i :: 0 <= i < n ==> Bit(x, i) == Bit(y, i)
    ensures x == y
  {
    if n > 0 {
      assert Bit(x, 0) == Bit(y, 0);
      forall i | 0 <= i < n - 1 ensures Bit(x / 2, i) == Bit(y / 2, i) {
        assert Bit(x, i + 1) == Bit(y, i + 1);
      }
      BitsDetermine(x / 2, y / 2, n - 1);
    }
  }
}
