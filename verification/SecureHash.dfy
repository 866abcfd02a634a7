/**
 * The structure of SHA-256 as FIPS 180-4 defines it for a whole message: padding (section 5.1.1),
 * parsing into blocks (5.2.1) and folding (6.2.2). The functions on words are the fields of a
 * `WordRules` value and the folding of one block is a field of a `HashRules` value; module Sha256
 * gives those of the standard.
 */
module SecureHash {

  /** W is the type of words and B the type of bytes. */
  datatype WordRules<!W, !B> = WordRules(
    add: (W, W) -> W,
    ch: (W, W, W) -> W,
    maj: (W, W, W) -> W,
    bigSigma0: W -> W,
    bigSigma1: W -> W,
    smallSigma0: W -> W,
    smallSigma1: W -> W,
    constant: nat -> W,
    word: (B, B, B, B) -> W,
    zeroWord: W,
    shiftIn: (W, B) -> W)

  /** S is the type of intermediate hash values. */
  datatype HashRules<!S, !B> = HashRules(initial: S, compress: (S, seq<B>) -> S, byteOf: nat -> B)

  // ----- section 6.2.2: one block ------------------------------------------------------------

  /** The first n words of the message schedule. */
  function Schedule<W, B>(f: WordRules<W, B>, block: seq<B>, n: nat): (w: seq<W>)
    requires |block| == 64 && n <= 64
    ensures |w| == n
  {
    if n == 0 then [] else
    var w := Schedule(f, block, n - 1);
    var t := n - 1;
    w + [if t < 16 then f.word(block[4 * t], block[4 * t + 1], block[4 * t + 2], block[4 * t + 3])
         else f.add(f.add(f.add(f.smallSigma1(w[t - 2]), w[t - 7]), f.smallSigma0(w[t - 15])), w[t - 16])]
  }

  /** The eight working variables a..h after one round. */
  function Round<W, B>(f: WordRules<W, B>, v: seq<W>, k: W, w: W): (r: seq<W>)
    requires |v| == 8
    ensures |r| == 8
  {
    var t1 := f.add(f.add(f.add(f.add(v[7], f.bigSigma1(v[4])), f.ch(v[4], v[5], v[6])), k), w);
    var t2 := f.add(f.bigSigma0(v[0]), f.maj(v[0], v[1], v[2]));
    [f.add(t1, t2), v[0], v[1], v[2], f.add(v[3], t1), v[4], v[5], v[6]]
  }

  function Rounds<W, B>(f: WordRules<W, B>, v: seq<W>, w: seq<W>, n: nat): (r: seq<W>)
    requires |v| == 8 && |w| == 64 && n <= 64
    ensures |r| == 8
  {
    if n == 0 then v else Round(f, Rounds(f, v, w, n - 1), f.constant(n - 1), w[n - 1])
  }

  function AddWords<W, B>(f: WordRules<W, B>, a: seq<W>, b: seq<W>): (r: seq<W>)
    requires |a| == |b|
    ensures |r| == |a|
  {
    seq(|a|, i requires 0 <= i < |a| => f.add(a[i], b[i]))
  }

  function Compress<W, B>(f: WordRules<W, B>, state: seq<W>, block: seq<B>): (r: seq<W>)
    requires |state| == 8 && |block| == 64
    ensures |r| == 8
  {
    var schedule := Schedule(f, block, |block|);
    AddWords(f, state, Rounds(f, state, schedule, |schedule|))
  }

  // ----- sections 5.1.1, 5.2.1 and 6.2: the whole message ------------------------------------

  /** Folds whole blocks, first to last. */
  function Hash<S, B>(h: HashRules<S, B>, state: S, bytes: seq<B>): S
    requires |bytes| % 64 == 0
    decreases |bytes|
  {
    if bytes == [] then state else Hash(h, h.compress(state, bytes[..64]), bytes[64..])
  }

  const TWO_64 := 0x1_0000_0000_0000_0000

  function Power256(n: nat): (r: nat)
    ensures r > 0
  {
    if n == 0 then 1 else 256 * Power256(n - 1)
  }

  /** The number of bits as eight bytes, the first being the most significant. */
  function LengthBytes<S, B>(h: HashRules<S, B>, bits: nat): (r: seq<B>)
    ensures |r| == 8
  {
    seq(8, i requires 0 <= i < 8 => h.byteOf(bits / Power256(7 - i) % 256))
  }

  function Zeros<S, B>(h: HashRules<S, B>, n: nat): (r: seq<B>)
    ensures |r| == n
  {
    seq(n, _ => h.byteOf(0))
  }

  /** The number of zero bytes: the least that makes the padded message whole blocks. */
  function ZeroCount(n: nat): (k: nat)
    ensures k < 64 && (n + 1 + k + 8) % 64 == 0
  {
    (119 - n % 64) % 64
  }

  /** The length field is the length in bits modulo 2^64; for the messages the standard admits, the length itself. */
  function Pad<S, B>(h: HashRules<S, B>, message: seq<B>): (r: seq<B>)
    ensures |r| % 64 == 0
  {
    message + [h.byteOf(0x80)] + Zeros(h, ZeroCount(|message|)) + LengthBytes(h, (8 * |message|) % TWO_64)
  }

  function Digest<S, B>(h: HashRules<S, B>, message: seq<B>): S {
    Hash(h, h.initial, Pad(h, message))
  }

  // ----- laws --------------------------------------------------------------------------------

  lemma {:induction false} HashAppend<S, B>(h: HashRules<S, B>, state: S, a: seq<B>, b: seq<B>)
    requires |a| % 64 == 0 && |b| % 64 == 0
    ensures Hash(h, state, a + b) == Hash(h, Hash(h, state, a), b)
    decreases |a|
  {
    if a == [] {
      assert a + b == b;
    } else {
      assert (a + b)[..64] == a[..64] && (a + b)[64..] == a[64..] + b;
      HashAppend(h, h.compress(state, a[..64]), a[64..], b);
    }
  }

  lemma {:induction false} HashBlock<S, B>(h: HashRules<S, B>, state: S, a: seq<B>, block: seq<B>)
    requires |a| % 64 == 0 && |block| == 64
    ensures Hash(h, state, a + block) == h.compress(Hash(h, state, a), block)
  {
    HashAppend(h, state, a, block);
    assert block[..64] == block && block[64..] == [];
    assert Hash(h, Hash(h, state, a), block) == Hash(h, h.compress(Hash(h, state, a), block), []);
  }

  ghost predicate Reorders<W, B>(f: WordRules<W, B>, a: W, b: W, c: W, d: W) {
    f.add(f.add(f.add(a, b), c), d) == f.add(f.add(f.add(d, c), b), a)
  }

  /** What the program relies on where it computes in another order than the standard writes it. */
  ghost predicate Lawful<W(!new), B(!new)>(f: WordRules<W, B>) {
    && (forall a, b, c, d {:trigger Reorders(f, a, b, c, d)} :: Reorders(f, a, b, c, d))
    && (forall b0, b1, b2, b3 {:trigger f.word(b0, b1, b2, b3)} ::
          f.word(b0, b1, b2, b3) == f.shiftIn(f.shiftIn(f.shiftIn(f.shiftIn(f.zeroWord, b0), b1), b2), b3))
  }

  /** The hash folds a block of bytes into eight words as the word functions say. */
  ghost predicate Folds<W(!new), B(!new)>(h: HashRules<seq<W>, B>, f: WordRules<W, B>) {
    && |h.initial| == 8
    && (forall s, b {:trigger Compress(f, s, b)} :: |s| == 8 && |b| == 64 ==> h.compress(s, b) == Compress(f, s, b))
  }
}

/** The words, bytes and functions of SHA-256. Words are numbers below 2^32, added modulo 2^32. */
module Sha256 {
  import opened SecureHash
  import opened WordBits

  type Byte = n: nat | n < 256

  const INITIAL: seq<Word> :=
    [0x6a09e667, 0xbb67ae85, 0x3c6ef372, 0xa54ff53a, 0x510e527f, 0x9b05688c, 0x1f83d9ab, 0x5be0cd19]

  /** The round constants, eight to a row. */
  const CONSTANTS: seq<seq<Word>> :=
    [[0x428a2f98, 0x71374491, 0xb5c0fbcf, 0xe9b5dba5, 0x3956c25b, 0x59f111f1, 0x923f82a4, 0xab1c5ed5],
     [0xd807aa98, 0x12835b01, 0x243185be, 0x550c7dc3, 0x72be5d74, 0x80deb1fe, 0x9bdc06a7, 0xc19bf174],
     [0xe49b69c1, 0xefbe4786, 0x0fc19dc6, 0x240ca1cc, 0x2de92c6f, 0x4a7484aa, 0x5cb0a9dc, 0x76f988da],
     [0x983e5152, 0xa831c66d, 0xb00327c8, 0xbf597fc7, 0xc6e00bf3, 0xd5a79147, 0x06ca6351, 0x14292967],
     [0x27b70a85, 0x2e1b2138, 0x4d2c6dfc, 0x53380d13, 0x650a7354, 0x766a0abb, 0x81c2c92e, 0x92722c85],
     [0xa2bfe8a1, 0xa81a664b, 0xc24b8b70, 0xc76c51a3, 0xd192e819, 0xd6990624, 0xf40e3585, 0x106aa070],
     [0x19a4c116, 0x1e376c08, 0x2748774c, 0x34b0bcb5, 0x391c0cb3, 0x4ed8aa4a, 0x5b9cca4f, 0x682e6ff3],
     [0x748f82ee, 0x78a5636f, 0x84c87814, 0x8cc70208, 0x90befffa, 0xa4506ceb, 0xbef9a3f7, 0xc67178f2]]

  // ----- section 4.1.2: functions on words ---------------------------------------------------

  function Add(x: Word, y: Word): Word { (x + y) % TWO_32 }

  function Ch(x: Word, y: Word, z: Word): Word { Xor(And(x, y), And(Not(x), z)) }

  function Maj(x: Word, y: Word, z: Word): Word { Xor(Xor(And(x, y), And(x, z)), And(y, z)) }

  function BigSigma0(x: Word): Word { Xor(Xor(RotR(x, 2), RotR(x, 13)), RotR(x, 22)) }

  function BigSigma1(x: Word): Word { Xor(Xor(RotR(x, 6), RotR(x, 11)), RotR(x, 25)) }

  function SmallSigma0(x: Word): Word { Xor(Xor(RotR(x, 7), RotR(x, 18)), ShiftRight(x, 3)) }

  function SmallSigma1(x: Word): Word { Xor(Xor(RotR(x, 17), RotR(x, 19)), ShiftRight(x, 10)) }

  function Constant(t: nat): Word { if t < 64 then CONSTANTS[t / 8][t % 8] else 0 }

  /** Four bytes, the first being the most significant. */
  function WordOf(b0: Byte, b1: Byte, b2: Byte, b3: Byte): Word {
    b0 * 0x100_0000 + b1 * 0x1_0000 + b2 * 0x100 + b3
  }

  /** Shifts the word left by eight bits and sets the low ones. */
  function ShiftIn(w: Word, b: Byte): Word { (w * 256) % TWO_32 + b }

  function ByteOf(n: nat): Byte { n % 256 }

  function Words(): WordRules<Word, Byte> {
    WordRules(Add, Ch, Maj, BigSigma0, BigSigma1, SmallSigma0, SmallSigma1, Constant, WordOf, 0, ShiftIn)
  }

  function CompressBlock(state: seq<Word>, block: seq<Byte>): seq<Word> {
    if |state| == 8 && |block| == 64 then Compress(Words(), state, block) else state
  }

  function Sha256Hash(): HashRules<seq<Word>, Byte> {
    HashRules(INITIAL, CompressBlock, ByteOf)
  }

  lemma {:induction false} ModMultiple(n: nat, q: nat)
    ensures (n + TWO_32 * q) % TWO_32 == n % TWO_32
  {
    if q > 0 {
      ModMultiple(n, q - 1);
    }
  }

  lemma {:induction false} ModAdd(x: nat, y: nat)
    ensures (x % TWO_32 + y) % TWO_32 == (x + y) % TWO_32
  {
    ModMultiple(x % TWO_32 + y, x / TWO_32);
  }

  lemma {:induction false} AddFour(a: Word, b: Word, c: Word, d: Word)
    ensures Add(Add(Add(a, b), c), d) == (a + b + c + d) % TWO_32
  {
    ModAdd(a + b, c);
    ModAdd(a + b + c, d);
  }

  lemma {:induction false} AddReordered(a: Word, b: Word, c: Word, d: Word)
    ensures Add(Add(Add(a, b), c), d) == Add(Add(Add(d, c), b), a)
  {
    AddFour(a, b, c, d);
    AddFour(d, c, b, a);
  }

  lemma {:induction false} WordByBytes(b0: Byte, b1: Byte, b2: Byte, b3: Byte)
    ensures WordOf(b0, b1, b2, b3) == ShiftIn(ShiftIn(ShiftIn(ShiftIn(0, b0), b1), b2), b3)
  {
    assert ShiftIn(0, b0) == b0;
    assert ShiftIn(b0, b1) == b0 * 0x100 + b1;
    assert ShiftIn(b0 * 0x100 + b1, b2) == b0 * 0x1_0000 + b1 * 0x100 + b2;
  }

  /** The program's order of computation gives the standard's words. */
  lemma {:induction false} Sha256Lawful()
    ensures Lawful(Words())
  {
    var f := Words();
    forall a, b, c, d {:trigger Reorders(f, a, b, c, d)} ensures Reorders(f, a, b, c, d) {
      AddReordered(a, b, c, d);
    }
    forall b0, b1, b2, b3
      ensures f.word(b0, b1, b2, b3) == f.shiftIn(f.shiftIn(f.shiftIn(f.shiftIn(f.zeroWord, b0), b1), b2), b3)
    {
      WordByBytes(b0, b1, b2, b3);
    }
  }

  // ----- text --------------------------------------------------------------------------------

  const HEX := "0123456789abcdef"

  function Power16(n: nat): (r: nat)
    ensures r > 0
  {
    if n == 0 then 1 else 16 * Power16(n - 1)
  }

  /** The n most significant of a word's eight hexadecimal digits. */
  function HexDigits(w: Word, n: nat): (r: string)
    requires n <= 8
    ensures |r| == n
  {
    if n == 0 then "" else HexDigits(w, n - 1) + [HEX[w / Power16(8 - n) % 16]]
  }

  function Hex(words: seq<Word>): string {
    if words == [] then "" else Hex(words[..|words| - 1]) + HexDigits(words[|words| - 1], 8)
  }
}
