/** The streaming digest of artifacts: bytes arrive in pieces and are hashed block by block. */
module ArtifactDigest {
  import opened SecureHash
  import opened WordBits

  /** The first sixteen words, byte by byte. */
  method LoadBlock<W(!new), B(!new)>(f: WordRules<W, B>, block: seq<B>) returns (schedule: seq<W>)
    requires Lawful(f) && |block| == 64
    ensures |schedule| == 16 && schedule == Schedule(f, block, |schedule|)
  {
    schedule := [];
    for i := 0 to 16
      invariant schedule == Schedule(f, block, i)
    {
      var word := LoadWord(f, block, i);
      Loaded(f, block, i);
      schedule := schedule + [word];
    }
  }

  lemma {:induction false} Loaded<W, B>(f: WordRules<W, B>, block: seq<B>, t: nat)
    requires |block| == 64 && t < 16
    ensures Schedule(f, block, t + 1) ==
            Schedule(f, block, t) + [f.word(block[4 * t], block[4 * t + 1], block[4 * t + 2], block[4 * t + 3])]
  {
  }

  method LoadWord<W(!new), B(!new)>(f: WordRules<W, B>, block: seq<B>, i: nat) returns (word: W)
    requires Lawful(f) && |block| == 64 && i < 16
    ensures word == f.word(block[4 * i], block[4 * i + 1], block[4 * i + 2], block[4 * i + 3])
  {
    word := f.zeroWord;
    for n := 0 to 4
      invariant word == Shifted(f, block, i, n)
    {
      word := f.shiftIn(word, block[i * 4 + n]);
    }
    ShiftedIs(f, block, i);
  }

  /** The whole schedule: the block's words, then the recurrence in the program's order of addition. */
  method BuildSchedule<W(!new), B(!new)>(f: WordRules<W, B>, block: seq<B>) returns (schedule: seq<W>)
    requires Lawful(f) && |block| == 64
    ensures schedule == Schedule(f, block, |block|)
  {
    schedule := LoadBlock(f, block);
    for i := 16 to 64
      invariant schedule == Schedule(f, block, i)
    {
      var word := NextWord(f, block, schedule, i);
      schedule := schedule + [word];
    }
  }

  method NextWord<W(!new), B(!new)>(f: WordRules<W, B>, block: seq<B>, schedule: seq<W>, i: nat) returns (word: W)
    requires Lawful(f) && |block| == 64 && 16 <= i < 64 && schedule == Schedule(f, block, i)
    ensures schedule + [word] == Schedule(f, block, i + 1)
  {
    var s0 := f.smallSigma0(schedule[i - 15]);
    var s1 := f.smallSigma1(schedule[i - 2]);
    assert Reorders(f, s1, schedule[i - 7], s0, schedule[i - 16]);
    word := f.add(f.add(f.add(schedule[i - 16], s0), schedule[i - 7]), s1);
  }

  function Shifted<W, B>(f: WordRules<W, B>, block: seq<B>, t: nat, n: nat): W
    requires |block| == 64 && t < 16 && n <= 4
  {
    if n == 0 then f.zeroWord else f.shiftIn(Shifted(f, block, t, n - 1), block[t * 4 + n - 1])
  }

  lemma {:induction false} ShiftedIs<W(!new), B(!new)>(f: WordRules<W, B>, block: seq<B>, t: nat)
    requires Lawful(f) && |block| == 64 && t < 16
    ensures Shifted(f, block, t, 4) == f.word(block[4 * t], block[4 * t + 1], block[4 * t + 2], block[4 * t + 3])
  {
    assert Shifted(f, block, t, 1) == f.shiftIn(f.zeroWord, block[4 * t]);
    assert Shifted(f, block, t, 2) == f.shiftIn(Shifted(f, block, t, 1), block[4 * t + 1]);
    assert Shifted(f, block, t, 3) == f.shiftIn(Shifted(f, block, t, 2), block[4 * t + 2]);
  }

  method RunRounds<W, B>(f: WordRules<W, B>, state: seq<W>, schedule: seq<W>) returns (working: seq<W>)
    requires |state| == 8 && |schedule| == 64
    ensures working == Rounds(f, state, schedule, |schedule|)
  {
    working := state;
    for i := 0 to 64
      invariant working == Rounds(f, state, schedule, i)
    {
      working := OneRound(f, working, f.constant(i), schedule[i]);
    }
  }

  /** One round: the working variables move down in place. */
  method OneRound<W, B>(f: WordRules<W, B>, v: seq<W>, k: W, w: W) returns (working: seq<W>)
    requires |v| == 8
    ensures working == Round(f, v, k, w)
  {
    working := v;
    var s1 := f.bigSigma1(working[4]);
    var choice := f.ch(working[4], working[5], working[6]);
    var temp1 := f.add(f.add(f.add(f.add(working[7], s1), choice), k), w);
    var temp2 := f.add(f.bigSigma0(working[0]), f.maj(working[0], working[1], working[2]));
    working := working[7 := working[6]];
    working := working[6 := working[5]];
    working := working[5 := working[4]];
    working := working[4 := f.add(working[3], temp1)];
    working := working[3 := working[2]];
    working := working[2 := working[1]];
    working := working[1 := working[0]];
    working := working[0 := f.add(temp1, temp2)];
  }

  lemma {:induction false} PowersAgree(n: nat)
    ensures Power2(8 * n) == Power256(n)
  {
    if n > 0 {
      PowersAgree(n - 1);
      var m := 8 * n;
      assert Power2(m) == 2 * Power2(m - 1) == 4 * Power2(m - 2) == 8 * Power2(m - 3) == 16 * Power2(m - 4);
      assert Power2(m - 4) == 2 * Power2(m - 5) == 4 * Power2(m - 6) == 8 * Power2(m - 7) == 16 * Power2(m - 8);
    }
  }

  lemma {:induction false} CountAdds(n: nat, m: nat)
    ensures ((8 * n) % TWO_64 + m * 8) % TWO_64 == (8 * (n + m)) % TWO_64
  {
    CountMultiple((8 * n) % TWO_64 + m * 8, (8 * n) / TWO_64);
  }

  lemma {:induction false} CountMultiple(n: nat, q: nat)
    ensures (n + TWO_64 * q) % TWO_64 == n % TWO_64
  {
    if q > 0 {
      CountMultiple(n, q - 1);
    }
  }

  /** The padded message as laid out: one last block, or two when the first has no room for the length. */
  lemma {:induction false} PadIs<S, B>(h: HashRules<S, B>, message: seq<B>, bits: nat)
    requires bits == (8 * |message|) % TWO_64
    ensures var b := |message| % 64;
            var held := message[|message| - b..] + [h.byteOf(0x80)];
            Pad(h, message) == message[..|message| - b] +
              if b < 56 then held + Zeros(h, 55 - b) + LengthBytes(h, bits)
              else held + Zeros(h, 63 - b) + (Zeros(h, 56) + LengthBytes(h, bits))
  {
    var b := |message| % 64;
    assert message == message[..|message| - b] + message[|message| - b..];
    if b < 56 {
      assert ZeroCount(|message|) == 55 - b;
    } else {
      assert ZeroCount(|message|) == 119 - b;
      assert Zeros(h, 119 - b) == Zeros(h, 63 - b) + Zeros(h, 56);
    }
  }

  /** The whole blocks of the message are folded into the state and the rest is held back. */
  ghost predicate InProgress<S, B>(h: HashRules<S, B>, state: S, held: seq<B>, message: seq<B>) {
    && |held| == |message| % 64
    && held == message[|message| - |held|..]
    && state == Hash(h, h.initial, message[..|message| - |held|])
  }

  lemma {:induction false} TakenSome<S, B>(h: HashRules<S, B>, state: S, held: seq<B>, message: seq<B>, data: seq<B>)
    requires InProgress(h, state, held, message) && |held| + |data| < 64
    ensures InProgress(h, state, held + data, message + data)
  {
    var more := message + data;
    var n := |message| - |held|;
    assert more[n..] == held + data && more[..n] == message[..n];
  }

  lemma {:induction false} BlockEnds(n: nat, k: nat)
    ensures n % 64 <= n && (n - n % 64) % 64 == 0
    ensures n % 64 + k == 64 ==> (n + k) % 64 == 0
  {
  }

  lemma {:induction false} Rejoined<B>(message: seq<B>, n: nat, data: seq<B>)
    requires n <= |message|
    ensures message + data == message[..n] + (message[n..] + data)
  {
  }

  lemma {:induction false} Spliced<B>(message: seq<B>, data: seq<B>, m: nat, n: nat)
    requires m <= n <= |data|
    ensures message + data[..m] + data[m..n] == message + data[..n]
  {
  }

  lemma {:induction false} TakenBlock<S, B>(h: HashRules<S, B>, state: S, held: seq<B>, message: seq<B>, data: seq<B>)
    requires InProgress(h, state, held, message) && |held| + |data| == 64
    ensures InProgress(h, h.compress(state, held + data), [], message + data)
  {
    var more := message + data;
    var n := |message| - |held|;
    BlockEnds(|message|, |data|);
    HashBlock(h, h.initial, message[..n], held + data);
    Rejoined(message, n, data);
    assert more[|more|..] == [] && more[..|more|] == more;
  }

  lemma {:induction false} FinishedOne<S, B>(h: HashRules<S, B>, state: S, held: seq<B>, message: seq<B>, bits: nat)
    requires InProgress(h, state, held, message) && bits == (8 * |message|) % TWO_64 && |held| < 56
    ensures h.compress(state, held + [h.byteOf(0x80)] + Zeros(h, 55 - |held|) + LengthBytes(h, bits)) ==
            Digest(h, message)
  {
    PadIs(h, message, bits);
    var block := held + [h.byteOf(0x80)] + Zeros(h, 55 - |held|) + LengthBytes(h, bits);
    HashBlock(h, h.initial, message[..|message| - |held|], block);
  }

  lemma {:induction false} HashTwo<S, B>(h: HashRules<S, B>, base: seq<B>, first: seq<B>, second: seq<B>)
    requires |base| % 64 == 0 && |first| == |second| == 64
    ensures Hash(h, h.initial, base + (first + second)) ==
            h.compress(h.compress(Hash(h, h.initial, base), first), second)
  {
    var whole := base + first;
    HashBlock(h, h.initial, base, first);
    HashBlock(h, h.initial, whole, second);
    assert whole + second == base + (first + second);
  }

  lemma {:induction false} FinishedTwo<S, B>(h: HashRules<S, B>, state: S, held: seq<B>, message: seq<B>, bits: nat)
    requires InProgress(h, state, held, message) && bits == (8 * |message|) % TWO_64 && |held| >= 56
    ensures var first := h.compress(state, held + [h.byteOf(0x80)] + Zeros(h, 63 - |held|));
            h.compress(first, Zeros(h, 56) + LengthBytes(h, bits)) == Digest(h, message)
  {
    PadIs(h, message, bits);
    BlockEnds(|message|, 0);
    var base := message[..|message| - |held|];
    var first := held + [h.byteOf(0x80)] + Zeros(h, 63 - |held|);
    var second := Zeros(h, 56) + LengthBytes(h, bits);
    HashTwo(h, base, first, second);
    assert Pad(h, message) == base + (first + second);
  }

  /** What padding and folding the rest gives, in one block or two. */
  ghost function Finished<S, B>(h: HashRules<S, B>, state: S, held: seq<B>, bits: nat): S
    requires |held| < 64
  {
    var marked := held + [h.byteOf(0x80)];
    if |marked| <= 56 then h.compress(state, marked + Zeros(h, 56 - |marked|) + LengthBytes(h, bits))
    else h.compress(h.compress(state, marked + Zeros(h, 64 - |marked|)), [] + Zeros(h, 56) + LengthBytes(h, bits))
  }

  lemma {:induction false} FinishedIs<S, B>(h: HashRules<S, B>, state: S, held: seq<B>, message: seq<B>, bits: nat)
    requires InProgress(h, state, held, message) && bits == (8 * |message|) % TWO_64
    ensures Finished(h, state, held, bits) == Digest(h, message)
  {
    if |held| < 56 {
      FinishedOne(h, state, held, message, bits);
    } else {
      FinishedTwo(h, state, held, message, bits);
      assert [] + Zeros(h, 56) == Zeros(h, 56);
    }
  }

  /** A hash in progress. */
  class Hasher<W(!new), B(!new)> {
    const f: WordRules<W, B>
    const h: HashRules<seq<W>, B>
    var state: seq<W>
    const buffer: array<B>
    var buffered: nat
    var bitCount: nat
    /** Every byte fed so far. */
    ghost var message: seq<B>

    ghost predicate Shaped()
      reads this
    {
      Lawful(f) && Folds(h, f) && |state| == 8 && buffer.Length == 64
    }

    /** Everything is accounted for except the length. */
    ghost predicate Fed()
      reads this, buffer
    {
      Shaped() && buffered < 64 && InProgress(h, state, buffer[..buffered], message)
    }

    ghost predicate Valid()
      reads this, buffer
    {
      Fed() && bitCount == (8 * |message|) % TWO_64
    }

    constructor (f: WordRules<W, B>, h: HashRules<seq<W>, B>)
      requires Lawful(f) && Folds(h, f)
      ensures this.h == h && Valid() && message == [] && fresh(buffer)
    {
      this.f, this.h := f, h;
      state := h.initial;
      buffer := new B[64](_ => h.byteOf(0));
      buffered, bitCount, message := 0, 0, [];
    }

    /** Folds the buffer into the state. */
    method Transform()
      requires Shaped()
      modifies this`state
      ensures |state| == 8 && state == h.compress(old(state), buffer[..])
    {
      var schedule := BuildSchedule(f, buffer[..]);
      var working := RunRounds(f, state, schedule);
      ghost var before := state;
      for i := 0 to 8
        invariant |state| == 8
        invariant forall j :: 0 <= j < i ==> state[j] == f.add(before[j], working[j])
        invariant forall j :: i <= j < 8 ==> state[j] == before[j]
      {
        state := state[i := f.add(state[i], working[i])];
      }
      assert state == AddWords(f, before, working);
      assert state == Compress(f, before, buffer[..]);
    }

    /** Copies bytes into the buffer behind those it holds. */
    method Copy(data: seq<B>)
      requires buffer.Length == 64 && buffered + |data| <= 64
      modifies buffer
      ensures buffer[..buffered + |data|] == old(buffer[..buffered]) + data
    {
      ghost var before := buffer[..buffered];
      for i := 0 to |data|
        invariant buffer[..buffered + i] == before + data[..i]
      {
        buffer[buffered + i] := data[i];
        assert buffer[..buffered + i + 1] == buffer[..buffered + i] + [data[i]];
      }
    }

    /** Takes as many bytes as the buffer has room for, and folds it when it is full. */
    method Take(data: seq<B>)
      requires Fed() && buffered + |data| <= 64
      modifies this`state, this`buffered, this`message, buffer
      ensures Fed() && message == old(message) + data
    {
      ghost var held := buffer[..buffered];
      Copy(data);
      buffered := buffered + |data|;
      if buffered == 64 {
        assert buffer[..] == buffer[..64];
        TakenBlock(h, state, held, message, data);
        Transform();
        buffered := 0;
        assert buffer[..0] == [];
      } else {
        TakenSome(h, state, held, message, data);
      }
      message := message + data;
    }

    /** Moves the bytes through the buffer. */
    method Feed(data: seq<B>)
      requires Fed()
      modifies this`state, this`buffered, this`message, buffer
      ensures Fed() && message == old(message) + data
    {
      var done := 0;
      while done < |data|
        invariant done <= |data| && Fed() && message == old(message) + data[..done]
      {
        var size := |data| - done;
        var copied := if size < 64 - buffered then size else 64 - buffered;
        Take(data[done..done + copied]);
        Spliced(old(message), data, done, done + copied);
        done := done + copied;
      }
      assert data[..done] == data;
    }

    /** Feeds some bytes. */
    method Update(data: seq<B>)
      requires Valid()
      modifies this`state, this`buffered, this`bitCount, this`message, buffer
      ensures Valid() && message == old(message) + data
    {
      bitCount := (bitCount + |data| * 8) % TWO_64;
      CountAdds(|message|, |data|);
      assert bitCount == (8 * |message + data|) % TWO_64;
      Feed(data);
    }

    method FillZeros(from: nat, to: nat)
      requires buffer.Length == 64 && from <= to <= 64
      modifies buffer
      ensures buffer[..from] == old(buffer[..from]) && buffer[from..to] == Zeros(h, to - from)
    {
      for i := from to to
        invariant forall j :: 0 <= j < from ==> buffer[j] == old(buffer[j])
        invariant forall j :: from <= j < i ==> buffer[j] == h.byteOf(0)
      {
        buffer[i] := h.byteOf(0);
      }
    }

    /** Writes the bit count into the last eight bytes, from the most significant one on. */
    method PutLength(bits: nat)
      requires buffer.Length == 64
      modifies buffer
      ensures buffer[..56] == old(buffer[..56]) && buffer[56..] == LengthBytes(h, bits)
    {
      var shift := 56;
      while shift >= 0
        invariant -8 <= shift <= 56 && shift % 8 == 0
        invariant buffer[..56] == old(buffer[..56])
        invariant buffer[56..56 + (56 - shift) / 8] == LengthBytes(h, bits)[..(56 - shift) / 8]
      {
        var at := (56 - shift) / 8;
        PowersAgree(shift / 8);
        buffer[56 + at] := h.byteOf(bits / Power2(shift) % 256);
        assert buffer[56 + at] == LengthBytes(h, bits)[at];
        assert buffer[56..56 + at + 1] == buffer[56..56 + at] + [buffer[56 + at]];
        shift := shift - 8;
      }
    }

    /** Appends the mark, and folds the buffer if it then has no room for the length. */
    method PutMark()
      requires Shaped() && buffered < 64
      modifies this`state, this`buffered, buffer
      ensures |state| == 8
      ensures var marked := old(buffer[..buffered]) + [h.byteOf(0x80)];
              if |marked| <= 56 then buffered == |marked| && buffer[..buffered] == marked && state == old(state)
              else buffered == 0 && state == h.compress(old(state), marked + Zeros(h, 64 - |marked|))
    {
      ghost var marked := buffer[..buffered] + [h.byteOf(0x80)];
      buffer[buffered] := h.byteOf(0x80);
      buffered := buffered + 1;
      assert buffer[..buffered] == marked;
      if buffered > 56 {
        FillZeros(buffered, 64);
        assert buffer[..] == buffer[..buffered] + buffer[buffered..64];
        Transform();
        buffered := 0;
      }
    }

    /** Fills up the last block and folds it. */
    method LastBlock(bits: nat)
      requires Shaped() && buffered <= 56
      modifies this`state, buffer
      ensures state == h.compress(old(state), old(buffer[..buffered]) + Zeros(h, 56 - buffered) + LengthBytes(h, bits))
    {
      FillZeros(buffered, 56);
      ghost var front := buffer[..56];
      assert front == buffer[..buffered] + buffer[buffered..56];
      PutLength(bits);
      assert buffer[..] == front + LengthBytes(h, bits);
      Transform();
    }

    /** Pads and folds what is left, and gives the digest of everything fed. */
    method Finish() returns (digest: seq<W>)
      requires Valid()
      modifies this`state, this`buffered, buffer
      ensures digest == Digest(h, message)
    {
      ghost var held, before, expected := buffer[..buffered], state, Digest(h, message);
      FinishedIs(h, state, held, message, bitCount);
      PutMark();
      ghost var front, middle := buffer[..buffered], state;
      LastBlock(bitCount);
      assert Finished(h, before, held, bitCount) ==
             h.compress(middle, front + Zeros(h, 56 - |front|) + LengthBytes(h, bitCount));
      digest := state;
      assert digest == expected;
    }
  }

  // ----- the digest of an artifact -----------------------------------------------------------

  function Concat<B>(pieces: seq<seq<B>>): seq<B> {
    if pieces == [] then [] else Concat(pieces[..|pieces| - 1]) + pieces[|pieces| - 1]
  }

  /** However a message is cut into pieces, the streamed digest is the digest of the whole. */
  method DigestOf<W(!new), B(!new)>(f: WordRules<W, B>, h: HashRules<seq<W>, B>, pieces: seq<seq<B>>)
    returns (digest: seq<W>)
    requires Lawful(f) && Folds(h, f)
    ensures digest == Digest(h, Concat(pieces))
  {
    var hasher := new Hasher(f, h);
    for i := 0 to |pieces|
      invariant hasher.h == h && hasher.Valid() && hasher.message == Concat(pieces[..i])
      invariant fresh(hasher) && fresh(hasher.buffer)
    {
      hasher.Update(pieces[i]);
      assert pieces[..i + 1][..i] == pieces[..i];
    }
    assert pieces[..|pieces|] == pieces;
    digest := hasher.Finish();
  }
}

/** The digest as text. */
module DigestText {
  import opened SecureHash
  import opened WordBits
  import opened Sha256
  import opened ArtifactDigest

  /** Writes a word's digits, most significant first. */
  method WordToHex(value: Word) returns (text: string)
    ensures text == HexDigits(value, 8)
  {
    text := "";
    var shift := 28;
    ghost var n: nat := 0;
    while shift >= 0
      invariant n <= 8 && shift == 28 - 4 * n
      invariant text == HexDigits(value, n)
    {
      PowersOf16(7 - n);
      text := text + [HEX[value / Power2(shift) % 16]];
      HexStep(value, n);
      n := n + 1;
      shift := shift - 4;
    }
  }

  lemma HexStep(value: Word, n: nat)
    requires n < 8
    ensures HexDigits(value, n + 1) == HexDigits(value, n) + [HEX[value / Power16(7 - n) % 16]]
  {
  }

  /** Writes the words one after the other. */
  method ToHex(words: seq<Word>) returns (text: string)
    ensures text == Hex(words)
  {
    text := "";
    for i := 0 to |words|
      invariant text == Hex(words[..i])
    {
      var digits := WordToHex(words[i]);
      text := text + digits;
      assert words[..i + 1][..i] == words[..i];
    }
    assert words[..|words|] == words;
  }

  lemma {:induction false} PowersOf16(n: nat)
    ensures Power2(4 * n) == Power16(n)
  {
    if n > 0 {
      PowersOf16(n - 1);
      var m := 4 * n;
      assert Power2(m) == 2 * Power2(m - 1) == 4 * Power2(m - 2) == 8 * Power2(m - 3) == 16 * Power2(m - 4);
    }
  }

  /** The checksum of an artifact read in pieces is the SHA-256 of its content, in hexadecimal. */
  method Checksum(pieces: seq<seq<Byte>>) returns (text: string)
    ensures text == Hex(Digest(Sha256Hash(), Concat(pieces)))
  {
    Sha256Lawful();
    var digest := DigestOf(Words(), Sha256Hash(), pieces);
    text := ToHex(digest);
  }
}
