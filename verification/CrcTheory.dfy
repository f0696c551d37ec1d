/** What the checksum detects: every change confined to 32 consecutive bits. */
module CrcTheory {
  import opened Bits
  import opened Crc32
  import opened Gf2

  function Twice(c: Word): Word {
    c << 1
  }

  /** Up to 32 bits as one word, the first one lowest. */
  function WordOf(bits: seq<bool>): Word
    decreases |bits|
  {
    if bits == [] then 0 else Xor(if bits[0] then 1 else 0, Twice(WordOf(bits[1..])))
  }

  function TopByte(c: Word): Byte {
    (c >> 24) as Byte
  }

  lemma TopBitOfByte(b: Byte)
    ensures Bit(b, 7) || b & 0x80 == 0
  {
  }

  lemma TopBitOfWord(c: Word)
    requires TopByte(c) & 0x80 == 0
    ensures c & 0x8000_0000 == 0
  {
  }

  lemma TwiceEven(c: Word)
    requires c & 0x8000_0000 == 0
    ensures Halve(Xor(0, Twice(c))) == c && Xor(0, Twice(c)) & 1 == 0
  {
  }

  lemma TwiceOdd(c: Word)
    requires c & 0x8000_0000 == 0
    ensures Halve(Xor(1, Twice(c))) == c && Xor(1, Twice(c)) & 1 == 1
  {
  }

  lemma TwiceParts(c: Word, bit: bool)
    requires !WordBit(c, 31)
    ensures var d := Xor(if bit then 1 else 0, Twice(c)); Halve(d) == c && WordBit(d, 0) == bit
  {
    hide Xor, Twice, Halve, Bit, WordBit;
    BitOfWord(c, 31);
    TopBitOfByte(TopByte(c));
    hide TopByte;
    TopBitOfWord(c);
    TwiceEven(c);
    TwiceOdd(c);
    FirstBit(Xor(0, Twice(c)));
    FirstBit(Xor(1, Twice(c)));
  }

  lemma {:induction false} ShortWord(bits: seq<bool>, i: nat)
    requires |bits| <= i < 32
    ensures !WordBit(WordOf(bits), i)
    decreases |bits|
  {
    hide Xor, Twice, Halve;
    if bits == [] {
      ZeroBit(i);
    } else {
      ShortWord(bits[1..], 31);
      ShortWord(bits[1..], i - 1);
      TwiceParts(WordOf(bits[1..]), bits[0]);
    }
  }

  /** A word has the bits it was made of, and no others. */
  lemma {:induction false} BitsOfWord(bits: seq<bool>)
    requires |bits| <= 32
    ensures LowBits(WordOf(bits), |bits|) == bits && Halves(WordOf(bits), |bits|) == 0
    decreases |bits|
  {
    hide Xor, Twice, Halve, WordBit;
    if bits != [] {
      BitsOfWord(bits[1..]);
      ShortWord(bits[1..], 31);
      TwiceParts(WordOf(bits[1..]), bits[0]);
    }
  }

  /** Up to 32 bits are absorbed as if the word they make had been XOR-ed in at once. */
  lemma FeedOfWord(c: Word, bits: seq<bool>)
    requires |bits| <= 32
    ensures FeedAll(c, bits) == BitSteps(Xor(c, WordOf(bits)), |bits|)
  {
    hide Xor, FeedAll, BitSteps, WordOf, LowBits, Halves;
    BitsOfWord(bits);
    FeedLowBits(c, WordOf(bits), |bits|);
    XorZero(FeedAll(c, bits));
  }

  /** Equal input keeps different registers different. */
  lemma {:induction false} FeedAllInjective(c: Word, d: Word, bits: seq<bool>)
    requires FeedAll(c, bits) == FeedAll(d, bits)
    ensures c == d
    decreases |bits|
  {
    hide Xor, BitStep;
    if bits != [] {
      FeedAllInjective(Feed(c, bits[0]), Feed(d, bits[0]), bits[1..]);
      StepInjective(if bits[0] then Xor(c, 1) else c, if bits[0] then Xor(d, 1) else d);
      XorCommutes(c, 1);
      XorCommutes(d, 1);
      if bits[0] {
        XorCancels(1, c, d);
      }
    }
  }

  /** A burst: two messages that differ only inside one window of at most 32 bits, and do differ
      there, leave different registers. */
  lemma BurstOfBits(c: Word, before: seq<bool>, v: seq<bool>, w: seq<bool>, after: seq<bool>)
    requires |v| == |w| <= 32 && v != w
    ensures FeedAll(c, before + v + after) != FeedAll(c, before + w + after)
  {
    hide Xor, FeedAll, BitSteps, WordOf, LowBits, Halves;
    if FeedAll(c, before + v + after) == FeedAll(c, before + w + after) {
      var d := FeedAll(c, before);
      FeedAllConcat(c, before + v, after);
      FeedAllConcat(c, before + w, after);
      FeedAllConcat(c, before, v);
      FeedAllConcat(c, before, w);
      FeedAllInjective(FeedAll(d, v), FeedAll(d, w), after);
      FeedOfWord(d, v);
      FeedOfWord(d, w);
      StepsInjective(Xor(d, WordOf(v)), Xor(d, WordOf(w)), |v|);
      XorCancels(d, WordOf(v), WordOf(w));
      BitsOfWord(v);
      BitsOfWord(w);
    }
  }

  /** Two byte strings whose bits differ only inside one window of at most 32 consecutive bits,
      wherever it starts, and do differ there, have different checksums. */
  lemma BurstDetected(a: seq<Byte>, b: seq<Byte>, before: seq<bool>, v: seq<bool>, w: seq<bool>, after: seq<bool>)
    requires ToBits(a) == before + v + after && ToBits(b) == before + w + after
    requires |v| == |w| <= 32 && v != w
    ensures Crc(a) != Crc(b)
  {
    hide Xor, FeedAll, Register, ToBits;
    RegisterFeeds(ALL_ONES, a);
    RegisterFeeds(ALL_ONES, b);
    BurstOfBits(ALL_ONES, before, v, w, after);
    if Crc(a) == Crc(b) {
      XorOnes(Register(ALL_ONES, a), Register(ALL_ONES, b));
    }
  }

  lemma XorDifference(a: Word, b: Word, c: Word)
    ensures Xor(Xor(a, b), Xor(a, c)) == Xor(b, c)
    ensures Xor(Xor(b, ALL_ONES), Xor(c, ALL_ONES)) == Xor(b, c)
  {
  }

  /** How much the checksum changes when the last bits of the data do, 32 at most. */
  lemma ChangeOfLastBits(a: seq<Byte>, b: seq<Byte>, before: seq<bool>, v: seq<bool>, w: seq<bool>)
    requires ToBits(a) == before + v && ToBits(b) == before + w && |v| == |w| <= 32
    ensures Xor(Crc(a), Crc(b)) == BitSteps(Xor(WordOf(v), WordOf(w)), |v|)
  {
    hide Xor, FeedAll, BitSteps, WordOf, Register, ToBits;
    RegisterFeeds(ALL_ONES, a);
    RegisterFeeds(ALL_ONES, b);
    FeedAllConcat(ALL_ONES, before, v);
    FeedAllConcat(ALL_ONES, before, w);
    var d := FeedAll(ALL_ONES, before);
    FeedOfWord(d, v);
    FeedOfWord(d, w);
    StepsXor(Xor(d, WordOf(v)), Xor(d, WordOf(w)), |v|);
    XorDifference(d, WordOf(v), WordOf(w));
    XorDifference(d, FeedAll(d, v), FeedAll(d, w));
  }
}
