/** Polynomials over GF(2) as coefficient lists, highest degree first, and the CRC register
    as long division. */
module Gf2 {
  import opened Bits
  import opened Crc32

  type Poly = seq<bool>

  function Zeros(n: nat): (p: Poly)
    ensures |p| == n
  {
    seq(n, i => false)
  }

  function Add(a: Poly, b: Poly): (p: Poly)
    requires |a| == |b|
    ensures |p| == |a|
  {
    seq(|a|, i requires 0 <= i < |a| => a[i] != b[i])
  }

  /** `p` plus `q` times the power of x that aligns their leading coefficients. */
  function AddHigh(p: Poly, q: Poly): (r: Poly)
    requires |q| <= |p|
    ensures |r| == |p|
  {
    Add(p[..|q|], q) + p[|q|..]
  }

  /** `p` plus a polynomial of lower degree. */
  function AddLow(p: Poly, q: Poly): (r: Poly)
    requires |q| <= |p|
    ensures |r| == |p|
  {
    p[..|p| - |q|] + Add(p[|p| - |q|..], q)
  }

  function Multiply(q: Poly, g: Poly): (p: Poly)
    requires |g| > 0
    ensures |p| == |q| + |g| - 1
    decreases |q|
  {
    if q == [] then Zeros(|g| - 1)
    else
      var rest := [false] + Multiply(q[1..], g);
      if q[0] then AddHigh(rest, g) else rest
  }

  /** `r` is the remainder of dividing `p` by `g`. */
  ghost predicate IsRemainder(p: Poly, g: Poly, r: Poly) {
    |g| > 0 && |r| == |g| - 1 <= |p| && exists q: Poly :: |q| == |p| - |r| && p == AddLow(Multiply(q, g), r)
  }

  /** Long division: the remainder left by subtracting the divisor wherever the leading coefficient is set. */
  function Divide(p: Poly, g: Poly): (r: Poly)
    requires |g| > 0 && |p| >= |g| - 1
    ensures |r| == |g| - 1
    decreases |p|
  {
    if |p| == |g| - 1 then p
    else Divide((if p[0] then AddHigh(p, g) else p)[1..], g)
  }

  lemma AddHighAt(p: Poly, q: Poly, i: nat)
    requires |q| <= |p| && i < |p|
    ensures AddHigh(p, q)[i] == (p[i] != (i < |q| && q[i]))
  {
  }

  lemma AddLowAt(p: Poly, q: Poly, i: nat)
    requires |q| <= |p| && i < |p|
    ensures AddLow(p, q)[i] == (p[i] != (i >= |p| - |q| && q[i - (|p| - |q|)]))
  {
  }

  lemma AddHighTwice(p: Poly, g: Poly)
    requires |g| <= |p|
    ensures AddHigh(AddHigh(p, g), g) == p
  {
  }

  lemma AddsCommute(p: Poly, g: Poly, r: Poly)
    requires |g| <= |p| && |r| <= |p|
    ensures AddHigh(AddLow(p, r), g) == AddLow(AddHigh(p, g), r)
  {
    hide AddHigh, AddLow;
    forall i | 0 <= i < |p|
      ensures AddHigh(AddLow(p, r), g)[i] == AddLow(AddHigh(p, g), r)[i]
    {
      AddHighAt(AddLow(p, r), g, i);
      AddLowAt(p, r, i);
      AddLowAt(AddHigh(p, g), r, i);
      AddHighAt(p, g, i);
    }
  }

  lemma AddLowUnderZero(p: Poly, r: Poly)
    requires |r| <= |p|
    ensures [false] + AddLow(p, r) == AddLow([false] + p, r)
  {
  }

  /** One step of long division, undone: the quotient gets the leading coefficient in front. */
  lemma DivideStep(p: Poly, g: Poly, q: Poly, r: Poly)
    requires |g| > 1 && g[0] && |p| >= |g| && |r| == |g| - 1 && |q| == |p| - 1 - |r|
    requires (if p[0] then AddHigh(p, g) else p)[1..] == AddLow(Multiply(q, g), r)
    ensures p == AddLow(Multiply([p[0]] + q, g), r)
  {
    hide AddHigh, AddLow;
    var p1 := if p[0] then AddHigh(p, g) else p;
    LeadingCancels(p, g);
    var rest := [false] + Multiply(q, g);
    assert ([p[0]] + q)[1..] == q;
    assert p1 == [false] + p1[1..];
    AddLowUnderZero(Multiply(q, g), r);
    if p[0] {
      AddHighTwice(p, g);
      AddsCommute(rest, g, r);
    }
  }

  lemma {:induction false} DivideGivesRemainder(p: Poly, g: Poly)
    requires |g| > 1 && g[0] && |p| >= |g| - 1
    ensures IsRemainder(p, g, Divide(p, g))
    decreases |p|
  {
    hide AddHigh, AddLow, Multiply;
    var r := Divide(p, g);
    if |p| == |g| - 1 {
      NothingToDivide(p);
      NoQuotient(g);
      assert p == AddLow(Multiply([], g), r);
    } else {
      var next := (if p[0] then AddHigh(p, g) else p)[1..];
      DivideGivesRemainder(next, g);
      var q: Poly :| |q| == |next| - |r| && next == AddLow(Multiply(q, g), r);
      DivideStep(p, g, q, r);
    }
  }

  lemma NoQuotient(g: Poly)
    requires |g| > 0
    ensures Multiply([], g) == Zeros(|g| - 1)
  {
  }

  lemma ZeroBelow(m: Poly, r: Poly)
    requires |r| <= |m|
    ensures ([false] + AddLow(m, r))[1..] == AddLow(m, r)
  {
  }

  /** The leading coefficient of a product by a monic polynomial, and what is left of a sum with
      a low polynomial once the divisor is subtracted there. */
  lemma LeadingTerm(q: Poly, g: Poly, r: Poly)
    requires q != [] && |g| > 1 && g[0] && |r| == |g| - 1
    ensures var p := AddLow(Multiply(q, g), r);
      p[0] == q[0] && (if p[0] then AddHigh(p, g) else p)[1..] == AddLow(Multiply(q[1..], g), r)
  {
    hide AddHigh, AddLow;
    var m := Multiply(q[1..], g);
    var rest := [false] + m;
    var p := AddLow(Multiply(q, g), r);
    AddLowUnderZero(m, r);
    AddLowAt(Multiply(q, g), r, 0);
    ZeroBelow(m, r);
    if q[0] {
      AddHighAt(rest, g, 0);
      AddsCommute(rest, g, r);
      AddHighTwice(AddLow(rest, r), g);
    }
  }

  /** Division by a monic polynomial leaves one remainder only. */
  lemma {:induction false} RemainderUnique(q: Poly, r: Poly, q': Poly, r': Poly, g: Poly)
    requires |g| > 1 && g[0] && |q| == |q'| && |r| == |r'| == |g| - 1
    requires AddLow(Multiply(q, g), r) == AddLow(Multiply(q', g), r')
    ensures q == q' && r == r'
    decreases |q|
  {
    hide AddHigh, AddLow;
    if q == [] {
      NothingToDivide(r);
      NothingToDivide(r');
    } else {
      LeadingTerm(q, g, r);
      LeadingTerm(q', g, r');
      RemainderUnique(q[1..], r, q'[1..], r', g);
      assert q == [q[0]] + q[1..] && q' == [q'[0]] + q'[1..];
    }
  }

  /** Long division computes the remainder, and there is no other. */
  lemma TheRemainder(p: Poly, g: Poly, r: Poly)
    requires |g| > 1 && g[0] && |p| >= |g| - 1
    ensures IsRemainder(p, g, r) <==> r == Divide(p, g)
  {
    hide AddHigh, AddLow, Divide;
    DivideGivesRemainder(p, g);
    if IsRemainder(p, g, r) {
      var q: Poly :| |q| == |p| - |r| && p == AddLow(Multiply(q, g), r);
      var q': Poly :| |q'| == |p| - |r| && p == AddLow(Multiply(q', g), Divide(p, g));
      RemainderUnique(q, r, q', Divide(p, g), g);
    }
  }

  lemma LeadingCancels(p: Poly, g: Poly)
    requires 0 < |g| <= |p| && g[0]
    ensures !(if p[0] then AddHigh(p, g) else p)[0]
  {
  }

  lemma NothingToDivide(p: Poly)
    ensures p == AddLow(Zeros(|p|), p)
  {
  }

  /** The exponents of the IEEE 802.3 generator polynomial. */
  const EXPONENTS := {32, 26, 23, 22, 16, 12, 11, 10, 8, 7, 5, 4, 2, 1, 0}

  const GENERATOR: Poly := seq(33, i => 32 - i in EXPONENTS)

  predicate WordBit(c: Word, i: nat)
    decreases i
  {
    if i == 0 then c & 1 == 1 else WordBit(Halve(c), i - 1)
  }

  /** A register as a polynomial of degree below 32: its lowest bit is the coefficient of x^31. */
  function Reflect(c: Word): (p: Poly)
    ensures |p| == 32
  {
    seq(32, i requires 0 <= i < 32 => WordBit(c, i))
  }

  function Feed(c: Word, bit: bool): Word {
    BitStep(if bit then Xor(c, 1) else c)
  }

  function FeedAll(c: Word, bits: seq<bool>): Word
    decreases |bits|
  {
    if bits == [] then c else FeedAll(Feed(c, bits[0]), bits[1..])
  }

  lemma FarBit(c: Word, i: nat)
    ensures WordBit(c, i + 8) == WordBit(ShiftByte(c), i)
  {
    EightHalves(c);
    SkipFour(c, i + 4);
    SkipFour(Halve(Halve(Halve(Halve(c)))), i);
  }

  lemma SkipFour(c: Word, i: nat)
    ensures WordBit(c, i + 4) == WordBit(Halve(Halve(Halve(Halve(c)))), i)
  {
    hide Halve;
    assert WordBit(c, i + 4) == WordBit(Halve(c), i + 3);
    assert WordBit(Halve(c), i + 3) == WordBit(Halve(Halve(c)), i + 2);
    assert WordBit(Halve(Halve(c)), i + 2) == WordBit(Halve(Halve(Halve(c))), i + 1);
  }

  lemma EightHalves(c: Word)
    ensures var d := Halve(Halve(Halve(Halve(c)))); Halve(Halve(Halve(Halve(d)))) == ShiftByte(c)
  {
  }

  function LowByteOf(c: Word): Byte {
    (c & 0xFF) as Byte
  }

  lemma LowNibble(c: Word, i: nat)
    requires i < 4
    ensures WordBit(c, i) == Bit(LowByteOf(c), i)
  {
    if i == 0 {
    } else if i == 1 {
      assert WordBit(c, 1) == WordBit(Halve(c), 0);
    } else if i == 2 {
      assert WordBit(c, 2) == WordBit(Halve(Halve(c)), 0);
    } else {
      assert WordBit(c, 3) == WordBit(Halve(Halve(Halve(c))), 0);
    }
  }

  lemma HighNibble(c: Word, i: nat)
    requires i < 4
    ensures Bit(LowByteOf(c), i + 4) == Bit(LowByteOf(Halve(Halve(Halve(Halve(c))))), i)
  {
  }

  /** The low eight bits of a word are those of its low byte. */
  lemma NearBit(c: Word, i: nat)
    requires i < 8
    ensures WordBit(c, i) == Bit(LowByteOf(c), i)
  {
    hide Halve, Bit, LowByteOf, WordBit;
    if i < 4 {
      LowNibble(c, i);
    } else {
      SkipFour(c, i - 4);
      LowNibble(Halve(Halve(Halve(Halve(c)))), i - 4);
      HighNibble(c, i - 4);
    }
  }

  /** Bit `i` of a word, found in the byte that holds it. */
  lemma BitOfWord(c: Word, i: nat)
    requires i < 32
    ensures WordBit(c, i) ==
      Bit((if i < 8 then c & 0xFF else if i < 16 then (c >> 8) & 0xFF
           else if i < 24 then (c >> 16) & 0xFF else c >> 24) as Byte, i % 8)
  {
    hide WordBit, Bit;
    ShiftBytes(c);
    if i < 8 {
      NearBit(c, i);
    } else if i < 16 {
      FarBit(c, i - 8);
      NearBit(c >> 8, i - 8);
    } else if i < 24 {
      FarBit(c, i - 8);
      FarBit(c >> 8, i - 16);
      NearBit(c >> 16, i - 16);
    } else {
      FarBit(c, i - 8);
      FarBit(c >> 8, i - 16);
      FarBit(c >> 16, i - 24);
      NearBit(c >> 24, i - 24);
    }
  }

  lemma ShiftBytes(c: Word)
    ensures ShiftByte(c) == c >> 8 && ShiftByte(c >> 8) == c >> 16 && ShiftByte(c >> 16) == c >> 24
    ensures (c >> 24) & 0xFF == c >> 24
  {
  }

  lemma GeneratorBits(i: nat)
    requires i < 32
    ensures WordBit(0xEDB88320, i) == GENERATOR[i + 1]
  {
    hide WordBit;
    BitOfWord(0xEDB88320, i);
  }

  lemma {:induction false} ZeroBit(i: nat)
    ensures !WordBit(0, i)
    decreases i
  {
    if i != 0 {
      ZeroBit(i - 1);
    }
  }

  lemma TopBit(c: Word)
    ensures !WordBit(Halve(c), 31)
  {
    hide WordBit;
    BitOfWord(Halve(c), 31);
  }

  lemma {:induction false} XorBit(a: Word, b: Word, i: nat)
    ensures WordBit(Xor(a, b), i) == (WordBit(a, i) != WordBit(b, i))
    decreases i
  {
    hide Xor, Halve;
    XorParts(a, b);
    if i != 0 {
      XorBit(Halve(a), Halve(b), i - 1);
    }
  }

  lemma XorParts(a: Word, b: Word)
    ensures Halve(Xor(a, b)) == Xor(Halve(a), Halve(b))
    ensures (Xor(a, b) & 1 == 1) == ((a & 1 == 1) != (b & 1 == 1))
  {
  }

  lemma OneBit(i: nat)
    ensures WordBit(1, i) == (i == 0)
  {
    if i != 0 {
      ZeroBit(i - 1);
    }
  }

  lemma StepHalves(c: Word)
    ensures BitStep(c) == if WordBit(c, 0) then Xor(0xEDB88320, Halve(c)) else Halve(c)
  {
  }

  lemma StepBit(c: Word, i: nat)
    requires i < 32
    ensures WordBit(BitStep(c), i) == ((i < 31 && WordBit(c, i + 1)) != (WordBit(c, 0) && GENERATOR[i + 1]))
  {
    hide Xor, Halve;
    TopBit(c);
    GeneratorBits(i);
    XorBit(0xEDB88320, Halve(c), i);
    StepHalves(c);
  }

  lemma FeedBit(c: Word, bit: bool, i: nat)
    ensures WordBit(if bit then Xor(c, 1) else c, i) == if i == 0 then WordBit(c, 0) != bit else WordBit(c, i)
  {
    hide WordBit, Xor;
    XorBit(c, 1, i);
    OneBit(i);
  }

  /** Feeding one message bit is one step of long division: the register, aligned under the
      rest of the message, is what subtracting the generator leaves. */
  lemma FeedDivides(c: Word, bits: seq<bool>)
    requires bits != []
    ensures var p := AddHigh(bits + Zeros(32), Reflect(c));
      (if p[0] then AddHigh(p, GENERATOR) else p)[1..] == AddHigh(bits[1..] + Zeros(32), Reflect(Feed(c, bits[0])))
  {
    hide WordBit, Xor, BitStep, AddHigh, Feed;
    var p := AddHigh(bits + Zeros(32), Reflect(c));
    var lhs := if p[0] then AddHigh(p, GENERATOR) else p;
    var rhs := AddHigh(bits[1..] + Zeros(32), Reflect(Feed(c, bits[0])));
    AddHighAt(bits + Zeros(32), Reflect(c), 0);
    forall i | 0 <= i < |rhs|
      ensures lhs[i + 1] == rhs[i]
    {
      AddHighAt(bits + Zeros(32), Reflect(c), i + 1);
      AddHighAt(p, GENERATOR, i + 1);
      AddHighAt(bits[1..] + Zeros(32), Reflect(Feed(c, bits[0])), i);
      if i < 32 {
        FeedStep(c, bits[0], i);
      }
    }
    assert lhs[1..] == rhs;
  }

  lemma FeedStep(c: Word, bit: bool, i: nat)
    requires i < 32
    ensures WordBit(Feed(c, bit), i) ==
      ((i < 31 && WordBit(c, i + 1)) != ((WordBit(c, 0) != bit) && GENERATOR[i + 1]))
  {
    hide WordBit, Xor, BitStep;
    StepBit(if bit then Xor(c, 1) else c, i);
    FeedBit(c, bit, 0);
    FeedBit(c, bit, i + 1);
  }

  lemma {:induction false} FeedAllDivides(c: Word, bits: seq<bool>)
    ensures Reflect(FeedAll(c, bits)) == Divide(AddHigh(bits + Zeros(32), Reflect(c)), GENERATOR)
    decreases |bits|
  {
    hide Feed;
    if bits == [] {
      EmptyMessage(c);
    } else {
      FeedDivides(c, bits);
      FeedAllDivides(Feed(c, bits[0]), bits[1..]);
    }
  }

  lemma EmptyMessage(c: Word)
    ensures AddHigh([] + Zeros(32), Reflect(c)) == Reflect(c)
  {
  }

  // ----- Bytes are fed least significant bit first

  lemma OddPart(c: Word, v: Word)
    ensures BitStep(Xor(c, v)) == Xor(Feed(c, WordBit(v, 0)), Halve(v))
  {
    hide Xor, BitStep, WordBit, Halve, Even;
    FirstBit(v);
    if WordBit(v, 0) {
      SplitOdd(c, v);
      StepXor(Xor(c, 1), Xor(v, 1));
      EvenStep(Xor(v, 1));
    } else {
      IsEven(v);
      StepXor(c, v);
      EvenStep(v);
    }
  }

  lemma FirstBit(v: Word)
    ensures WordBit(v, 0) == (v & 1 == 1)
  {
  }

  lemma IsEven(v: Word)
    requires v & 1 != 1
    ensures Even(v)
  {
  }

  lemma SplitOdd(c: Word, v: Word)
    requires v & 1 == 1
    ensures Xor(c, v) == Xor(Xor(c, 1), Xor(v, 1)) && Even(Xor(v, 1)) && Halve(Xor(v, 1)) == Halve(v)
  {
  }

  function Halves(v: Word, k: nat): Word
    decreases k
  {
    if k == 0 then v else Halves(Halve(v), k - 1)
  }

  function LowBits(v: Word, k: nat): (bits: seq<bool>)
    ensures |bits| == k
    decreases k
  {
    if k == 0 then [] else [WordBit(v, 0)] + LowBits(Halve(v), k - 1)
  }

  /** Feeding the low bits of a word one by one, or XOR-ing the word in and stepping. */
  lemma {:induction false} FeedLowBits(c: Word, v: Word, k: nat)
    ensures BitSteps(Xor(c, v), k) == Xor(FeedAll(c, LowBits(v, k)), Halves(v, k))
    decreases k
  {
    hide Xor, BitStep, WordBit, Halve, Feed;
    if k != 0 {
      OddPart(c, v);
      FeedLowBits(Feed(c, WordBit(v, 0)), Halve(v), k - 1);
      assert LowBits(v, k)[1..] == LowBits(Halve(v), k - 1);
    }
  }

  lemma {:induction false} LowBitsAt(v: Word, k: nat, i: nat)
    requires i < k
    ensures LowBits(v, k)[i] == WordBit(v, i)
    decreases k
  {
    hide Halve;
    if i > 0 {
      LowBitsAt(Halve(v), k - 1, i - 1);
    }
  }

  lemma ByteMask(b: Byte)
    ensures ((b as Word) & 0xFF) as Byte == b
  {
  }

  lemma ByteAsWord(b: Byte, i: nat)
    requires i < 8
    ensures WordBit(b as Word, i) == Bit(b, i)
  {
    hide WordBit, Bit;
    NearBit(b as Word, i);
    ByteMask(b);
  }

  lemma ByteIsShort(b: Byte)
    ensures Halves(b as Word, 8) == 0
  {
    var v := b as Word;
    var w := Halve(Halve(Halve(Halve(v))));
    assert Halves(v, 8) == Halves(w, 4);
  }

  lemma XorZero(c: Word)
    ensures Xor(c, 0) == c
  {
  }

  lemma UpdateFeeds(c: Word, b: Byte)
    ensures Update(c, b) == FeedAll(c, ToBits([b]))
  {
    hide Xor, WordBit, Bit, BitSteps, Halves;
    FeedLowBits(c, b as Word, 8);
    ByteIsShort(b);
    XorZero(FeedAll(c, LowBits(b as Word, 8)));
    forall i | 0 <= i < 8
      ensures LowBits(b as Word, 8)[i] == ToBits([b])[i]
    {
      LowBitsAt(b as Word, 8, i);
      ByteAsWord(b, i);
    }
    assert LowBits(b as Word, 8) == ToBits([b]);
  }

  lemma {:induction false} FeedAllConcat(c: Word, a: seq<bool>, b: seq<bool>)
    ensures FeedAll(c, a + b) == FeedAll(FeedAll(c, a), b)
    decreases |a|
  {
    hide Feed;
    if a == [] {
      assert a + b == b;
    } else {
      assert (a + b)[1..] == a[1..] + b;
      FeedAllConcat(Feed(c, a[0]), a[1..], b);
    }
  }

  lemma {:induction false} RegisterFeeds(c: Word, data: seq<Byte>)
    ensures Register(c, data) == FeedAll(c, ToBits(data))
    decreases |data|
  {
    hide Update, Feed, Bit;
    if data != [] {
      UpdateFeeds(c, data[0]);
      RegisterFeeds(Update(c, data[0]), data[1..]);
      assert ToBits(data) == ToBits([data[0]]) + ToBits(data[1..]);
      FeedAllConcat(c, ToBits([data[0]]), ToBits(data[1..]));
    }
  }

  /** The checksum, before its final inversion, is the remainder of the message, with 32 zeros
      appended and its first 32 coefficients inverted, by the IEEE 802.3 generator, and the only one. */
  lemma CrcIsRemainder(data: seq<Byte>, r: Poly)
    ensures IsRemainder(AddHigh(ToBits(data) + Zeros(32), seq(32, i => true)), GENERATOR, r)
      <==> r == Reflect(Xor(Crc(data), ALL_ONES))
  {
    hide Bit, Feed, IsRemainder, AddHigh;
    RegisterFeeds(ALL_ONES, data);
    FeedAllDivides(ALL_ONES, ToBits(data));
    OnesReflect();
    DoubleInversion(Register(ALL_ONES, data));
    TheRemainder(AddHigh(ToBits(data) + Zeros(32), Reflect(ALL_ONES)), GENERATOR, r);
  }

  lemma OnesReflect()
    ensures Reflect(ALL_ONES) == seq(32, i => true)
  {
    forall i | 0 <= i < 32
      ensures WordBit(ALL_ONES, i)
    {
      OnesBit(i);
    }
  }

  lemma OnesBit(i: nat)
    requires i < 32
    ensures WordBit(ALL_ONES, i)
  {
    hide WordBit;
    BitOfWord(ALL_ONES, i);
  }

  lemma DoubleInversion(c: Word)
    ensures Xor(Xor(c, ALL_ONES), ALL_ONES) == c
  {
  }
}
