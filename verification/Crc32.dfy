/** The table-driven CRC-32 of the container, its bit-at-a-time form, and what it detects. */
module Crc32 {
  import opened Bits

  type Word = bv32

  const ALL_ONES: Word := 0xFFFF_FFFF

  function Xor(a: Word, b: Word): Word {
    a ^ b
  }

  /** One step of the reflected shift register. */
  function BitStep(c: Word): Word {
    if c & 1 == 1 then Xor(0xEDB88320, c >> 1) else c >> 1
  }

  function BitSteps(c: Word, k: nat): Word
    decreases k
  {
    if k == 0 then c else BitSteps(BitStep(c), k - 1)
  }

  /** The register after one more byte, computed a bit at a time. */
  function Update(c: Word, b: Byte): Word {
    BitSteps(Xor(c, b as Word), 8)
  }

  function Register(c: Word, data: seq<Byte>): Word
    decreases |data|
  {
    if data == [] then c else Register(Update(c, data[0]), data[1..])
  }

  /** The checksum of a byte string, with no table. */
  function Crc(data: seq<Byte>): Word {
    Xor(Register(ALL_ONES, data), ALL_ONES)
  }

  // ----- Algebra of the register step

  lemma LowBit(a: Word)
    ensures a & 1 == 0 || a & 1 == 1
  {
  }

  lemma XorCommutes(a: Word, b: Word)
    ensures Xor(a, b) == Xor(b, a)
  {
  }

  lemma XorCancels(a: Word, b: Word, c: Word)
    requires Xor(a, b) == Xor(a, c)
    ensures b == c
  {
  }

  lemma XorOnes(a: Word, b: Word)
    requires Xor(a, ALL_ONES) == Xor(b, ALL_ONES)
    ensures a == b
  {
  }

  lemma StepXorEven(a: Word, b: Word)
    requires a & 1 == 0 && b & 1 == 0
    ensures BitStep(Xor(a, b)) == Xor(BitStep(a), BitStep(b))
  {
  }

  lemma StepXorMixed(a: Word, b: Word)
    requires a & 1 == 1 && b & 1 == 0
    ensures BitStep(Xor(a, b)) == Xor(BitStep(a), BitStep(b))
  {
  }

  lemma StepXorOdd(a: Word, b: Word)
    requires a & 1 == 1 && b & 1 == 1
    ensures BitStep(Xor(a, b)) == Xor(BitStep(a), BitStep(b))
  {
  }

  lemma StepXor(a: Word, b: Word)
    ensures BitStep(Xor(a, b)) == Xor(BitStep(a), BitStep(b))
  {
    hide BitStep, Xor;
    LowBit(a);
    LowBit(b);
    if a & 1 == 0 && b & 1 == 0 {
      StepXorEven(a, b);
    } else if a & 1 == 1 && b & 1 == 0 {
      StepXorMixed(a, b);
    } else if a & 1 == 1 {
      StepXorOdd(a, b);
    } else {
      StepXorMixed(b, a);
      XorCommutes(a, b);
      XorCommutes(BitStep(a), BitStep(b));
    }
  }

  /** The register is linear over GF(2). */
  lemma {:induction false} StepsXor(a: Word, b: Word, k: nat)
    ensures BitSteps(Xor(a, b), k) == Xor(BitSteps(a, k), BitSteps(b, k))
    decreases k
  {
    hide BitStep, Xor;
    if k != 0 {
      StepXor(a, b);
      StepsXor(BitStep(a), BitStep(b), k - 1);
    }
  }

  lemma StepInjective(a: Word, b: Word)
    requires BitStep(a) == BitStep(b)
    ensures a == b
  {
  }

  /** No information is lost by stepping: the polynomial's top coefficient shows which branch was taken. */
  lemma {:induction false} StepsInjective(a: Word, b: Word, k: nat)
    requires BitSteps(a, k) == BitSteps(b, k)
    ensures a == b
    decreases k
  {
    hide BitStep;
    if k != 0 {
      StepsInjective(BitStep(a), BitStep(b), k - 1);
      StepInjective(a, b);
    }
  }

  lemma {:induction false} StepsCompose(c: Word, j: nat, k: nat)
    ensures BitSteps(BitSteps(c, j), k) == BitSteps(c, j + k)
    decreases j
  {
    hide BitStep;
    if j != 0 {
      StepsCompose(BitStep(c), j - 1, k);
    }
  }

  function LowByte(c: Word): Word {
    c & 0xFF
  }

  function ShiftByte(c: Word): Word {
    c >> 8
  }

  predicate Even(c: Word) {
    c & 1 == 0
  }

  function Halve(c: Word): Word {
    c >> 1
  }

  lemma EvenStep(c: Word)
    requires Even(c)
    ensures BitStep(c) == Halve(c)
  {
  }

  lemma EightHalvings(c: Word)
    requires LowByte(c) == 0
    ensures Even(c) && Even(Halve(c)) && Even(Halve(Halve(c))) && Even(Halve(Halve(Halve(c))))
    ensures var d := Halve(Halve(Halve(Halve(c))));
      && Even(d) && Even(Halve(d)) && Even(Halve(Halve(d))) && Even(Halve(Halve(Halve(d))))
      && Halve(Halve(Halve(Halve(d)))) == ShiftByte(c)
  {
  }

  lemma FourEvenSteps(c: Word)
    requires Even(c) && Even(Halve(c)) && Even(Halve(Halve(c))) && Even(Halve(Halve(Halve(c))))
    ensures BitSteps(c, 4) == Halve(Halve(Halve(Halve(c))))
  {
    hide BitStep, Even, Halve;
    EvenStep(c);
    EvenStep(Halve(c));
    EvenStep(Halve(Halve(c)));
    EvenStep(Halve(Halve(Halve(c))));
    assert BitSteps(Halve(Halve(c)), 2) == Halve(Halve(Halve(Halve(c))));
  }

  /** Eight steps of a register whose low byte is clear only shift. */
  lemma StepsShift(c: Word)
    requires LowByte(c) == 0
    ensures BitSteps(c, 8) == ShiftByte(c)
  {
    hide *;
    EightHalvings(c);
    FourEvenSteps(c);
    FourEvenSteps(Halve(Halve(Halve(Halve(c)))));
    StepsCompose(c, 4, 4);
  }

  function HighBytes(c: Word): Word {
    c & 0xFFFF_FF00
  }

  lemma SplitLowByte(c: Word)
    ensures Xor(LowByte(c), HighBytes(c)) == c
    ensures LowByte(HighBytes(c)) == 0 && ShiftByte(HighBytes(c)) == ShiftByte(c)
  {
  }

  /** The identity behind the table: eight steps of a register are the eight steps of its
      low byte, XOR-ed with the other three bytes shifted down. */
  lemma TableIdentity(c: Word)
    ensures BitSteps(c, 8) == Xor(BitSteps(LowByte(c), 8), ShiftByte(c))
  {
    hide *;
    SplitLowByte(c);
    StepsXor(LowByte(c), HighBytes(c), 8);
    StepsShift(HighBytes(c));
  }

  // ----- The table and the loop over it

  /** The entry the table must hold at index `i`. */
  function Entry(i: nat): Word
    requires i < 256
  {
    BitSteps(i as Word, 8)
  }

  /** The table index the loop computes. */
  function Index(c: Word, b: Byte): (i: nat)
    ensures i < 256
  {
    LowByte(Xor(c, b as Word)) as nat
  }

  lemma WordOfNat(w: Word)
    ensures (w as nat) as Word == w
  {
  }

  lemma IndexIsLowByte(c: Word, b: Byte)
    ensures Index(c, b) as Word == LowByte(Xor(c, b as Word))
  {
    hide Xor, LowByte;
    WordOfNat(LowByte(Xor(c, b as Word)));
  }

  lemma ByteShiftsOut(c: Word, b: Byte)
    ensures ShiftByte(Xor(c, b as Word)) == ShiftByte(c)
  {
  }

  /** One table look-up is one byte of the bit-at-a-time register. */
  lemma LookupIsUpdate(c: Word, b: Byte)
    ensures Xor(Entry(Index(c, b)), ShiftByte(c)) == Update(c, b)
  {
    hide Xor, BitSteps, ShiftByte, LowByte, Index;
    IndexIsLowByte(c, b);
    ByteShiftsOut(c, b);
    TableIdentity(Xor(c, b as Word));
  }

  /** The lazily built lookup table. */
  class CrcTable {
    const entries: array<Word>
    var ready: bool

    ghost predicate Valid()
      reads this, entries
    {
      && entries.Length == 256
      && (ready ==> forall i :: 0 <= i < 256 ==> entries[i] == Entry(i))
    }

    constructor ()
      ensures Valid() && !ready && fresh(entries)
    {
      entries := new Word[256];
      ready := false;
    }

    method BuildTable()
      requires entries.Length == 256
      modifies entries
      ensures forall i :: 0 <= i < 256 ==> entries[i] == Entry(i)
    {
      hide BitStep;
      for i := 0 to 256
        invariant forall j :: 0 <= j < i ==> entries[j] == Entry(j)
      {
        var c := i as Word;
        for k := 0 to 8
          invariant BitSteps(c, 8 - k) == Entry(i)
        {
          c := BitStep(c);
        }
        entries[i] := c;
      }
    }

    /** The CRC of the first `len` bytes of `data`; builds the table on first use. */
    method Checksum(data: array<Byte>, len: nat) returns (crc: Word)
      requires Valid() && len <= data.Length
      modifies this, entries
      ensures Valid() && ready
      ensures data[..] == old(data[..])
      ensures crc == Crc(data[..len])
    {
      hide Xor, Update, Entry, Index, ShiftByte;
      if !ready {
        BuildTable();
        ready := true;
      }
      var c := ALL_ONES;
      for i := 0 to len
        invariant Valid() && ready
        invariant Register(c, data[i..len]) == Register(ALL_ONES, data[..len])
      {
        LookupIsUpdate(c, data[i]);
        assert data[i..len][1..] == data[i + 1..len];
        c := Xor(entries[Index(c, data[i])], ShiftByte(c));
      }
      assert data[..len] == data[0..len];
      crc := Xor(c, ALL_ONES);
    }
  }
}
