/** The CRC-12 loop of the key codec, on numbers, tied to the register machine of module `Crc`. */
module KeyChecksum {
  import opened Digits
  import Crc

  const CHECKED_BITS := 88
  const CRC_BITS := 12
  const CRC12_POLY := 0xF13

  // ----- bit strings of numbers

  function ToBools(ds: seq<nat>): (bs: seq<bool>)
    ensures |bs| == |ds|
  {
    seq(|ds|, i requires 0 <= i < |ds| => ds[i] == 1)
  }

  function FromBools(bs: seq<bool>): (ds: seq<nat>)
    ensures |ds| == |bs| && AreDigits(ds, 2)
  {
    seq(|bs|, i requires 0 <= i < |bs| => if bs[i] then 1 else 0)
  }

  /** The `n` low bits of `v`, most significant first. */
  function Bits(v: nat, n: nat): (bs: seq<bool>)
    ensures |bs| == n
  {
    ToBools(ToDigits(v, 2, n))
  }

  function Number(bs: seq<bool>): nat {
    FromDigits(FromBools(bs), 2)
  }

  lemma {:induction false} BitsOfNumber(bs: seq<bool>)
    ensures Bits(Number(bs), |bs|) == bs
    ensures Number(bs) < Pow(2, |bs|)
  {
    ToFromDigits(FromBools(bs), 2);
    FromDigitsBound(FromBools(bs), 2);
  }

  lemma {:induction false} NumberOfZeros(n: nat)
    ensures Number(Crc.Zeros(n)) == 0
  {
    if n > 0 {
      NumberOfZeros(n - 1);
      assert FromBools(Crc.Zeros(n))[..n - 1] == FromBools(Crc.Zeros(n - 1));
    }
  }

  lemma {:induction false} NumberOfBits(v: nat, n: nat)
    requires v < Pow(2, n)
    ensures Number(Bits(v, n)) == v
  {
    var ds := ToDigits(v, 2, n);
    assert FromBools(ToBools(ds)) == ds;
    FromToDigits(v, 2, n);
  }

  lemma {:induction false} BitsConcat(v: nat, c: nat, n: nat, k: nat)
    requires c < Pow(2, k)
    ensures Bits(v * Pow(2, k) + c, n + k) == Bits(v, n) + Bits(c, k)
  {
    ConcatDigits(v, c, 2, n, k);
  }

  /** Bitwise exclusive or of two 12-bit numbers. */
  function BitXor(a: nat, b: nat): nat {
    Number(Crc.Xor(Bits(a, CRC_BITS), Bits(b, CRC_BITS)))
  }

  // ----- the checksum

  /** The checksum of the low 88 bits of `value`. */
  function Checksum(value: nat): nat {
    Number(Crc.Feed(Crc.ZERO, Bits(value, CHECKED_BITS)))
  }

  lemma Pow2Twelve()
    ensures Pow(2, 12) == 4096 && Pow(2, 11) == 2048 && Pow(2, 8) == 256
  {
    assert Pow(2, 4) == 16;
    PowAdd(2, 4, 4);
    PowAdd(2, 8, 3);
    PowAdd(2, 8, 4);
  }

  lemma ChecksumBound(value: nat)
    ensures Checksum(value) < 4096
  {
    BitsOfNumber(Crc.Feed(Crc.ZERO, Bits(value, CHECKED_BITS)));
    Pow2Twelve();
  }

  /** Dropping the top bit of `v` and appending a zero bit. */
  lemma {:induction false} ShiftBits(top: nat, low: nat, n: nat)
    requires top < 2 && low < Pow(2, n)
    ensures var v := top * Pow(2, n) + low;
            Bits(v, n + 1)[0] == (top == 1) && Bits(low * 2, n + 1) == Bits(v, n + 1)[1..] + [false]
  {
    ConcatDigits(top, low, 2, 1, n);
    assert ToDigits(top, 2, 1) == [top];
    AppendZero(low, n);
  }

  lemma {:induction false} AppendZero(low: nat, n: nat)
    ensures ToDigits(low * 2, 2, n + 1) == ToDigits(low, 2, n) + [0]
  {
    assert low * 2 / 2 == low && low * 2 % 2 == 0;
  }

  lemma NibbleBits()
    ensures ToDigits(0xF, 2, 4) == [1, 1, 1, 1]
    ensures ToDigits(1, 2, 4) == [0, 0, 0, 1]
    ensures ToDigits(3, 2, 4) == [0, 0, 1, 1]
  {
    assert ToDigits(1, 2, 2) == [0, 1] && ToDigits(3, 2, 2) == [1, 1] && ToDigits(0, 2, 2) == [0, 0];
  }

  lemma PolyBits()
    ensures Bits(CRC12_POLY, CRC_BITS) == Crc.POLY
  {
    assert Pow(2, 4) == 16;
    BitsConcat(0xF1, 3, 8, 4);
    BitsConcat(0xF, 1, 4, 4);
    NibbleBits();
  }

  /** One turn of the loop: shift the 12-bit register and fold the polynomial in if need be. */
  function NextCrc(crc: nat, bit: nat): nat {
    var shifted := crc * 2 % 4096;
    if (crc / 2048 % 2 + bit) % 2 == 1 then BitXor(shifted, CRC12_POLY) else shifted
  }

  lemma ShiftedCrc(crc: nat)
    requires crc < 4096
    ensures Bits(crc, CRC_BITS)[0] == (crc / 2048 % 2 == 1)
    ensures Bits(crc * 2 % 4096, CRC_BITS) == Bits(crc, CRC_BITS)[1..] + [false]
  {
    Pow2Twelve();
    ShiftBits(crc / 2048, crc % 2048, 11);
    assert crc == crc / 2048 * 2048 + crc % 2048;
    assert crc * 2 % 4096 == crc % 2048 * 2;
  }

  /** Folding the polynomial in, on numbers and on bits. */
  lemma FoldedCrc(shifted: nat)
    ensures BitXor(shifted, CRC12_POLY) < 4096
    ensures Bits(BitXor(shifted, CRC12_POLY), CRC_BITS) == Crc.Xor(Bits(shifted, CRC_BITS), Crc.POLY)
  {
    PolyBits();
    BitsOfNumber(Crc.Xor(Bits(shifted, CRC_BITS), Crc.POLY));
    Pow2Twelve();
  }

  lemma StepMatches(r: Crc.Reg, shifted: Crc.Reg, next: Crc.Reg, top: nat, bit: nat)
    requires top < 2 && bit < 2 && r[0] == (top == 1) && shifted == r[1..] + [false]
    requires next == if (top + bit) % 2 == 1 then Crc.Xor(shifted, Crc.POLY) else shifted
    ensures next == Crc.Step(r, bit == 1)
  {
  }

  lemma NextCrcSteps(crc: nat, bit: nat)
    requires crc < 4096 && bit < 2
    ensures NextCrc(crc, bit) < 4096
    ensures Bits(NextCrc(crc, bit), CRC_BITS) == Crc.Step(Bits(crc, CRC_BITS), bit == 1)
  {
    var shifted := crc * 2 % 4096;
    ShiftedCrc(crc);
    FoldedCrc(shifted);
    StepMatches(Bits(crc, CRC_BITS), Bits(shifted, CRC_BITS), Bits(NextCrc(crc, bit), CRC_BITS), crc / 2048 % 2, bit);
  }

  lemma EmptyRegister()
    ensures Bits(0, CRC_BITS) == Crc.ZERO
  {
    BitsOfNumber(Crc.ZERO);
    NumberOfZeros(CRC_BITS);
  }

  /** Shifting right by `i` and masking reads the bits from the most significant end. */
  lemma {:induction false} NextBit(value: nat, n: nat, i: nat)
    requires i < n
    ensures Bits(value, n)[..n - i] == Bits(value, n)[..n - 1 - i] + [value / Pow(2, i) % 2 == 1]
  {
    DigitAt(value, 2, n, n - 1 - i);
  }

  /** The register holds the checksum of the bits of `value` from the top down to bit `i`. */
  ghost predicate Tracks(crc: nat, value: nat, i: nat) {
    && crc < 4096 && i <= CHECKED_BITS
    && Bits(crc, CRC_BITS) == Crc.Feed(Crc.ZERO, Bits(value, CHECKED_BITS)[..CHECKED_BITS - i])
  }

  lemma {:induction false} TracksOn(crc: nat, next: nat, value: nat, i: nat)
    requires Tracks(crc, value, i + 1) && next < 4096
    requires Bits(next, CRC_BITS) == Crc.Step(Bits(crc, CRC_BITS), value / Pow(2, i) % 2 == 1)
    ensures Tracks(next, value, i)
  {
    var read := Bits(value, CHECKED_BITS)[..CHECKED_BITS - 1 - i];
    NextBit(value, CHECKED_BITS, i);
    assert (read + [value / Pow(2, i) % 2 == 1])[..|read|] == read;
  }

  lemma TracksStart(value: nat)
    ensures Tracks(0, value, CHECKED_BITS)
  {
    EmptyRegister();
  }

  /** One turn of the loop of `Crc12`: the register takes in one bit. */
  method Turn(register: nat, bit: nat) returns (crc: nat)
    requires register < 4096 && bit < 2
    ensures crc < 4096 && Bits(crc, CRC_BITS) == Crc.Step(Bits(register, CRC_BITS), bit == 1)
  {
    NextCrcSteps(register, bit);
    var top := register / 2048 % 2;
    crc := register * 2 % 4096;
    if (top + bit) % 2 == 1 {
      crc := BitXor(crc, CRC12_POLY);
    }
  }

  method Crc12(value: nat) returns (crc: nat)
    ensures crc == Checksum(value)
  {
    crc := 0;
    TracksStart(value);
    for i := CHECKED_BITS downto 0
      invariant Tracks(crc, value, i)
    {
      var next := Turn(crc, value / Pow(2, i) % 2);
      TracksOn(crc, next, value, i);
      crc := next;
    }
    TracksEnd(crc, value);
  }

  lemma TracksEnd(crc: nat, value: nat)
    requires Tracks(crc, value, 0)
    ensures crc == Checksum(value)
  {
    assert Bits(value, CHECKED_BITS)[..CHECKED_BITS] == Bits(value, CHECKED_BITS);
    Pow2Twelve();
    NumberOfBits(crc, CRC_BITS);
  }
}
