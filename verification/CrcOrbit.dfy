/**
 How the checksum register moves when it reads zeros. Seen as a polynomial, it is multiplied by x
 each time; no power of x from the first to the 99th is 1, which is why no two flipped bits of a
 key can hide each other.
 */
module CrcOrbit {
  import opened Crc

  const TOP: bv12 := 0x800

  /** Multiplication by x. */
  function Shift(v: bv12): bv12 {
    if v & TOP != 0 then (v << 1) ^ 0xF13 else v << 1
  }

  function Shifts(v: bv12, n: nat): bv12 {
    if n == 0 then v else Shift(Shifts(v, n - 1))
  }

  lemma ShiftInjective(v: bv12, w: bv12)
    requires Shift(v) == Shift(w)
    ensures v == w
  {
  }

  lemma {:induction false} ShiftsInjective(v: bv12, w: bv12, n: nat)
    requires Shifts(v, n) == Shifts(w, n)
    ensures v == w
  {
    if n > 0 {
      ShiftInjective(Shifts(v, n - 1), Shifts(w, n - 1));
      ShiftsInjective(v, w, n - 1);
    }
  }

  lemma {:induction false} ShiftsAdd(v: bv12, m: nat, n: nat)
    ensures Shifts(Shifts(v, m), n) == Shifts(v, m + n)
  {
    if n > 0 {
      ShiftsAdd(v, m, n - 1);
    }
  }

  // ----- small powers of x are single bits

  function Monomial(n: nat): bv12
    requires n < 12
  {
    1 << n
  }

  lemma MonomialNext(n: nat)
    requires n < 11
    ensures Shift(Monomial(n)) == Monomial(n + 1)
  {
  }

  lemma {:induction false} SmallPowers(n: nat)
    requires n < 12
    ensures Shifts(1, n) == Monomial(n)
  {
    if n > 0 {
      SmallPowers(n - 1);
      MonomialNext(n - 1);
    }
  }

  // ----- every twelfth power is not

  function Shift4(v: bv12): bv12 {
    Shift(Shift(Shift(Shift(v))))
  }

  lemma {:induction false} ShiftFour(v: bv12)
    ensures Shift4(v) == Shifts(v, 4)
  {
    assert Shifts(v, 1) == Shift(v);
    assert Shifts(v, 2) == Shift(Shift(v));
    assert Shifts(v, 3) == Shift(Shift(Shift(v)));
  }

  lemma {:induction false} ShiftTwelve(v: bv12)
    ensures Shift4(Shift4(Shift4(v))) == Shifts(v, 12)
  {
    ShiftFour(v);
    ShiftFour(Shift4(v));
    ShiftFour(Shift4(Shift4(v)));
    ShiftsAdd(v, 4, 4);
    ShiftsAdd(v, 8, 4);
  }

  function TwelfthPower(a: nat): bv12
    requires a < 10
  {
    [1, 0xF13, 0xB63, 0xC01, 0x037, 0x9A7, 0x45A, 0xEC0, 0x515, 0x08A][a]
  }

  lemma TwelfthPowerValue(a: nat)
    requires a < 9
    ensures Shift4(Shift4(Shift4(TwelfthPower(a)))) == TwelfthPower(a + 1)
  {
  }

  lemma {:induction false} TwelfthPowerNext(a: nat, n: nat)
    requires a < 9 && n == 12
    ensures Shifts(TwelfthPower(a), n) == TwelfthPower(a + 1)
  {
    TwelfthPowerValue(a);
    ShiftTwelve(TwelfthPower(a));
  }

  lemma {:induction false} TwelfthPowers(a: nat, n: nat)
    requires a < 10 && n == 12
    ensures Shifts(1, n * a) == TwelfthPower(a)
  {
    if a > 0 {
      TwelfthPowers(a - 1, n);
      ShiftsAdd(1, n * (a - 1), n);
      TwelfthPowerNext(a - 1, n);
    }
  }

  lemma SeveralTerms(a: nat, b: nat)
    requires 1 <= a < 10 && b < 12
    ensures TwelfthPower(a) != Monomial(b)
  {
  }

  /**
   No power of x from the 12th to the 110th is the 11th: multiplied up to a twelfth power, it would
   be a single bit.
   */
  lemma {:induction false} PowersApart(d: nat)
    requires 1 <= d <= 99
    ensures Shifts(1, 11 + d) != TOP
  {
    var a := (d + 11) / 12;
    var b := 12 * a - d;
    SmallPowers(b);
    SmallPowers(11);
    TwelfthPowers(a, 12);
    SeveralTerms(a, b);
    ShiftsAdd(1, 12 * a, 11 - b);
    ShiftsAdd(1, b, 11 - b);
    if Shifts(1, 11 + d) == TOP {
      ShiftsInjective(Shifts(1, 12 * a), Shifts(1, b), 11 - b);
      assert false;
    }
  }

  // ----- registers

  /** Bit `i` of a register, most significant first. */
  predicate BitAt(v: bv12, i: nat) {
    if i == 0 then v & 0x800 != 0
    else if i == 1 then v & 0x400 != 0
    else if i == 2 then v & 0x200 != 0
    else if i == 3 then v & 0x100 != 0
    else if i == 4 then v & 0x080 != 0
    else if i == 5 then v & 0x040 != 0
    else if i == 6 then v & 0x020 != 0
    else if i == 7 then v & 0x010 != 0
    else if i == 8 then v & 0x008 != 0
    else if i == 9 then v & 0x004 != 0
    else if i == 10 then v & 0x002 != 0
    else v & 0x001 != 0
  }

  function Unpacked(v: bv12): Reg {
    seq(12, i requires 0 <= i < 12 => BitAt(v, i))
  }

  lemma PolyAt(i: nat)
    requires i < 12
    ensures POLY[i] == BitAt(0xF13, i)
  {
  }

  /** Bit for bit, what a shift does. */
  predicate ShiftedBits(v: bv12, w: bv12) {
    var top := v & 0x800 != 0;
    && (w & 0x800 != 0) == ((v & 0x400 != 0) != top) && (w & 0x400 != 0) == ((v & 0x200 != 0) != top)
    && (w & 0x200 != 0) == ((v & 0x100 != 0) != top) && (w & 0x100 != 0) == ((v & 0x080 != 0) != top)
    && (w & 0x080 != 0) == (v & 0x040 != 0) && (w & 0x040 != 0) == (v & 0x020 != 0)
    && (w & 0x020 != 0) == (v & 0x010 != 0) && (w & 0x010 != 0) == ((v & 0x008 != 0) != top)
    && (w & 0x008 != 0) == (v & 0x004 != 0) && (w & 0x004 != 0) == (v & 0x002 != 0)
    && (w & 0x002 != 0) == ((v & 0x001 != 0) != top) && (w & 0x001 != 0) == top
  }

  lemma ShiftBitwise(v: bv12)
    ensures ShiftedBits(v, Shift(v))
  {
  }

  lemma ShiftAt(v: bv12, w: bv12, i: nat)
    requires i < 12 && ShiftedBits(v, w)
    ensures BitAt(w, i) == ((i < 11 && BitAt(v, i + 1)) != (BitAt(v, 0) && POLY[i]))
  {
    match i
    case 0 =>
    case 1 =>
    case 2 =>
    case 3 =>
    case 4 =>
    case 5 =>
    case 6 =>
    case 7 =>
    case 8 =>
    case 9 =>
    case 10 =>
    case _ =>
  }

  lemma StepAt(r: Reg, i: nat)
    requires i < 12
    ensures Step(r, false)[i] == ((i < 11 && r[i + 1]) != (r[0] && POLY[i]))
  {
  }

  lemma StepShifts(v: bv12)
    ensures Step(Unpacked(v), false) == Unpacked(Shift(v))
  {
    var w := Shift(v);
    ShiftBitwise(v);
    StepBitwise(v, w);
  }

  lemma StepBitwise(v: bv12, w: bv12)
    requires ShiftedBits(v, w)
    ensures Step(Unpacked(v), false) == Unpacked(w)
  {
    var r, s := Step(Unpacked(v), false), Unpacked(w);
    forall i | 0 <= i < 12
      ensures r[i] == s[i]
    {
      StepAt(Unpacked(v), i);
      ShiftAt(v, w, i);
    }
  }

  lemma {:induction false} FeedShifts(v: bv12, n: nat)
    ensures Feed(Unpacked(v), Zeros(n)) == Unpacked(Shifts(v, n))
  {
    if n > 0 {
      FeedShifts(v, n - 1);
      assert Zeros(n)[..n - 1] == Zeros(n - 1);
      StepShifts(Shifts(v, n - 1));
    }
  }

  /** Reading a one empties the register only from its top bit. */
  lemma StepToZero(r: Reg)
    requires Step(r, true) == ZERO
    ensures r[0] && forall i :: 0 < i < WIDTH ==> !r[i]
  {
    var shifted := r[1..] + [false];
    assert !ZERO[11] && !shifted[11];
    assert r[0];
    forall i | 0 < i < WIDTH
      ensures !r[i]
    {
      assert shifted[i - 1] == r[i] && !ZERO[i - 1];
    }
  }

  lemma OnlyTop(v: bv12)
    requires BitAt(v, 0) && forall i :: 0 < i < 12 ==> !BitAt(v, i)
    ensures v == TOP
  {
    assert !BitAt(v, 1) && !BitAt(v, 2) && !BitAt(v, 3) && !BitAt(v, 4) && !BitAt(v, 5) && !BitAt(v, 6);
    assert !BitAt(v, 7) && !BitAt(v, 8) && !BitAt(v, 9) && !BitAt(v, 10) && !BitAt(v, 11);
  }

  lemma OneRead()
    ensures Feed(ZERO, [true]) == Unpacked(0xF13)
  {
    assert [true][..0] == [];
    assert Step(ZERO, true) == POLY;
    forall i | 0 <= i < 12
      ensures POLY[i] == Unpacked(0xF13)[i]
    {
      PolyAt(i);
    }
  }

  /** A one followed by zeros is a power of x. */
  lemma {:induction false} OneThenZeros(n: nat)
    ensures Feed(ZERO, [true] + Zeros(n)) == Unpacked(Shifts(1, 12 + n))
  {
    FeedConcat(ZERO, [true], Zeros(n));
    OneRead();
    FeedShifts(0xF13, n);
    TwelfthPowers(1, 12);
    ShiftsAdd(1, 12, n);
  }

  /** Two ones at most 99 apart never cancel. */
  lemma PairSurvives(d: nat)
    requires 1 <= d <= 99
    ensures Feed(ZERO, [true] + Zeros(d - 1) + [true]) != ZERO
  {
    var w := [true] + Zeros(d - 1);
    OneThenZeros(d - 1);
    PowersApart(d);
    assert (w + [true])[..d] == w;
    if Step(Feed(ZERO, w), true) == ZERO {
      var v := Shifts(1, 11 + d);
      StepToZero(Unpacked(v));
      forall i | 0 < i < 12
        ensures !BitAt(v, i)
      {
        assert !Unpacked(v)[i];
      }
      OnlyTop(v);
      assert false;
    }
  }

  // ----- the code

  lemma {:induction false} OneApart(p: seq<bool>, q: seq<bool>) returns (i: nat)
    requires |p| == |q| && Distance(p, q) == 1
    ensures i < |p| && Xor(p, q) == Zeros(i) + [true] + Zeros(|p| - i - 1)
  {
    var k := |p| - 1;
    if p[k] != q[k] {
      i := k;
      SameWords(p[..k], q[..k]);
    } else {
      i := OneApart(p[..k], q[..k]);
    }
    assert Xor(p, q) == Xor(p[..k], q[..k]) + [p[k] != q[k]];
  }

  lemma {:induction false} SameWords(p: seq<bool>, q: seq<bool>)
    requires |p| == |q| && Distance(p, q) == 0
    ensures p == q && Xor(p, q) == Zeros(|p|)
  {
    if |p| > 0 {
      SameWords(p[..|p| - 1], q[..|p| - 1]);
      assert p == p[..|p| - 1] + [p[|p| - 1]] && q == q[..|p| - 1] + [q[|p| - 1]];
    }
  }

  /** Words that differ in exactly two places differ by two ones among zeros. */
  lemma {:induction false} TwoApart(p: seq<bool>, q: seq<bool>) returns (i: nat, j: nat)
    requires |p| == |q| && Distance(p, q) == 2
    ensures i < j < |p|
    ensures Xor(p, q) == Zeros(i) + ([true] + Zeros(j - i - 1) + [true]) + Zeros(|p| - j - 1)
  {
    var k := |p| - 1;
    if p[k] != q[k] {
      j := k;
      i := OneApart(p[..k], q[..k]);
    } else {
      i, j := TwoApart(p[..k], q[..k]);
    }
    assert Xor(p, q) == Xor(p[..k], q[..k]) + [p[k] != q[k]];
  }

  /** In words of up to 100 bits, every error of two bits is detected. */
  lemma {:induction false} TwoBitErrorDetected(p: seq<bool>, q: seq<bool>)
    requires CodeWord(p) && |q| == |p| <= 100 && Distance(p, q) == 2
    ensures !CodeWord(q)
  {
    var i, j := TwoApart(p, q);
    ErrorDecides(p, q);
    FeedPadded(i, [true] + Zeros(j - i - 1) + [true], |p| - j - 1);
    PairSurvives(j - i);
  }

  /** The code of a license key has minimum distance at least four. */
  lemma {:induction false} FewErrorsDetected(p: seq<bool>, q: seq<bool>)
    requires CodeWord(p) && |q| == |p| <= 100 && 1 <= Distance(p, q) <= 3
    ensures !CodeWord(q)
  {
    if Distance(p, q) == 2 {
      TwoBitErrorDetected(p, q);
    } else {
      OddErrorDetected(p, q);
    }
  }
}
