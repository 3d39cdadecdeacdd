/**
 The 12-bit checksum of a license key, as a linear map over GF(2).

 Bit strings are sequences of booleans, most significant bit first, so that exclusive or is
 pointwise inequality and appending a bit is a left shift.
 */
module Crc {

  const WIDTH := 12

  type Reg = r: seq<bool> | |r| == WIDTH witness Zeros(WIDTH)

  /** 0xF13, the constant the code uses. */
  const POLY: Reg := [true, true, true, true, false, false, false, true, false, false, true, true]

  const ZERO: Reg := Zeros(WIDTH)

  function Zeros(n: nat): (z: seq<bool>)
    ensures |z| == n
    ensures forall i :: 0 <= i < n ==> !z[i]
  {
    seq(n, i => false)
  }

  function Xor(a: seq<bool>, b: seq<bool>): (c: seq<bool>)
    requires |a| == |b|
    ensures |c| == |a|
    ensures forall i :: 0 <= i < |a| ==> c[i] == (a[i] != b[i])
  {
    seq(|a|, i requires 0 <= i < |a| => a[i] != b[i])
  }

  /**
   One turn of the loop in `crc12`: shift left, and fold the polynomial in when the bit shifted out
   differs from the input bit.
   */
  function Step(r: Reg, bit: bool): Reg {
    var shifted := r[1..] + [false];
    if r[0] != bit then Xor(shifted, POLY) else shifted
  }

  /** The register after `msg`, first bit first, starting from `r`. */
  function Feed(r: Reg, msg: seq<bool>): Reg {
    if |msg| == 0 then r else Step(Feed(r, msg[..|msg| - 1]), msg[|msg| - 1])
  }

  lemma {:induction false} FeedConcat(r: Reg, a: seq<bool>, b: seq<bool>)
    ensures Feed(r, a + b) == Feed(Feed(r, a), b)
  {
    if |b| == 0 {
      assert a + b == a;
    } else {
      FeedConcat(r, a, b[..|b| - 1]);
      assert (a + b)[..|a + b| - 1] == a + b[..|b| - 1];
    }
  }

  // ----- linearity

  lemma XorSelf(a: seq<bool>)
    ensures Xor(a, a) == Zeros(|a|)
  {
  }

  lemma ZerosPrefix(w: seq<bool>, tail: seq<bool>)
    requires w + tail == Zeros(|w| + |tail|)
    ensures w == Zeros(|w|)
  {
    assert w == (w + tail)[..|w|];
  }

  lemma XorZeros(a: seq<bool>)
    ensures Xor(a, Zeros(|a|)) == a && Xor(Zeros(|a|), a) == a
  {
  }

  lemma XorEqual(a: seq<bool>, b: seq<bool>)
    requires |a| == |b| && Xor(a, b) == Zeros(|a|)
    ensures a == b
  {
    forall i | 0 <= i < |a|
      ensures a[i] == b[i]
    {
      assert Xor(a, b)[i] == (a[i] != b[i]);
    }
  }

  lemma StepLinear(r: Reg, s: Reg, x: bool, y: bool)
    ensures Step(Xor(r, s), x != y) == Xor(Step(r, x), Step(s, y))
  {
    var left, right := Step(Xor(r, s), x != y), Xor(Step(r, x), Step(s, y));
    forall i | 0 <= i < WIDTH
      ensures left[i] == right[i]
    {
    }
  }

  lemma {:induction false} FeedLinear(r: Reg, s: Reg, m: seq<bool>, n: seq<bool>)
    requires |m| == |n|
    ensures Feed(Xor(r, s), Xor(m, n)) == Xor(Feed(r, m), Feed(s, n))
  {
    if |m| > 0 {
      var k := |m| - 1;
      FeedLinear(r, s, m[..k], n[..k]);
      assert Xor(m, n)[..k] == Xor(m[..k], n[..k]);
      StepLinear(Feed(r, m[..k]), Feed(s, n[..k]), m[k], n[k]);
    }
  }

  // ----- the kernel: only the zero register dies out

  lemma StepKernel(r: Reg)
    requires Step(r, false) == ZERO
    ensures r == ZERO
  {
    assert Step(r, false)[11] == r[0];
    forall i | 0 < i < WIDTH
      ensures !r[i]
    {
      assert Step(r, false)[i - 1] == r[i];
    }
    assert r == ZERO;
  }

  lemma {:induction false} FeedKernel(r: Reg, n: nat)
    ensures Feed(r, Zeros(n)) == ZERO <==> r == ZERO
  {
    if n > 0 {
      FeedKernel(r, n - 1);
      assert Zeros(n)[..n - 1] == Zeros(n - 1);
      var before := Feed(r, Zeros(n - 1));
      if Step(before, false) == ZERO {
        StepKernel(before);
      }
      assert Step(ZERO, false) == ZERO;
    }
  }

  /** Feeding a register its own leading bits shifts them out and leaves zeros behind. */
  lemma {:induction false} FeedOwnPrefix(r: Reg, k: nat)
    requires k <= WIDTH
    ensures Feed(r, r[..k]) == r[k..] + Zeros(k)
  {
    if k == 0 {
      assert r[..0] == [] && r[0..] + Zeros(0) == r;
    } else {
      FeedOwnPrefix(r, k - 1);
      assert r[..k][..k - 1] == r[..k - 1];
      var before := r[k - 1..] + Zeros(k - 1);
      assert before[0] == r[k - 1];
      assert before[1..] + [false] == r[k..] + Zeros(k);
    }
  }

  lemma {:induction false} OwnWordDies(w: seq<bool>)
    requires |w| <= WIDTH
    ensures Feed(w + Zeros(WIDTH - |w|), w) == ZERO
  {
    var aligned: Reg := w + Zeros(WIDTH - |w|);
    FeedOwnPrefix(aligned, |w|);
    assert aligned[..|w|] == w;
    assert aligned[|w|..] + Zeros(|w|) == ZERO;
  }

  /** A short word read by the empty register does what the word placed at the top of the register does by itself. */
  lemma {:induction false} FeedAligned(w: seq<bool>)
    requires |w| <= WIDTH
    ensures Feed(ZERO, w) == Feed(w + Zeros(WIDTH - |w|), Zeros(|w|))
  {
    var aligned: Reg := w + Zeros(WIDTH - |w|);
    OwnWordDies(w);
    FeedLinear(aligned, aligned, w, Zeros(|w|));
    XorSelf(aligned);
    XorZeros(w);
    XorZeros(Feed(aligned, Zeros(|w|)));
  }

  /** No nonzero word of at most twelve bits is absorbed by the empty register. */
  lemma {:induction false} FeedShort(w: seq<bool>)
    requires |w| <= WIDTH
    ensures Feed(ZERO, w) == ZERO ==> w == Zeros(|w|)
  {
    var tail := Zeros(WIDTH - |w|);
    FeedAligned(w);
    FeedKernel(w + tail, |w|);
    if w + tail == ZERO {
      ZerosPrefix(w, tail);
    }
  }

  // ----- code words

  /** A message followed by its own checksum. */
  ghost predicate CodeWord(p: seq<bool>) {
    |p| >= WIDTH && Feed(ZERO, p[..|p| - WIDTH]) == p[|p| - WIDTH..]
  }

  /** A register is emptied by its own contents and by no other word of its width. */
  lemma {:induction false} FeedSelf(r: Reg, c: Reg)
    ensures Feed(r, c) == ZERO <==> c == r
  {
    FeedOwnPrefix(r, WIDTH);
    assert r[..WIDTH] == r && r[WIDTH..] + Zeros(WIDTH) == ZERO;
    if Feed(r, c) == ZERO {
      FeedLinear(r, r, r, c);
      XorSelf(r);
      XorSelf(ZERO);
      FeedShort(Xor(r, c));
      XorEqual(r, c);
    }
  }

  /** Comparing the checksum is the same as dividing the whole word and finding no remainder. */
  lemma {:induction false} CodeWordDivides(p: seq<bool>)
    requires |p| >= WIDTH
    ensures CodeWord(p) <==> Feed(ZERO, p) == ZERO
  {
    var m, c := p[..|p| - WIDTH], p[|p| - WIDTH..];
    assert p == m + c;
    FeedConcat(ZERO, m, c);
    FeedSelf(Feed(ZERO, m), c);
  }

  /** Whether an error pattern leaves a code word a code word depends on the pattern alone. */
  lemma ErrorDecides(p: seq<bool>, q: seq<bool>)
    requires CodeWord(p) && |q| == |p|
    ensures CodeWord(q) <==> Feed(ZERO, Xor(p, q)) == ZERO
  {
    CodeWordDivides(p);
    CodeWordDivides(q);
    FeedLinear(ZERO, ZERO, p, q);
    XorSelf(ZERO);
    XorZeros(Feed(ZERO, q));
  }

  /** Two words agree outside the twelve bits starting at `at`. */
  ghost predicate AgreeOutside(p: seq<bool>, q: seq<bool>, at: nat) {
    |p| == |q| && forall i :: 0 <= i < |p| && !(at <= i < at + WIDTH) ==> p[i] == q[i]
  }

  /** Zeros around a word neither hide nor reveal it. */
  lemma {:induction false} FeedPadded(before: nat, w: seq<bool>, after: nat)
    ensures Feed(ZERO, Zeros(before) + w + Zeros(after)) == ZERO <==> Feed(ZERO, w) == ZERO
  {
    FeedConcat(ZERO, Zeros(before) + w, Zeros(after));
    FeedConcat(ZERO, Zeros(before), w);
    FeedKernel(ZERO, before);
    FeedKernel(Feed(ZERO, w), after);
  }

  /** An error pattern that vanishes outside a window is that window between zeros. */
  lemma ErrorWindow(p: seq<bool>, q: seq<bool>, at: nat) returns (lo: nat, w: seq<bool>, after: nat)
    requires AgreeOutside(p, q, at)
    ensures |w| <= WIDTH && Xor(p, q) == Zeros(lo) + w + Zeros(after) && |p| == lo + |w| + after
  {
    var e := Xor(p, q);
    lo := if at <= |p| then at else |p|;
    var hi := if at + WIDTH <= |p| then at + WIDTH else |p|;
    w, after := e[lo..hi], |p| - hi;
  }

  /** Every error confined to twelve consecutive bits is detected. */
  lemma BurstDetected(p: seq<bool>, q: seq<bool>, at: nat)
    requires CodeWord(p) && AgreeOutside(p, q, at)
    ensures CodeWord(q) <==> q == p
  {
    var lo, w, after := ErrorWindow(p, q, at);
    ErrorDecides(p, q);
    FeedPadded(lo, w, after);
    if Feed(ZERO, w) == ZERO {
      FeedShort(w);
      assert Xor(p, q) == Zeros(|p|);
      XorEqual(p, q);
    }
  }

  // ----- parity

  /** Whether an odd number of bits is set. */
  function Odd(w: seq<bool>): bool {
    if |w| == 0 then false else Odd(w[..|w| - 1]) != w[|w| - 1]
  }

  /** The number of positions at which two words differ. */
  function Distance(p: seq<bool>, q: seq<bool>): nat
    requires |p| == |q|
  {
    if |p| == 0 then 0
    else Distance(p[..|p| - 1], q[..|p| - 1]) + if p[|p| - 1] != q[|p| - 1] then 1 else 0
  }

  lemma {:induction false} OddDistance(p: seq<bool>, q: seq<bool>)
    requires |p| == |q|
    ensures Odd(Xor(p, q)) <==> Distance(p, q) % 2 == 1
  {
    if |p| > 0 {
      var k := |p| - 1;
      OddDistance(p[..k], q[..k]);
      assert Xor(p, q)[..k] == Xor(p[..k], q[..k]);
    }
  }

  lemma {:induction false} OddXor(p: seq<bool>, q: seq<bool>)
    requires |p| == |q|
    ensures Odd(Xor(p, q)) == (Odd(p) != Odd(q))
  {
    if |p| > 0 {
      var k := |p| - 1;
      OddXor(p[..k], q[..k]);
      assert Xor(p, q)[..k] == Xor(p[..k], q[..k]);
    }
  }

  lemma {:induction false} OddCons(b: bool, w: seq<bool>)
    ensures Odd([b] + w) == (b != Odd(w))
  {
    if |w| == 0 {
      assert ([b] + w)[..0] == [];
    } else {
      OddCons(b, w[..|w| - 1]);
      assert ([b] + w)[..|w|] == [b] + w[..|w| - 1];
    }
  }

  lemma {:induction false} OddZeros(n: nat)
    ensures !Odd(Zeros(n))
  {
    if n > 0 {
      OddZeros(n - 1);
      assert Zeros(n)[..n - 1] == Zeros(n - 1);
    }
  }

  lemma OddPoly()
    ensures Odd(POLY)
  {
    var low := [false, true, false, false, true, true];
    assert POLY == [true] + ([true] + ([true] + ([true] + ([false] + ([false] + low)))));
    OddCons(true, [true] + ([true] + ([true] + ([false] + ([false] + low)))));
    OddCons(true, [true] + ([true] + ([false] + ([false] + low))));
    OddCons(true, [true] + ([false] + ([false] + low)));
    OddCons(true, [false] + ([false] + low));
    OddCons(false, [false] + low);
    OddCons(false, low);
    assert low == [false] + ([true] + ([false] + ([false] + ([true] + ([true] + [])))));
    OddCons(false, [true] + ([false] + ([false] + ([true] + ([true] + [])))));
    OddCons(true, [false] + ([false] + ([true] + ([true] + []))));
    OddCons(false, [false] + ([true] + ([true] + [])));
    OddCons(false, [true] + ([true] + []));
    OddCons(true, [true] + []);
    OddCons(true, []);
  }

  /** The parity of the register is the parity of what it has read. */
  lemma {:induction false} StepOdd(r: Reg, bit: bool)
    ensures Odd(Step(r, bit)) == (Odd(r) != bit)
  {
    var shifted := r[1..] + [false];
    assert r == [r[0]] + r[1..];
    OddCons(r[0], r[1..]);
    assert shifted[..WIDTH - 1] == r[1..];
    OddXor(shifted, POLY);
    OddPoly();
  }

  lemma {:induction false} FeedOdd(msg: seq<bool>)
    ensures Odd(Feed(ZERO, msg)) == Odd(msg)
  {
    if |msg| == 0 {
      OddZeros(WIDTH);
    } else {
      FeedOdd(msg[..|msg| - 1]);
      StepOdd(Feed(ZERO, msg[..|msg| - 1]), msg[|msg| - 1]);
    }
  }

  /** Every code word has an even number of ones. */
  lemma {:induction false} CodeWordEven(p: seq<bool>)
    requires CodeWord(p)
    ensures !Odd(p)
  {
    CodeWordDivides(p);
    FeedOdd(p);
    OddZeros(WIDTH);
  }

  /** Every error that flips an odd number of bits is detected. */
  lemma {:induction false} OddErrorDetected(p: seq<bool>, q: seq<bool>)
    requires CodeWord(p) && |q| == |p| && Distance(p, q) % 2 == 1
    ensures !CodeWord(q)
  {
    OddDistance(p, q);
    OddXor(p, q);
    CodeWordEven(p);
    if CodeWord(q) {
      CodeWordEven(q);
      assert false;
    }
  }
}
