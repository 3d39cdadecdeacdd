/** What mistyping does to a license key: which typings are forgiven, and which errors are always caught. */
module Typos {
  import opened Digits
  import opened KeyChecksum
  import opened LicenseKey
  import Crc
  import CrcOrbit

  // ----- forgiven typings

  /**
   Without the prefix, a typing that matches up to confusables is accepted exactly when it does not
   itself begin with the letters of the prefix: a payload that starts `C1`, typed `CL`, is taken
   for a prefixed key.
   */
  lemma {:induction false} UnprefixedTyping(input: string, k: Key)
    requires |Normalize(input)| == KEY_CHARS
    requires forall i :: 0 <= i < KEY_CHARS ==> Confusable(Normalize(input)[i]) == PayloadChars(k)[i]
    ensures Presents(input, k) <==> !HasPrefix(Normalize(input))
  {
  }

  /** The leading digits of a payload whose checked bits end in `a` zeros. */
  lemma {:induction false} LeadingDigits(v: nat, c: nat, a: nat, b: nat)
    requires c < Pow(2, 12)
    ensures (v * Pow(2, a) * Pow(2, 12) + c) / Pow(2, a + 12 + b) == v / Pow(2, b)
  {
    var p := Pow(2, a) * Pow(2, 12);
    PowAdd(2, a, 12);
    PowAdd(2, a + 12, b);
    MulAssociative(v, Pow(2, a), Pow(2, 12));
    MulMonotone(1, Pow(2, a), Pow(2, 12));
    DivModUnique(v, c, p);
    DivDiv(v * p + c, p, Pow(2, b));
  }

  lemma {:induction false} LeadingSymbol(k: Key, v: nat, i: nat, b: nat)
    requires KeyNumber(k) == v * Pow(2, 72) && i < 3 && b == 11 - 5 * i
    ensures Symbols(k)[i] == v / Pow(2, b) % 32
  {
    var c := Checksum(KeyNumber(k));
    ChecksumBound(KeyNumber(k));
    Pow2Twelve();
    LeadingDigits(v, c, 72, b);
    SymbolAt(k, i);
  }

  lemma TopFits(v: nat)
    requires v < Pow(2, 16)
    ensures v * Pow(2, 72) < Pow(256, 11)
  {
    PowAdd(2, 16, 72);
    PowPow(2, 8, 11);
    Pow2Twelve();
    MulLess(v, Pow(2, 16), 0, Pow(2, 72));
  }

  lemma KeyWithTop(v: nat) returns (k: Key)
    requires v < Pow(2, 16)
    ensures Symbols(k)[0] == v / Pow(2, 11) % 32 && Symbols(k)[1] == v / Pow(2, 6) % 32
  {
    TopFits(v);
    NumberOfKey(v * Pow(2, 72));
    k := KeyOf(v * Pow(2, 72));
    LeadingSymbol(k, v, 0, 11);
    LeadingSymbol(k, v, 1, 6);
  }

  /** Keys whose payload starts `C1` exist. */
  lemma ConfusedKey() returns (k: Key)
    ensures PayloadChars(k)[0] == 'C' && PayloadChars(k)[1] == '1'
  {
    Pow2Twelve();
    PowAdd(2, 8, 8);
    assert Pow(2, 6) == 64;
    k := KeyWithTop(0x6040);
  }

  /** For every such key the confusable letter `L` is not forgiven: the typing matches the key and is refused. */
  lemma ConfusedTypingRefused(k: Key)
    requires PayloadChars(k)[0] == 'C' && PayloadChars(k)[1] == '1'
    ensures var typed := "CL" + PayloadChars(k)[2..];
            && |Normalize(typed)| == KEY_CHARS
            && (forall i :: 0 <= i < KEY_CHARS ==> Confusable(Normalize(typed)[i]) == PayloadChars(k)[i])
            && forall other: Key :: !Presents(typed, other)
  {
    var typed := "CL" + PayloadChars(k)[2..];
    PayloadCanonical(k);
    NormalizeCanonical(typed);
    assert |Body(Normalize(typed))| == KEY_CHARS - 3;
  }

  /** Anything but an ASCII letter or digit may be dropped or inserted anywhere. */
  lemma SeparatorForgiven(before: string, separator: char, after: string, k: Key)
    requires !('0' <= separator <= '9') && !('A' <= separator <= 'Z') && !('a' <= separator <= 'z')
    ensures Presents(before + [separator] + after, k) <==> Presents(before + after, k)
  {
    NormalizeAppend(before, separator);
    NormalizeConcat(before + [separator], after);
    NormalizeConcat(before, after);
  }

  /** A small letter may be typed for its capital anywhere. */
  lemma CaseForgiven(before: string, a: char, b: char, after: string, k: Key)
    requires 'a' <= a <= 'z' && b as int == 'A' as int + (a as int - 'a' as int)
    ensures Presents(before + [a] + after, k) <==> Presents(before + [b] + after, k)
  {
    NormalizeAppend(before, a);
    NormalizeAppend(before, b);
    NormalizeConcat(before + [a], after);
    NormalizeConcat(before + [b], after);
  }

  /** Two normal forms that differ only in confusable letters. */
  ghost predicate LookAlike(x: string, y: string) {
    |x| == |y| && forall i :: 0 <= i < |x| ==> Confusable(x[i]) == Confusable(y[i])
  }

  /**
   Any number of confusable letters may be typed for one another, unless that makes or breaks the
   letters of the prefix; two look-alikes of which only one has the prefix are never both keys.
   */
  lemma {:induction false} LookAlikesForgiven(input: string, other: string, k: Key)
    requires LookAlike(Normalize(input), Normalize(other))
    ensures HasPrefix(Normalize(input)) == HasPrefix(Normalize(other)) ==> (Presents(input, k) <==> Presents(other, k))
    ensures HasPrefix(Normalize(input)) != HasPrefix(Normalize(other)) ==>
              forall l: Key :: !(Presents(input, k) && Presents(other, l))
  {
    var x, y := Normalize(input), Normalize(other);
    if HasPrefix(x) == HasPrefix(y) {
      var skipped := if HasPrefix(x) then 3 else 0;
      assert Body(x) == x[skipped..] && Body(y) == y[skipped..];
      assert forall i :: 0 <= i < |Body(x)| ==> Confusable(Body(x)[i]) == Confusable(Body(y)[i]);
    }
  }

  lemma {:induction false} NormalizeAround(before: string, c: char, after: string)
    requires IsAsciiAlphanumeric(c)
    ensures Normalize(before + [c] + after) == Normalize(before) + [ToAsciiUppercase(c)] + Normalize(after)
  {
    NormalizeAppend(before, c);
    NormalizeConcat(before + [c], after);
  }

  lemma LookAlikeAround(before: string, a: char, b: char, after: string)
    requires Confusable(a) == Confusable(b)
    ensures LookAlike(before + [a] + after, before + [b] + after)
  {
  }

  /** One letter typed for a confusable one, in either case, anywhere. */
  lemma {:induction false} ConfusableForgiven(before: string, a: char, b: char, after: string, k: Key)
    requires IsAsciiAlphanumeric(a) && IsAsciiAlphanumeric(b)
    requires Confusable(ToAsciiUppercase(a)) == Confusable(ToAsciiUppercase(b))
    requires HasPrefix(Normalize(before + [a] + after)) == HasPrefix(Normalize(before + [b] + after))
    ensures Presents(before + [a] + after, k) <==> Presents(before + [b] + after, k)
  {
    NormalizeAround(before, a, after);
    NormalizeAround(before, b, after);
    LookAlikeAround(Normalize(before), ToAsciiUppercase(a), ToAsciiUppercase(b), Normalize(after));
    LookAlikesForgiven(before + [a] + after, before + [b] + after, k);
  }

  /** O and o may be typed for 0, and I, i, L and l for 1, anywhere they do not make or break the prefix. */
  lemma {:induction false} LetterForgiven(before: string, typed: char, after: string, k: Key)
    requires typed in "OoIiLl"
    ensures var meant := before + [if typed in "Oo" then '0' else '1'] + after;
            HasPrefix(Normalize(before + [typed] + after)) == HasPrefix(Normalize(meant)) ==>
              (Presents(before + [typed] + after, k) <==> Presents(meant, k))
  {
    var digit := if typed in "Oo" then '0' else '1';
    if HasPrefix(Normalize(before + [typed] + after)) == HasPrefix(Normalize(before + [digit] + after)) {
      ConfusableForgiven(before, typed, digit, after, k);
    }
  }

  // ----- caught errors

  /** The 100 bits a typed body stands for. */
  function SymbolBits(syms: seq<nat>): (bits: seq<bool>)
    ensures |bits| == 5 * |syms|
  {
    Bits(FromDigits(syms, 32), 5 * |syms|)
  }

  lemma SymbolBitsSnoc(syms: seq<nat>)
    requires AreDigits(syms, 32) && |syms| > 0
    ensures var last := |syms| - 1;
            SymbolBits(syms) == SymbolBits(syms[..last]) + Bits(syms[last], 5)
  {
    var last := |syms| - 1;
    assert Pow(2, 5) == 32;
    BitsConcat(FromDigits(syms[..last], 32), syms[last], 5 * last, 5);
  }

  lemma Slices(a: seq<bool>, b: seq<bool>, lo: nat, hi: nat)
    requires lo <= hi
    ensures hi <= |a| ==> (a + b)[lo..hi] == a[lo..hi]
    ensures lo == |a| && hi == |a| + |b| ==> (a + b)[lo..hi] == b
  {
  }

  /** Symbol `j` occupies bits `5j` to `5j + 4`. */
  lemma {:induction false} SymbolBitsAt(syms: seq<nat>, j: nat)
    requires AreDigits(syms, 32) && j < |syms|
    ensures SymbolBits(syms)[5 * j..5 * j + 5] == Bits(syms[j], 5)
  {
    var last := |syms| - 1;
    SymbolBitsSnoc(syms);
    Slices(SymbolBits(syms[..last]), Bits(syms[last], 5), 5 * j, 5 * j + 5);
    if j < last {
      SymbolBitsAt(syms[..last], j);
    }
  }

  /** The checksum comparison of `Parse` is membership in the code. */
  lemma ChecksumIsCodeWord(n: nat)
    ensures Checksum(n / 4096) == n % 4096 <==> Crc.CodeWord(Bits(n, CHECKED_BITS + CRC_BITS))
  {
    var checked, crc := n / 4096, n % 4096;
    Pow2Twelve();
    BitsConcat(checked, crc, CHECKED_BITS, CRC_BITS);
    var reg := Crc.Feed(Crc.ZERO, Bits(checked, CHECKED_BITS));
    assert Bits(n, CHECKED_BITS + CRC_BITS)[..CHECKED_BITS] == Bits(checked, CHECKED_BITS);
    assert Bits(n, CHECKED_BITS + CRC_BITS)[CHECKED_BITS..] == Bits(crc, CRC_BITS);
    BitsOfNumber(reg);
    NumberOfBits(crc, CRC_BITS);
  }

  /** Every key has an even number of ones among its 100 payload bits. */
  lemma KeyEven(k: Key)
    ensures !Crc.Odd(Bits(Payload(k), KEY_BITS))
  {
    PayloadBound(k);
    PayloadExact(Payload(k), k);
    ChecksumIsCodeWord(Payload(k));
    Crc.CodeWordEven(Bits(Payload(k), KEY_BITS));
  }

  /** `input` is a well-formed typing of the twenty symbols `syms`, whether or not they form a key. */
  ghost predicate Types(input: string, syms: seq<nat>) {
    var t := Normalize(input);
    && |syms| == KEY_CHARS
    && (HasPrefix(t) ==> Confusable(t[2]) == '1')
    && Spells(Body(t), syms)
  }

  /** A typing is accepted exactly when its 100 bits form a code word. */
  lemma AcceptedIffCodeWord(input: string, syms: seq<nat>)
    requires Types(input, syms)
    ensures (exists k: Key :: Presents(input, k)) <==> Crc.CodeWord(SymbolBits(syms))
  {
    var n := FromDigits(syms, 32);
    ChecksumIsCodeWord(n);
    DecodedBody(input, syms);
    if Checksum(n / 4096) == n % 4096 {
      assert Presents(input, KeyOf(n / 4096));
    }
  }

  /** An accepted typing altered only within twelve consecutive bits is rejected, unless nothing was altered. */
  lemma BurstRejected(typed: string, mistyped: string, s: seq<nat>, m: seq<nat>, k: Key, at: nat)
    requires Types(typed, s) && Presents(typed, k)
    requires Types(mistyped, m) && Crc.AgreeOutside(SymbolBits(s), SymbolBits(m), at)
    requires SymbolBits(s) != SymbolBits(m)
    ensures forall other: Key :: !Presents(mistyped, other)
  {
    AcceptedIffCodeWord(typed, s);
    AcceptedIffCodeWord(mistyped, m);
    Crc.BurstDetected(SymbolBits(s), SymbolBits(m), at);
  }

  /** An accepted typing with an odd number of bits flipped is rejected. */
  lemma OddFlipsRejected(typed: string, mistyped: string, s: seq<nat>, m: seq<nat>, k: Key)
    requires Types(typed, s) && Presents(typed, k)
    requires Types(mistyped, m) && Crc.Distance(SymbolBits(s), SymbolBits(m)) % 2 == 1
    ensures forall other: Key :: !Presents(mistyped, other)
  {
    AcceptedIffCodeWord(typed, s);
    AcceptedIffCodeWord(mistyped, m);
    Crc.OddErrorDetected(SymbolBits(s), SymbolBits(m));
  }

  /** An accepted typing with one, two or three bits flipped, anywhere, is rejected. */
  lemma FewFlipsRejected(typed: string, mistyped: string, s: seq<nat>, m: seq<nat>, k: Key)
    requires Types(typed, s) && Presents(typed, k)
    requires Types(mistyped, m) && 1 <= Crc.Distance(SymbolBits(s), SymbolBits(m)) <= 3
    ensures forall other: Key :: !Presents(mistyped, other)
  {
    AcceptedIffCodeWord(typed, s);
    AcceptedIffCodeWord(mistyped, m);
    CrcOrbit.FewErrorsDetected(SymbolBits(s), SymbolBits(m));
  }

  lemma SymbolsDiffer(s: seq<nat>, m: seq<nat>)
    requires AreDigits(s, 32) && AreDigits(m, 32) && |s| == |m|
    ensures SymbolBits(s) == SymbolBits(m) <==> s == m
  {
    if SymbolBits(s) == SymbolBits(m) {
      FromDigitsBound(s, 32);
      FromDigitsBound(m, 32);
      PowPow(2, 5, |s|);
      assert Pow(2, 5) == 32;
      NumberOfBits(FromDigits(s, 32), 5 * |s|);
      NumberOfBits(FromDigits(m, 32), 5 * |s|);
      ToFromDigits(s, 32);
      ToFromDigits(m, 32);
    }
  }

  /** Symbols that agree away from positions `i` and `i + 1` have bits that agree away from those ten bits. */
  lemma NeighboursAgree(s: seq<nat>, m: seq<nat>, i: nat)
    requires AreDigits(s, 32) && AreDigits(m, 32) && |s| == |m|
    requires forall j :: 0 <= j < |s| && j != i && j != i + 1 ==> s[j] == m[j]
    ensures Crc.AgreeOutside(SymbolBits(s), SymbolBits(m), 5 * i)
  {
    forall b | 0 <= b < 5 * |s| && !(5 * i <= b < 5 * i + Crc.WIDTH)
      ensures SymbolBits(s)[b] == SymbolBits(m)[b]
    {
      var j := b / 5;
      assert j != i && j != i + 1;
      SymbolBitsAt(s, j);
      SymbolBitsAt(m, j);
      assert SymbolBits(s)[b] == SymbolBits(s)[5 * j..5 * j + 5][b - 5 * j];
      assert SymbolBits(m)[b] == SymbolBits(m)[5 * j..5 * j + 5][b - 5 * j];
    }
  }

  /** Any change confined to two adjacent characters, a substitution or a transposition, is rejected. */
  lemma AdjacentTypoRejected(typed: string, mistyped: string, s: seq<nat>, m: seq<nat>, k: Key, i: nat)
    requires Types(typed, s) && Presents(typed, k) && Types(mistyped, m)
    requires s != m && forall j :: 0 <= j < KEY_CHARS && j != i && j != i + 1 ==> s[j] == m[j]
    ensures forall other: Key :: !Presents(mistyped, other)
  {
    NeighboursAgree(s, m, i);
    SymbolsDiffer(s, m);
    BurstRejected(typed, mistyped, s, m, k, 5 * i);
  }
}
