/** The user-visible license key: rendering, forgiving parsing, and typo detection. */
module LicenseKey {
  import opened Wrappers
  import opened Digits
  import opened KeyChecksum

  type Byte = b: nat | b < 256

  datatype KeyData = KeyData(productShort: Byte, random: seq<Byte>)

  /** An 8-bit product tag and 80 random bits. */
  type Key = k: KeyData | |k.random| == RANDOM_BYTES witness KeyData(0, [0, 0, 0, 0, 0, 0, 0, 0, 0, 0])

  datatype ProtoError = MalformedLicenseKey | UnsupportedProtoVersion(version: Byte)

  const ALPHABET := "0123456789ABCDEFGHJKMNPQRSTVWXYZ"
  const PROTO_VER: Byte := 1
  const RANDOM_BYTES := 10
  const KEY_CHARS := 20
  const KEY_BITS := 100

  // ----- the payload

  /** The 88 checked bits as a number: the tag followed by the random bytes. */
  function KeyNumber(k: Key): nat {
    FromDigits([k.productShort] + k.random, 256)
  }

  /** The key whose number is `v`. */
  function KeyOf(v: nat): Key {
    var bytes := ToDigits(v, 256, RANDOM_BYTES + 1);
    KeyData(bytes[0], seq(RANDOM_BYTES, i requires 0 <= i < RANDOM_BYTES => bytes[i + 1]))
  }

  /** The 100-bit payload: 88 checked bits and their checksum. */
  function Payload(k: Key): nat {
    KeyNumber(k) * 4096 + Checksum(KeyNumber(k))
  }

  /** The payload as twenty 5-bit symbols. */
  function Symbols(k: Key): (syms: seq<nat>)
    ensures |syms| == KEY_CHARS && AreDigits(syms, 32)
  {
    ToDigits(Payload(k), 32, KEY_CHARS)
  }

  lemma KeyOfNumber(k: Key)
    ensures KeyOf(KeyNumber(k)) == k
    ensures KeyNumber(k) < Pow(256, 11)
  {
    var bytes: seq<nat> := [k.productShort] + k.random;
    assert AreDigits(bytes, 256);
    ToFromDigits(bytes, 256);
    FromDigitsBound(bytes, 256);
    assert KeyOf(KeyNumber(k)).random == k.random;
  }

  lemma NumberOfKey(v: nat)
    requires v < Pow(256, 11)
    ensures KeyNumber(KeyOf(v)) == v
  {
    var bytes := ToDigits(v, 256, 11);
    var k := KeyOf(v);
    assert [k.productShort] + k.random == bytes;
    FromToDigits(v, 256, 11);
  }

  lemma Capacity()
    ensures Pow(32, 20) == Pow(256, 11) * 4096
    ensures Pow(32, 20) == Pow(2, 88) * Pow(2, 12)
  {
    PowPow(2, 5, 20);
    PowPow(2, 8, 11);
    PowAdd(2, 88, 12);
    Pow2Twelve();
    assert Pow(2, 5) == 32;
  }

  lemma {:induction false} PowPow(base: nat, a: nat, b: nat)
    requires base > 0
    ensures Pow(Pow(base, a), b) == Pow(base, a * b)
    decreases b
  {
    if b > 0 {
      PowPow(base, a, b - 1);
      PowAdd(base, a, a * (b - 1));
      assert a + a * (b - 1) == a * b;
    } else {
      assert a * b == 0;
    }
  }

  lemma PayloadBound(k: Key)
    ensures Payload(k) < Pow(32, KEY_CHARS)
  {
    KeyOfNumber(k);
    ChecksumBound(KeyNumber(k));
    Capacity();
    MulLess(KeyNumber(k), Pow(256, 11), Checksum(KeyNumber(k)), 4096);
  }

  lemma PayloadExact(n: nat, k: Key)
    requires n < Pow(32, KEY_CHARS)
    ensures Payload(k) == n <==> Checksum(n / 4096) == n % 4096 && KeyOf(n / 4096) == k
  {
    var q, a := n / 4096, KeyNumber(k);
    KeyOfQuotient(n);
    KeyOfNumber(k);
    ChecksumBound(a);
    DivModUnique(a, Checksum(a), 4096);
  }

  lemma KeyOfQuotient(n: nat)
    requires n < Pow(32, KEY_CHARS)
    ensures KeyNumber(KeyOf(n / 4096)) == n / 4096
  {
    Capacity();
    DivLess(n, 4096, Pow(256, 11));
    NumberOfKey(n / 4096);
  }

  lemma {:induction false} SymbolsOfNumber(syms: seq<nat>, k: Key)
    requires |syms| == KEY_CHARS && AreDigits(syms, 32)
    ensures Symbols(k) == syms <==> Payload(k) == FromDigits(syms, 32)
  {
    PayloadBound(k);
    FromToDigits(Payload(k), 32, KEY_CHARS);
    ToFromDigits(syms, 32);
  }

  /** Twenty symbols spell the key `k` exactly when the checksum matches and the checked bits are those of `k`. */
  lemma {:induction false} SymbolsExact(syms: seq<nat>, k: Key)
    requires |syms| == KEY_CHARS && AreDigits(syms, 32)
    ensures var n := FromDigits(syms, 32);
            Symbols(k) == syms <==> Checksum(n / 4096) == n % 4096 && KeyOf(n / 4096) == k
  {
    FromDigitsBound(syms, 32);
    SymbolsOfNumber(syms, k);
    PayloadExact(FromDigits(syms, 32), k);
  }

  // ----- characters

  predicate IsAsciiAlphanumeric(c: char) {
    '0' <= c <= '9' || 'A' <= c <= 'Z' || 'a' <= c <= 'z'
  }

  function ToAsciiUppercase(c: char): char {
    if 'a' <= c <= 'z' then (c as int - 32) as char else c
  }

  /** The Crockford substitutions. */
  function Confusable(c: char): char {
    if c == 'I' || c == 'L' then '1' else if c == 'O' then '0' else c
  }

  /** The value of one symbol: the first position of its canonical form in the alphabet. */
  function DecodeChar(c: char): (r: Option<nat>)
    ensures r.Some? ==> r.value < 32 && ALPHABET[r.value] == Confusable(c)
    ensures r.None? ==> Confusable(c) !in ALPHABET
  {
    Position(Confusable(c), 0)
  }

  function Position(c: char, from: nat): (r: Option<nat>)
    requires from <= 32
    requires c !in ALPHABET[..from]
    ensures r.Some? ==> r.value < 32 && ALPHABET[r.value] == c
    ensures r.None? ==> c !in ALPHABET
    decreases 32 - from
  {
    assert ALPHABET[..32] == ALPHABET;
    if from == 32 then None else if ALPHABET[from] == c then Some(from) else Position(c, from + 1)
  }

  /** The position of an alphabet character, by ranges. */
  function SymbolValue(c: char): int {
    if c <= '9' then c as int - '0' as int
    else if c <= 'H' then c as int - 'A' as int + 10
    else if c <= 'K' then c as int - 'J' as int + 18
    else if c <= 'N' then c as int - 'M' as int + 20
    else if c <= 'T' then c as int - 'P' as int + 22
    else c as int - 'V' as int + 27
  }

  lemma AlphabetAt(i: nat)
    requires i < 32
    ensures SymbolValue(ALPHABET[i]) == i
    ensures Confusable(ALPHABET[i]) == ALPHABET[i]
    ensures IsAsciiAlphanumeric(ALPHABET[i]) && ToAsciiUppercase(ALPHABET[i]) == ALPHABET[i]
  {
  }

  lemma DecodeExact(c: char, i: nat)
    requires i < 32
    ensures DecodeChar(c) == Some(i) <==> Confusable(c) == ALPHABET[i]
  {
    AlphabetAt(i);
    if DecodeChar(c).Some? {
      AlphabetAt(DecodeChar(c).value);
    }
  }

  /** The letters that are not their own: O is read as 0, I and L as 1, and U as nothing. */
  lemma DecodeLetters()
    ensures DecodeChar('O') == Some(0) && DecodeChar('I') == Some(1) && DecodeChar('L') == Some(1)
    ensures DecodeChar('U') == None
  {
    DecodeExact('O', 0);
    DecodeExact('I', 1);
    DecodeExact('L', 1);
    if DecodeChar('U').Some? {
      AlphabetAt(DecodeChar('U').value);
    }
  }

  /** Every other character is read as its own place in the alphabet, if it has one. */
  lemma DecodeOwn(c: char, i: nat)
    requires i < 32 && c !in "ILO"
    ensures DecodeChar(c) == Some(i) <==> c == "0123456789ABCDEFGHJKMNPQRSTVWXYZ"[i]
  {
    assert c != 'I' && c != 'L' && c != 'O' by {
      assert "ILO"[0] == 'I' && "ILO"[1] == 'L' && "ILO"[2] == 'O';
    }
    DecodeExact(c, i);
  }

  // ----- rendering

  /** The twenty payload characters in canonical form. */
  function PayloadChars(k: Key): (cs: string)
    ensures |cs| == KEY_CHARS
  {
    seq(KEY_CHARS, i requires 0 <= i < KEY_CHARS => ALPHABET[Symbols(k)[i]])
  }

  /** A hyphen before every fifth character. */
  function Grouped(cs: string): string {
    if |cs| == 0 then ""
    else
      var i := |cs| - 1;
      Grouped(cs[..i]) + (if i % 5 == 0 then "-" else "") + [cs[i]]
  }

  function Render(k: Key): string {
    "CL1" + Grouped(PayloadChars(k))
  }

  /** The 88 bits of the key and then the checksum, in 100 of the accumulator's 128 bits. */
  method PayloadBits(k: Key) returns (v: nat)
    ensures v == Payload(k) && v < Pow(32, KEY_CHARS)
  {
    PayloadBound(k);
    v := k.productShort;
    ghost var bytes: seq<nat> := [k.productShort] + k.random;
    assert FromDigits(bytes[..1], 256) == v;
    for i := 0 to RANDOM_BYTES
      invariant v == FromDigits(bytes[..i + 1], 256)
    {
      assert bytes[..i + 2][..i + 1] == bytes[..i + 1];
      v := v * 256 + k.random[i];
    }
    assert bytes[..RANDOM_BYTES + 1] == bytes;
    var crc := Crc12(v);
    v := v * 4096 + crc;
  }

  /** A shift by a multiple of five followed by a 5-bit mask reads one symbol. */
  lemma {:induction false} SymbolAt(k: Key, i: nat)
    requires i < KEY_CHARS
    ensures Payload(k) / Pow(2, KEY_BITS - 5 * (i + 1)) % 32 == Symbols(k)[i]
  {
    DigitAt(Payload(k), 32, KEY_CHARS, i);
    PowPow(2, 5, KEY_CHARS - 1 - i);
    assert Pow(2, 5) == 32;
  }

  method EncodeSymbols(k: Key) returns (chars: array<char>)
    ensures fresh(chars) && chars[..] == PayloadChars(k)
  {
    var bits := PayloadBits(k);
    ghost var cs := PayloadChars(k);
    chars := new char[KEY_CHARS](_ => '0');
    for i := 0 to KEY_CHARS
      invariant forall j :: 0 <= j < i ==> chars[j] == cs[j]
    {
      SymbolAt(k, i);
      var idx := bits / Pow(2, KEY_BITS - 5 * (i + 1)) % 32;
      chars[i] := ALPHABET[idx];
    }
    assert chars[..] == cs;
  }

  method ToStringGrouped(k: Key) returns (out: string)
    ensures out == Render(k)
  {
    var chars := EncodeSymbols(k);
    out := "CL" + ['1'];
    ghost var cs := PayloadChars(k);
    for i := 0 to KEY_CHARS
      invariant chars[..] == cs
      invariant out == "CL1" + Grouped(cs[..i])
    {
      assert cs[..i + 1][..i] == cs[..i] && cs[..i + 1][i] == chars[i];
      if i % 5 == 0 {
        out := out + "-";
      }
      out := out + [chars[i]];
    }
    assert cs[..KEY_CHARS] == cs;
  }

  // ----- parsing

  /** What is left of a typed key once separators are dropped and case is folded. */
  function Normalize(input: string): (t: string)
    ensures forall i :: 0 <= i < |t| ==> IsAsciiAlphanumeric(t[i])
  {
    if |input| == 0 then ""
    else
      var c := input[|input| - 1];
      Normalize(input[..|input| - 1]) + if IsAsciiAlphanumeric(c) then [ToAsciiUppercase(c)] else ""
  }

  predicate HasPrefix(t: string) {
    |t| >= 3 && t[0] == 'C' && t[1] == 'L'
  }

  function Body(t: string): string {
    if HasPrefix(t) then t[3..] else t
  }

  /** The version digit, after an 8-bit wrapping subtraction. */
  function Version(t: string): Byte
    requires HasPrefix(t)
  {
    (Confusable(t[2]) as int - '0' as int) % 256
  }

  /** `input` is a way of typing the key `k`. */
  ghost predicate Presents(input: string, k: Key) {
    var t := Normalize(input);
    && (HasPrefix(t) ==> Confusable(t[2]) == '1')
    && |Body(t)| == KEY_CHARS
    && forall i :: 0 <= i < KEY_CHARS ==> Confusable(Body(t)[i]) == PayloadChars(k)[i]
  }

  ghost predicate NamesOtherVersion(input: string, version: Byte) {
    HasPrefix(Normalize(input)) && Version(Normalize(input)) == version != PROTO_VER
  }

  lemma VersionDigit(t: string)
    requires HasPrefix(t) && IsAsciiAlphanumeric(t[2])
    ensures Version(t) == PROTO_VER <==> Confusable(t[2]) == '1'
  {
  }

  /** The symbols of a typed body. */
  ghost predicate Spells(body: string, syms: seq<nat>) {
    && |body| == |syms| && AreDigits(syms, 32)
    && forall i :: 0 <= i < |syms| ==> DecodeChar(body[i]) == Some(syms[i])
  }

  lemma SpelledKey(body: string, syms: seq<nat>, k: Key)
    requires |body| == KEY_CHARS && Spells(body, syms)
    ensures Symbols(k) == syms <==> forall i :: 0 <= i < KEY_CHARS ==> Confusable(body[i]) == PayloadChars(k)[i]
  {
    forall i | 0 <= i < KEY_CHARS
      ensures Symbols(k)[i] == syms[i] <==> Confusable(body[i]) == PayloadChars(k)[i]
    {
      DecodeExact(body[i], Symbols(k)[i]);
    }
  }

  lemma {:induction false} ByteAt(v: nat, i: nat)
    requires i <= RANDOM_BYTES
    ensures v / Pow(2, 80 - 8 * i) % 256 == ToDigits(v, 256, RANDOM_BYTES + 1)[i]
  {
    DigitAt(v, 256, RANDOM_BYTES + 1, i);
    PowPow(2, 8, RANDOM_BYTES - i);
    Pow2Twelve();
  }

  method ExtractKey(checked: nat) returns (k: Key)
    ensures k == KeyOf(checked)
  {
    ByteAt(checked, 0);
    var productShort: Byte := checked / Pow(2, 80) % 256;
    var random := new Byte[RANDOM_BYTES](_ => 0);
    for i := 0 to RANDOM_BYTES
      invariant forall j :: 0 <= j < i ==> random[j] == KeyOf(checked).random[j]
    {
      ByteAt(checked, i + 1);
      random[i] := checked / Pow(2, 72 - 8 * i) % 256;
    }
    assert random[..] == KeyOf(checked).random;
    k := KeyData(productShort, random[..]);
  }

  method FoldCase(input: string) returns (chars: string)
    ensures chars == Normalize(input)
  {
    chars := "";
    for i := 0 to |input|
      invariant chars == Normalize(input[..i])
    {
      assert input[..i + 1][..i] == input[..i];
      if !IsAsciiAlphanumeric(input[i]) {
        continue;
      }
      chars := chars + [ToAsciiUppercase(input[i])];
    }
    assert input[..|input|] == input;
  }

  method DecodeBody(body: string) returns (bits: Option<nat>, ghost syms: seq<nat>)
    ensures bits.Some? ==> Spells(body, syms) && bits.value == FromDigits(syms, 32)
    ensures bits.None? ==> exists i :: 0 <= i < |body| && Confusable(body[i]) !in ALPHABET
  {
    var acc := 0;
    syms := [];
    for i := 0 to |body|
      invariant Spells(body[..i], syms)
      invariant acc == FromDigits(syms, 32)
    {
      var value := DecodeChar(body[i]);
      if value.None? {
        return None, syms;
      }
      acc := acc * 32 + value.value;
      assert (syms + [value.value])[..|syms|] == syms;
      syms := syms + [value.value];
    }
    assert body[..|body|] == body;
    bits := Some(acc);
  }

  /** A body with a character outside the alphabet presents no key. */
  lemma {:induction false} UndecodableBody(input: string, i: nat)
    requires i < |Body(Normalize(input))| && Confusable(Body(Normalize(input))[i]) !in ALPHABET
    ensures forall k: Key :: !Presents(input, k)
  {
    forall k: Key
      ensures !Presents(input, k)
    {
      if i < KEY_CHARS {
        assert PayloadChars(k)[i] == ALPHABET[Symbols(k)[i]];
      }
    }
  }

  /** A decodable body presents the one key its bits encode, provided the checksum matches. */
  lemma {:induction false} DecodedBody(input: string, syms: seq<nat>)
    requires var t := Normalize(input);
             (HasPrefix(t) ==> Confusable(t[2]) == '1') && |Body(t)| == KEY_CHARS && Spells(Body(t), syms)
    ensures var n := FromDigits(syms, 32);
            forall k: Key :: Presents(input, k) <==> Checksum(n / 4096) == n % 4096 && KeyOf(n / 4096) == k
  {
    forall k: Key
      ensures var n := FromDigits(syms, 32);
              Presents(input, k) <==> Checksum(n / 4096) == n % 4096 && KeyOf(n / 4096) == k
    {
      SpelledKey(Body(Normalize(input)), syms, k);
      SymbolsExact(syms, k);
    }
  }

  method Parse(input: string) returns (r: Result<Key, ProtoError>)
    ensures forall k: Key :: r == Ok(k) <==> Presents(input, k)
    ensures forall v: Byte :: r == Err(UnsupportedProtoVersion(v)) <==> NamesOtherVersion(input, v)
  {
    var chars := FoldCase(input);
    var body := chars;
    if |chars| >= 3 && chars[0] == 'C' && chars[1] == 'L' {
      VersionDigit(chars);
      var ver: Byte := (Confusable(chars[2]) as int - '0' as int) % 256;
      if ver != PROTO_VER {
        return Err(UnsupportedProtoVersion(ver));
      }
      body := chars[3..];
    }
    if |body| != KEY_CHARS {
      return Err(MalformedLicenseKey);
    }
    var bits, syms := DecodeBody(body);
    if bits.None? {
      ghost var i :| 0 <= i < |body| && Confusable(body[i]) !in ALPHABET;
      UndecodableBody(input, i);
      return Err(MalformedLicenseKey);
    }
    DecodedBody(input, syms);
    var checked := bits.value / 4096;
    var crc := bits.value % 4096;
    var expected := Crc12(checked);
    if expected != crc {
      return Err(MalformedLicenseKey);
    }
    var key := ExtractKey(checked);
    return Ok(key);
  }

  // ----- round trips

  lemma {:induction false} NormalizeConcat(a: string, b: string)
    ensures Normalize(a + b) == Normalize(a) + Normalize(b)
  {
    if |b| == 0 {
      assert a + b == a;
    } else {
      NormalizeConcat(a, b[..|b| - 1]);
      assert (a + b)[..|a + b| - 1] == a + b[..|b| - 1];
    }
  }

  lemma {:induction false} NormalizeAppend(a: string, c: char)
    ensures Normalize(a + [c]) == Normalize(a) + if IsAsciiAlphanumeric(c) then [ToAsciiUppercase(c)] else ""
  {
    assert (a + [c])[..|a|] == a;
  }

  predicate AreCanonical(cs: string) {
    forall i :: 0 <= i < |cs| ==> IsAsciiAlphanumeric(cs[i]) && ToAsciiUppercase(cs[i]) == cs[i]
  }

  /** Canonical characters survive normalisation. */
  lemma {:induction false} NormalizeCanonical(cs: string)
    requires AreCanonical(cs)
    ensures Normalize(cs) == cs
  {
    if |cs| > 0 {
      NormalizeCanonical(cs[..|cs| - 1]);
    }
  }

  lemma {:induction false} GroupedSnoc(cs: string)
    requires |cs| > 0
    ensures var init := cs[..|cs| - 1];
            Grouped(cs) == (if |init| % 5 == 0 then Grouped(init) + ['-'] else Grouped(init)) + [cs[|cs| - 1]]
  {
    assert Grouped(cs[..|cs| - 1]) + "" == Grouped(cs[..|cs| - 1]);
  }

  /** So they do with grouping hyphens between them. */
  lemma {:induction false} NormalizeGrouped(cs: string)
    requires AreCanonical(cs)
    ensures Normalize(Grouped(cs)) == cs
  {
    if |cs| > 0 {
      var init, c := cs[..|cs| - 1], cs[|cs| - 1];
      NormalizeGrouped(init);
      GroupedSnoc(cs);
      if |init| % 5 == 0 {
        NormalizeAppend(Grouped(init), '-');
        NormalizeAppend(Grouped(init) + ['-'], c);
      } else {
        NormalizeAppend(Grouped(init), c);
      }
      assert cs == init + [c];
    }
  }

  lemma PayloadCanonical(k: Key)
    ensures forall i :: 0 <= i < KEY_CHARS ==>
              var c := PayloadChars(k)[i];
              IsAsciiAlphanumeric(c) && ToAsciiUppercase(c) == c && Confusable(c) == c && c != 'L'
  {
    forall i | 0 <= i < KEY_CHARS
      ensures var c := PayloadChars(k)[i];
              IsAsciiAlphanumeric(c) && ToAsciiUppercase(c) == c && Confusable(c) == c && c != 'L'
    {
      AlphabetAt(Symbols(k)[i]);
    }
  }

  lemma NormalizeRender(k: Key)
    ensures Normalize(Render(k)) == "CL1" + PayloadChars(k)
    ensures Normalize(PayloadChars(k)) == PayloadChars(k)
  {
    PayloadCanonical(k);
    NormalizeCanonical(PayloadChars(k));
    NormalizeGrouped(PayloadChars(k));
    NormalizeCanonical("CL1");
    NormalizeConcat("CL1", Grouped(PayloadChars(k)));
  }

  /** Parsing inverts rendering, with or without the prefix, for every key. */
  lemma RoundTrip(k: Key)
    ensures Presents(Render(k), k)
    ensures Presents(PayloadChars(k), k)
  {
    NormalizeRender(k);
    PayloadCanonical(k);
    var t := Normalize(Render(k));
    assert HasPrefix(t) && t[2] == '1';
    assert t[3..] == PayloadChars(k);
  }

  /** A typed key presents at most one key. */
  lemma PresentsUnique(input: string, k: Key, other: Key)
    requires Presents(input, k) && Presents(input, other)
    ensures k == other
  {
    forall i | 0 <= i < KEY_CHARS
      ensures Symbols(k)[i] == Symbols(other)[i]
    {
      assert PayloadChars(k)[i] == PayloadChars(other)[i];
      AlphabetAt(Symbols(k)[i]);
      AlphabetAt(Symbols(other)[i]);
    }
    SymbolsExact(Symbols(k), k);
    SymbolsExact(Symbols(k), other);
  }
}
