/**
 The wire format of admin tokens: `clat_` and the unpadded base64url text of 32 bytes
 (sections 3.2, 3.5 and 5 of RFC 4648).
 */
module Token {
  import opened Wrappers

  type Byte = b: nat | b < 256
  type Sextet = v: nat | v < 64

  const PREFIX: seq<Byte> := [0x63, 0x6C, 0x61, 0x74, 0x5F]
  const TOKEN_LENGTH := 48

  function Base64UrlValue(b: Byte): Option<Sextet> {
    if 0x41 <= b <= 0x5A then Some(b - 0x41)
    else if 0x61 <= b <= 0x7A then Some(b - 0x61 + 26)
    else if 0x30 <= b <= 0x39 then Some(b - 0x30 + 52)
    else if b == 0x2D then Some(62)
    else if b == 0x5F then Some(63)
    else None
  }

  method ValidTokenFormat(value: seq<Byte>) returns (valid: bool)
    ensures valid <==> exists secret: seq<Byte> :: |secret| == 32 && value == PREFIX + Letters(Sextets(secret))
  {
    if |value| != TOKEN_LENGTH || value[..|PREFIX|] != PREFIX {
      forall secret: seq<Byte> | |secret| == 32
        ensures value != PREFIX + Letters(Sextets(secret))
      {
        Generated(secret);
      }
      return false;
    }
    var payload := value[|PREFIX|..];
    for i := 0 to |payload|
      invariant forall j :: 0 <= j < i ==> Base64UrlValue(payload[j]).Some?
    {
      if Base64UrlValue(payload[i]).None? {
        NoTokenWith(value, payload);
        return false;
      }
    }
    var last := Base64UrlValue(payload[|payload| - 1]);
    valid := last.value % 4 == 0;
    assert value == PREFIX + payload;
    if valid {
      ghost var secret := PayloadDecodes(payload);
    } else {
      NoTokenWith(value, payload);
    }
  }

  // ----- base64url, as the standard describes it

  function Letter(v: Sextet): Byte {
    if v < 26 then 0x41 + v
    else if v < 52 then 0x61 + v - 26
    else if v < 62 then 0x30 + v - 52
    else if v == 62 then 0x2D
    else 0x5F
  }

  function Letters(s: seq<Sextet>): (r: seq<Byte>)
    ensures |r| == |s|
  {
    seq(|s|, i requires 0 <= i < |s| => Letter(s[i]))
  }

  // The four sextets of three bytes, and back.

  function Top(x: Byte): Sextet {
    x / 4
  }

  function Upper(x: Byte, y: Byte): Sextet {
    (x % 4) as int * 16 + y / 16
  }

  function Lower(y: Byte, z: Byte): Sextet {
    (y % 16) as int * 4 + z / 64
  }

  function Bottom(z: Byte): Sextet {
    z % 64
  }

  function First(p: Sextet, q: Sextet): Byte {
    p as int * 4 + q / 16
  }

  function Middle(q: Sextet, r: Sextet): Byte {
    (q % 16) as int * 16 + r / 4
  }

  function Final(r: Sextet, t: Sextet): Byte {
    (r % 4) as int * 64 + t
  }

  lemma BytesBack(x: Byte, y: Byte, z: Byte)
    ensures First(Top(x), Upper(x, y)) == x
    ensures Middle(Upper(x, y), Lower(y, z)) == y
    ensures Final(Lower(y, z), Bottom(z)) == z
    ensures Upper(x, 0) % 16 == 0 && Lower(y, 0) % 4 == 0
  {
  }

  lemma SextetsBack(p: Sextet, q: Sextet, r: Sextet, t: Sextet)
    ensures Top(First(p, q)) == p
    ensures Upper(First(p, q), Middle(q, r)) == q
    ensures Lower(Middle(q, r), Final(r, t)) == r
    ensures Bottom(Final(r, t)) == t
    ensures q % 16 == 0 ==> Upper(First(p, q), 0) == q
    ensures r % 4 == 0 ==> Lower(Middle(q, r), 0) == r
  {
  }

  /** Three bytes become four sextets; what is left over is padded with zero bits. */
  function Sextets(b: seq<Byte>): seq<Sextet> {
    if |b| == 0 then []
    else if |b| == 1 then [Top(b[0]), Upper(b[0], 0)]
    else if |b| == 2 then [Top(b[0]), Upper(b[0], b[1]), Lower(b[1], 0)]
    else [Top(b[0]), Upper(b[0], b[1]), Lower(b[1], b[2]), Bottom(b[2])] + Sextets(b[3..])
  }

  function Octets(s: seq<Sextet>): seq<Byte> {
    if |s| < 2 then []
    else if |s| == 2 then [First(s[0], s[1])]
    else if |s| == 3 then [First(s[0], s[1]), Middle(s[1], s[2])]
    else [First(s[0], s[1]), Middle(s[1], s[2]), Final(s[2], s[3])] + Octets(s[4..])
  }

  /** A length some text has, and zero padding bits. */
  predicate Canonical(s: seq<Sextet>) {
    && |s| % 4 != 1
    && (|s| % 4 == 2 ==> s[|s| - 1] % 16 == 0)
    && (|s| % 4 == 3 ==> s[|s| - 1] % 4 == 0)
  }

  lemma {:induction false} SextetsCons(x: Byte, y: Byte, z: Byte, b: seq<Byte>)
    ensures Sextets([x, y, z] + b) == [Top(x), Upper(x, y), Lower(y, z), Bottom(z)] + Sextets(b)
  {
    assert ([x, y, z] + b)[3..] == b;
  }

  lemma {:induction false} OctetsCons(p: Sextet, q: Sextet, r: Sextet, t: Sextet, s: seq<Sextet>)
    ensures Octets([p, q, r, t] + s) == [First(p, q), Middle(q, r), Final(r, t)] + Octets(s)
  {
    assert ([p, q, r, t] + s)[4..] == s;
  }

  lemma CanonicalCons(p: Sextet, q: Sextet, r: Sextet, t: Sextet, s: seq<Sextet>)
    ensures Canonical([p, q, r, t] + s) <==> Canonical(s)
  {
    var u := [p, q, r, t] + s;
    assert |u| % 4 == |s| % 4;
    if |s| > 0 {
      assert u[|u| - 1] == s[|s| - 1];
    }
  }

  lemma {:induction false} EncodedLength(b: seq<Byte>)
    ensures |Sextets(b)| == |b| / 3 * 4 + (if |b| % 3 == 0 then 0 else |b| % 3 + 1)
  {
    if |b| >= 3 {
      EncodedLength(b[3..]);
    }
  }

  lemma {:induction false} DecodedLength(s: seq<Sextet>)
    requires |s| % 4 != 1
    ensures |Octets(s)| == |s| / 4 * 3 + (if |s| % 4 == 0 then 0 else |s| % 4 - 1)
  {
    if |s| >= 4 {
      DecodedLength(s[4..]);
    }
  }

  lemma OneBack(x: Byte)
    ensures Octets(Sextets([x])) == [x] && Canonical(Sextets([x]))
  {
    var p, q := Top(x), Upper(x, 0);
    assert First(p, q) == x && q % 16 == 0;
    assert Sextets([x]) == [p, q];
    assert Octets([p, q]) == [First(p, q)];
  }

  lemma TwoBack(x: Byte, y: Byte)
    ensures Octets(Sextets([x, y])) == [x, y] && Canonical(Sextets([x, y]))
  {
    BytesBack(x, y, 0);
    assert Octets([Top(x), Upper(x, y), Lower(y, 0)]) == [x, y];
  }

  lemma {:induction false} ThreeBack(x: Byte, y: Byte, z: Byte, b: seq<Byte>)
    requires Octets(Sextets(b)) == b && Canonical(Sextets(b))
    ensures Octets(Sextets([x, y, z] + b)) == [x, y, z] + b && Canonical(Sextets([x, y, z] + b))
  {
    SextetsCons(x, y, z, b);
    OctetsCons(Top(x), Upper(x, y), Lower(y, z), Bottom(z), Sextets(b));
    CanonicalCons(Top(x), Upper(x, y), Lower(y, z), Bottom(z), Sextets(b));
    BytesBack(x, y, z);
  }

  lemma {:induction false} EncodedThenDecoded(b: seq<Byte>)
    ensures Octets(Sextets(b)) == b && Canonical(Sextets(b))
  {
    if |b| == 0 {
    } else if |b| == 1 {
      assert b == [b[0]];
      OneBack(b[0]);
    } else if |b| == 2 {
      assert b == [b[0], b[1]];
      TwoBack(b[0], b[1]);
    } else {
      assert b == [b[0], b[1], b[2]] + b[3..];
      EncodedThenDecoded(b[3..]);
      ThreeBack(b[0], b[1], b[2], b[3..]);
    }
  }

  lemma TwoForth(p: Sextet, q: Sextet, x: Byte)
    requires x == First(p, q) && Top(x) == p && Upper(x, 0) == q
    ensures Sextets(Octets([p, q])) == [p, q]
  {
    assert Octets([p, q]) == [x];
    assert Sextets([x]) == [Top(x), Upper(x, 0)];
  }

  lemma ThreeForth(p: Sextet, q: Sextet, r: Sextet, x: Byte, y: Byte)
    requires x == First(p, q) && y == Middle(q, r) && Top(x) == p && Upper(x, y) == q && Lower(y, 0) == r
    ensures Sextets(Octets([p, q, r])) == [p, q, r]
  {
    assert Octets([p, q, r]) == [x, y];
    assert Sextets([x, y]) == [Top(x), Upper(x, y), Lower(y, 0)];
  }

  lemma {:induction false} FourForth(p: Sextet, q: Sextet, r: Sextet, t: Sextet, x: Byte, y: Byte, z: Byte,
                                     s: seq<Sextet>)
    requires x == First(p, q) && y == Middle(q, r) && z == Final(r, t) && Sextets(Octets(s)) == s
    requires Top(x) == p && Upper(x, y) == q && Lower(y, z) == r && Bottom(z) == t
    ensures Sextets(Octets([p, q, r, t] + s)) == [p, q, r, t] + s
  {
    OctetsCons(p, q, r, t, s);
    SextetsCons(x, y, z, Octets(s));
  }

  lemma {:induction false} DecodedThenEncoded(s: seq<Sextet>)
    requires Canonical(s)
    ensures Sextets(Octets(s)) == s
  {
    if |s| == 0 {
    } else if |s| == 2 {
      assert s == [s[0], s[1]];
      SextetsBack(s[0], s[1], 0, 0);
      TwoForth(s[0], s[1], First(s[0], s[1]));
    } else if |s| == 3 {
      assert s == [s[0], s[1], s[2]];
      SextetsBack(s[0], s[1], s[2], 0);
      ThreeForth(s[0], s[1], s[2], First(s[0], s[1]), Middle(s[1], s[2]));
    } else {
      var p, q, r, t, rest := s[0], s[1], s[2], s[3], s[4..];
      assert s == [p, q, r, t] + rest;
      CanonicalCons(p, q, r, t, rest);
      DecodedThenEncoded(rest);
      SextetsBack(p, q, r, t);
      FourForth(p, q, r, t, First(p, q), Middle(q, r), Final(r, t), rest);
    }
  }

  // The alphabet of section 5 of RFC 4648, in order.
  const FIRST_HALF := "ABCDEFGHIJKLMNOPQRSTUVWXYZabcdef"
  const SECOND_HALF := "ghijklmnopqrstuvwxyz0123456789-_"

  lemma LetterInOrder(v: Sextet)
    ensures v < 32 ==> Letter(v) == FIRST_HALF[v] as int
    ensures v >= 32 ==> Letter(v) == SECOND_HALF[v - 32] as int
  {
    if v < 32 {
      FirstHalf(v);
    } else {
      SecondHalf(v);
    }
  }

  lemma FirstHalf(v: Sextet)
    requires v < 32
    ensures Letter(v) == FIRST_HALF[v] as int
  {
  }

  lemma SecondHalf(v: Sextet)
    requires v >= 32
    ensures Letter(v) == SECOND_HALF[v - 32] as int
  {
  }

  lemma LetterValue(v: Sextet, b: Byte)
    ensures Base64UrlValue(b) == Some(v) <==> b == Letter(v)
  {
  }

  // ----- what the format accepts

  function Values(payload: seq<Byte>): (r: seq<Sextet>)
    requires AllLetters(payload)
    ensures |r| == |payload|
  {
    seq(|payload|, i requires 0 <= i < |payload| => Base64UrlValue(payload[i]).value)
  }

  lemma LettersOfValues(payload: seq<Byte>)
    requires AllLetters(payload)
    ensures Letters(Values(payload)) == payload
  {
    forall i | 0 <= i < |payload|
      ensures Letters(Values(payload))[i] == payload[i]
    {
      LetterValue(Base64UrlValue(payload[i]).value, payload[i]);
    }
  }

  lemma LettersDecode(s: seq<Sextet>, i: nat)
    requires i < |s|
    ensures Base64UrlValue(Letters(s)[i]) == Some(s[i])
  {
    LetterValue(s[i], Letters(s)[i]);
  }

  /** Every 32 bytes have one token, of the length and prefix the format asks for. */
  lemma {:induction false} Generated(secret: seq<Byte>)
    requires |secret| == 32
    ensures var token := PREFIX + Letters(Sextets(secret));
            && |token| == TOKEN_LENGTH && token[..|PREFIX|] == PREFIX && token[|PREFIX|..] == Letters(Sextets(secret))
            && |Sextets(secret)| == 43 && Sextets(secret)[42] % 4 == 0
  {
    EncodedLength(secret);
    EncodedThenDecoded(secret);
  }

  predicate AllLetters(payload: seq<Byte>) {
    forall j :: 0 <= j < |payload| ==> Base64UrlValue(payload[j]).Some?
  }

  /** A payload of 43 letters whose last carries two zero bits is the text of 32 bytes. */
  lemma PayloadDecodes(payload: seq<Byte>) returns (secret: seq<Byte>)
    requires |payload| == 43 && AllLetters(payload) && Base64UrlValue(payload[42]).value % 4 == 0
    ensures |secret| == 32 && payload == Letters(Sextets(secret))
  {
    var s := Values(payload);
    LettersOfValues(payload);
    DecodedLength(s);
    DecodedThenEncoded(s);
    secret := Octets(s);
  }

  /** And no other payload is. */
  lemma {:induction false} PayloadEncoded(secret: seq<Byte>)
    requires |secret| == 32
    ensures var payload := Letters(Sextets(secret));
            |payload| == 43 && AllLetters(payload) && Base64UrlValue(payload[42]).value % 4 == 0
  {
    var s := Sextets(secret);
    Generated(secret);
    forall j | 0 <= j < |s|
      ensures Base64UrlValue(Letters(s)[j]) == Some(s[j])
    {
      LettersDecode(s, j);
    }
  }

  lemma NoTokenWith(value: seq<Byte>, payload: seq<Byte>)
    requires value == PREFIX + payload
    requires |payload| == 43 ==> AllLetters(payload) ==> Base64UrlValue(payload[42]).value % 4 != 0
    ensures forall secret: seq<Byte> :: |secret| == 32 ==> value != PREFIX + Letters(Sextets(secret))
  {
    forall secret: seq<Byte> | |secret| == 32
      ensures value != PREFIX + Letters(Sextets(secret))
    {
      PayloadEncoded(secret);
      assert value[|PREFIX|..] == payload;
      assert (PREFIX + Letters(Sextets(secret)))[|PREFIX|..] == Letters(Sextets(secret));
    }
  }

  /** Two secrets never share a token. */
  lemma {:induction false} TokenUnique(a: seq<Byte>, b: seq<Byte>)
    requires Letters(Sextets(a)) == Letters(Sextets(b))
    ensures a == b
  {
    var s, t := Sextets(a), Sextets(b);
    assert |s| == |Letters(s)| == |Letters(t)| == |t|;
    forall i | 0 <= i < |s|
      ensures s[i] == t[i]
    {
      LettersDecode(s, i);
      LettersDecode(t, i);
    }
    assert s == t;
    EncodedThenDecoded(a);
    EncodedThenDecoded(b);
  }
}
