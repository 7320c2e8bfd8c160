/** The JWK number encoding of the token issuer: an unsigned integer as its
    minimal big-endian octet string (Python's `n.to_bytes((n.bit_length() + 7)
    // 8, "big")`), then base64url (section 5 of RFC 4648) without "="
    padding (section 2 of RFC 7515). */
module Base64Url {
  import opened Values

  type Byte = b: int | 0 <= b < 256

  function Pow2(k: nat): (r: nat)
    ensures r >= 1
  {
    if k == 0 then 1 else 2 * Pow2(k - 1)
  }

  function Pow256(k: nat): (r: nat)
    ensures r >= 1
  {
    if k == 0 then 1 else 256 * Pow256(k - 1)
  }

  /** Python's `int.bit_length()` on a non-negative integer. */
  function BitLength(n: nat): nat {
    if n == 0 then 0 else 1 + BitLength(n / 2)
  }

  /** The octet count the source asks `to_bytes` for: `(bit_length + 7) // 8`. */
  function ByteLength(n: nat): nat {
    (BitLength(n) + 7) / 8
  }

  lemma {:induction false} BitLengthBounds(n: nat)
    ensures n < Pow2(BitLength(n))
    ensures n > 0 ==> BitLength(n) >= 1 && Pow2(BitLength(n) - 1) <= n
  {
    if n > 0 {
      BitLengthBounds(n / 2);
    }
  }

  lemma {:induction false} Pow2Monotone(a: nat, b: nat)
    requires a <= b
    ensures Pow2(a) <= Pow2(b)
  {
    if a < b {
      Pow2Monotone(a, b - 1);
    }
  }

  lemma Pow2Add8(a: nat)
    ensures Pow2(a + 8) == 256 * Pow2(a)
  {
    assert Pow2(a + 8) == 2 * Pow2(a + 7);
    assert Pow2(a + 7) == 2 * Pow2(a + 6);
    assert Pow2(a + 6) == 2 * Pow2(a + 5);
    assert Pow2(a + 5) == 2 * Pow2(a + 4);
    assert Pow2(a + 4) == 2 * Pow2(a + 3);
    assert Pow2(a + 3) == 2 * Pow2(a + 2);
  }

  lemma {:induction false} Pow2Octets(k: nat)
    ensures Pow2(8 * k) == Pow256(k)
  {
    if k > 0 {
      Pow2Octets(k - 1);
      Pow2Add8(8 * (k - 1));
    }
  }

  /** `ByteLength(n)` octets hold `n`, and one octet fewer would not. */
  lemma ByteLengthBounds(n: nat)
    ensures n < Pow256(ByteLength(n))
    ensures n > 0 ==> ByteLength(n) >= 1 && Pow256(ByteLength(n) - 1) <= n
  {
    var bl, len := BitLength(n), ByteLength(n);
    BitLengthBounds(n);
    Pow2Octets(len);
    Pow2Monotone(bl, 8 * len);
    if n > 0 {
      Pow2Octets(len - 1);
      Pow2Monotone(8 * (len - 1), bl - 1);
    }
  }

  /** The `len` big-endian octets of `n` modulo 256^len, most significant first. */
  function ToBytes(n: nat, len: nat): (r: seq<Byte>)
    ensures |r| == len
    decreases len
  {
    if len == 0 then [] else [(n / Pow256(len - 1)) % 256] + ToBytes(n % Pow256(len - 1), len - 1)
  }

  /** The unsigned integer a big-endian octet string denotes. */
  function FromBytes(bs: seq<Byte>): nat {
    if bs == [] then 0 else bs[0] * Pow256(|bs| - 1) + FromBytes(bs[1..])
  }

  lemma DivBelow(n: nat, p: nat, k: nat)
    requires p > 0 && n < k * p
    ensures n / p < k
  {
  }

  lemma DivAtLeastOne(n: nat, p: nat)
    requires 0 < p <= n
    ensures n / p >= 1
  {
  }

  lemma DivMod(n: nat, p: nat)
    requires p > 0
    ensures n == (n / p) * p + n % p
  {
  }

  /** The leading octet of `n` below `256 * p`, and the rest, give `n` back. */
  lemma LeadingDigit(n: nat, p: nat)
    requires p > 0 && n < 256 * p
    ensures ((n / p) % 256) * p + n % p == n
  {
    var q := n / p;
    DivMod(n, p);
    DivBelow(n, p, 256);
    assert q % 256 == q;
  }

  lemma FromBytesCons(b: Byte, rest: seq<Byte>)
    ensures FromBytes([b] + rest) == b * Pow256(|rest|) + FromBytes(rest)
  {
    assert ([b] + rest)[1..] == rest;
  }

  /** One step of reading back: the leading octet at its place, plus the
      value of the remaining octets. */
  lemma FromToBytesStep(n: nat, len: nat)
    requires len > 0
    ensures FromBytes(ToBytes(n, len)) ==
      ((n / Pow256(len - 1)) % 256) * Pow256(len - 1) + FromBytes(ToBytes(n % Pow256(len - 1), len - 1))
  {
    FromBytesCons((n / Pow256(len - 1)) % 256, ToBytes(n % Pow256(len - 1), len - 1));
  }

  lemma {:induction false} FromToBytes(n: nat, len: nat)
    requires n < Pow256(len)
    ensures FromBytes(ToBytes(n, len)) == n
    decreases len
  {
    if len > 0 {
      var p := Pow256(len - 1);
      FromToBytesStep(n, len);
      FromToBytes(n % p, len - 1);
      LeadingDigit(n, p);
    }
  }

  /** Sextet values to characters: the URL- and filename-safe alphabet of
      Table 2, section 5 of RFC 4648 (A-Z, a-z, 0-9, "-", "_"). */
  function Sextet(v: int): char
    requires 0 <= v < 64
  {
    if v < 26 then ('A' as int + v) as char
    else if v < 52 then ('a' as int + (v - 26)) as char
    else if v < 62 then ('0' as int + (v - 52)) as char
    else if v == 62 then '-'
    else '_'
  }

  /** The inverse of `Sextet`; None for a character outside the alphabet,
      which includes the padding character "=". */
  function SextetValue(c: char): (r: Option<int>)
    ensures r.Some? ==> 0 <= r.value < 64
  {
    if 'A' <= c <= 'Z' then Some(c as int - 'A' as int)
    else if 'a' <= c <= 'z' then Some(c as int - 'a' as int + 26)
    else if '0' <= c <= '9' then Some(c as int - '0' as int + 52)
    else if c == '-' then Some(62)
    else if c == '_' then Some(63)
    else None
  }

  predicate InAlphabet(c: char) {
    SextetValue(c).Some?
  }

  lemma SextetInverse(v: int)
    requires 0 <= v < 64
    ensures SextetValue(Sextet(v)) == Some(v)
  {
  }

  lemma SextetValueInverse(c: char)
    requires InAlphabet(c)
    ensures Sextet(SextetValue(c).value) == c
  {
  }

  /** One group of one to three octets as two to four characters. */
  function EncodeGroup(g: seq<Byte>): (r: string)
    requires 1 <= |g| <= 3
    ensures |r| == |g| + 1
    ensures forall i :: 0 <= i < |r| ==> InAlphabet(r[i]) && r[i] != '='
  {
    if |g| == 1 then [Sextet(g[0] / 4), Sextet((g[0] % 4) * 16)]
    else if |g| == 2 then
      [Sextet(g[0] / 4), Sextet((g[0] % 4) * 16 + g[1] / 16), Sextet((g[1] % 16) * 4)]
    else
      [Sextet(g[0] / 4), Sextet((g[0] % 4) * 16 + g[1] / 16),
       Sextet((g[1] % 16) * 4 + g[2] / 64), Sextet(g[2] % 64)]
  }

  /** `jwt.utils.base64url_encode`: base64url with every "=" removed, that
      is, without padding: each 3-octet group becomes 4 characters, a
      final 2-octet group 3 characters, a final single octet 2 characters. */
  function Encode(bs: seq<Byte>): (r: string)
    ensures |r| == (4 * |bs| + 2) / 3
    ensures forall i :: 0 <= i < |r| ==> InAlphabet(r[i]) && r[i] != '='
  {
    if |bs| == 0 then ""
    else if |bs| <= 3 then EncodeGroup(bs)
    else EncodeGroup(bs[..3]) + Encode(bs[3..])
  }

  /** The inverse of `EncodeGroup`; None for a single character, a character
      outside the alphabet, or non-zero unused trailing bits. */
  function DecodeGroup(s: string): Option<seq<Byte>>
    requires 1 <= |s| <= 4
  {
    if |s| == 1 || !InAlphabet(s[0]) || !InAlphabet(s[1]) then None
    else
      var c0, c1 := SextetValue(s[0]).value, SextetValue(s[1]).value;
      if |s| == 2 then
        if c1 % 16 == 0 then Some([c0 * 4 + c1 / 16]) else None
      else if !InAlphabet(s[2]) then None
      else
        var c2 := SextetValue(s[2]).value;
        if |s| == 3 then
          if c2 % 4 == 0 then Some([c0 * 4 + c1 / 16, (c1 % 16) * 16 + c2 / 4]) else None
        else if !InAlphabet(s[3]) then None
        else
          var c3 := SextetValue(s[3]).value;
          Some([c0 * 4 + c1 / 16, (c1 % 16) * 16 + c2 / 4, (c2 % 4) * 64 + c3])
  }

  /** Strict unpadded base64url decoding, four characters at a time. */
  function Decode(s: string): Option<seq<Byte>> {
    if |s| == 0 then Some([])
    else if |s| <= 4 then DecodeGroup(s)
    else
      match DecodeGroup(s[..4])
      case None => None
      case Some(g) =>
        match Decode(s[4..])
        case None => None
        case Some(rest) => Some(g + rest)
  }

  lemma DecodeEncodeOne(b0: Byte)
    ensures DecodeGroup(EncodeGroup([b0])) == Some([b0])
  {
    var c0, c1 := b0 / 4, (b0 % 4) * 16;
    SextetInverse(c0);
    SextetInverse(c1);
    assert EncodeGroup([b0]) == [Sextet(c0), Sextet(c1)];
  }

  lemma DecodeEncodeTwo(b0: Byte, b1: Byte)
    ensures DecodeGroup(EncodeGroup([b0, b1])) == Some([b0, b1])
  {
    var c0, c1, c2 := b0 / 4, (b0 % 4) * 16 + b1 / 16, (b1 % 16) * 4;
    SextetInverse(c0);
    SextetInverse(c1);
    SextetInverse(c2);
    assert c0 * 4 + c1 / 16 == b0;
    assert (c1 % 16) * 16 + c2 / 4 == b1;
    assert EncodeGroup([b0, b1]) == [Sextet(c0), Sextet(c1), Sextet(c2)];
  }

  lemma DecodeEncodeThree(b0: Byte, b1: Byte, b2: Byte)
    ensures DecodeGroup(EncodeGroup([b0, b1, b2])) == Some([b0, b1, b2])
  {
    var c0, c1 := b0 / 4, (b0 % 4) * 16 + b1 / 16;
    var c2, c3 := (b1 % 16) * 4 + b2 / 64, b2 % 64;
    SextetInverse(c0);
    SextetInverse(c1);
    SextetInverse(c2);
    SextetInverse(c3);
    assert c0 * 4 + c1 / 16 == b0;
    assert (c1 % 16) * 16 + c2 / 4 == b1;
    assert (c2 % 4) * 64 + c3 == b2;
    assert EncodeGroup([b0, b1, b2]) == [Sextet(c0), Sextet(c1), Sextet(c2), Sextet(c3)];
  }

  lemma DecodeEncodeGroup(g: seq<Byte>)
    requires 1 <= |g| <= 3
    ensures DecodeGroup(EncodeGroup(g)) == Some(g)
  {
    if |g| == 1 {
      DecodeEncodeOne(g[0]);
      assert g == [g[0]];
    } else if |g| == 2 {
      DecodeEncodeTwo(g[0], g[1]);
      assert g == [g[0], g[1]];
    } else {
      DecodeEncodeThree(g[0], g[1], g[2]);
      assert g == [g[0], g[1], g[2]];
    }
  }

  lemma EncodeDecodeGroup(s: string)
    requires 1 <= |s| <= 4 && DecodeGroup(s).Some?
    ensures |DecodeGroup(s).value| == |s| - 1
    ensures EncodeGroup(DecodeGroup(s).value) == s
  {
    var g := DecodeGroup(s).value;
    var c0, c1 := SextetValue(s[0]).value, SextetValue(s[1]).value;
    SextetValueInverse(s[0]);
    SextetValueInverse(s[1]);
    assert g[0] / 4 == c0;
    if |s| == 2 {
      assert (g[0] % 4) * 16 == c1;
    } else {
      var c2 := SextetValue(s[2]).value;
      SextetValueInverse(s[2]);
      assert (g[0] % 4) * 16 + g[1] / 16 == c1;
      if |s| == 3 {
        assert (g[1] % 16) * 4 == c2;
      } else {
        var c3 := SextetValue(s[3]).value;
        SextetValueInverse(s[3]);
        assert (g[1] % 16) * 4 + g[2] / 64 == c2;
        assert g[2] % 64 == c3;
      }
    }
  }

  /** Decoding undoes encoding. */
  lemma {:induction false} DecodeEncode(bs: seq<Byte>)
    ensures Decode(Encode(bs)) == Some(bs)
  {
    if 1 <= |bs| <= 3 {
      DecodeEncodeGroup(bs);
    } else if |bs| > 3 {
      var s := Encode(bs);
      DecodeEncodeGroup(bs[..3]);
      DecodeEncode(bs[3..]);
      assert s[..4] == EncodeGroup(bs[..3]);
      assert s[4..] == Encode(bs[3..]);
      assert bs == bs[..3] + bs[3..];
    }
  }

  /** Every string the decoder accepts is the encoding of what it decodes to,
      so the encoding is the only spelling of an octet string. */
  lemma {:induction false} EncodeDecode(s: string)
    requires Decode(s).Some?
    ensures Encode(Decode(s).value) == s
  {
    if 1 <= |s| <= 4 {
      EncodeDecodeGroup(s);
    } else if |s| > 4 {
      EncodeDecodeGroup(s[..4]);
      EncodeDecode(s[4..]);
      var g, rest := DecodeGroup(s[..4]).value, Decode(s[4..]).value;
      var bs := g + rest;
      assert |g| == 3 && |rest| > 0;
      assert bs[..3] == g && bs[3..] == rest;
      assert s == s[..4] + s[4..];
    }
  }

  /** `int_to_base64url(n)`: the minimal big-endian octets of `n`, encoded. */
  function IntToBase64Url(n: nat): (r: string)
    ensures |r| == (4 * ByteLength(n) + 2) / 3
    ensures forall i :: 0 <= i < |r| ==> InAlphabet(r[i]) && r[i] != '='
  {
    Encode(ToBytes(n, ByteLength(n)))
  }

  /** The encoding carries exactly `ceil(bit_length(n) / 8)` octets, the first
      of them non-zero when `n > 0`, and decoding them gives `n` back. */
  lemma IntToBase64UrlRoundTrip(n: nat)
    ensures Decode(IntToBase64Url(n)).Some?
    ensures var bs := Decode(IntToBase64Url(n)).value;
      |bs| == (BitLength(n) + 7) / 8 &&
      FromBytes(bs) == n &&
      (n > 0 ==> bs[0] != 0)
  {
    var len := ByteLength(n);
    DecodeEncode(ToBytes(n, len));
    ByteLengthBounds(n);
    FromToBytes(n, len);
    if n > 0 {
      LeadingOctetNonZero(n);
    }
  }

  lemma LeadingOctetNonZero(n: nat)
    requires n > 0
    ensures ByteLength(n) >= 1 && ToBytes(n, ByteLength(n))[0] != 0
  {
    var len := ByteLength(n);
    ByteLengthBounds(n);
    var p := Pow256(len - 1);
    assert Pow256(len) == 256 * p;
    DivBelow(n, p, 256);
    DivAtLeastOne(n, p);
  }

  /** `Base64urlUInt` of section 2 of RFC 7518: the same octets, except that
      zero is one zero octet rather than none. */
  function Base64UrlUInt(n: nat): string {
    Encode(ToBytes(n, if n == 0 then 1 else ByteLength(n)))
  }

  /** The source agrees with RFC 7518 on every positive value and diverges
      on zero, where it emits the empty string instead of "AA". */
  lemma ZeroDivergesFromRfc7518(n: nat)
    ensures n > 0 ==> IntToBase64Url(n) == Base64UrlUInt(n)
    ensures IntToBase64Url(0) == "" && Base64UrlUInt(0) == "AA"
  {
    assert BitLength(0) == 0;
    assert ToBytes(0, 1) == [0];
  }
}
