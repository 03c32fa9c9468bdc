/**
 * The product-identifier generator of the server (`generateProductId`):
 * four random bytes are rendered as lowercase hexadecimal, upper-cased,
 * and prefixed with "PROD-".  The random source is a parameter, so what
 * remains is a deterministic byte-to-hex encoder; a decoder is defined
 * beside it so that the encoding can be shown to round-trip.
 */
module ProductId {
  import opened Wrappers

  /** One octet, as delivered by the random source. */
  type Byte = b: int | 0 <= b < 256

  /** The fixed prefix of every product identifier. */
  const Prefix: string := "PROD-"

  /** Number of random bytes drawn per identifier. */
  const RandomLength: nat := 4

  /** Length of a product identifier: the prefix plus two digits per byte. */
  const IdLength: nat := 13

  const LowerDigits: string := "0123456789abcdef"
  const UpperDigits: string := "0123456789ABCDEF"

  /** A character the lowercase hexadecimal rendering may contain. */
  predicate IsLowerHexChar(c: char) {
    ('0' <= c <= '9') || ('a' <= c <= 'f')
  }

  /** A character the upper-cased hexadecimal rendering may contain. */
  predicate IsUpperHexChar(c: char) {
    ('0' <= c <= '9') || ('A' <= c <= 'F')
  }

  /** The shape of every product identifier: "PROD-" then eight upper-case hex digits. */
  predicate IsProductId(s: string) {
    |s| == IdLength && s[..|Prefix|] == Prefix &&
    forall i :: |Prefix| <= i < |s| ==> IsUpperHexChar(s[i])
  }

  /** The high nibble of a byte. */
  function Hi(b: Byte): (n: nat)
    ensures n < 16
  {
    b / 16
  }

  /** The low nibble of a byte; together with Hi it determines the byte. */
  function Lo(b: Byte): (n: nat)
    ensures n < 16 && b == 16 * Hi(b) + n
  {
    b % 16
  }

  // ---------------------------------------------------------------------
  // Encoding: Buffer.toString("hex") followed by String.toUpperCase
  // ---------------------------------------------------------------------

  /** Lowercase hexadecimal rendering of a byte sequence, two digits per byte. */
  function ToHex(bytes: seq<Byte>): (r: string)
    ensures |r| == 2 * |bytes|
    ensures forall i :: 0 <= i < |r| ==> IsLowerHexChar(r[i])
  {
    if bytes == [] then []
    else [LowerDigits[Hi(bytes[0])], LowerDigits[Lo(bytes[0])]] + ToHex(bytes[1..])
  }

  /** Upper-casing of one character; only the ASCII letters a-z change. */
  function UpperChar(c: char): char {
    if 'a' <= c <= 'z' then (c as int - 'a' as int + 'A' as int) as char else c
  }

  /**
   * String.toUpperCase restricted to ASCII: every character upper-cased in place.
   * No lowercase letter survives, every other character is kept, and each
   * lowercase hex digit becomes the upper-case digit of the same value.
   */
  function ToUpperCase(s: string): (r: string)
    ensures |r| == |s|
    ensures forall i :: 0 <= i < |r| ==> !('a' <= r[i] <= 'z')
    ensures forall i :: 0 <= i < |s| && !('a' <= s[i] <= 'z') ==> r[i] == s[i]
    ensures forall i, k :: 0 <= i < |s| && 0 <= k < 16 && s[i] == LowerDigits[k] ==> r[i] == UpperDigits[k]
  {
    seq(|s|, i requires 0 <= i < |s| => UpperChar(s[i]))
  }

  /** The random part of an identifier: the bytes in hexadecimal, upper-cased. */
  function EncodeUpper(bytes: seq<Byte>): (r: string)
    ensures |r| == 2 * |bytes|
    ensures forall i :: 0 <= i < |r| ==> IsUpperHexChar(r[i])
  {
    ToUpperCase(ToHex(bytes))
  }

  /**
   * generateProductId with the four random bytes taken as a parameter.
   * It is total: every four-byte input yields an identifier, with no failure case.
   */
  function GenerateProductId(randomBytes: seq<Byte>): (id: string)
    requires |randomBytes| == RandomLength
    ensures IsProductId(id)
    ensures |id| == |Prefix| + 2 * |randomBytes|
  {
    Prefix + EncodeUpper(randomBytes)
  }

  // ---------------------------------------------------------------------
  // Decoding: the inverse of the encoder
  // ---------------------------------------------------------------------

  /** The value of one upper-case hex digit, or None for any other character. */
  function HexValue(c: char): (v: Option<nat>)
    ensures v.Some? <==> IsUpperHexChar(c)
    ensures v.Some? ==> v.value < 16 && UpperDigits[v.value] == c
  {
    if '0' <= c <= '9' then Some(c as int - '0' as int)
    else if 'A' <= c <= 'F' then Some(c as int - 'A' as int + 10)
    else None
  }

  /** The byte whose high and low nibble are the two given digits. */
  function FromNibbles(hi: nat, lo: nat): (b: Byte)
    requires hi < 16 && lo < 16
    ensures Hi(b) == hi && Lo(b) == lo
  {
    hi * 16 + lo
  }

  /** Reads pairs of upper-case hex digits back into bytes; None on odd length or a foreign character. */
  function DecodeHex(s: string): (r: Option<seq<Byte>>)
    ensures r.Some? ==> 2 * |r.value| == |s|
    decreases |s|
  {
    if |s| < 2 then (if s == [] then Some([]) else None)
    else
      var hi, lo, rest := HexValue(s[0]), HexValue(s[1]), DecodeHex(s[2..]);
      if hi.Some? && lo.Some? && rest.Some? then Some([FromNibbles(hi.value, lo.value)] + rest.value)
      else None
  }

  /** Recovers the random bytes from a product identifier, or None when the string is not one. */
  function ParseProductId(s: string): (r: Option<seq<Byte>>)
    ensures r.Some? ==> |r.value| == RandomLength
  {
    if |s| == IdLength && s[..|Prefix|] == Prefix then DecodeHex(s[|Prefix|..]) else None
  }

  // ---------------------------------------------------------------------
  // Properties
  // ---------------------------------------------------------------------

  /** Upper-casing a lowercase hex digit gives the upper-case digit of the same value. */
  lemma UpperDigit(k: nat)
    requires k < 16
    ensures UpperChar(LowerDigits[k]) == UpperDigits[k]
  {
  }

  /** Upper-casing distributes over concatenation. */
  lemma ToUpperCaseAppend(a: string, b: string)
    ensures ToUpperCase(a + b) == ToUpperCase(a) + ToUpperCase(b)
  {
  }

  /** Upper-case encoding of a byte sequence, peeled one byte at a time. */
  lemma EncodeUpperCons(bytes: seq<Byte>)
    requires bytes != []
    ensures EncodeUpper(bytes) == [UpperDigits[Hi(bytes[0])], UpperDigits[Lo(bytes[0])]] + EncodeUpper(bytes[1..])
  {
    ToUpperCaseAppend([LowerDigits[Hi(bytes[0])], LowerDigits[Lo(bytes[0])]], ToHex(bytes[1..]));
    UpperDigit(Hi(bytes[0]));
    UpperDigit(Lo(bytes[0]));
  }

  /** Digits 2i and 2i+1 of the lowercase rendering are the high and low nibble of byte i. */
  lemma {:induction false} ToHexAt(bytes: seq<Byte>, i: nat)
    requires i < |bytes|
    ensures ToHex(bytes)[2 * i] == LowerDigits[Hi(bytes[i])]
    ensures ToHex(bytes)[2 * i + 1] == LowerDigits[Lo(bytes[i])]
  {
    if i > 0 {
      ToHexAt(bytes[1..], i - 1);
    }
  }

  /** Digits 2i and 2i+1 of the encoding are the high and low nibble of byte i. */
  lemma EncodeUpperAt(bytes: seq<Byte>, i: nat)
    requires i < |bytes|
    ensures EncodeUpper(bytes)[2 * i] == UpperDigits[Hi(bytes[i])]
    ensures EncodeUpper(bytes)[2 * i + 1] == UpperDigits[Lo(bytes[i])]
  {
    ToHexAt(bytes, i);
    UpperDigit(Hi(bytes[i]));
    UpperDigit(Lo(bytes[i]));
  }

  /** Reading an upper-case digit gives back its value. */
  lemma HexValueDigit(k: nat)
    requires k < 16
    ensures HexValue(UpperDigits[k]) == Some(k)
  {
  }

  /** Decoding the upper-case encoding gives back the bytes. */
  lemma {:induction false} DecodeEncodeHex(bytes: seq<Byte>)
    ensures DecodeHex(EncodeUpper(bytes)) == Some(bytes)
  {
    if bytes != [] {
      EncodeUpperCons(bytes);
      var s := EncodeUpper(bytes);
      assert s[2..] == EncodeUpper(bytes[1..]);
      DecodeEncodeHex(bytes[1..]);
      var hi, lo := Hi(bytes[0]), Lo(bytes[0]);
      HexValueDigit(hi);
      HexValueDigit(lo);
      assert FromNibbles(hi, lo) == bytes[0];
      assert DecodeHex(s) == Some([bytes[0]] + bytes[1..]);
      assert [bytes[0]] + bytes[1..] == bytes;
    }
  }

  /** Whenever decoding succeeds, encoding the result reproduces the input string exactly. */
  lemma {:induction false} EncodeDecodeHex(s: string)
    requires DecodeHex(s).Some?
    ensures EncodeUpper(DecodeHex(s).value) == s
  {
    if s != [] {
      var hi, lo := HexValue(s[0]).value, HexValue(s[1]).value;
      var bytes := DecodeHex(s).value;
      assert bytes[0] == FromNibbles(hi, lo) && bytes[1..] == DecodeHex(s[2..]).value;
      EncodeDecodeHex(s[2..]);
      EncodeUpperCons(bytes);
      assert EncodeUpper(bytes) == [s[0], s[1]] + s[2..];
    }
  }

  /** Every string of upper-case hex digits of even length decodes. */
  lemma {:induction false} DecodeHexTotal(s: string)
    requires |s| % 2 == 0
    requires forall i :: 0 <= i < |s| ==> IsUpperHexChar(s[i])
    ensures DecodeHex(s).Some?
  {
    if s != [] {
      assert IsUpperHexChar(s[0]) && IsUpperHexChar(s[1]);
      DecodeHexTotal(s[2..]);
    }
  }

  /** The identifier round-trips: parsing a generated identifier recovers the random bytes. */
  lemma ParseGenerate(randomBytes: seq<Byte>)
    requires |randomBytes| == RandomLength
    ensures ParseProductId(GenerateProductId(randomBytes)) == Some(randomBytes)
  {
    var id := GenerateProductId(randomBytes);
    assert id[|Prefix|..] == EncodeUpper(randomBytes);
    DecodeEncodeHex(randomBytes);
  }

  /** Parsing only accepts what the generator can produce, and the generator reproduces it. */
  lemma GenerateParse(s: string)
    requires ParseProductId(s).Some?
    ensures GenerateProductId(ParseProductId(s).value) == s
  {
    EncodeDecodeHex(s[|Prefix|..]);
    assert s == s[..|Prefix|] + s[|Prefix|..];
  }

  /** Characters 2i and 2i+1 after the prefix are the high and low nibble of random byte i. */
  lemma GenerateProductIdNibbles(randomBytes: seq<Byte>, i: nat)
    requires |randomBytes| == RandomLength && i < RandomLength
    ensures GenerateProductId(randomBytes)[|Prefix| + 2 * i] == UpperDigits[Hi(randomBytes[i])]
    ensures GenerateProductId(randomBytes)[|Prefix| + 2 * i + 1] == UpperDigits[Lo(randomBytes[i])]
  {
    EncodeUpperAt(randomBytes, i);
  }

  /** Distinct random inputs yield distinct identifiers. */
  lemma GenerateInjective(a: seq<Byte>, b: seq<Byte>)
    requires |a| == RandomLength && |b| == RandomLength
    requires GenerateProductId(a) == GenerateProductId(b)
    ensures a == b
  {
    ParseGenerate(a);
    ParseGenerate(b);
  }

  /** The identifier format is exactly the range of the generator: each well-formed string has a preimage. */
  lemma ProductIdHasPreimage(s: string)
    requires IsProductId(s)
    ensures ParseProductId(s).Some?
    ensures exists b: seq<Byte> :: |b| == RandomLength && GenerateProductId(b) == s
  {
    var digits := s[|Prefix|..];
    assert forall i :: 0 <= i < |digits| ==> IsUpperHexChar(digits[i]) by {
      forall i | 0 <= i < |digits| ensures IsUpperHexChar(digits[i]) {
        assert digits[i] == s[|Prefix| + i];
      }
    }
    DecodeHexTotal(digits);
    GenerateParse(s);
  }

  /** No lowercase hex digit ever appears after the prefix. */
  lemma NoLowercaseDigits(randomBytes: seq<Byte>, i: int)
    requires |randomBytes| == RandomLength
    requires |Prefix| <= i < IdLength
    ensures GenerateProductId(randomBytes)[i] !in "abcdef"
  {
    assert IsUpperHexChar(GenerateProductId(randomBytes)[i]);
  }
}
