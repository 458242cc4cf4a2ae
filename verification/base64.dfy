/**
  The URL-safe base64 codec used to exchange connection codes: the alphabet
  of section 5 of RFC 4648 ('-' and '_' for 62 and 63), no '=' padding, a
  partial final group zero-filled and still written as four characters.

  Bytes are bv8 and the 24-bit group is the C code's 32-bit unsigned int, a
  bv32, so shifts and masks are those of the C code. Buffer capacities are
  the outMaxLen arguments; the output value is what precedes the terminating
  NUL.
 */
module Base64 {
  import opened Types

  const UpperCase: string := "ABCDEFGHIJKLMNOPQRSTUVWXYZ"
  const LowerCase: string := "abcdefghijklmnopqrstuvwxyz"
  const Digits: string := "0123456789"

  /** base64_chars: the 64 characters in value order. */
  const Alphabet: string := UpperCase + LowerCase + Digits + "-_"

  /** base64_char_value: the index of c in the alphabet, or -1 for any other character. */
  function CharValue(c: char): (v: int)
    ensures -1 <= v < 64
  {
    if 'A' <= c <= 'Z' then c as int - 'A' as int
    else if 'a' <= c <= 'z' then c as int - 'a' as int + 26
    else if '0' <= c <= '9' then c as int - '0' as int + 52
    else if c == '-' then 62
    else if c == '_' then 63
    else -1
  }

  lemma UpperCaseBlock(i: int)
    requires 0 <= i < 26
    ensures Alphabet[i] == ('A' as int + i) as char
  {
    assert Alphabet[i] == UpperCase[i];
  }

  lemma LowerCaseBlock(i: int)
    requires 26 <= i < 52
    ensures Alphabet[i] == ('a' as int + i - 26) as char
  {
    var upperLower := UpperCase + LowerCase;
    assert upperLower[i] == LowerCase[i - 26];
    assert Alphabet[i] == upperLower[i];
  }

  lemma DigitBlock(i: int)
    requires 52 <= i < 62
    ensures Alphabet[i] == ('0' as int + i - 52) as char
  {
    assert Alphabet[i] == Digits[i - 52];
  }

  /** Each alphabet character decodes to its position. */
  lemma ValueOfAlphabet(i: int)
    requires 0 <= i < 64
    ensures CharValue(Alphabet[i]) == i
  {
    if i < 26 {
      UpperCaseBlock(i);
    } else if i < 52 {
      LowerCaseBlock(i);
    } else if i < 62 {
      DigitBlock(i);
    }
  }

  /** Each valid value names the alphabet character it came from. */
  lemma AlphabetOfValue(c: char)
    requires CharValue(c) >= 0
    ensures Alphabet[CharValue(c)] == c
  {
    var v := CharValue(c);
    if v < 26 {
      UpperCaseBlock(v);
    } else if v < 52 {
      LowerCaseBlock(v);
    } else if v < 62 {
      DigitBlock(v);
    }
  }

  /** CharValue accepts exactly the characters of the alphabet. */
  lemma ValidIffInAlphabet(c: char)
    ensures CharValue(c) >= 0 <==> c in Alphabet
  {
    if CharValue(c) >= 0 {
      AlphabetOfValue(c);
    }
    if c in Alphabet {
      var i :| 0 <= i < |Alphabet| && Alphabet[i] == c;
      ValueOfAlphabet(i);
    }
  }

  // ---------------------------------------------------------------------------
  // Encoding
  // ---------------------------------------------------------------------------

  /** The 24-bit group of three bytes, first byte most significant. */
  function Pack(a: Byte, b: Byte, c: Byte): bv32
  {
    (a as bv32 << 16) | (b as bv32 << 8) | c as bv32
  }

  /** The 6-bit field of t starting at bit `shift`. */
  function Field(t: bv32, shift: bv32): (f: bv32)
    requires shift <= 18
    ensures f < 64
  {
    (t >> shift) & 0x3F
  }

  function Index(f: bv32): (i: int)
    requires f < 64
    ensures 0 <= i < 64
  {
    f as int
  }

  /** The four characters of one group: its 6-bit fields from the most significant down. */
  function GroupChars(t: bv32): (s: string)
    ensures |s| == 4 && forall k | 0 <= k < 4 :: CharValue(s[k]) >= 0
  {
    ValueOfAlphabet(Index(Field(t, 18)));
    ValueOfAlphabet(Index(Field(t, 12)));
    ValueOfAlphabet(Index(Field(t, 6)));
    ValueOfAlphabet(Index(Field(t, 0)));
    [Alphabet[Index(Field(t, 18))], Alphabet[Index(Field(t, 12))], Alphabet[Index(Field(t, 6))], Alphabet[Index(Field(t, 0))]]
  }

  /** The number of groups n bytes start. */
  function Groups(n: nat): nat
  {
    (n + 2) / 3
  }

  /** The started groups hold the n bytes with at most two places to spare. */
  lemma GroupsBounds(n: nat)
    ensures n <= 3 * Groups(n) <= n + 2
  {
  }

  /** A group consumes three bytes, or all that remain. */
  lemma GroupsOfRest(n: nat)
    requires n > 0
    ensures Groups(n) == 1 + Groups(if n > 3 then n - 3 else 0)
  {
  }

  /** The lengths one encoding step adds up: a group of four before the rest's output of length m. */
  lemma EncodeStepLengths(n: nat, budget: int, m: nat)
    requires n > 0 && budget > 0
    requires var restGroups := Groups(if n > 3 then n - 3 else 0);
      && m % 4 == 0 && m <= 4 * restGroups && (m == 0 || m < budget)
      && (4 * restGroups < budget ==> m == 4 * restGroups)
    ensures (4 + m) % 4 == 0 && 4 + m <= 4 * Groups(n) && 4 + m < budget + 4
    ensures 4 * Groups(n) < budget + 4 ==> 4 + m == 4 * Groups(n)
  {
    GroupsOfRest(n);
  }

  /**
    The encoding loop from a point where `budget` = outMaxLen - 4 - j: a group
    is written while input remains and the budget is positive.
   */
  function EncodeFrom(input: seq<Byte>, budget: int): (out: string)
    ensures |out| % 4 == 0 && |out| <= 4 * Groups(|input|)
    ensures |out| == 0 || |out| < budget + 4
    ensures 4 * Groups(|input|) < budget + 4 ==> |out| == 4 * Groups(|input|)
    ensures forall k | 0 <= k < |out| :: CharValue(out[k]) >= 0
    decreases |input|
  {
    if |input| == 0 || budget <= 0 then ""
    else
      var b := if |input| > 1 then input[1] else 0;
      var c := if |input| > 2 then input[2] else 0;
      var rest := if |input| > 3 then input[3..] else [];
      var tail := EncodeFrom(rest, budget - 4);
      EncodeStepLengths(|input|, budget, |tail|);
      GroupChars(Pack(input[0], b, c)) + tail
  }

  /**
    base64_encode into a buffer of outMaxLen characters: the encoded text
    always leaves room for the terminating NUL, and it is complete, four
    characters per started group, when the buffer has room for it.
   */
  function Encode(input: seq<Byte>, outMaxLen: int): (out: string)
    requires outMaxLen >= 4
    ensures |out| + 1 <= outMaxLen && |out| % 4 == 0
    ensures 4 * Groups(|input|) < outMaxLen ==> |out| == 4 * Groups(|input|)
    ensures '\0' !in out
  {
    EncodeFrom(input, outMaxLen - 4)
  }

  // ---------------------------------------------------------------------------
  // Decoding
  // ---------------------------------------------------------------------------

  /** The text up to the first NUL, which is what strlen measures. */
  function CString(s: string): (r: string)
    ensures '\0' !in r && r <= s
    ensures |r| < |s| ==> s[|r|] == '\0'
  {
    if |s| == 0 || s[0] == '\0' then "" else [s[0]] + CString(s[1..])
  }

  /** A 6-bit value as an int shifted in C: -1 is all ones in two's complement. */
  function Bits(v: int): bv32
    requires -1 <= v < 64
  {
    if v < 0 then 0xFFFF_FFFF else v as bv32
  }

  /** The group rebuilt from four character values; v2 and v3 may be -1. */
  function Unpack(v0: int, v1: int, v2: int, v3: int): bv32
    requires 0 <= v0 < 64 && 0 <= v1 < 64 && -1 <= v2 < 64 && -1 <= v3 < 64
  {
    (Bits(v0) << 18) | (Bits(v1) << 12) | (Bits(v2) << 6) | Bits(v3)
  }

  function ByteAt(t: bv32, shift: bv32): Byte
    requires shift <= 16
  {
    ((t >> shift) & 0xFF) as Byte
  }

  /** The value of the k-th character of s, or 0 when there is none. */
  function ValueAt(s: string, k: nat): int
  {
    if k < |s| then CharValue(s[k]) else 0
  }

  /** The first group of s is usable: its first two characters are alphabet characters. */
  predicate GroupValid(s: string)
  {
    ValueAt(s, 0) >= 0 && ValueAt(s, 1) >= 0
  }

  /**
    The bytes one group emits with `budget` > 0 places left: its first byte,
    then its second only if a valid third character was present, then its
    third only if a valid fourth character was present, each while places last.
   */
  function GroupOutput(s: string, budget: int): (out: seq<Byte>)
    requires GroupValid(s) && budget > 0
    ensures 1 <= |out| <= 3 && |out| <= budget
  {
    var v0, v1, v2, v3 := ValueAt(s, 0), ValueAt(s, 1), ValueAt(s, 2), ValueAt(s, 3);
    var t := Unpack(v0, v1, v2, v3);
    var o2 := if budget > 1 && |s| > 2 && v2 >= 0 then [ByteAt(t, 8)] else [];
    var o3 := if budget > 1 + |o2| && |s| > 3 && v3 >= 0 then [ByteAt(t, 0)] else [];
    [ByteAt(t, 16)] + o2 + o3
  }

  /**
    The decoding loop from a point where `budget` = outMaxLen - 1 - j. Each
    group takes up to four characters; a group whose first or second value is
    invalid ends the loop.
   */
  function DecodeFrom(s: string, budget: int): (out: seq<Byte>)
    ensures |out| <= if budget > 0 then budget else 0
    decreases |s|
  {
    if |s| == 0 || budget <= 0 || !GroupValid(s) then []
    else
      var g := GroupOutput(s, budget);
      var rest := if |s| > 4 then s[4..] else "";
      g + DecodeFrom(rest, budget - |g|)
  }

  /**
    base64_decode of a NUL-terminated text into a buffer of outMaxLen
    characters: at most outMaxLen - 1 data bytes, so the NUL always fits.
   */
  function Decode(input: string, outMaxLen: int): (out: seq<Byte>)
    requires outMaxLen >= 1
    ensures |out| <= outMaxLen - 1
  {
    DecodeFrom(CString(input), outMaxLen - 1)
  }

  // ---------------------------------------------------------------------------
  // Round trip
  // ---------------------------------------------------------------------------

  /** x followed by zero bytes up to a whole number of groups. */
  function ZeroPad(x: seq<Byte>): (r: seq<Byte>)
    ensures |r| == 3 * Groups(|x|) && r[..|x|] == x
  {
    x + seq(3 * Groups(|x|) - |x|, _ => 0)
  }

  /** The six-bit fields of a packed group, shifted back into place, give back its three bytes. */
  lemma GroupRoundTrip(a: Byte, b: Byte, c: Byte)
    ensures var t := Pack(a, b, c);
      var u := (Field(t, 18) << 18) | (Field(t, 12) << 12) | (Field(t, 6) << 6) | Field(t, 0);
      ByteAt(u, 16) == a && ByteAt(u, 8) == b && ByteAt(u, 0) == c
  {
  }

  lemma BitsOfField(f: bv32)
    requires f < 64
    ensures Bits(Index(f)) == f
  {
  }

  /** A full group of four valid characters, with room for three bytes, decodes to three bytes. */
  lemma DecodeFullGroup(s: string, budget: int)
    requires |s| >= 4 && budget >= 3
    requires ValueAt(s, 0) >= 0 && ValueAt(s, 1) >= 0 && ValueAt(s, 2) >= 0 && ValueAt(s, 3) >= 0
    ensures var u := Unpack(ValueAt(s, 0), ValueAt(s, 1), ValueAt(s, 2), ValueAt(s, 3));
      DecodeFrom(s, budget) == [ByteAt(u, 16), ByteAt(u, 8), ByteAt(u, 0)] + DecodeFrom(s[4..], budget - 3)
  {
    var u := Unpack(ValueAt(s, 0), ValueAt(s, 1), ValueAt(s, 2), ValueAt(s, 3));
    assert GroupOutput(s, budget) == [ByteAt(u, 16), ByteAt(u, 8), ByteAt(u, 0)];
    assert (if |s| > 4 then s[4..] else "") == s[4..];
  }

  /** The characters of a group carry its four fields as values. */
  lemma GroupCharValues(t: bv32, tail: string)
    ensures var s := GroupChars(t) + tail;
      && |s| >= 4 && s[4..] == tail
      && ValueAt(s, 0) == Index(Field(t, 18)) && ValueAt(s, 1) == Index(Field(t, 12))
      && ValueAt(s, 2) == Index(Field(t, 6)) && ValueAt(s, 3) == Index(Field(t, 0))
  {
    ValueOfAlphabet(Index(Field(t, 18)));
    ValueOfAlphabet(Index(Field(t, 12)));
    ValueOfAlphabet(Index(Field(t, 6)));
    ValueOfAlphabet(Index(Field(t, 0)));
  }

  /** Values that came from fields shift back to the same bits. */
  lemma UnpackFields(f0: bv32, f1: bv32, f2: bv32, f3: bv32)
    requires f0 < 64 && f1 < 64 && f2 < 64 && f3 < 64
    ensures Unpack(Index(f0), Index(f1), Index(f2), Index(f3)) == (f0 << 18) | (f1 << 12) | (f2 << 6) | f3
  {
    BitsOfField(f0);
    BitsOfField(f1);
    BitsOfField(f2);
    BitsOfField(f3);
  }

  /** Decoding the characters of one group gives back its bytes. */
  lemma GroupCharsDecode(a: Byte, b: Byte, c: Byte, tail: string, budget: int)
    requires budget >= 3
    ensures DecodeFrom(GroupChars(Pack(a, b, c)) + tail, budget) == [a, b, c] + DecodeFrom(tail, budget - 3)
  {
    var t := Pack(a, b, c);
    var s := GroupChars(t) + tail;
    GroupCharValues(t, tail);
    UnpackFields(Field(t, 18), Field(t, 12), Field(t, 6), Field(t, 0));
    GroupRoundTrip(a, b, c);
    DecodeFullGroup(s, budget);
  }

  /** The first group of x, zero-filled, and the rest of x. */
  function FirstGroup(x: seq<Byte>): (r: (Byte, Byte, Byte, seq<Byte>))
    requires |x| > 0
  {
    (x[0], if |x| > 1 then x[1] else 0, if |x| > 2 then x[2] else 0, if |x| > 3 then x[3..] else [])
  }

  lemma EncodeFirstGroup(x: seq<Byte>, e: int)
    requires |x| > 0 && e > 0
    ensures var g := FirstGroup(x);
      EncodeFrom(x, e) == GroupChars(Pack(g.0, g.1, g.2)) + EncodeFrom(g.3, e - 4)
  {
  }

  lemma ZeroPadFirstGroup(x: seq<Byte>)
    requires |x| > 0
    ensures var g := FirstGroup(x);
      && Groups(|g.3|) == Groups(|x|) - 1
      && ZeroPad(x) == [g.0, g.1, g.2] + ZeroPad(g.3)
  {
    var g := FirstGroup(x);
    var z := ZeroPad(x);
    var y := [g.0, g.1, g.2] + ZeroPad(g.3);
    assert Groups(|g.3|) == Groups(|x|) - 1;
    assert |z| == |y|;
    forall k | 0 <= k < |z|
      ensures z[k] == y[k]
    {
      if k >= 3 && k - 3 < |g.3| {
        assert y[k] == g.3[k - 3];
      }
    }
  }

  /** One group of the round trip: if the rest of x comes back zero-filled, so does x. */
  lemma DecodeEncodeStep(x: seq<Byte>, e: int, d: int)
    requires |x| > 0 && 4 * Groups(|x|) < e + 4 && 3 * Groups(|x|) <= d
    requires DecodeFrom(EncodeFrom(FirstGroup(x).3, e - 4), d - 3) == ZeroPad(FirstGroup(x).3)
    ensures DecodeFrom(EncodeFrom(x, e), d) == ZeroPad(x)
  {
    var g := FirstGroup(x);
    ZeroPadFirstGroup(x);
    EncodeFirstGroup(x, e);
    GroupCharsDecode(g.0, g.1, g.2, EncodeFrom(g.3, e - 4), d);
  }

  lemma DecodeEncodeEmpty(x: seq<Byte>, e: int, d: int)
    requires |x| == 0
    ensures DecodeFrom(EncodeFrom(x, e), d) == ZeroPad(x)
  {
    assert EncodeFrom(x, e) == "";
    assert ZeroPad(x) == [];
  }

  lemma {:induction false} DecodeEncodeFrom(x: seq<Byte>, e: int, d: int)
    requires 4 * Groups(|x|) < e + 4 && 3 * Groups(|x|) <= d
    ensures DecodeFrom(EncodeFrom(x, e), d) == ZeroPad(x)
    decreases |x|
  {
    if |x| == 0 {
      DecodeEncodeEmpty(x, e, d);
    } else {
      ZeroPadFirstGroup(x);
      DecodeEncodeFrom(FirstGroup(x).3, e - 4, d - 3);
      DecodeEncodeStep(x, e, d);
    }
  }

  /** A text without NUL is decoded whole. */
  lemma DecodeNoNul(s: string, t: string, outMaxLen: int)
    requires outMaxLen >= 1 && s == t && '\0' !in s
    ensures Decode(s, outMaxLen) == DecodeFrom(t, outMaxLen - 1)
  {
    NoNulIsItsOwnCString(s);
  }

  lemma EncodeStartsFull(x: seq<Byte>, encodeMax: int)
    requires encodeMax >= 4
    ensures Encode(x, encodeMax) == EncodeFrom(x, encodeMax - 4)
  {
  }

  /**
    Decoding the encoding of x, with room in both buffers, yields x followed
    by the zero bytes that filled its last group.
   */
  lemma DecodeEncode(x: seq<Byte>, encodeMax: int, decodeMax: int)
    requires encodeMax >= 4 && 4 * Groups(|x|) < encodeMax
    requires decodeMax >= 1 && 3 * Groups(|x|) < decodeMax
    ensures Decode(Encode(x, encodeMax), decodeMax) == ZeroPad(x)
  {
    EncodeStartsFull(x, encodeMax);
    DecodeEncodeFrom(x, encodeMax - 4, decodeMax - 1);
    DecodeNoNul(Encode(x, encodeMax), EncodeFrom(x, encodeMax - 4), decodeMax);
  }

  /** The round trip gives back x itself, followed by at most two zero bytes. */
  lemma DecodeEncodeKeepsInput(x: seq<Byte>, encodeMax: int, decodeMax: int)
    requires encodeMax >= 4 && 4 * Groups(|x|) < encodeMax
    requires decodeMax >= 1 && 3 * Groups(|x|) < decodeMax
    ensures var r := Decode(Encode(x, encodeMax), decodeMax);
      |x| <= |r| <= |x| + 2 && r[..|x|] == x
  {
    DecodeEncode(x, encodeMax, decodeMax);
    GroupsBounds(|x|);
  }

  lemma {:induction false} NoNulIsItsOwnCString(s: string)
    requires '\0' !in s
    ensures CString(s) == s
  {
    if |s| > 0 {
      NoNulIsItsOwnCString(s[1..]);
    }
  }
}
