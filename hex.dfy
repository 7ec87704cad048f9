/** The nibble table and hex_to_binary of backend/utils/hex_to_binary.py, with the facts the
    proof-of-work test relies on: lengths, bits, concatenation, the inverse, and numeric value. */
module Hex {
  import opened Config

  /** The keys of HEX_TO_BINARY_CONVERSION_TABLE: the lower-case hex digits. */
  predicate IsHexDigit(c: char)
  {
    '0' <= c <= '9' || 'a' <= c <= 'f'
  }

  predicate IsHex(s: string)
  {
    forall i :: 0 <= i < |s| ==> IsHexDigit(s[i])
  }

  predicate IsBit(c: char)
  {
    c == '0' || c == '1'
  }

  predicate IsBits(s: string)
  {
    forall i :: 0 <= i < |s| ==> IsBit(s[i])
  }

  /** HEX_TO_BINARY_CONVERSION_TABLE, entry by entry. A character outside the table has no entry
      (Python raises KeyError), hence the precondition. */
  function Nibble(c: char): (r: string)
    requires IsHexDigit(c)
    ensures |r| == 4
  {
    match c
    case '0' => "0000" case '1' => "0001" case '2' => "0010" case '3' => "0011"
    case '4' => "0100" case '5' => "0101" case '6' => "0110" case '7' => "0111"
    case '8' => "1000" case '9' => "1001" case 'a' => "1010" case 'b' => "1011"
    case 'c' => "1100" case 'd' => "1101" case 'e' => "1110" case 'f' => "1111"
  }

  /** The numeric value of a hex digit, defined by arithmetic rather than by the table. */
  function DigitValue(c: char): (v: nat)
    requires IsHexDigit(c)
    ensures v < 16
  {
    if c <= '9' then c as int - '0' as int else c as int - 'a' as int + 10
  }

  /** The inverse of the table. */
  function DigitOf(v: nat): (c: char)
    requires v < 16
    ensures IsHexDigit(c) && DigitValue(c) == v
  {
    if v < 10 then ('0' as int + v) as char else ('a' as int + v - 10) as char
  }

  function Bit(c: char): nat
  {
    if c == '1' then 1 else 0
  }

  /** The big-endian value of a string of bits. */
  function BitsValue(b: string): (v: nat)
    requires IsBits(b)
  {
    if b == [] then 0 else 2 * BitsValue(b[..|b| - 1]) + Bit(b[|b| - 1])
  }

  /** The big-endian value of a string of hex digits. */
  function HexValue(h: string): (v: nat)
    requires IsHex(h)
  {
    if h == [] then 0 else 16 * HexValue(h[..|h| - 1]) + DigitValue(h[|h| - 1])
  }

  /** Each table entry is the 4-bit big-endian binary of its digit's value. */
  lemma NibbleIsBinaryOfDigit(c: char)
    requires IsHexDigit(c)
    ensures |Nibble(c)| == 4 && IsBits(Nibble(c))
    ensures BitsValue(Nibble(c)) == DigitValue(c)
  {
    Bits4Value(Nibble(c));
  }

  lemma Bits4Value(n: string)
    requires |n| == 4 && IsBits(n)
    ensures BitsValue(n) == 8 * Bit(n[0]) + 4 * Bit(n[1]) + 2 * Bit(n[2]) + Bit(n[3])
  {
    var n1, n2, n3 := n[..1], n[..2], n[..3];
    assert n1[..0] == [];
    assert BitsValue(n1) == Bit(n[0]);
    assert n2[..1] == n1;
    assert BitsValue(n2) == 2 * Bit(n[0]) + Bit(n[1]);
    assert n3[..2] == n2;
    assert BitsValue(n3) == 4 * Bit(n[0]) + 2 * Bit(n[1]) + Bit(n[2]);
    assert n[..3] == n3;
  }

  /** hex_to_binary: the table entries of the digits, joined in order. */
  function HexToBinary(h: string): (r: string)
    requires IsHex(h)
    ensures |r| == 4 * |h|
    ensures IsBits(r)
  {
    if h == [] then "" else
      NibbleIsBinaryOfDigit(h[0]);
      Nibble(h[0]) + HexToBinary(h[1..])
  }

  /** Reads a bit string back in groups of four. */
  function BinaryToHex(b: string): (h: string)
    requires IsBits(b) && |b| % 4 == 0
    ensures IsHex(h) && 4 * |h| == |b|
  {
    if b == [] then "" else
      var v := BitsValue(b[..4]);
      BitsBelow(b[..4]);
      [DigitOf(v)] + BinaryToHex(b[4..])
  }

  lemma {:induction false} BitsBelow(b: string)
    requires IsBits(b)
    ensures BitsValue(b) < Pow2(|b|)
  {
    if b != [] {
      BitsBelow(b[..|b| - 1]);
    }
  }

  /** hex_to_binary distributes over concatenation. */
  lemma {:induction false} HexToBinaryConcat(a: string, b: string)
    requires IsHex(a) && IsHex(b)
    ensures IsHex(a + b)
    ensures HexToBinary(a + b) == HexToBinary(a) + HexToBinary(b)
  {
    if a != [] {
      assert (a + b)[1..] == a[1..] + b;
      HexToBinaryConcat(a[1..], b);
    } else {
      assert a + b == b;
    }
  }

  lemma DigitValueInjective(c: char, d: char)
    requires IsHexDigit(c) && IsHexDigit(d)
    ensures DigitValue(c) == DigitValue(d) ==> c == d
  {
  }

  /** Reading the output back in 4-bit groups recovers the input. */
  lemma {:induction false} BinaryToHexInverts(h: string)
    requires IsHex(h)
    ensures BinaryToHex(HexToBinary(h)) == h
  {
    if h != [] {
      var b := HexToBinary(h);
      NibbleIsBinaryOfDigit(h[0]);
      assert b[..4] == Nibble(h[0]);
      assert b[4..] == HexToBinary(h[1..]);
      BinaryToHexInverts(h[1..]);
      var c := DigitOf(DigitValue(h[0]));
      DigitValueInjective(c, h[0]);
    }
  }

  /** Hence hex_to_binary is injective on its domain. */
  lemma HexToBinaryInjective(g: string, h: string)
    requires IsHex(g) && IsHex(h)
    requires HexToBinary(g) == HexToBinary(h)
    ensures g == h
  {
    BinaryToHexInverts(g);
    BinaryToHexInverts(h);
  }

  lemma {:induction false} BitsValueConcat(a: string, b: string)
    requires IsBits(a) && IsBits(b)
    ensures IsBits(a + b)
    ensures BitsValue(a + b) == BitsValue(a) * Pow2(|b|) + BitsValue(b)
  {
    if b != [] {
      var ab, b' := a + b, b[..|b| - 1];
      assert ab[..|ab| - 1] == a + b' && ab[|ab| - 1] == b[|b| - 1];
      BitsValueConcat(a, b');
      var va, vb', p, t := BitsValue(a), BitsValue(b'), Pow2(|b'|), Bit(b[|b| - 1]);
      DoubleProduct(va, p);
      calc {
        BitsValue(ab);
        2 * BitsValue(a + b') + t;
        2 * (va * p + vb') + t;
        va * (2 * p) + (2 * vb' + t);
        va * Pow2(|b|) + BitsValue(b);
      }
    } else {
      assert a + b == a;
    }
  }

  lemma DoubleProduct(x: int, y: int)
    ensures x * (2 * y) == 2 * (x * y)
  {
  }

  /** The binary expansion has the numeric value of the hex string. */
  lemma {:induction false} HexToBinaryValue(h: string)
    requires IsHex(h)
    ensures BitsValue(HexToBinary(h)) == HexValue(h)
  {
    if h != [] {
      var init, last := h[..|h| - 1], h[|h| - 1];
      assert h == init + [last];
      HexToBinaryConcat(init, [last]);
      assert HexToBinary([last]) == Nibble(last) by {
        assert [last][1..] == [];
      }
      NibbleIsBinaryOfDigit(last);
      BitsValueConcat(HexToBinary(init), Nibble(last));
      HexToBinaryValue(init);
      assert Pow2(4) == 16;
    }
  }

  /** The first d characters are all '0'. */
  predicate LeadingZeros(b: string, d: nat)
  {
    d <= |b| && forall i :: 0 <= i < d ==> b[i] == '0'
  }

  lemma {:induction false} ZerosValue(b: string)
    requires IsBits(b)
    ensures BitsValue(b) == 0 <==> forall i :: 0 <= i < |b| ==> b[i] == '0'
  {
    if b != [] {
      ZerosValue(b[..|b| - 1]);
      if forall i :: 0 <= i < |b| ==> b[i] == '0' {
      } else {
        var j :| 0 <= j < |b| && b[j] != '0';
        if j < |b| - 1 {
          assert b[..|b| - 1][j] != '0';
        }
      }
    }
  }

  /** A bit string starts with d zeros iff its value is below 2^(|b| - d). */
  lemma LeadingZerosValue(b: string, d: nat)
    requires IsBits(b) && d <= |b|
    ensures LeadingZeros(b, d) <==> BitsValue(b) < Pow2(|b| - d)
  {
    var hi, lo := b[..d], b[d..];
    assert b == hi + lo;
    BitsValueConcat(hi, lo);
    BitsBelow(lo);
    ZerosValue(hi);
    var p := Pow2(|lo|);
    if BitsValue(hi) == 0 {
      assert BitsValue(b) == BitsValue(lo);
    } else {
      assert BitsValue(hi) * p >= p by {
        MulMonotone(1, BitsValue(hi), p);
      }
      assert forall i :: 0 <= i < d ==> b[i] == hi[i];
    }
  }

  /** The proof-of-work test: the first d bits of hex_to_binary(h) are zero iff the numeric
      value of h is below 2^(4|h| - d). */
  lemma ProofOfWorkThreshold(h: string, d: nat)
    requires IsHex(h) && d <= 4 * |h|
    ensures LeadingZeros(HexToBinary(h), d) <==> HexValue(h) < Pow2(4 * |h| - d)
  {
    LeadingZerosValue(HexToBinary(h), d);
    HexToBinaryValue(h);
  }

  /** hex_to_binary(h)[:d] == '0' * d decided digit by digit: whole zero digits while d >= 4, then
      the leading bits of one table entry. */
  predicate ZeroBitsPrefix(h: string, d: nat)
    requires IsHex(h)
  {
    if d == 0 then true
    else if h == [] then false
    else if d < 4 then forall i :: 0 <= i < d ==> Nibble(h[0])[i] == '0'
    else h[0] == '0' && ZeroBitsPrefix(h[1..], d - 4)
  }

  lemma ZeroDigit(c: char)
    requires IsHexDigit(c)
    ensures c == '0' <==> forall i :: 0 <= i < 4 ==> Nibble(c)[i] == '0'
  {
    NibbleIsBinaryOfDigit(c);
    Bits4Value(Nibble(c));
  }

  /** The digit-by-digit test agrees with the proof-of-work test on the expansion. */
  lemma {:induction false} ZeroBitsPrefixMeans(h: string, d: nat)
    requires IsHex(h)
    ensures ZeroBitsPrefix(h, d) <==> LeadingZeros(HexToBinary(h), d)
  {
    if d > 0 && h != [] {
      var b := HexToBinary(h);
      assert b == Nibble(h[0]) + HexToBinary(h[1..]);
      if d < 4 {
        assert forall i :: 0 <= i < d ==> b[i] == Nibble(h[0])[i];
      } else {
        ZeroDigit(h[0]);
        ZeroBitsPrefixMeans(h[1..], d - 4);
        var rest := HexToBinary(h[1..]);
        assert forall i :: 0 <= i < 4 ==> b[i] == Nibble(h[0])[i];
        assert forall i :: 4 <= i < |b| ==> b[i] == rest[i - 4];
        if LeadingZeros(b, d) {
          assert forall i :: 0 <= i < d - 4 ==> rest[i] == b[i + 4];
        }
      }
    }
  }
}
