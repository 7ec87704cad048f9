/** The parts of Wallet (backend/models/wallet.py) that are not cryptography: the address derived
    from the public key, the hex form of the private key and its parse-back, and the balance read
    from a blockchain's UTXO set. Key generation, signing and PEM serialisation are left out; the
    public key's compressed bytes and SHA-256 are parameters. */
module Wallets {
  import opened Wrappers
  import opened Hex
  import opened CryptoHash
  import opened Utxos
  import Chains

  /** The address length the transaction request schema demands of a recipient. */
  const ADDRESS_LENGTH: nat := 35

  /** The hex digits of the address: the first 33 of the public key's SHA-256 hex digest. */
  const ADDRESS_DIGITS: nat := 33

  // ---------- generate_address ----------

  /** "AG" followed by the first 33 hex digits of the SHA-256 of the compressed public key. */
  function GenerateAddress(sha: Digest<seq<bv8>>, publicKeyBytes: seq<bv8>): (r: string)
    ensures |r| == ADDRESS_LENGTH && r[..2] == "AG"
    ensures IsHex(r[2..])
  {
    "AG" + sha(publicKeyBytes)[..ADDRESS_DIGITS]
  }

  /** Two keys share an address exactly when their digests agree on the first 33 digits, so the
      address keeps 132 bits of the digest and nothing else. */
  lemma AddressesCollide(sha: Digest<seq<bv8>>, a: seq<bv8>, b: seq<bv8>)
    ensures GenerateAddress(sha, a) == GenerateAddress(sha, b)
            <==> sha(a)[..ADDRESS_DIGITS] == sha(b)[..ADDRESS_DIGITS]
  {
    var x, y := GenerateAddress(sha, a), GenerateAddress(sha, b);
    if x == y {
      assert x[2..] == sha(a)[..ADDRESS_DIGITS];
      assert y[2..] == sha(b)[..ADDRESS_DIGITS];
    }
  }

  // ---------- get_private_key_hex: format(v, '064x') ----------

  function Pow16(n: nat): (r: nat)
    ensures r >= 1
  {
    if n == 0 then 1 else 16 * Pow16(n - 1)
  }

  /** format(v, 'x'): the lower-case hex digits of v with no leading zero (just "0" for zero). */
  function ToHex(v: nat): (r: string)
    ensures |r| >= 1 && IsHex(r)
  {
    if v < 16 then [DigitOf(v)] else ToHex(v / 16) + [DigitOf(v % 16)]
  }

  function ZeroRun(n: nat): (r: string)
    ensures |r| == n && IsHex(r)
  {
    if n == 0 then "" else ZeroRun(n - 1) + "0"
  }

  /** format(v, '0<width>x'): ToHex(v) left-padded with zeros to at least width characters. */
  function PadHex(v: nat, width: nat): (r: string)
    ensures |r| >= width && IsHex(r)
  {
    var h := ToHex(v);
    if |h| < width then ZeroRun(width - |h|) + h else h
  }

  /** format(v, '064x'), the form get_private_key_hex writes. */
  function PrivateKeyHex(v: nat): (r: string)
    ensures |r| >= 64 && IsHex(r)
  {
    PadHex(v, 64)
  }

  lemma {:induction false} ToHexValue(v: nat)
    ensures HexValue(ToHex(v)) == v
  {
    var h := ToHex(v);
    if v >= 16 {
      ToHexValue(v / 16);
      assert h[..|h| - 1] == ToHex(v / 16);
    } else {
      assert h[..0] == [];
    }
  }

  /** ToHex(v) has the fewest digits that can hold v. */
  lemma {:induction false} ToHexLength(v: nat)
    ensures v < Pow16(|ToHex(v)|)
    ensures |ToHex(v)| > 1 ==> Pow16(|ToHex(v)| - 1) <= v
  {
    if v >= 16 {
      ToHexLength(v / 16);
      var n := |ToHex(v / 16)|;
      assert |ToHex(v)| == n + 1;
      assert v / 16 < Pow16(n);
      assert v < 16 * Pow16(n) by {
        assert v == 16 * (v / 16) + v % 16;
        assert 16 * (v / 16) + 16 <= 16 * Pow16(n);
      }
      if n > 1 {
        assert Pow16(n - 1) <= v / 16;
        assert 16 * Pow16(n - 1) <= 16 * (v / 16);
      }
    }
  }

  lemma {:induction false} Pow16Monotone(a: nat, b: nat)
    requires a <= b
    ensures Pow16(a) <= Pow16(b)
  {
    if a < b {
      Pow16Monotone(a, b - 1);
    }
  }

  lemma {:induction false} ZeroRunValue(n: nat)
    ensures HexValue(ZeroRun(n)) == 0
  {
    if n > 0 {
      ZeroRunValue(n - 1);
      assert ZeroRun(n)[..n - 1] == ZeroRun(n - 1);
    }
  }

  /** Leading zeros do not change the value. */
  lemma {:induction false} ZeroPadValue(n: nat, h: string)
    requires IsHex(h)
    ensures IsHex(ZeroRun(n) + h) && HexValue(ZeroRun(n) + h) == HexValue(h)
  {
    var s := ZeroRun(n) + h;
    if h == [] {
      assert s == ZeroRun(n);
      ZeroRunValue(n);
    } else {
      ZeroPadValue(n, h[..|h| - 1]);
      assert s[..|s| - 1] == ZeroRun(n) + h[..|h| - 1];
      assert s[|s| - 1] == h[|h| - 1];
    }
  }

  /** The padded string denotes v, and it is exactly width characters precisely when v fits in
      width hex digits (a width of at least one: format(0, '00x') is "0"). */
  lemma {:induction false} PadHexMeaning(v: nat, width: nat)
    requires width >= 1
    ensures HexValue(PadHex(v, width)) == v
    ensures |PadHex(v, width)| == width <==> v < Pow16(width)
  {
    var h := ToHex(v);
    ToHexValue(v);
    ToHexLength(v);
    if |h| < width {
      ZeroPadValue(width - |h|, h);
      Pow16Monotone(|h|, width);
      assert |PadHex(v, width)| == width && v < Pow16(width);
    } else if |h| > width {
      Pow16Monotone(width, |h| - 1);
      assert |PadHex(v, width)| != width && !(v < Pow16(width));
    }
  }

  /** The hex string of a key denotes the key, and it is exactly 64 characters precisely when
      the key is below 16^64 = 2^256 (every secp256k1 key is). */
  lemma PrivateKeyHexMeaning(v: nat)
    ensures HexValue(PrivateKeyHex(v)) == v
    ensures |PrivateKeyHex(v)| == 64 <==> v < Pow16(64)
  {
    PadHexMeaning(v, 64);
  }

  // ---------- from_private_key_hex: int(hex_key, 16) ----------

  /** A digit that int(s, 16) accepts, in either case. */
  predicate IsAnyCaseHexDigit(c: char)
  {
    IsHexDigit(c) || 'A' <= c <= 'F'
  }

  function AnyCaseDigitValue(c: char): (v: nat)
    requires IsAnyCaseHexDigit(c)
    ensures v < 16
    ensures IsHexDigit(c) ==> v == DigitValue(c)
  {
    if 'A' <= c <= 'F' then c as int - 'A' as int + 10 else DigitValue(c)
  }

  /** The value of a string of digits of either case; None when some character is not a digit. */
  function ParseDigits(s: string): (r: Option<nat>)
  {
    if s == [] then Some(0)
    else if !IsAnyCaseHexDigit(s[|s| - 1]) then None
    else match ParseDigits(s[..|s| - 1])
         case None => None
         case Some(w) => Some(16 * w + AnyCaseDigitValue(s[|s| - 1]))
  }

  datatype KeyError = NotHex | NotPositive

  /** int(hex_key, 16) followed by ec.derive_private_key, which rejects a value that is not
      positive: the empty string and a non-digit raise ValueError, as does zero. */
  function FromPrivateKeyHex(s: string): (r: Result<nat, KeyError>)
    ensures r.Ok? ==> r.value > 0
  {
    if s == [] then Err(NotHex)
    else match ParseDigits(s)
         case None => Err(NotHex)
         case Some(v) => if v == 0 then Err(NotPositive) else Ok(v)
  }

  lemma {:induction false} ParseDigitsLower(s: string)
    requires IsHex(s)
    ensures ParseDigits(s) == Some(HexValue(s))
  {
    if s != [] {
      ParseDigitsLower(s[..|s| - 1]);
    }
  }

  /** Reading back what get_private_key_hex wrote gives the same key. */
  lemma PrivateKeyRoundTrip(v: nat)
    requires v > 0
    ensures FromPrivateKeyHex(PrivateKeyHex(v)) == Ok(v)
  {
    PrivateKeyHexMeaning(v);
    ParseDigitsLower(PrivateKeyHex(v));
  }

  /** A string with a character int(s, 16) does not accept is refused. */
  lemma {:induction false} NonDigitRefused(s: string, i: nat)
    requires i < |s| && !IsAnyCaseHexDigit(s[i])
    ensures ParseDigits(s) == None
  {
    if i < |s| - 1 {
      assert s[..|s| - 1][i] == s[i];
      NonDigitRefused(s[..|s| - 1], i);
    }
  }

  // ---------- calculate_balance and the balance property ----------

  /** Sums, over the UTXO set of the given blockchain, the amounts held by the address; no
      blockchain means a balance of zero. */
  method CalculateBalance(blockchain: Chains.Blockchain?, address: string) returns (balance: real)
    ensures blockchain == null ==> balance == 0.0
    ensures blockchain != null ==> balance == BalanceOf(blockchain.utxoSet, address)
  {
    if blockchain == null {
      return 0.0;
    }
    balance := blockchain.CalculateBalance(address);
  }
}
