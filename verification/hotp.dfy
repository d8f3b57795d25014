/** The one-time password helpers of the newest bot revision: HOTP as in
    section 5.3 of RFC 4226 (dynamic truncation of an HMAC-SHA-1 digest,
    reduced to six decimal digits) and TOTP as in section 4 of RFC 6238
    (the counter is the Unix time divided by 30). The secret is
    upper-cased and padded with `=` to a multiple of eight characters
    before base32 decoding. HMAC-SHA-1 and base32 decoding are parameters. */
module Hotp {
  import opened Wrappers
  import opened Strings

  type Byte = b: int | 0 <= b < 256

  const Two64: nat := 0x1_0000_0000_0000_0000

  /** The moving factor: an unsigned 64-bit integer. */
  type Counter = c: nat | c < Two64

  const DigestLength: nat := 20

  /** An HMAC-SHA-1 value. */
  type Digest = d: seq<Byte> | |d| == DigestLength witness seq(20, _ => 0)

  const CodeDigits: nat := 6

  const TimeStep: nat := 30

  // ---------------------------------------------------------------------
  // The secret
  // ---------------------------------------------------------------------

  function Padding(n: nat): (k: nat)
    ensures k < 8 && (n + k) % 8 == 0
  {
    (8 - n % 8) % 8
  }

  /** `=` characters appended up to the next multiple of eight. */
  function PadKey(key: string): (p: string)
    ensures |p| % 8 == 0 && |key| <= |p| < |key| + 8
    ensures p[..|key|] == key
    ensures forall i :: |key| <= i < |p| ==> p[i] == '='
  {
    key + seq(Padding(|key|), _ => '=')
  }

  /** The text handed to the base32 decoder. */
  function NormalKey(key: string): string {
    PadKey(ToUpper(key))
  }

  lemma UpperUpper(s: string)
    ensures ToUpper(ToUpper(s)) == ToUpper(s)
  {
  }

  /** The letter case of the secret never reaches the decoder. */
  lemma NormalKeyIgnoresCase(key: string)
    ensures NormalKey(ToLower(key)) == NormalKey(key)
    ensures NormalKey(ToUpper(key)) == NormalKey(key)
  {
    UpperOfLower(key);
    UpperUpper(key);
  }

  /** A secret whose length is already a multiple of eight is not padded. */
  lemma AlignedKeyUnpadded(key: string)
    requires |key| % 8 == 0
    ensures PadKey(key) == key
  {
  }

  // ---------------------------------------------------------------------
  // The counter block
  // ---------------------------------------------------------------------

  /** The value of a big-endian byte string. */
  function BytesValue(bs: seq<Byte>): nat
    decreases |bs|
  {
    if |bs| == 0 then 0 else BytesValue(bs[..|bs| - 1]) * 256 + bs[|bs| - 1]
  }

  /** The lowest `n` bytes of `c`, most significant first. */
  function BigEndian(c: nat, n: nat): (bs: seq<Byte>)
    ensures |bs| == n
    decreases n
  {
    if n == 0 then [] else BigEndian(c / 256, n - 1) + [c % 256]
  }

  function Pow256(n: nat): (p: nat)
    ensures 0 < p
  {
    if n == 0 then 1 else 256 * Pow256(n - 1)
  }

  /** The eight-byte counter block. */
  function CounterBlock(c: Counter): (bs: seq<Byte>)
    ensures |bs| == 8
  {
    BigEndian(c, 8)
  }

  lemma {:induction false} BigEndianValue(c: nat, n: nat)
    requires c < Pow256(n)
    ensures BytesValue(BigEndian(c, n)) == c
    decreases n
  {
    if n > 0 {
      var bs := BigEndian(c, n);
      assert bs[..|bs| - 1] == BigEndian(c / 256, n - 1);
      BigEndianValue(c / 256, n - 1);
    }
  }

  /** Reading the counter block back gives the counter. */
  lemma CounterBlockRoundTrip(c: Counter)
    ensures BytesValue(CounterBlock(c)) == c
  {
    assert Pow256(8) == Two64;
    BigEndianValue(c, 8);
  }

  // ---------------------------------------------------------------------
  // Dynamic truncation and the decimal code
  // ---------------------------------------------------------------------

  /** The low four bits of the last byte select where four bytes are read;
      the top bit of the first of them is dropped. */
  function Truncate(d: Digest): (v: nat)
    ensures v < 0x8000_0000
  {
    var offset := d[DigestLength - 1] % 16;
    var b0, b1, b2, b3: int := d[offset], d[offset + 1], d[offset + 2], d[offset + 3];
    (b0 % 128) * 0x100_0000 + b1 * 0x1_0000 + b2 * 0x100 + b3
  }

  function Pow10(n: nat): (p: nat)
    ensures 0 < p
  {
    if n == 0 then 1 else 10 * Pow10(n - 1)
  }

  /** The last `w` decimal digits of `n`, zero-padded on the left. */
  function FixedDecimal(n: nat, w: nat): (s: string)
    ensures |s| == w && AllDigits(s)
    decreases w
  {
    if w == 0 then "" else FixedDecimal(n / 10, w - 1) + [DigitChar(n % 10)]
  }

  /** Zero padding loses nothing when the number fits. */
  lemma {:induction false} FixedDecimalValue(n: nat, w: nat)
    requires n < Pow10(w)
    ensures DecimalValue(FixedDecimal(n, w)) == n
    decreases w
  {
    if w > 0 {
      var s := FixedDecimal(n, w);
      FixedDecimalValue(n / 10, w - 1);
      assert s[..|s| - 1] == FixedDecimal(n / 10, w - 1);
      assert DigitValue(s[|s| - 1]) == n % 10;
    }
  }

  function Zeros(k: nat): (s: string)
    ensures |s| == k && forall i :: 0 <= i < k ==> s[i] == '0'
  {
    seq(k, _ => '0')
  }

  /** The padded code is Python's `str(n)` with zeros in front. */
  lemma {:induction false} FixedDecimalIsPaddedNumeral(n: nat, w: nat)
    requires n < Pow10(w)
    ensures |NatToDecimal(n)| <= w || (n == 0 && w == 0)
    ensures 0 < w ==> FixedDecimal(n, w) == Zeros(w - |NatToDecimal(n)|) + NatToDecimal(n)
    decreases w
  {
    if w == 0 {
    } else if n < 10 {
      FixedDecimalIsPaddedNumeral(0, w - 1);
      if w > 1 {
        assert FixedDecimal(0, w - 1) == Zeros(w - 1);
      }
    } else {
      FixedDecimalIsPaddedNumeral(n / 10, w - 1);
      assert FixedDecimal(n, w) == Zeros(w - 1 - |NatToDecimal(n / 10)|) + NatToDecimal(n / 10) + [DigitChar(n % 10)];
    }
  }

  const Modulus: nat := 1_000_000

  /** HOTP: `None` when the decoder rejects the secret. */
  function HotpCode(key: string, c: Counter, decode: string -> Option<seq<Byte>>,
                    hmac: (seq<Byte>, seq<Byte>) -> Digest): (r: Option<string>)
    ensures r.Some? <==> decode(NormalKey(key)).Some?
    ensures r.Some? ==> |r.value| == CodeDigits && AllDigits(r.value)
    ensures r.Some? ==>
              DecimalValue(r.value) == Truncate(hmac(decode(NormalKey(key)).value, CounterBlock(c))) % Modulus
  {
    match decode(NormalKey(key))
    case None => None
    case Some(secret) =>
      var v := Truncate(hmac(secret, CounterBlock(c))) % Modulus;
      assert Pow10(CodeDigits) == Modulus;
      FixedDecimalValue(v, CodeDigits);
      Some(FixedDecimal(v, CodeDigits))
  }

  /** Lower-casing the secret does not change the code. */
  lemma HotpIgnoresKeyCase(key: string, c: Counter, decode: string -> Option<seq<Byte>>,
                           hmac: (seq<Byte>, seq<Byte>) -> Digest)
    ensures HotpCode(ToLower(key), c, decode, hmac) == HotpCode(key, c, decode, hmac)
  {
    NormalKeyIgnoresCase(key);
  }

  /** TOTP: the HOTP of the number of whole 30-second steps since the epoch;
      `None` also when that number does not fit the 64-bit counter. */
  function TotpCode(key: string, unixTime: nat, decode: string -> Option<seq<Byte>>,
                    hmac: (seq<Byte>, seq<Byte>) -> Digest): (r: Option<string>)
    ensures r.Some? ==> |r.value| == CodeDigits && AllDigits(r.value)
    ensures unixTime / TimeStep < Two64 ==> r == HotpCode(key, unixTime / TimeStep, decode, hmac)
  {
    var step := unixTime / TimeStep;
    if step < Two64 then HotpCode(key, step, decode, hmac) else None
  }

  /** Every instant of one 30-second window yields the same code. */
  lemma SameWindowSameCode(key: string, t: nat, u: nat, decode: string -> Option<seq<Byte>>,
                           hmac: (seq<Byte>, seq<Byte>) -> Digest)
    requires t / TimeStep == u / TimeStep
    ensures TotpCode(key, t, decode, hmac) == TotpCode(key, u, decode, hmac)
  {
  }

  /** The digest of the worked example of section 5.4 of RFC 4226. */
  function RfcDigest(): Digest {
    [0x1f, 0x86, 0x98, 0x69, 0x0e, 0x02, 0xca, 0x16, 0x61, 0x85,
     0x50, 0xef, 0x7f, 0x19, 0xda, 0x8e, 0x94, 0x5b, 0x55, 0x5a]
  }

  /** Its last byte 0x5a selects offset 10, where 0x50ef7f19 is read. */
  lemma RfcDigestTruncates()
    ensures Truncate(RfcDigest()) == 0x50ef7f19
  {
    var d := RfcDigest();
    assert d[19] == 0x5a && d[10] == 0x50 && d[11] == 0xef && d[12] == 0x7f && d[13] == 0x19;
  }

  /** 0x50ef7f19 is 1357872921, whose last six digits are 872921. */
  lemma RfcCodeDigits()
    ensures FixedDecimal(0x50ef7f19 % Modulus, CodeDigits) == "872921"
  {
    assert 0x50ef7f19 % Modulus == 872921;
    assert FixedDecimal(8, 1) == "8";
    assert FixedDecimal(87, 2) == "87";
    assert FixedDecimal(872, 3) == "872";
    assert FixedDecimal(8729, 4) == "8729";
    assert FixedDecimal(87292, 5) == "87292";
    assert FixedDecimal(872921, 6) == "872921";
  }

  /** The worked example of section 5.4 of RFC 4226: the digest truncates
      to 0x50ef7f19 and gives the code "872921". */
  lemma RfcTruncationExample()
    ensures Truncate(RfcDigest()) == 0x50ef7f19
    ensures FixedDecimal(Truncate(RfcDigest()) % Modulus, CodeDigits) == "872921"
  {
    RfcDigestTruncates();
    RfcCodeDigits();
  }
}
