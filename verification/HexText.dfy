/**
 The hexadecimal text in which the anchored tree carries 32-byte values, and
 the proof that it satisfies the few laws the tree relies on.
 */
module HexText {
  import opened Hashing

  function HexValue(c: char): (n: nat)
    requires IsHexDigit(c)
    ensures n < 16
  {
    if c <= '9' then c as int - '0' as int else c as int - 'a' as int + 10
  }

  function HexChar(n: nat): (c: char)
    requires n < 16
    ensures IsHexDigit(c) && HexValue(c) == n
  {
    if n < 10 then ('0' as int + n) as char else ('a' as int + (n - 10)) as char
  }

  /** `bytes.hex()`. */
  function ToHex(b: Bytes): (s: string)
    ensures |s| == 2 * |b|
  {
    if b == [] then "" else [HexChar(b[0] as int / 16), HexChar(b[0] as int % 16)] + ToHex(b[1..])
  }

  predicate IsSpace(c: char) {
    c == ' ' || '\t' <= c <= '\r'
  }

  /** `bytes.fromhex`: pairs of digits, white space allowed between pairs; `None` is ValueError. */
  function FromHex(s: string): (r: Option<Bytes>)
    ensures r.Some? ==> 2 * |r.value| <= |s|
  {
    if s == "" then Some([])
    else if IsSpace(s[0]) then FromHex(s[1..])
    else if |s| < 2 || !IsHexDigit(s[0]) || !IsHexDigit(s[1]) then None
    else
      match FromHex(s[2..])
      case None => None
      case Some(rest) => Some([(16 * HexValue(s[0]) + HexValue(s[1])) as byte] + rest)
  }

  /** ASCII lower-casing, which is all that `str.lower` does to hexadecimal text. */
  function LowerChar(c: char): char {
    if 'A' <= c <= 'Z' then (c as int + 32) as char else c
  }

  function Lower(s: string): (r: string)
    ensures |r| == |s|
  {
    seq(|s|, i requires 0 <= i < |s| => LowerChar(s[i]))
  }

  function Strip0x(s: string): string {
    if |s| >= 2 && s[..2] == "0x" then s[2..] else s
  }

  /** `str.zfill(64)`: zeros go after a leading sign. */
  function ZFill(s: string): (r: string)
    requires |s| < 64
    ensures |r| == 64
  {
    var zeros := seq(64 - |s|, _ => '0');
    if s != "" && (s[0] == '+' || s[0] == '-') then [s[0]] + zeros + s[1..] else zeros + s
  }

  /** The 64 characters that `_hex_to_bytes32` hands to `bytes.fromhex`. */
  function Body64(value: string): (r: string)
    ensures |r| == 64
  {
    var s := Strip0x(Lower(value));
    if |s| < 64 then ZFill(s) else s[|s| - 64..]
  }

  function HexToBytes32(value: string): (r: Option<Bytes>)
    ensures r.Some? ==> |r.value| <= 32
  {
    FromHex(Body64(value))
  }

  /** `"0x" + digest.hex()`. */
  function Prefixed(b: Bytes): (s: string)
    ensures |s| == 2 + 2 * |b|
  {
    "0x" + ToHex(b)
  }

  // ---- UTF-8, for the one place where text is fed to Keccak

  function Utf8Char(c: char): Bytes {
    var n := c as int;
    if n < 0x80 then [n as byte]
    else if n < 0x800 then [(0xC0 + n / 0x40) as byte, (0x80 + n % 0x40) as byte]
    else if n < 0x10000 then
      [(0xE0 + n / 0x1000) as byte, (0x80 + n / 0x40 % 0x40) as byte, (0x80 + n % 0x40) as byte]
    else
      [(0xF0 + n / 0x40000) as byte, (0x80 + n / 0x1000 % 0x40) as byte,
       (0x80 + n / 0x40 % 0x40) as byte, (0x80 + n % 0x40) as byte]
  }

  function Utf8(s: string): Bytes {
    if s == "" then [] else Utf8Char(s[0]) + Utf8(s[1..])
  }

  /** What `sha256_leaves_to_keccak` hashes for a ledger digest: its lowercase hex text. */
  function LeafText(leaf: string): Bytes {
    Utf8(Strip0x(Lower(leaf)))
  }

  lemma {:induction false} Utf8OfAscii(s: string)
    requires forall i :: 0 <= i < |s| ==> s[i] < 128 as char
    ensures |Utf8(s)| == |s| && forall i :: 0 <= i < |s| ==> Utf8(s)[i] as int == s[i] as int
  {
    if s != "" {
      Utf8OfAscii(s[1..]);
    }
  }

  lemma {:induction false} DigestIsPlain(s: string)
    requires IsDigest(s)
    ensures Strip0x(Lower(s)) == s
  {
    assert forall i :: 0 <= i < |s| ==> LowerChar(s[i]) == s[i];
    assert Lower(s) == s;
    assert !IsHexDigit('x') && IsHexDigit(s[1]);
  }

  /** Different digests become different leaf texts. */
  lemma {:induction false} LeafTextInjective(a: string, b: string)
    requires IsDigest(a) && IsDigest(b) && LeafText(a) == LeafText(b)
    ensures a == b
  {
    DigestIsPlain(a);
    DigestIsPlain(b);
    Utf8OfAscii(a);
    Utf8OfAscii(b);
    forall i | 0 <= i < 64 ensures a[i] == b[i] {
      assert Utf8(a)[i] == Utf8(b)[i];
    }
  }

  // ---- printing and parsing

  lemma {:induction false} HexRoundTrip(b: Bytes)
    ensures FromHex(ToHex(b)) == Some(b)
  {
    hide HexChar, HexValue;
    if b != [] {
      assert ToHex(b)[2..] == ToHex(b[1..]);
      assert !IsSpace(ToHex(b)[0]);
      assert HexValue(ToHex(b)[0]) == b[0] as int / 16 && HexValue(ToHex(b)[1]) == b[0] as int % 16;
      HexRoundTrip(b[1..]);
      assert b == [b[0]] + b[1..];
    }
  }

  lemma {:induction false} ToHexIsLower(b: Bytes)
    ensures forall i :: 0 <= i < |ToHex(b)| ==> IsHexDigit(ToHex(b)[i])
  {
    if b != [] {
      ToHexIsLower(b[1..]);
    }
  }

  lemma {:induction false} LowerOfPrefixed(b: Bytes)
    ensures Lower(Prefixed(b)) == Prefixed(b)
  {
    ToHexIsLower(b);
    assert forall c :: IsHexDigit(c) ==> LowerChar(c) == c;
    assert forall i :: 2 <= i < |Prefixed(b)| ==> Prefixed(b)[i] == ToHex(b)[i - 2];
  }

  lemma {:induction false} PrefixedParses(b: Bytes)
    requires |b| == 32
    ensures HexToBytes32(Prefixed(b)) == Some(b)
  {
    LowerOfPrefixed(b);
    HexRoundTrip(b);
    assert Body64(Prefixed(b)) == ToHex(b);
  }

  // ---- what the text says

  const DIGITS := "0123456789abcdef"

  /** Two digits for each byte, the high one first. */
  lemma {:induction false} HighDigitFirst(b: Bytes, i: nat)
    requires i < |b|
    ensures ToHex(b)[2 * i] == DIGITS[b[i] as int / 16] && ToHex(b)[2 * i + 1] == DIGITS[b[i] as int % 16]
  {
    if i > 0 {
      HighDigitFirst(b[1..], i - 1);
    }
  }

  /** A number is padded with zeros on the left up to 32 bytes, and of a longer one the last 32 bytes count. */
  function Last32(b: Bytes): (r: Bytes)
    ensures |r| == 32
  {
    if |b| < 32 then seq(32 - |b|, _ => 0 as byte) + b else b[|b| - 32..]
  }

  lemma {:induction false} ZerosInHex(n: nat)
    ensures ToHex(seq(n, _ => 0 as byte)) == seq(2 * n, _ => '0')
  {
    if n > 0 {
      ZerosInHex(n - 1);
      assert seq(n, _ => 0 as byte)[1..] == seq(n - 1, _ => 0 as byte);
    }
  }

  lemma {:induction false} ToHexConcat(a: Bytes, b: Bytes)
    ensures ToHex(a + b) == ToHex(a) + ToHex(b)
  {
    if a == [] {
      assert a + b == b;
    } else {
      assert (a + b)[1..] == a[1..] + b;
      ToHexConcat(a[1..], b);
    }
  }

  lemma {:induction false} HexIsNoPrefix(b: Bytes)
    ensures Strip0x(Lower(ToHex(b))) == ToHex(b) && Strip0x(Lower(Prefixed(b))) == ToHex(b)
    ensures ToHex(b) != "" ==> IsHexDigit(ToHex(b)[0])
  {
    ToHexIsLower(b);
    LowerOfPrefixed(b);
    assert Lower(ToHex(b)) == ToHex(b);
    assert |ToHex(b)| >= 2 ==> IsHexDigit(ToHex(b)[1]);
    assert !IsHexDigit('x');
  }

  /** A number printed in any length, with or without its 0x, is read as its last 32 bytes. */
  lemma {:induction false} NumbersAreRead(b: Bytes)
    ensures HexToBytes32(ToHex(b)) == Some(Last32(b)) && HexToBytes32(Prefixed(b)) == Some(Last32(b))
  {
    HexIsNoPrefix(b);
    HexRoundTrip(Last32(b));
    assert Body64(ToHex(b)) == Body64(Prefixed(b));
    if |b| < 32 {
      var zeros := seq(32 - |b|, _ => 0 as byte);
      ZerosInHex(32 - |b|);
      ToHexConcat(zeros, b);
      assert Body64(ToHex(b)) == ToHex(zeros) + ToHex(b);
    } else {
      ToHexConcat(b[..|b| - 32], b[|b| - 32..]);
      assert b == b[..|b| - 32] + b[|b| - 32..];
    }
  }

  /** Equal but for the case of ASCII letters. */
  predicate SameButCase(s: string, t: string) {
    && |s| == |t|
    && forall i :: 0 <= i < |s| ==>
         || s[i] == t[i]
         || ('A' <= s[i] <= 'Z' && t[i] as int == s[i] as int + 32)
         || ('A' <= t[i] <= 'Z' && s[i] as int == t[i] as int + 32)
  }

  lemma {:induction false} LowerIgnoresCase(s: string, t: string)
    ensures Lower(s) == Lower(t) <==> SameButCase(s, t)
  {
    if Lower(s) == Lower(t) {
      forall i | 0 <= i < |s| ensures LowerChar(s[i]) == LowerChar(t[i]) {
        assert Lower(s)[i] == Lower(t)[i];
      }
    }
  }

  /** The bytes hashed for a digest are the codes of its 64 characters. */
  lemma {:induction false} LeafTextIsAscii(leaf: string)
    requires IsDigest(leaf)
    ensures |LeafText(leaf)| == 64 && forall i :: 0 <= i < 64 ==> LeafText(leaf)[i] as int == leaf[i] as int
  {
    DigestIsPlain(leaf);
    Utf8OfAscii(leaf);
  }
}
