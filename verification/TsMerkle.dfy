/**
 The TypeScript copy of the verifiers. It differs from the Python one in how
 it reads hexadecimal text (`parseInt` never fails, so a malformed string
 becomes some 32 bytes instead of an error) and in that it compares and hashes
 fixed 32-byte arrays.
 */
module TsMerkle {
  import opened Hashing
  import opened HexText
  import opened MerkleTree
  import opened EvmMerkle
  import ShaMerkle

  // ---- the index-ordered tree

  method ComputeMerkleRoot(h: Hashes, leafHashes: seq<string>) returns (root: string)
    ensures leafHashes == [] ==> root == ""
    ensures leafHashes != [] ==> root == Root(ShaMerkle.PairHash(h), leafHashes)
  {
    if |leafHashes| == 0 {
      return "";
    }
    ghost var pair := ShaMerkle.PairHash(h);
    var level := leafHashes;
    while |level| > 1
      invariant level != []
      invariant Root(pair, level) == Root(pair, leafHashes)
      decreases |level|
    {
      level := HashPairs(h, level);
    }
    return level[0];
  }

  /** The body of the outer loop: `push` the last node of an odd level, then the inner `for` loop. */
  method HashPairs(h: Hashes, level: seq<string>) returns (next: seq<string>)
    requires |level| > 1
    ensures next == Next(ShaMerkle.PairHash(h), level)
  {
    var padded := PadLevel(level);
    next := [];
    var i: nat := 0;
    while i < |padded|
      invariant i <= |padded| && i % 2 == 0 && |next| == i / 2
      invariant forall j :: 0 <= j < |next| ==> next[j] == h.sha256(padded[2 * j] + padded[2 * j + 1])
    {
      next := next + [h.sha256(padded[i] + padded[i + 1])];
      i := i + 2;
    }
  }

  method VerifyMerkleProof(h: Hashes, leaf: string, proof: seq<string>, root: string, index: nat)
    returns (ok: bool)
    ensures ok == ShaMerkle.Accepts(h, leaf, proof, root, index)
  {
    ghost var pair := ShaMerkle.PairHash(h);
    var node, idx := leaf, index;
    for k := 0 to |proof|
      invariant Fold(pair, node, proof[k..], idx) == Fold(pair, leaf, proof, index)
    {
      assert proof[k..][1..] == proof[k + 1..];
      node := if idx % 2 == 1 then h.sha256(proof[k] + node) else h.sha256(node + proof[k]);
      idx := idx / 2;
    }
    return node == root;
  }

  // ---- reading hexadecimal text

  /** White space that `parseInt` skips. */
  predicate IsJsSpace(c: char) {
    IsSpace(c) || (c as int) in {0xA0, 0x1680, 0x2028, 0x2029, 0x202F, 0x205F, 0x3000, 0xFEFF}
    || 0x2000 <= c as int <= 0x200A
  }

  /** `parseInt(cc, 16)` of two characters, stored into a `Uint8Array`: NaN is 0, negatives wrap. */
  function ParseIntByte(c: char, d: char): byte {
    if IsHexDigit(c) && IsHexDigit(d) then (16 * HexValue(c) + HexValue(d)) as byte
    else if IsHexDigit(c) then HexValue(c) as byte
    else if !IsHexDigit(d) then 0
    else if IsJsSpace(c) || c == '+' then HexValue(d) as byte
    else if c == '-' then ((256 - HexValue(d)) % 256) as byte
    else 0
  }

  /** `stripHex`, then `padStart` or `slice(-64)`. */
  function JsBody64(value: string): (r: string)
    ensures |r| == 64
  {
    var s := Strip0x(Lower(value));
    if |s| < 64 then seq(64 - |s|, _ => '0') + s else s[|s| - 64..]
  }

  function JsBytes(value: string): (r: Bytes)
    ensures |r| == 32
  {
    seq(32, i requires 0 <= i < 32 => ParseIntByte(JsBody64(value)[2 * i], JsBody64(value)[2 * i + 1]))
  }

  method HexToBytes32Js(value: string) returns (out: array<byte>)
    ensures fresh(out) && out[..] == JsBytes(value)
  {
    var s := Strip0x(Lower(value));
    if |s| < 64 {
      s := seq(64 - |s|, _ => '0') + s;
    } else if |s| > 64 {
      s := s[|s| - 64..];
    }
    assert s == JsBody64(value);
    out := new byte[32];
    for i := 0 to 32
      invariant forall k :: 0 <= k < i ==> out[k] == JsBytes(value)[k]
    {
      out[i] := ParseIntByte(s[2 * i], s[2 * i + 1]);
    }
  }

  lemma {:induction false} SamePrefix(a: Bytes, b: Bytes, k: nat)
    requires k <= |a| && k <= |b| && a[..k] == b[..k]
    ensures forall j :: 0 <= j < k ==> a[j] == b[j]
  {
    assert forall j :: 0 <= j < k ==> a[..k][j] == a[j] && b[..k][j] == b[j];
  }

  /** There is at most one first difference. */
  lemma {:induction false} DifferAtMostOnce(a: Bytes, b: Bytes, i: nat)
    requires |a| == |b| && i < |a| && a[..i] == b[..i]
    ensures a[i] != b[i] ==> forall k :: 0 <= k < |a| && a[..k] == b[..k] && a[k] != b[k] ==> k == i
  {
    forall k | 0 <= k < |a| && a[..k] == b[..k] && a[k] != b[k] && a[i] != b[i] ensures k == i {
      SamePrefix(a, b, i);
      SamePrefix(a, b, k);
    }
  }

  /** Three-way comparison of two 32-byte arrays. */
  method CompareBytes(a: array<byte>, b: array<byte>) returns (c: int)
    requires a.Length == 32 && b.Length == 32
    ensures c < 0 <==> exists k :: 0 <= k < 32 && a[..k] == b[..k] && a[k] < b[k]
    ensures c > 0 <==> exists k :: 0 <= k < 32 && a[..k] == b[..k] && a[k] > b[k]
    ensures c == 0 <==> a[..] == b[..]
  {
    for i := 0 to 32
      invariant a[..i] == b[..i]
    {
      DifferAtMostOnce(a[..], b[..], i);
      if a[i] < b[i] {
        return -1;
      }
      if a[i] > b[i] {
        return 1;
      }
    }
    assert a[..32] == a[..] && b[..32] == b[..];
    return 0;
  }

  lemma {:induction false} OrderOf(a: Bytes, b: Bytes, c: int)
    requires |a| == |b| == 32
    requires c < 0 <==> exists k :: 0 <= k < 32 && a[..k] == b[..k] && a[k] < b[k]
    requires c > 0 <==> exists k :: 0 <= k < 32 && a[..k] == b[..k] && a[k] > b[k]
    requires c == 0 <==> a == b
    ensures c <= 0 <==> BytesLe(a, b)
  {
    hide BytesLe;
    BytesLeIsLexicographic(a, b);
    BytesLeIsLexicographic(b, a);
    BytesLeTotalOrder(a, b);
  }

  /** The text format as TypeScript reads it. */
  function JsFormat(h: Hashes): Format {
    Keccak256(h).(parse := (s: string) => Some(JsBytes(s)))
  }

  /** `combined.set(lo, 0); combined.set(hi, 32)`. */
  method Combine(lo: array<byte>, hi: array<byte>) returns (combined: array<byte>)
    requires lo.Length == 32 && hi.Length == 32
    ensures combined[..] == lo[..] + hi[..]
  {
    combined := new byte[64];
    forall i | 0 <= i < 32 {
      combined[i] := lo[i];
    }
    forall i | 0 <= i < 32 {
      combined[32 + i] := hi[i];
    }
  }

  method KeccakPairSortedJs(h: Hashes, leftHex: string, rightHex: string) returns (r: string)
    ensures Some(r) == KeccakPairSorted(JsFormat(h), leftHex, rightHex)
  {
    hide JsBytes, Prefixed, BytesLe;
    var a := HexToBytes32Js(leftHex);
    var b := HexToBytes32Js(rightHex);
    var order := CompareBytes(a, b);
    OrderOf(a[..], b[..], order);
    var lo, hi := if order <= 0 then a else b, if order <= 0 then b else a;
    var combined := Combine(lo, hi);
    r := Prefixed(h.keccak(combined[..]));
  }

  method VerifyMerkleProofEvmJs(h: Hashes, leafHex: string, siblings: seq<string>, rootHex: string)
    returns (ok: bool)
    ensures Some(ok) == VerifyEvm(JsFormat(h), leafHex, siblings, rootHex)
  {
    ghost var f := JsFormat(h);
    var node := leafHex;
    for k := 0 to |siblings|
      invariant FoldEvm(f, node, siblings[k..]) == FoldEvm(f, leafHex, siblings)
    {
      hide JsFormat, KeccakPairSorted;
      assert siblings[k..][1..] == siblings[k + 1..];
      node := KeccakPairSortedJs(h, node, siblings[k]);
    }
    return Lower(node) == Lower(rootHex);
  }

  // ---- where the two copies agree

  /** The characters that count, the last 64 after an optional 0x, are all hexadecimal. */
  predicate IsHexText(value: string) {
    var s := Strip0x(Lower(value));
    forall i :: 0 <= i < |s| && |s| - 64 <= i ==> IsHexDigit(s[i])
  }

  predicate AllHex(s: string) {
    forall i :: 0 <= i < |s| ==> IsHexDigit(s[i])
  }

  /** A text read without a gap is made of digits, each pair giving its byte. */
  lemma {:induction false} FromHexFull(s: string)
    requires |s| % 2 == 0
    ensures (FromHex(s).Some? && 2 * |FromHex(s).value| == |s|) <==> AllHex(s)
    ensures AllHex(s) ==> forall i :: 0 <= i < |s| / 2 ==> FromHex(s).value[i] == ParseIntByte(s[2 * i], s[2 * i + 1])
  {
    if s != "" {
      FromHexFull(s[2..]);
      if IsSpace(s[0]) {
        assert !IsHexDigit(s[0]);
      } else if AllHex(s) {
        var rest := FromHex(s[2..]).value;
        assert FromHex(s).value == [ParseIntByte(s[0], s[1])] + rest;
        forall i | 0 <= i < |s| / 2 ensures FromHex(s).value[i] == ParseIntByte(s[2 * i], s[2 * i + 1]) {
          if i > 0 {
            assert rest[i - 1] == ParseIntByte(s[2..][2 * (i - 1)], s[2..][2 * (i - 1) + 1]);
          }
        }
      }
    }
  }

  lemma {:induction false} BodiesAgreeOnHexText(value: string)
    ensures AllHex(Body64(value)) <==> IsHexText(value)
    ensures IsHexText(value) ==> Body64(value) == JsBody64(value)
  {
    var s := Strip0x(Lower(value));
    if |s| < 64 {
      assert !IsHexDigit('+') && !IsHexDigit('-') && IsHexDigit('0');
      if s != "" && (s[0] == '+' || s[0] == '-') {
        assert Body64(value)[0] == s[0];
      } else {
        assert forall i :: 0 <= i < |s| ==> Body64(value)[64 - |s| + i] == s[i];
      }
    } else {
      assert forall i :: |s| - 64 <= i < |s| ==> Body64(value)[i - (|s| - 64)] == s[i];
    }
  }

  /** The two readings of a string coincide exactly when it is hexadecimal text. */
  lemma {:induction false} ReadingsAgreeIffHex(value: string)
    ensures HexToBytes32(value) == Some(JsBytes(value)) <==> IsHexText(value)
  {
    BodiesAgreeOnHexText(value);
    FromHexFull(Body64(value));
    if IsHexText(value) {
      assert FromHex(Body64(value)).value == JsBytes(value);
    }
  }

  /** Same format but for the reading, same reading along the proof: same verdict. */
  lemma {:induction false} SameReadingSameVerdict(f: Format, g: Format, node: string, siblings: seq<string>)
    requires g == f.(parse := g.parse)
    requires forall b :: |b| == 32 ==> g.parse(f.print_(b)) == f.parse(f.print_(b))
    requires forall b :: |f.keccak(b)| == 32
    requires f.parse(node) == g.parse(node)
    requires forall i :: 0 <= i < |siblings| ==> f.parse(siblings[i]) == g.parse(siblings[i])
    ensures FoldEvm(f, node, siblings) == FoldEvm(g, node, siblings)
    decreases |siblings|
  {
    if siblings != [] && f.parse(node).Some? && f.parse(siblings[0]).Some? {
      var up := f.print_(f.keccak(PairBytes(f, node, siblings[0])));
      assert PairBytes(f, node, siblings[0]) == PairBytes(g, node, siblings[0]);
      SameReadingSameVerdict(f, g, up, siblings[1..]);
    }
  }

  lemma {:induction false} PrefixedIsHexText(b: Bytes)
    requires |b| == 32
    ensures IsHexText(Prefixed(b))
  {
    LowerOfPrefixed(b);
    ToHexIsLower(b);
    assert Strip0x(Lower(Prefixed(b))) == ToHex(b);
  }

  /** On bundles of hexadecimal text the TypeScript and the Python verifier return the same verdict. */
  lemma {:induction false} CopiesAgreeOnHex(h: Hashes, leaf: string, siblings: seq<string>, root: string)
    requires Length32(h.keccak)
    requires siblings == [] || IsHexText(leaf)
    requires forall i :: 0 <= i < |siblings| ==> IsHexText(siblings[i])
    ensures VerifyEvm(JsFormat(h), leaf, siblings, root) == VerifyEvm(Keccak256(h), leaf, siblings, root)
    ensures VerifyEvm(Keccak256(h), leaf, siblings, root).Some?
  {
    hide HexToBytes32, JsBytes, Prefixed, Lower, LeafText, IsHexText;
    if siblings != [] {
      var f, g := Keccak256(h), JsFormat(h);
      forall b: Bytes | |b| == 32 ensures g.parse(f.print_(b)) == f.parse(f.print_(b)) {
        PrefixedIsHexText(b);
        ReadingsAgreeIffHex(Prefixed(b));
      }
      ReadingsAgreeIffHex(leaf);
      forall i | 0 <= i < |siblings| ensures f.parse(siblings[i]) == g.parse(siblings[i]) {
        ReadingsAgreeIffHex(siblings[i]);
      }
      SameReadingSameVerdict(f, g, leaf, siblings);
      JsNeverFails(h, leaf, siblings);
    }
  }

  lemma {:induction false} JsNeverFails(h: Hashes, node: string, siblings: seq<string>)
    ensures FoldEvm(JsFormat(h), node, siblings).Some?
    decreases |siblings|
  {
    hide JsBytes, Prefixed;
    if siblings != [] {
      JsNeverFails(h, KeccakPairSorted(JsFormat(h), node, siblings[0]).value, siblings[1..]);
    }
  }

  /** Off hexadecimal text they differ: a string Python refuses has a root that TypeScript accepts. */
  lemma {:induction false} MalformedSiblingSplitsTheCopies(h: Hashes, leaf: string, bad: string)
    requires HexToBytes32(bad).None?
    ensures
      var root := KeccakPairSorted(JsFormat(h), leaf, bad).value;
      && VerifyEvm(JsFormat(h), leaf, [bad], root) == Some(true)
      && VerifyEvm(Keccak256(h), leaf, [bad], root) == None
  {
    hide JsBytes, Prefixed, HexToBytes32, Lower;
    var root := KeccakPairSorted(JsFormat(h), leaf, bad).value;
    assert FoldEvm(JsFormat(h), root, [bad][1..]) == Some(root);
  }

  // ---- `parseInt`, for strings of any length

  /** The digits that a string starts with. */
  function DigitPrefix(s: string): (n: nat)
    ensures n <= |s| && forall i :: 0 <= i < n ==> IsHexDigit(s[i])
    ensures n < |s| ==> !IsHexDigit(s[n])
  {
    if s == "" || !IsHexDigit(s[0]) then 0 else 1 + DigitPrefix(s[1..])
  }

  function HexNumber(s: string): int
    requires forall i :: 0 <= i < |s| ==> IsHexDigit(s[i])
  {
    if s == "" then 0 else 16 * HexNumber(s[..|s| - 1]) + HexValue(s[|s| - 1])
  }

  function SkipJsSpace(s: string): string {
    if s != "" && IsJsSpace(s[0]) then SkipJsSpace(s[1..]) else s
  }

  /** `parseInt(s, 16)` in lower case: white space, a sign, then as many digits as there are; `None` is NaN. */
  function ParseInt16(s: string): Option<int> {
    var t := SkipJsSpace(s);
    var signed := t != "" && (t[0] == '+' || t[0] == '-');
    var digits := if signed then t[1..] else t;
    var n := DigitPrefix(digits);
    if n == 0 then None else Some(if signed && t[0] == '-' then -HexNumber(digits[..n]) else HexNumber(digits[..n]))
  }

  /** One digit behind something that is none. */
  lemma {:induction false} LoneDigit(c: char, d: char)
    requires !IsHexDigit(c) && IsHexDigit(d)
    ensures
      var r := ParseInt16([c, d]);
      if c == '-' then r.Some? && r.value == 0 - HexValue(d)
      else if c == '+' || IsJsSpace(c) then r.Some? && r.value == HexValue(d)
      else r == None
  {
    assert [c, d][1..] == [d] && [d][..1] == [d] && [d][..0] == "" && DigitPrefix([d]) == 1 && HexNumber([d]) == HexValue(d);
    assert !IsJsSpace('+') && !IsJsSpace('-') && !IsJsSpace(d) && d != '+' && d != '-';
    assert SkipJsSpace([c, d]) == if IsJsSpace(c) then [d] else [c, d];
  }

  /** What a byte of the result is: `parseInt` of its two characters, NaN as 0, modulo 256. */
  lemma {:induction false} ByteIsParseInt(c: char, d: char)
    ensures ParseIntByte(c, d) as int == match ParseInt16([c, d]) case None => 0 case Some(n) => n % 256
  {
    if IsHexDigit(c) {
      LeadingDigit(c, d);
    } else if IsHexDigit(d) {
      LoneDigit(c, d);
    } else {
      NoDigit(c, d);
    }
  }

  lemma {:induction false} LeadingDigit(c: char, d: char)
    requires IsHexDigit(c)
    ensures
      var r := ParseInt16([c, d]);
      r.Some? && r.value == if IsHexDigit(d) then 16 * HexValue(c) + HexValue(d) else HexValue(c)
  {
    assert !IsJsSpace(c) && c != '+' && c != '-';
    assert [c, d][1..] == [d] && [d][1..] == "";
    assert [c, d][..1] == [c] && [c, d][..2] == [c, d] && [c][..0] == "";
    assert HexNumber([c]) == HexValue(c);
  }

  lemma {:induction false} NoDigit(c: char, d: char)
    requires !IsHexDigit(c) && !IsHexDigit(d)
    ensures ParseInt16([c, d]) == None
  {
    assert [c, d][1..] == [d] && [d][1..] == "";
    assert DigitPrefix([c, d]) == 0 && DigitPrefix([d]) == 0 && DigitPrefix("") == 0;
    assert SkipJsSpace("") == "" && (SkipJsSpace([d]) == [d] || SkipJsSpace([d]) == "");
    assert SkipJsSpace([c, d]) == if IsJsSpace(c) then SkipJsSpace([d]) else [c, d];
  }
}
