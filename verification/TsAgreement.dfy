/**
 When the Python and the TypeScript verifier agree, exactly. A string that is
 not hexadecimal text is either refused by Python or read as fewer than 32
 bytes, while TypeScript always reads 32; so the hashed pairs differ in length,
 the nodes differ, and the difference climbs to the top.
 */
module TsAgreement {
  import opened Hashing
  import opened HexText
  import opened EvmMerkle
  import opened TsMerkle

  /** Two readings of one format: `g` never fails and agrees with `f` wherever `f` reads 32 bytes. */
  ghost predicate Readings(f: Format, g: Format) {
    && g == f.(parse := g.parse)
    && (forall b :: |f.keccak(b)| == 32)
    && (forall b :: |b| == 32 ==> f.parse(f.print_(b)) == Some(b) && f.lower(f.print_(b)) == f.print_(b))
    && (forall s :: f.parse(s).Some? ==> |f.parse(s).value| <= 32)
    && (forall s :: g.parse(s).Some? && |g.parse(s).value| == 32)
    && (forall s :: Full(f, s) ==> g.parse(s) == f.parse(s))
  }

  /** Read as 32 bytes. */
  predicate Full(f: Format, s: string) {
    f.parse(s).Some? && |f.parse(s).value| == 32
  }

  lemma {:induction false} PrintedIsFull(f: Format, g: Format, b: Bytes)
    requires Readings(f, g) && |b| == 32
    ensures f.parse(f.print_(b)) == Some(b) && g.parse(f.print_(b)) == Some(b)
  {
    assert Full(f, f.print_(b));
  }

  /** Equal hashed pairs were read in full. */
  lemma {:induction false} SamePairIsFull(f: Format, g: Format, a: string, b: string, sibling: string)
    requires Readings(f, g) && f.parse(a).Some? && f.parse(sibling).Some?
    requires PairBytes(f, a, sibling) == PairBytes(g, b, sibling)
    ensures Full(f, a) && Full(f, sibling) && f.parse(a) == g.parse(b)
  {
    var x, y, u, v := f.parse(a).value, f.parse(sibling).value, g.parse(b).value, g.parse(sibling).value;
    assert |SortedPair(x, y)| == |x| + |y| && |SortedPair(u, v)| == 64;
    assert Full(f, a) && Full(f, sibling);
    SortedPairDeterminesThePair(x, y, u, v);
  }

  /** One step up from two nodes that may differ. */
  lemma {:induction false} StepsUp(f: Format, g: Format, a: string, b: string, siblings: seq<string>)
    requires Readings(f, g) && siblings != [] && FoldEvm(f, a, siblings).Some?
    ensures f.parse(a).Some? && f.parse(siblings[0]).Some?
    ensures
      var up, vp := f.print_(f.keccak(PairBytes(f, a, siblings[0]))), f.print_(f.keccak(PairBytes(g, b, siblings[0])));
      && FoldEvm(f, a, siblings) == FoldEvm(f, up, siblings[1..])
      && FoldEvm(g, b, siblings) == FoldEvm(g, vp, siblings[1..])
      && f.parse(up) == Some(f.keccak(PairBytes(f, a, siblings[0])))
      && f.parse(vp) == g.parse(vp) == Some(f.keccak(PairBytes(g, b, siblings[0])))
      && PairSorted(f)(a, siblings[0]) == up && PairSorted(g)(b, siblings[0]) == vp
  {
    hide PairBytes;
    PrintedIsFull(f, g, f.keccak(PairBytes(f, a, siblings[0])));
    PrintedIsFull(f, g, f.keccak(PairBytes(g, b, siblings[0])));
  }

  /** Equal tops come from equal first pairs, and every later sibling was read in full. */
  lemma {:induction false} EqualTops(f: Format, g: Format, a: string, b: string, siblings: seq<string>)
    requires Readings(f, g) && siblings != []
    requires FoldEvm(f, a, siblings).Some? && FoldEvm(f, a, siblings) == FoldEvm(g, b, siblings)
    requires NoCollision(f.keccak, ProofInputsEvm(f, a, siblings) + ProofInputsEvm(g, b, siblings))
    ensures PairBytes(f, a, siblings[0]) == PairBytes(g, b, siblings[0])
    ensures forall i :: 0 < i < |siblings| ==> Full(f, siblings[i])
    decreases |siblings|
  {
    hide Readings, PairBytes, NoCollision, FoldEvm, Full, PairSorted;
    var sibling := siblings[0];
    var x, y := PairBytes(f, a, sibling), PairBytes(g, b, sibling);
    var inputs := ProofInputsEvm(f, a, siblings) + ProofInputsEvm(g, b, siblings);
    StepsUp(f, g, a, b, siblings);
    SameKeccak(f, g);
    var up, vp := f.print_(f.keccak(x)), f.print_(f.keccak(y));
    if |siblings| == 1 {
      SingleTop(f, up, siblings);
      SingleTop(g, vp, siblings);
    } else {
      FewerInputs(f.keccak, inputs, ProofInputsEvm(f, up, siblings[1..]) + ProofInputsEvm(g, vp, siblings[1..]));
      EqualTops(f, g, up, vp, siblings[1..]);
      StepsUp(f, g, up, vp, siblings[1..]);
      SamePairIsFull(f, g, up, vp, siblings[1]);
      forall i | 0 < i < |siblings| ensures Full(f, siblings[i]) {
        assert i > 1 ==> siblings[i] == siblings[1..][i - 1];
      }
    }
    SameInput(f.keccak, inputs, x, y);
  }

  lemma {:induction false} SameKeccak(f: Format, g: Format)
    requires Readings(f, g)
    ensures g.keccak == f.keccak && g.print_ == f.print_ && g.lower == f.lower
  {
  }

  lemma {:induction false} SingleTop(f: Format, up: string, siblings: seq<string>)
    requires |siblings| == 1
    ensures FoldEvm(f, up, siblings[1..]) == Some(up)
  {
  }

  // ---- the exact condition

  /** The verdicts under two readings, whatever root is given. */
  ghost predicate SameVerdicts(f: Format, g: Format, leaf: string, siblings: seq<string>) {
    forall root :: VerifyEvm(g, leaf, siblings, root) == VerifyEvm(f, leaf, siblings, root)
  }

  lemma {:induction false} GNeverFails(f: Format, g: Format, a: string, siblings: seq<string>)
    requires Readings(f, g)
    ensures FoldEvm(g, a, siblings).Some?
    decreases |siblings|
  {
    hide PairBytes;
    if siblings != [] {
      GNeverFails(f, g, f.print_(f.keccak(PairBytes(g, a, siblings[0]))), siblings[1..]);
    }
  }

  lemma {:induction false} TopIsCanonical(f: Format, g: Format, t: Format, a: string, siblings: seq<string>)
    requires Readings(f, g) && (t == f || t == g) && siblings != [] && FoldEvm(t, a, siblings).Some?
    ensures f.lower(FoldEvm(t, a, siblings).value) == FoldEvm(t, a, siblings).value
    decreases |siblings|
  {
    hide PairBytes;
    var up := f.print_(f.keccak(PairBytes(t, a, siblings[0])));
    assert KeccakPairSorted(t, a, siblings[0]) == Some(up);
    if |siblings| > 1 {
      TopIsCanonical(f, g, t, up, siblings[1..]);
    } else {
      SingleTop(t, up, siblings);
    }
  }

  lemma {:induction false} SameVerdictsSameTop(f: Format, g: Format, leaf: string, siblings: seq<string>)
    requires Readings(f, g) && siblings != [] && SameVerdicts(f, g, leaf, siblings)
    ensures FoldEvm(f, leaf, siblings).Some?
    ensures FoldEvm(f, leaf, siblings) == FoldEvm(g, leaf, siblings)
  {
    hide FoldEvm, Readings;
    GNeverFails(f, g, leaf, siblings);
    SameKeccak(f, g);
    assert VerifyEvm(g, leaf, siblings, "") == VerifyEvm(f, leaf, siblings, "");
    var top := FoldEvm(f, leaf, siblings).value;
    assert VerifyEvm(g, leaf, siblings, top) == VerifyEvm(f, leaf, siblings, top);
    TopIsCanonical(f, g, f, leaf, siblings);
    TopIsCanonical(f, g, g, leaf, siblings);
  }

  lemma {:induction false} FullReadingsAgree(f: Format, g: Format, leaf: string, siblings: seq<string>, root: string)
    requires Readings(f, g) && (siblings == [] || Full(f, leaf)) && forall i :: 0 <= i < |siblings| ==> Full(f, siblings[i])
    ensures VerifyEvm(g, leaf, siblings, root) == VerifyEvm(f, leaf, siblings, root)
  {
    hide Full, FoldEvm;
    if siblings == [] {
      NothingToRead(f, leaf);
      NothingToRead(g, leaf);
    } else {
      forall b: Bytes | |b| == 32 ensures g.parse(f.print_(b)) == f.parse(f.print_(b)) {
        PrintedIsFull(f, g, b);
      }
      SameReadingSameVerdict(f, g, leaf, siblings);
    }
  }

  lemma {:induction false} NothingToRead(f: Format, leaf: string)
    ensures FoldEvm(f, leaf, []) == Some(leaf)
  {
  }

  /**
   The verdicts are the same for every root exactly when there is nothing to
   read, or leaf and siblings are all read in full; or two different hashed
   inputs collide.
   */
  lemma {:induction false} AgreeIffFull(f: Format, g: Format, leaf: string, siblings: seq<string>)
    requires Readings(f, g)
    requires NoCollision(f.keccak, ProofInputsEvm(f, leaf, siblings) + ProofInputsEvm(g, leaf, siblings))
    ensures SameVerdicts(f, g, leaf, siblings)
       <==> siblings == [] || (Full(f, leaf) && forall i :: 0 <= i < |siblings| ==> Full(f, siblings[i]))
  {
    hide FoldEvm, VerifyEvm, ProofInputsEvm, NoCollision, Readings, PairBytes;
    if siblings == [] || (Full(f, leaf) && forall i :: 0 <= i < |siblings| ==> Full(f, siblings[i])) {
      forall root ensures VerifyEvm(g, leaf, siblings, root) == VerifyEvm(f, leaf, siblings, root) {
        FullReadingsAgree(f, g, leaf, siblings, root);
      }
    } else if SameVerdicts(f, g, leaf, siblings) {
      SameVerdictsSameTop(f, g, leaf, siblings);
      StepsUp(f, g, leaf, leaf, siblings);
      EqualTops(f, g, leaf, leaf, siblings);
      SamePairIsFull(f, g, leaf, leaf, siblings[0]);
    }
  }

  // ---- the two copies

  lemma {:induction false} FullIffHexText(s: string)
    ensures HexToBytes32(s).Some? && |HexToBytes32(s).value| == 32 <==> IsHexText(s)
  {
    hide FromHex;
    BodiesAgreeOnHexText(s);
    FromHexFull(Body64(s));
  }

  lemma {:induction false} PythonAndJsRead(h: Hashes)
    requires Length32(h.keccak)
    ensures Readings(Keccak256(h), JsFormat(h))
  {
    hide HexToBytes32, JsBytes, Prefixed, Lower, LeafText, IsHexText, IsDigest;
    forall b: Bytes | |b| == 32 ensures HexToBytes32(Prefixed(b)) == Some(b) && Lower(Prefixed(b)) == Prefixed(b) {
      PrefixedParses(b);
      LowerOfPrefixed(b);
    }
    forall s | Full(Keccak256(h), s) ensures JsFormat(h).parse(s) == Keccak256(h).parse(s) {
      FullIffHexText(s);
      ReadingsAgreeIffHex(s);
    }
  }

  /** The TypeScript and the Python verifier agree for every root exactly on hexadecimal text, or when there is no sibling. */
  lemma {:induction false} CopiesAgreeIffHex(h: Hashes, leaf: string, siblings: seq<string>)
    requires Length32(h.keccak)
    requires NoCollision(h.keccak, ProofInputsEvm(Keccak256(h), leaf, siblings) + ProofInputsEvm(JsFormat(h), leaf, siblings))
    ensures SameVerdicts(Keccak256(h), JsFormat(h), leaf, siblings)
       <==> siblings == [] || (IsHexText(leaf) && forall i :: 0 <= i < |siblings| ==> IsHexText(siblings[i]))
  {
    hide SameVerdicts, ProofInputsEvm, NoCollision, Readings, IsHexText;
    PythonAndJsRead(h);
    AgreeIffFull(Keccak256(h), JsFormat(h), leaf, siblings);
    FullIffHexText(leaf);
    forall i | 0 <= i < |siblings| ensures Full(Keccak256(h), siblings[i]) <==> IsHexText(siblings[i]) {
      FullIffHexText(siblings[i]);
    }
  }

  // ---- one input of each kind

  lemma {:induction false} StrangerIsRefused(s: string, i: nat)
    requires i < |s| && !IsHexDigit(s[i]) && !IsSpace(s[i])
    ensures FromHex(s).None?
  {
    if IsSpace(s[0]) {
      StrangerIsRefused(s[1..], i - 1);
    } else if |s| >= 2 && IsHexDigit(s[0]) && IsHexDigit(s[1]) {
      StrangerIsRefused(s[2..], i - 2);
    }
  }

  const BAD_DIGITS := "zz"

  /** Python raises ValueError on the sibling `zz`; TypeScript accepts it under a root of its own. */
  lemma {:induction false} BadDigitsAreAccepted(h: Hashes, leaf: string)
    ensures
      var root := KeccakPairSorted(JsFormat(h), leaf, BAD_DIGITS).value;
      && VerifyEvm(JsFormat(h), leaf, [BAD_DIGITS], root) == Some(true)
      && VerifyEvm(Keccak256(h), leaf, [BAD_DIGITS], root) == None
  {
    hide VerifyEvm, KeccakPairSorted, FromHex;
    var body := Body64(BAD_DIGITS);
    assert body[63] == 'z';
    StrangerIsRefused(body, 63);
    MalformedSiblingSplitsTheCopies(h, leaf, BAD_DIGITS);
  }

  const TWO_SPACES := "  "

  lemma {:induction false} SpacesAtTheEnd(s: string)
    requires |s| % 2 == 0 && AllHex(s)
    ensures FromHex(s + TWO_SPACES).Some? && 2 * |FromHex(s + TWO_SPACES).value| == |s|
  {
    var whole := s + TWO_SPACES;
    if s == "" {
      assert whole == [' ', ' '] && whole[1..] == [' '] && whole[1..][1..] == [];
    } else {
      assert !IsSpace(s[0]) && IsHexDigit(s[0]) && IsHexDigit(s[1]);
      assert whole[2..] == s[2..] + TWO_SPACES;
      SpacesAtTheEnd(s[2..]);
    }
  }

  /** Two spaces fill up to 62 zeros and the spaces, which Python reads as 31 bytes. */
  lemma {:induction false} TwoSpacesReadShort()
    ensures HexToBytes32(TWO_SPACES).Some? && |HexToBytes32(TWO_SPACES).value| == 31
    ensures !IsHexText(TWO_SPACES)
  {
    hide FromHex;
    var low := Lower(TWO_SPACES);
    assert |TWO_SPACES| == 2 && TWO_SPACES[0] == ' ' && TWO_SPACES[1] == ' ';
    assert low == TWO_SPACES;
    assert low[..2] != "0x" by {
      assert low[..2][0] == ' ';
    }
    assert Strip0x(low) == TWO_SPACES;
    var zeros := seq(62, _ => '0');
    assert Body64(TWO_SPACES) == zeros + TWO_SPACES;
    SpacesAtTheEnd(zeros);
    FullIffHexText(TWO_SPACES);
  }

  /** So some root tells the copies apart when a leaf or a sibling is two spaces. */
  lemma {:induction false} ShortReadingSplitsTheCopies(h: Hashes, leaf: string, siblings: seq<string>)
    requires Length32(h.keccak) && siblings != [] && (leaf == TWO_SPACES || TWO_SPACES in siblings)
    requires NoCollision(h.keccak, ProofInputsEvm(Keccak256(h), leaf, siblings) + ProofInputsEvm(JsFormat(h), leaf, siblings))
    ensures !SameVerdicts(Keccak256(h), JsFormat(h), leaf, siblings)
  {
    hide SameVerdicts, ProofInputsEvm, NoCollision, Length32, IsHexText;
    TwoSpacesReadShort();
    CopiesAgreeIffHex(h, leaf, siblings);
  }
}
