/** The printed form of a title number, and that it can be told apart and looked up. */
module TitleNumbers {
  import opened Registry
  import opened Effects
  import C = CanonicalJson
  import J = JsonRoundTrip
  import opened JsonText

  function Zeros(n: nat): (s: string)
    ensures |s| == n
  {
    seq(n, _ => '0')
  }

  /** `{sequence:05d}`. */
  function Padded(n: nat): string {
    if |C.Digits(n)| < 5 then Zeros(5 - |C.Digits(n)|) + C.Digits(n) else C.Digits(n)
  }

  /** `UG-<code>-T<sequence>/<year>`. */
  function Printed(no: TitleNo): string {
    "UG-" + (no.code + ("-T" + (Padded(no.sequence) + ("/" + C.IntText(no.year)))))
  }

  lemma {:induction false} ZerosCountNothing(n: nat, s: string)
    ensures C.NatOf(Zeros(n) + s) == C.NatOf(s)
    decreases n + |s|
  {
    if s == "" {
      assert Zeros(n) + s == Zeros(n);
      if n > 0 {
        assert Zeros(n)[..n - 1] == Zeros(n - 1) + "";
        ZerosCountNothing(n - 1, "");
      }
    } else {
      assert (Zeros(n) + s)[..n + |s| - 1] == Zeros(n) + s[..|s| - 1];
      ZerosCountNothing(n, s[..|s| - 1]);
    }
  }

  lemma {:induction false} PaddedReads(n: nat)
    ensures C.NatOf(Padded(n)) == n && |Padded(n)| >= 5
    ensures forall i :: 0 <= i < |Padded(n)| ==> C.IsDigit(Padded(n)[i])
  {
    J.DigitsOf(n);
    if |C.Digits(n)| < 5 {
      ZerosCountNothing(5 - |C.Digits(n)|, C.Digits(n));
    }
  }

  lemma {:induction false} SlashAt(a: string, x: string)
    requires forall i :: 0 <= i < |a| ==> C.IsDigit(a[i])
    ensures
      var s := a + ("/" + x);
      && |s| > |a| && s[|a|] == '/' && s[..|a|] == a && s[|a| + 1..] == x
      && forall i :: 0 <= i < |a| ==> s[i] != '/'
  {
  }

  /** Two texts of digits before a slash end at the same place. */
  lemma {:induction false} SameDigits(a: string, x: string, b: string, y: string)
    requires a + ("/" + x) == b + ("/" + y)
    requires forall i :: 0 <= i < |a| ==> C.IsDigit(a[i])
    requires forall i :: 0 <= i < |b| ==> C.IsDigit(b[i])
    ensures a == b && x == y
  {
    SlashAt(a, x);
    SlashAt(b, y);
  }

  /** Numbers with codes of equal length print alike only if they are the same. */
  lemma {:induction false} PrintedApart(a: TitleNo, b: TitleNo)
    requires |a.code| == |b.code| && Printed(a) == Printed(b)
    ensures a == b
  {
    hide Padded, C.IntText, C.NatOf, C.IntOf, C.IsIntText;
    PaddedReads(a.sequence);
    PaddedReads(b.sequence);
    J.IntTextReads(a.year);
    J.IntTextReads(b.year);
    var p, q := "-T" + (Padded(a.sequence) + ("/" + C.IntText(a.year))), "-T" + (Padded(b.sequence) + ("/" + C.IntText(b.year)));
    assert Printed(a)[3..] == a.code + p && Printed(b)[3..] == b.code + q;
    assert (a.code + p)[..|a.code|] == a.code && (b.code + q)[..|b.code|] == b.code;
    assert (a.code + p)[|a.code|..] == p && (b.code + q)[|b.code|..] == q;
    assert p[2..] == Padded(a.sequence) + ("/" + C.IntText(a.year)) && q[2..] == Padded(b.sequence) + ("/" + C.IntText(b.year));
    SameDigits(Padded(a.sequence), C.IntText(a.year), Padded(b.sequence), C.IntText(b.year));
  }

  lemma {:induction false} CodesAreThree(district: int)
    ensures |DistrictCode(district)| == 3 && AllPlain(DistrictCode(district))
  {
  }

  /** The printed number of a district's title is plain text, so that the lookup of the title finds its event. */
  lemma {:induction false} PrintedIsPlain(no: TitleNo)
    requires AllPlain(no.code)
    ensures AllPlain(Printed(no))
  {
    PaddedReads(no.sequence);
    J.IntTextReads(no.year);
    assert forall i :: 0 <= i < |Padded(no.sequence)| ==> IsPlain(Padded(no.sequence)[i]);
    assert forall i :: 0 <= i < |C.IntText(no.year)| ==> IsPlain(C.IntText(no.year)[i]);
  }

  // ---- no two titles print alike

  ghost predicate NumbersApart(titles: seq<Title>) {
    && (forall i :: 0 <= i < |titles| ==> |titles[i].titleNo.code| == 3)
    && (forall i, j :: 0 <= i < j < |titles| ==> titles[i].titleNo != titles[j].titleNo)
  }

  lemma {:induction false} OneMoreApart(s: State, a: Registration, new_: seq<Title>)
    requires a.NewTitle? && OneMoreTitle(s, a, new_) && NumbersApart(s.titles)
    ensures NumbersApart(new_)
  {
    CodesAreThree(s.parcels[a.parcel].district);
    assert forall i :: 0 <= i < |s.titles| ==> new_[i] == s.titles[i] by {
      assert forall i :: 0 <= i < |s.titles| ==> new_[..|s.titles|][i] == s.titles[i];
    }
  }

  lemma {:induction false} RunKeepsApart(sys: Settings, calls: seq<Call>)
    ensures NumbersApart(Run(sys, EMPTY, calls).titles)
  {
    hide Step, Enabled, OneMoreTitle, OwnersCaused;
    if calls != [] {
      var before, c := calls[..|calls| - 1], calls[|calls| - 1];
      RunKeepsApart(sys, before);
      var s := Run(sys, EMPTY, before);
      if Enabled(s, c) {
        TitlesAndOwnersAreCaused(sys, s, c);
        if Step(sys, s, c).titles != s.titles {
          OneMoreApart(s, c.action.registration, Step(sys, s, c).titles);
        }
      }
    }
  }

  /** In every reachable state, different titles have different printed numbers. */
  lemma {:induction false} NoTwoPrintAlike(sys: Settings, calls: seq<Call>, i: nat, j: nat)
    requires i < j < |Run(sys, EMPTY, calls).titles|
    ensures Printed(Run(sys, EMPTY, calls).titles[i].titleNo) != Printed(Run(sys, EMPTY, calls).titles[j].titleNo)
  {
    hide Run, Printed;
    RunKeepsApart(sys, calls);
    var a, b := Run(sys, EMPTY, calls).titles[i].titleNo, Run(sys, EMPTY, calls).titles[j].titleNo;
    if Printed(a) == Printed(b) {
      PrintedApart(a, b);
    }
  }
}
