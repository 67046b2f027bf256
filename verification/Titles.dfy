/** Title numbers: when `issue_title` can run into a number that is already taken. */
module Titles {
  import opened Hashing
  import opened Registry
  import opened RegistryFrames

  /** Every title is numbered in its district's series, up to the district's count. */
  ghost predicate Numbered(titles: seq<Title>) {
    forall i :: 0 <= i < |titles| ==>
      && titles[i].titleNo.code == DistrictCode(titles[i].district)
      && 1 <= titles[i].titleNo.sequence <= TitleCount(titles, titles[i].district)
  }

  lemma {:induction false} NumberedGrows(titles: seq<Title>, parcel: string, district: int, year: int)
    requires Numbered(titles)
    ensures Numbered(titles + [Title(TitleNo(DistrictCode(district), TitleCount(titles, district) + 1, year), parcel, district)])
  {
    var more := titles + [Title(TitleNo(DistrictCode(district), TitleCount(titles, district) + 1, year), parcel, district)];
    assert more[..|titles|] == titles;
    forall i | 0 <= i < |more| ensures more[i].titleNo.code == DistrictCode(more[i].district)
                                       && 1 <= more[i].titleNo.sequence <= TitleCount(more, more[i].district) {
      if i < |titles| {
        assert more[i] == titles[i];
      }
    }
  }

  lemma {:induction false} IssueKeepsNumbers(s: State, logged: bool, parcel: string, owner: string, year: int)
    requires Numbered(s.titles)
    ensures Numbered(IssueTitle(s, logged, parcel, owner, year).0.titles)
  {
    hide Numbered, TitleTaken, Emit, DistrictCode, TitleCount;
    if parcel in s.parcels {
      NumberedGrows(s.titles, parcel, s.parcels[parcel].district, year);
    }
  }

  lemma {:induction false} StepKeepsNumbers(sys: Settings, s: State, c: Call)
    requires Enabled(s, c) && Numbered(s.titles)
    ensures Numbered(Step(sys, s, c).titles)
  {
    hide IssueTitle, CreateParcel, RegisterOwner, SetKyc, DoTransfer, DoReview, DoDispute, DoWork, HasRole, Allowed, Numbered;
    StepIsFramed(sys, s, c);
    match c.action {
      case Register(NewTitle(parcel, to, year)) => IssueKeepsNumbers(s, c.logged, parcel, to, year);
      case _ =>
    }
  }

  lemma {:induction false} RunKeepsNumbers(sys: Settings, calls: seq<Call>)
    ensures Numbered(Run(sys, EMPTY, calls).titles)
  {
    hide Step, Enabled, Numbered;
    if calls == [] {
      NoTitles();
    } else {
      var before, c := Run(sys, EMPTY, calls[..|calls| - 1]), calls[|calls| - 1];
      RunKeepsNumbers(sys, calls[..|calls| - 1]);
      if Enabled(before, c) {
        StepKeepsNumbers(sys, before, c);
      }
    }
  }

  lemma {:induction false} NoTitles()
    ensures Numbered(EMPTY.titles)
  {
  }

  /** A title of another district without a code of its own, with the number that this district would give next. */
  predicate ForeignTwin(titles: seq<Title>, district: int, year: int) {
    exists i | 0 <= i < |titles| ::
      && titles[i].district != district && DistrictCode(titles[i].district) == "XXX"
      && titles[i].titleNo.sequence == TitleCount(titles, district) + 1 && titles[i].titleNo.year == year
  }

  lemma {:induction false} CodesDiffer(a: int, b: int)
    requires a != b && DistrictCode(a) == DistrictCode(b)
    ensures DistrictCode(a) == "XXX"
  {
    assert "KCC"[0] == 'K' && "WAK"[0] == 'W' && "MIT"[0] == 'M' && "GUL"[0] == 'G' && "XXX"[0] == 'X';
  }

  /**
   In every reachable state the next number is free, unless the district has
   no code of its own and another such district has used that number.
   */
  lemma {:induction false} NextNumberTakenIff(sys: Settings, calls: seq<Call>, district: int, year: int)
    ensures
      var s := Run(sys, EMPTY, calls);
      TitleTaken(s.titles, NextTitleNo(s, district, year))
      <==> DistrictCode(district) == "XXX" && ForeignTwin(s.titles, district, year)
  {
    hide Run, DistrictCode;
    RunKeepsNumbers(sys, calls);
    var s := Run(sys, EMPTY, calls);
    var no := NextTitleNo(s, district, year);
    if TitleTaken(s.titles, no) {
      var i :| 0 <= i < |s.titles| && s.titles[i].titleNo == no;
      assert s.titles[i].district != district;
      CodesDiffer(s.titles[i].district, district);
    }
    if DistrictCode(district) == "XXX" && ForeignTwin(s.titles, district, year) {
      var i :| 0 <= i < |s.titles| && s.titles[i].district != district && DistrictCode(s.titles[i].district) == "XXX"
               && s.titles[i].titleNo.sequence == TitleCount(s.titles, district) + 1 && s.titles[i].titleNo.year == year;
      assert s.titles[i].titleNo == no;
    }
  }

  /** The sequence in a title number counts the titles of the district. */
  lemma {:induction false} TitleCountIs(titles: seq<Title>, district: int)
    ensures TitleCount(titles, district) == |set i: nat | i < |titles| && titles[i].district == district|
  {
    var all := set i: nat | i < |titles| && titles[i].district == district;
    if titles == [] {
      assert all == {};
    } else {
      var before := titles[..|titles| - 1];
      TitleCountIs(before, district);
      var some := set i: nat | i < |before| && before[i].district == district;
      assert all == some + if titles[|titles| - 1].district == district then {|titles| - 1} else {};
    }
  }

  /** A number is the district's code, one more than the titles it has, and the year; the four districts with a code have different ones. */
  lemma {:induction false} NumberInParts(s: State, district: int, year: int)
    ensures
      var no := NextTitleNo(s, district, year);
      && no.sequence == 1 + |set i: nat | i < |s.titles| && s.titles[i].district == district|
      && no.year == year && no.code == DistrictCode(district)
      && DistrictCode(1) == "KCC" && DistrictCode(2) == "WAK" && DistrictCode(3) == "MIT" && DistrictCode(4) == "GUL"
      && (!(1 <= district <= 4) ==> no.code == "XXX")
  {
    TitleCountIs(s.titles, district);
  }
}
