/**
 Runs, from an empty registry, that reach what the documentation excludes: a
 frozen parcel that is sold, an appeal decided by the officer it is against,
 and a title number that is taken before its district issues any title.
 States are compared up to the ledger, on which no handler branches.
 */
module Witnesses {
  import opened Hashing
  import opened Registry
  import opened RegistryFrames
  import opened Gate
  import opened Custody

  /** Equal tables, whatever the ledger holds. */
  predicate Like(s: State, t: State) {
    s.(ledger := map[]) == t.(ledger := map[])
  }

  const JUDGE := User("judge", REGISTRAR, Some(1))
  const CITIZEN_BUYER := User("buyer", CITIZEN, None)

  function By(user: User, action: Action): Call {
    Call(user, 0.0, true, action)
  }

  // ---- the common beginning: one parcel, a buyer, a reviewer who is a land owner, and two sales of the parcel

  const NEW_PLOT := By(JUDGE, Register(NewParcel("plot", 1, None)))
  const NEW_BUYER := By(JUDGE, Register(NewOwner("buyer")))
  const NEW_JUDGE := By(JUDGE, Register(NewOwner("judge")))
  const FIRST_SALE := By(OFFICER, OnTransfer(NewTransfer("sale", "plot", None, "buyer")))
  const SECOND_SALE := By(OFFICER, OnTransfer(NewTransfer("resale", "plot", None, "buyer")))
  const FIRST_ALERT := By(OFFICER, Background(Stream("sale", true, Scores(BLOCK, "alert"))))
  const AFFIRMATION := By(JUDGE, OnReview(Affirm("alert", "case")))

  const BEGINNING: seq<Call> := [NEW_PLOT, NEW_BUYER, NEW_JUDGE, FIRST_SALE, SECOND_SALE, FIRST_ALERT, AFFIRMATION]

  const PLOTTED := EMPTY.(parcels := map["plot" := Parcel(1, None, ACTIVE)])
  const ONE_OWNER := PLOTTED.(owners := map["buyer" := false])
  const TWO_OWNERS := PLOTTED.(owners := map["buyer" := false, "judge" := false])
  const ONE_SALE := TWO_OWNERS.(
    transfers := map["sale" := Transfer("plot", None, "buyer", PENDING, 1)],
    jobs := [Job("sale", Waiting, 0, None)])
  const TWO_SALES := TWO_OWNERS.(
    transfers := map["sale" := Transfer("plot", None, "buyer", PENDING, 1), "resale" := Transfer("plot", None, "buyer", PENDING, 1)],
    jobs := [Job("sale", Waiting, 0, None), Job("resale", Waiting, 0, None)])
  const FLAGGED := TWO_SALES.(
    scores := map["sale" := [Score(0, BLOCK, 0.0)]],
    reviews := map["alert" := Review("sale", 1, BLOCK, 0, PENDING_REVIEW, 0.0, None, None)])
  const HELD := FLAGGED.(
    parcels := map["plot" := Parcel(1, None, FROZEN)],
    reviews := map["alert" := Review("sale", 1, BLOCK, 0, HUMAN_AFFIRMED, 0.0, Some("judge"), None)],
    disputes := map["case" := Dispute("plot", "judge", FRAUD, UNDER_REVIEW, 1)])

  lemma {:induction false} PlotStep(sys: Settings, s: State)
    requires 1 in sys.districts && Like(s, EMPTY)
    ensures Enabled(s, NEW_PLOT) && Like(Step(sys, s, NEW_PLOT), PLOTTED)
  {
    hide Emit;
    assert Step(sys, s, NEW_PLOT).parcels == PLOTTED.parcels;
  }

  lemma {:induction false} OwnerSteps(sys: Settings, s: State)
    requires Like(s, PLOTTED)
    ensures Enabled(s, NEW_BUYER) && Like(Step(sys, s, NEW_BUYER), ONE_OWNER)
  {
    hide Emit;
    assert Step(sys, s, NEW_BUYER).owners == ONE_OWNER.owners;
  }

  lemma {:induction false} JudgeStep(sys: Settings, s: State)
    requires Like(s, ONE_OWNER)
    ensures Enabled(s, NEW_JUDGE) && Like(Step(sys, s, NEW_JUDGE), TWO_OWNERS)
  {
    hide Emit;
    assert Step(sys, s, NEW_JUDGE).owners == TWO_OWNERS.owners;
  }

  lemma {:induction false} FirstSaleStep(sys: Settings, s: State)
    requires Like(s, TWO_OWNERS)
    ensures Enabled(s, FIRST_SALE) && Like(Step(sys, s, FIRST_SALE), ONE_SALE)
  {
    hide Emit;
    var t := Step(sys, s, FIRST_SALE);
    assert "buyer" in s.owners && "plot" in s.parcels;
    assert t.transfers == ONE_SALE.transfers;
    assert t.jobs == ONE_SALE.jobs;
  }

  lemma {:induction false} SecondSaleStep(sys: Settings, s: State)
    requires Like(s, ONE_SALE)
    ensures Enabled(s, SECOND_SALE) && Like(Step(sys, s, SECOND_SALE), TWO_SALES)
  {
    hide Emit;
    var t := Step(sys, s, SECOND_SALE);
    assert "buyer" in s.owners && "plot" in s.parcels && "resale" !in s.transfers;
    assert t.transfers == TWO_SALES.transfers;
    assert t.jobs == TWO_SALES.jobs;
  }

  lemma {:induction false} FirstAlertStep(sys: Settings, s: State)
    requires Like(s, TWO_SALES)
    ensures Enabled(s, FIRST_ALERT) && Like(Step(sys, s, FIRST_ALERT), FLAGGED)
  {
    hide Emit;
    var t := Step(sys, s, FIRST_ALERT);
    assert !UpToDate(s, "sale") && HasContext(s, "sale");
    assert t.scores == FLAGGED.scores;
    assert t.reviews == FLAGGED.reviews;
  }

  lemma {:induction false} AffirmationStep(sys: Settings, s: State)
    requires Like(s, FLAGGED)
    ensures Enabled(s, AFFIRMATION) && Like(Step(sys, s, AFFIRMATION), HELD)
  {
    hide Emit;
    var t := Step(sys, s, AFFIRMATION);
    assert !OpenDispute(s.disputes, "plot", {FRAUD});
    assert "judge" in s.owners && "plot" in s.parcels;
    assert t.parcels == HELD.parcels;
    assert t.reviews == HELD.reviews;
    assert t.disputes == HELD.disputes;
  }

  /** The run appends one call at a time. */
  lemma {:induction false} OneMore(sys: Settings, calls: seq<Call>, c: Call, longer: seq<Call>)
    requires Enabled(Run(sys, EMPTY, calls), c) && longer == calls + [c]
    ensures Run(sys, EMPTY, longer) == Step(sys, Run(sys, EMPTY, calls), c)
  {
    hide Enabled, Step;
    RunOne(sys, EMPTY, calls, c);
  }

  /** After the beginning, the parcel is FROZEN, affirmed and disputed. */
  lemma {:induction false} BeginningFreezes(sys: Settings)
    requires 1 in sys.districts
    ensures Like(Run(sys, EMPTY, BEGINNING), HELD)
  {
    hide Step, Enabled, Like, Run;
    assert Run(sys, EMPTY, []) == EMPTY && Like(EMPTY, EMPTY) by {
      StartsEmpty(sys);
    }
    PlotStep(sys, EMPTY);
    OneMore(sys, [], NEW_PLOT, [NEW_PLOT]);
    OwnerSteps(sys, Run(sys, EMPTY, [NEW_PLOT]));
    OneMore(sys, [NEW_PLOT], NEW_BUYER, [NEW_PLOT, NEW_BUYER]);
    JudgeStep(sys, Run(sys, EMPTY, [NEW_PLOT, NEW_BUYER]));
    OneMore(sys, [NEW_PLOT, NEW_BUYER], NEW_JUDGE, [NEW_PLOT, NEW_BUYER, NEW_JUDGE]);
    var four := [NEW_PLOT, NEW_BUYER, NEW_JUDGE, FIRST_SALE];
    FirstSaleStep(sys, Run(sys, EMPTY, [NEW_PLOT, NEW_BUYER, NEW_JUDGE]));
    OneMore(sys, [NEW_PLOT, NEW_BUYER, NEW_JUDGE], FIRST_SALE, four);
    SecondSaleStep(sys, Run(sys, EMPTY, four));
    OneMore(sys, four, SECOND_SALE, four + [SECOND_SALE]);
    FirstAlertStep(sys, Run(sys, EMPTY, four + [SECOND_SALE]));
    OneMore(sys, four + [SECOND_SALE], FIRST_ALERT, four + [SECOND_SALE, FIRST_ALERT]);
    AffirmationStep(sys, Run(sys, EMPTY, four + [SECOND_SALE, FIRST_ALERT]));
    OneMore(sys, four + [SECOND_SALE, FIRST_ALERT], AFFIRMATION, BEGINNING);
  }

  lemma {:induction false} StartsEmpty(sys: Settings)
    ensures Run(sys, EMPTY, []) == EMPTY && Like(EMPTY, EMPTY)
  {
  }

  // ---- a frozen parcel is sold

  const APPROVAL := By(JUDGE, OnTransfer(Approve("resale", Scores(NONE, ""))))

  lemma {:induction false} GateIsOpenForResale(s: State)
    requires Like(s, HELD)
    ensures GateOpens(s, "resale", Scores(NONE, "")) && ScoresOk(s.scores, 0, 0.0) && Contexts(s)
  {
    assert ScoresOf(s.scores, "resale") == [];
    assert forall id :: id in s.transfers ==> id == "sale" || id == "resale";
  }

  lemma {:induction false} ResaleHandsOver(s: State)
    requires Like(s, HELD)
    ensures "resale" in s.transfers
    ensures Handover(s.parcels, s.transfers["resale"]) == map["plot" := Parcel(1, Some("buyer"), TRANSFERRED)]
    ensures OpenDispute(s.disputes, "plot", {FRAUD})
  {
    assert "plot" in s.parcels;
    assert "case" in s.disputes && IsOpen(s.disputes["case"]);
  }

  lemma {:induction false} ApprovalStep(sys: Settings, s: State)
    requires Like(s, HELD)
    ensures Enabled(s, APPROVAL)
    ensures
      var t := Step(sys, s, APPROVAL);
      t.parcels == map["plot" := Parcel(1, Some("buyer"), TRANSFERRED)] && OpenDispute(t.disputes, "plot", {FRAUD})
  {
    hide ApproveTransfer, CreateTransfer, RejectTransfer, GateOpens, ScoresOk, Contexts, OpenDispute, Handover;
    GateIsOpenForResale(s);
    ResaleHandsOver(s);
    ApprovedIffGateOpens(s, true, "resale", Scores(NONE, ""), 0.0);
    ApproveEffect(s, true, "resale", Scores(NONE, ""), 0.0);
  }

  /** A frozen parcel with an open FRAUD dispute changes hands: the gate looks at the score of the second transfer only. */
  lemma {:induction false} FrozenParcelIsSold(sys: Settings)
    requires 1 in sys.districts
    ensures
      var s, t := Run(sys, EMPTY, BEGINNING), Run(sys, EMPTY, BEGINNING + [APPROVAL]);
      && IsFrozen(s, "plot") && s.parcels["plot"].owner == None
      && !IsFrozen(t, "plot") && "plot" in t.parcels && t.parcels["plot"].owner == Some("buyer")
      && OpenDispute(t.disputes, "plot", {FRAUD})
  {
    hide Run, Step, Enabled, OpenDispute;
    BeginningFreezes(sys);
    ApprovalStep(sys, Run(sys, EMPTY, BEGINNING));
    OneMore(sys, BEGINNING, APPROVAL, BEGINNING + [APPROVAL]);
    assert "plot" in HELD.parcels;
  }

  // ---- the officer decides the appeal against his own decision

  const APPEAL := By(CITIZEN_BUYER, OnReview(NewAppeal("appeal", Some("alert"), SubjectType.TRANSFER, "sale")))
  const DECISION := By(JUDGE, OnReview(DecideAppeal("appeal", true)))

  /** The decider of the appeal is the one who decided the review that the appeal names. */
  predicate DecidesOwnReview(s: State, c: Call) {
    && c.action.OnReview? && c.action.reviewing.DecideAppeal?
    && c.action.reviewing.id in s.appeals
    && var named := s.appeals[c.action.reviewing.id].review;
       named.Some? && named.value in s.reviews && s.reviews[named.value].reviewedBy == Some(c.user.id)
  }

  /** The reply depends on the role, on the appeal's existence and on its being OPEN ... */
  lemma {:induction false} DecisionGoesThroughIff(sys: Settings, s: State, c: Call)
    requires Enabled(s, c) && c.action.OnReview? && c.action.reviewing.DecideAppeal?
    ensures
      var id := c.action.reviewing.id;
      Handle(sys, s, c).1 == Ok <==> HasRole(c.user, {AUDITOR, REGISTRAR}) && id in s.appeals && s.appeals[id].state == OPEN
  {
    hide Emit, Unfreeze, ReliefTarget, HasRole, AffirmReview, DismissReview, FileAppeal;
  }

  /** ... and never on the reviews: with any other reviews it does the same to everything else. */
  lemma {:induction false} DecisionIgnoresReviews(s: State, user: User, logged: bool, id: string, upheld: bool, reviews: map<string, Review>)
    ensures
      var (t, reply) := ResolveAppeal(s, user, logged, id, upheld);
      ResolveAppeal(s.(reviews := reviews), user, logged, id, upheld) == (t.(reviews := reviews), reply)
  {
    hide Emit, Unfreeze;
    if id in s.appeals {
      assert ReliefTarget(s.(reviews := reviews), s.appeals[id]) == ReliefTarget(s, s.appeals[id]);
    }
  }

  const APPEALED := HELD.(appeals := map["appeal" := Appeal(Some("alert"), SubjectType.TRANSFER, "sale", "buyer", OPEN)])

  lemma {:induction false} AppealStep(sys: Settings, s: State)
    requires Like(s, HELD)
    ensures Enabled(s, APPEAL) && Like(Step(sys, s, APPEAL), APPEALED)
  {
    hide Emit;
    assert "alert" in s.reviews;
    assert Step(sys, s, APPEAL).appeals == APPEALED.appeals;
  }

  lemma {:induction false} DecisionStep(sys: Settings, s: State)
    requires Like(s, APPEALED)
    ensures Enabled(s, DECISION) && DecidesOwnReview(s, DECISION)
    ensures Step(sys, s, DECISION).parcels == map["plot" := Parcel(1, None, ACTIVE)]
  {
    hide Emit;
    assert "appeal" in s.appeals && "alert" in s.reviews && "sale" in s.transfers && "plot" in s.parcels;
    assert Step(sys, s, DECISION).parcels == map["plot" := Parcel(1, None, ACTIVE)];
  }

  /** One registrar affirms the review, which freezes the parcel, and upholds the appeal against it, which releases it. */
  lemma {:induction false} OfficerDecidesOwnAppeal(sys: Settings)
    requires 1 in sys.districts
    ensures
      var s := Run(sys, EMPTY, BEGINNING + [APPEAL]);
      && IsFrozen(s, "plot") && Enabled(s, DECISION) && DecidesOwnReview(s, DECISION)
      && !IsFrozen(Run(sys, EMPTY, BEGINNING + [APPEAL, DECISION]), "plot")
  {
    hide Run, Step, Enabled, DecidesOwnReview;
    BeginningFreezes(sys);
    AppealStep(sys, Run(sys, EMPTY, BEGINNING));
    OneMore(sys, BEGINNING, APPEAL, BEGINNING + [APPEAL]);
    DecisionStep(sys, Run(sys, EMPTY, BEGINNING + [APPEAL]));
    OneMore(sys, BEGINNING + [APPEAL], DECISION, BEGINNING + [APPEAL, DECISION]);
    assert "plot" in APPEALED.parcels;
  }

  // ---- a district whose first title number is taken

  const EAST_PLOT := By(JUDGE, Register(NewParcel("east", 5, None)))
  const WEST_PLOT := By(JUDGE, Register(NewParcel("west", 6, None)))
  const BUYER_KYC := By(JUDGE, Register(Kyc("buyer", true)))
  const EAST_TITLE := By(JUDGE, Register(NewTitle("east", "buyer", 2026)))
  const WEST_TITLE := By(JUDGE, Register(NewTitle("west", "buyer", 2026)))

  const KNOWN := EMPTY.(owners := map["buyer" := true])
  const EAST_ONLY := KNOWN.(parcels := map["east" := Parcel(5, None, ACTIVE)])
  const EAST_AND_WEST := KNOWN.(parcels := map["east" := Parcel(5, None, ACTIVE), "west" := Parcel(6, None, ACTIVE)])
  const EAST_TITLED := EAST_AND_WEST.(
    parcels := map["east" := Parcel(5, Some("buyer"), ACTIVE), "west" := Parcel(6, None, ACTIVE)],
    titles := [Title(TitleNo("XXX", 1, 2026), "east", 5)])

  lemma {:induction false} FirstBuyerStep(sys: Settings, s: State)
    requires Like(s, EMPTY)
    ensures Enabled(s, NEW_BUYER) && Like(Step(sys, s, NEW_BUYER), EMPTY.(owners := map["buyer" := false]))
  {
    hide Emit;
    assert Step(sys, s, NEW_BUYER).owners == map["buyer" := false];
  }

  lemma {:induction false} KycStep(sys: Settings, s: State)
    requires Like(s, EMPTY.(owners := map["buyer" := false]))
    ensures Enabled(s, BUYER_KYC) && Like(Step(sys, s, BUYER_KYC), KNOWN)
  {
    hide Emit;
    assert "buyer" in s.owners;
    assert Step(sys, s, BUYER_KYC).owners == KNOWN.owners;
  }

  lemma {:induction false} EastStep(sys: Settings, s: State)
    requires 5 in sys.districts && Like(s, KNOWN)
    ensures Enabled(s, EAST_PLOT) && Like(Step(sys, s, EAST_PLOT), EAST_ONLY)
  {
    hide Emit;
    assert Step(sys, s, EAST_PLOT).parcels == EAST_ONLY.parcels;
  }

  lemma {:induction false} WestStep(sys: Settings, s: State)
    requires 6 in sys.districts && Like(s, EAST_ONLY)
    ensures Enabled(s, WEST_PLOT) && Like(Step(sys, s, WEST_PLOT), EAST_AND_WEST)
  {
    hide Emit;
    assert Step(sys, s, WEST_PLOT).parcels == EAST_AND_WEST.parcels;
  }

  lemma {:induction false} EastTitleStep(sys: Settings, s: State)
    requires Like(s, EAST_AND_WEST)
    ensures Enabled(s, EAST_TITLE) && Like(Step(sys, s, EAST_TITLE), EAST_TITLED)
  {
    hide Emit;
    var t := Step(sys, s, EAST_TITLE);
    assert "east" in s.parcels && "buyer" in s.owners;
    assert t.titles == EAST_TITLED.titles;
    assert t.parcels == EAST_TITLED.parcels;
  }

  lemma {:induction false} WestIsRefused(sys: Settings, s: State)
    requires Like(s, EAST_TITLED)
    ensures Enabled(s, WEST_TITLE) && Handle(sys, s, WEST_TITLE) == (s, Raised)
    ensures TitleCount(s.titles, 6) == 0
  {
    hide Emit;
    assert "west" in s.parcels && "buyer" in s.owners;
    assert s.titles[..0] == [];
    assert s.titles[0].titleNo == NextTitleNo(s, 6, 2026);
  }

  const TWO_DISTRICTS: seq<Call> := [NEW_BUYER, BUYER_KYC, EAST_PLOT, WEST_PLOT, EAST_TITLE]

  /** Districts 5 and 6 have no code: once 5 has issued its first title of the year, 6 cannot issue its own first one. */
  lemma {:induction false} UncodedDistrictIsRefused(sys: Settings)
    requires 5 in sys.districts && 6 in sys.districts
    ensures
      var s := Run(sys, EMPTY, TWO_DISTRICTS);
      Enabled(s, WEST_TITLE) && Handle(sys, s, WEST_TITLE) == (s, Raised) && TitleCount(s.titles, 6) == 0
  {
    hide Step, Enabled, Like, Run, Handle, TitleCount;
    StartsEmpty(sys);
    FirstBuyerStep(sys, EMPTY);
    OneMore(sys, [], NEW_BUYER, [NEW_BUYER]);
    KycStep(sys, Run(sys, EMPTY, [NEW_BUYER]));
    OneMore(sys, [NEW_BUYER], BUYER_KYC, [NEW_BUYER, BUYER_KYC]);
    EastStep(sys, Run(sys, EMPTY, [NEW_BUYER, BUYER_KYC]));
    OneMore(sys, [NEW_BUYER, BUYER_KYC], EAST_PLOT, [NEW_BUYER, BUYER_KYC, EAST_PLOT]);
    WestStep(sys, Run(sys, EMPTY, [NEW_BUYER, BUYER_KYC, EAST_PLOT]));
    OneMore(sys, [NEW_BUYER, BUYER_KYC, EAST_PLOT], WEST_PLOT, [NEW_BUYER, BUYER_KYC, EAST_PLOT, WEST_PLOT]);
    EastTitleStep(sys, Run(sys, EMPTY, [NEW_BUYER, BUYER_KYC, EAST_PLOT, WEST_PLOT]));
    OneMore(sys, [NEW_BUYER, BUYER_KYC, EAST_PLOT, WEST_PLOT], EAST_TITLE, TWO_DISTRICTS);
    WestIsRefused(sys, Run(sys, EMPTY, TWO_DISTRICTS));
  }
}
