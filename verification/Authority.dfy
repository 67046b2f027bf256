/**
 Who may do what, said of the roles themselves: which requests each role can
 make, and whose hand is behind every change of the tables.
 */
module Authority {
  import opened Hashing
  import opened Registry
  import opened RegistryFrames
  import opened Custody
  import opened Gate

  // ---- role by role

  /** Filing an appeal or a dispute only takes a login; jobs have no user. */
  predicate IsForEveryone(a: Action) {
    match a
    case OnReview(r) => r.NewAppeal?
    case OnDispute(d) => d.NewDispute?
    case Background(_) => true
    case _ => false
  }

  /** What each role can do besides. */
  predicate MayAsk(role: Role, a: Action) {
    match role
    case ADMIN => true
    case REGISTRAR => !(a.OnTransfer? && a.transferring.NewTransfer?)
    case LAND_OFFICER =>
      (match a
       case Register(r) => r.NewOwner? || r.Kyc?
       case OnTransfer(_) => true
       case OnReview(r) => !r.DecideAppeal?
       case OnDispute(d) => !d.Decide?
       case Background(_) => true)
    case AUDITOR => IsForEveryone(a) || (a.OnReview? && a.reviewing.DecideAppeal?)
    case SURVEYOR => IsForEveryone(a) || (a.Register? && a.registration.NewParcel?)
    case CITIZEN => IsForEveryone(a) || (a.OnTransfer? && a.transferring.NewTransfer?)
    case PUBLIC_VERIFIER => IsForEveryone(a)
  }

  lemma {:induction false} HandlersNeverForbid(sys: Settings, s: State, c: Call)
    ensures c.action.Register? ==> DoRegister(sys, s, c, c.action.registration).1 != Forbidden
    ensures c.action.OnTransfer? ==> DoTransfer(s, c, c.action.transferring).1 != Forbidden
    ensures c.action.OnReview? ==> DoReview(sys, s, c, c.action.reviewing).1 != Forbidden
    ensures c.action.OnDispute? ==> DoDispute(s, c, c.action.disputing).1 != Forbidden
  {
    hide Emit, ScoreNow, OpenDispute, FreezeTarget, ReliefTarget, TitleTaken, NextTitleNo, Unfreeze, WithStatus, Seller;
  }

  /** A request is refused, and then changes nothing, exactly when the role does not have it. */
  lemma {:induction false} ForbiddenIff(sys: Settings, s: State, c: Call)
    requires Enabled(s, c)
    ensures Handle(sys, s, c).1 == Forbidden <==> !MayAsk(c.user.role, c.action)
    ensures Handle(sys, s, c).1 == Forbidden ==> Handle(sys, s, c).0 == s
  {
    hide DoRegister, DoTransfer, DoReview, DoDispute, DoWork, Enabled;
    HandlersNeverForbid(sys, s, c);
    RoleHasIt(c.user, c.action);
  }

  lemma {:induction false} RoleHasIt(user: User, a: Action)
    ensures HasRole(user, Allowed(a)) <==> MayAsk(user.role, a)
  {
  }

  /** What has been refused has changed nothing but the time. */
  lemma {:induction false} WhoeverActsMay(sys: Settings, s: State, c: Call)
    requires Enabled(s, c) && Step(sys, s, c) != s.(clock := c.now)
    ensures MayAsk(c.user.role, c.action)
  {
    hide Handle, MayAsk;
    ForbiddenIff(sys, s, c);
  }
}
