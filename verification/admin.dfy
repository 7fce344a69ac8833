/** The administrator's review decisions (Controllers/AdminController.cs).
    Each handler looks a record up, applies an "approve" or "reject" decision
    to it from whatever status it is in, and writes one line to the admin
    activity log; any other decision string leaves both untouched. */
module Admin {

  import opened Common
  import opened Clock
  import opened Text
  import opened Profiles
  import opened Mining
  import opened Infrastructure
  import opened Tax

  /** An `Investor` row (navigation collections left out). */
  datatype Investor = Investor(
    id: int,
    companyName: NullableString,
    contactPerson: NullableString,
    email: NullableString,
    phone: NullableString,
    country: NullableString,
    businessDescription: NullableString,
    investmentCapacity: real,
    preferredSectors: NullableString,
    verificationStatus: NullableString,
    verificationDocuments: NullableString,
    registrationDate: DateTime,
    verificationDate: Option<DateTime>,
    adminComments: NullableString,
    rejectionReason: NullableString,
    isActive: bool)

  /** The posted `decision` string as the handlers read it. */
  datatype Decision = Approve | Reject | Other

  function ReadDecision(decision: NullableString): (d: Decision)
    ensures d == Approve <==> decision == Some("approve")
    ensures d == Reject <==> decision == Some("reject")
    ensures decision.None? ==> d == Other
  {
    if decision == Some("approve") then Approve
    else if decision == Some("reject") then Reject
    else Other
  }

  /** A reviewed record together with the activity log after the review. */
  datatype Reviewed<T> = Reviewed(record: T, log: seq<AdminActivity>)

  /** The name recorded as the acting administrator. */
  function Actor(caller: Caller): (name: string)
    ensures caller.identityName.Some? ==> name == caller.identityName.value
    ensures caller.identityName.None? ==> name == "System"
  {
    caller.identityName.GetOr("System")
  }

  /** `LogAdminActivity`: appends one entry stamped with the actor and the time. */
  function LogActivity(log: seq<AdminActivity>, action: string, description: string, caller: Caller, now: DateTime)
    : (r: seq<AdminActivity>)
    ensures |r| == |log| + 1 && r[..|log|] == log
    ensures r[|log|].action == action && r[|log|].description == description
    ensures r[|log|].adminUser == Actor(caller) && r[|log|].createdDate == now
  {
    log + [AdminActivity(action, description, Actor(caller), now)]
  }

  /** The log grows by exactly one entry for a recognised decision and not at
      all otherwise, and what was logged before is never altered. */
  predicate LogsOnce(before: seq<AdminActivity>, after: seq<AdminActivity>, d: Decision) {
    && |after| == |before| + (if d == Other then 0 else 1)
    && after[..|before|] == before
  }

  // ----------------------------------------------------------------- miners

  /** POST `ApproveMiner`. Approval activates the licence from now for two
      years (`AddYears`, which fails past year 9999, before anything is
      saved); rejection records the notes. */
  function ApproveMiner(stored: Option<Miner>, decision: NullableString, notes: NullableString,
                        caller: Caller, log: seq<AdminActivity>, now: DateTime): (r: Reply<Reviewed<Miner>>)
    requires Valid(now)
    ensures r.Done? || r.NotFound? || r.Crashed?
    ensures r.NotFound? <==> stored.None?
    ensures r.Crashed? <==> stored.Some? && ReadDecision(decision) == Approve && now.year + 2 > 9999
    ensures r.Done? ==> LogsOnce(log, r.state.log, ReadDecision(decision))
    ensures r.Done? && ReadDecision(decision) == Other ==> r.state.record == stored.value
    ensures r.Done? && ReadDecision(decision) == Approve ==>
      var m := r.state.record;
      && m.licenseStatus == Some("Active")
      && m.issueDate == Some(now)
      && m.expiryDate.Some? && m.expiryDate.value.year == now.year + 2
      && m.expiryDate.value.month == now.month && AtOrBefore(now, m.expiryDate.value)
      && m.expiryDate == AddYears(now, 2)
      && m.(licenseStatus := stored.value.licenseStatus, issueDate := stored.value.issueDate,
            expiryDate := stored.value.expiryDate) == stored.value
      && r.state.log[|log|].action == "Miner Approved"
    ensures r.Done? && ReadDecision(decision) == Reject ==>
      var m := r.state.record;
      && m.licenseStatus == Some("Rejected")
      && m.notes == notes
      && m.(licenseStatus := stored.value.licenseStatus, notes := stored.value.notes) == stored.value
      && r.state.log[|log|].action == "Miner Rejected"
  {
    if stored.None? then NotFound
    else
      var m := stored.value;
      match ReadDecision(decision)
      case Approve =>
        var expiry := AddYears(now, 2);
        if expiry.None? then Crashed
        else
          Done(Reviewed(m.(licenseStatus := Some("Active"), issueDate := Some(now), expiryDate := expiry),
                        LogActivity(log, "Miner Approved", "Approved miner registration for " + Render(m.fullName), caller, now)))
      case Reject =>
        Done(Reviewed(m.(licenseStatus := Some("Rejected"), notes := notes),
                      LogActivity(log, "Miner Rejected",
                                  "Rejected miner registration for " + Render(m.fullName) + ". Reason: " + Render(notes),
                                  caller, now)))
      case Other => Done(Reviewed(m, log))
  }

  /** The miner decisions do not look at the current licence status: two
      miners that differ only in status come out of the same decision alike. */
  lemma MinerDecisionIgnoresPriorStatus(m: Miner, s1: NullableString, s2: NullableString, decision: NullableString,
                                        notes: NullableString, caller: Caller, log: seq<AdminActivity>, now: DateTime)
    requires Valid(now)
    requires ReadDecision(decision) != Other
    ensures ApproveMiner(Some(m.(licenseStatus := s1)), decision, notes, caller, log, now)
         == ApproveMiner(Some(m.(licenseStatus := s2)), decision, notes, caller, log, now)
  {
  }

  // -------------------------------------------------------------- investors

  /** POST `ApproveInvestorDecision`: approval verifies the investor and keeps
      the notes as admin comments, rejection keeps them as the reason; both
      stamp the verification date. */
  function ApproveInvestorDecision(stored: Option<Investor>, decision: NullableString, notes: NullableString,
                                   caller: Caller, log: seq<AdminActivity>, now: DateTime): (r: Reply<Reviewed<Investor>>)
    ensures r.Done? || r.NotFound?
    ensures r.NotFound? <==> stored.None?
    ensures r.Done? ==> LogsOnce(log, r.state.log, ReadDecision(decision))
    ensures r.Done? && ReadDecision(decision) == Other ==> r.state.record == stored.value
    ensures r.Done? && ReadDecision(decision) == Approve ==>
      var i := r.state.record;
      && i.verificationStatus == Some("Verified")
      && i.verificationDate == Some(now)
      && i.adminComments == notes
      && i.(verificationStatus := stored.value.verificationStatus, verificationDate := stored.value.verificationDate,
            adminComments := stored.value.adminComments) == stored.value
      && r.state.log[|log|].action == "Investor Approved"
    ensures r.Done? && ReadDecision(decision) == Reject ==>
      var i := r.state.record;
      && i.verificationStatus == Some("Rejected")
      && i.verificationDate == Some(now)
      && i.rejectionReason == notes
      && i.(verificationStatus := stored.value.verificationStatus, verificationDate := stored.value.verificationDate,
            rejectionReason := stored.value.rejectionReason) == stored.value
      && r.state.log[|log|].action == "Investor Rejected"
  {
    if stored.None? then NotFound
    else
      var i := stored.value;
      match ReadDecision(decision)
      case Approve =>
        Done(Reviewed(i.(verificationStatus := Some("Verified"), verificationDate := Some(now), adminComments := notes),
                      LogActivity(log, "Investor Approved", "Approved investor registration for " + Render(i.companyName), caller, now)))
      case Reject =>
        Done(Reviewed(i.(verificationStatus := Some("Rejected"), verificationDate := Some(now), rejectionReason := notes),
                      LogActivity(log, "Investor Rejected",
                                  "Rejected investor registration for " + Render(i.companyName) + ". Reason: " + Render(notes),
                                  caller, now)))
      case Other => Done(Reviewed(i, log))
  }

  /** Like the miner decisions, the investor decisions do not look at the
      current verification state: investors that differ only in status and
      verification date come out of the same decision alike. */
  lemma InvestorDecisionIgnoresPriorStatus(i: Investor, s1: NullableString, s2: NullableString,
                                           d1: Option<DateTime>, d2: Option<DateTime>, decision: NullableString,
                                           notes: NullableString, caller: Caller, log: seq<AdminActivity>, now: DateTime)
    requires ReadDecision(decision) != Other
    ensures ApproveInvestorDecision(Some(i.(verificationStatus := s1, verificationDate := d1)), decision, notes, caller, log, now)
         == ApproveInvestorDecision(Some(i.(verificationStatus := s2, verificationDate := d2)), decision, notes, caller, log, now)
  {
  }

  // --------------------------------------------------------- infrastructure

  /** POST `ApproveInfrastructure`: approval stamps the approval date,
      rejection stores the notes. */
  function ApproveInfrastructure(stored: Option<Proposal>, decision: NullableString, notes: NullableString,
                                 caller: Caller, log: seq<AdminActivity>, now: DateTime): (r: Reply<Reviewed<Proposal>>)
    ensures r.Done? || r.NotFound?
    ensures r.NotFound? <==> stored.None?
    ensures r.Done? ==> LogsOnce(log, r.state.log, ReadDecision(decision))
    ensures r.Done? && ReadDecision(decision) == Other ==> r.state.record == stored.value
    ensures r.Done? && ReadDecision(decision) == Approve ==>
      var p := r.state.record;
      && HasStatus(p.status, Approved)
      && p.approvalDate == Some(now)
      && p.(status := stored.value.status, approvalDate := stored.value.approvalDate) == stored.value
      && r.state.log[|log|].action == "Infrastructure Approved"
    ensures r.Done? && ReadDecision(decision) == Reject ==>
      var p := r.state.record;
      && HasStatus(p.status, Rejected)
      && p.notes == notes
      && p.(status := stored.value.status, notes := stored.value.notes) == stored.value
      && r.state.log[|log|].action == "Infrastructure Rejected"
  {
    if stored.None? then NotFound
    else
      var p := stored.value;
      match ReadDecision(decision)
      case Approve =>
        Done(Reviewed(p.(status := Some(Approved), approvalDate := Some(now)),
                      LogActivity(log, "Infrastructure Approved", "Approved infrastructure project: " + Render(p.title), caller, now)))
      case Reject =>
        Done(Reviewed(p.(status := Some(Rejected), notes := notes),
                      LogActivity(log, "Infrastructure Rejected",
                                  "Rejected infrastructure project: " + Render(p.title) + ". Reason: " + Render(notes),
                                  caller, now)))
      case Other => Done(Reviewed(p, log))
  }

  /** An admin approval of a proposal, whatever its earlier status, is what
      lets a signed-in user with a complete profile open its funding form. */
  lemma AdminApprovalOpensFunding(p: Proposal, notes: NullableString, caller: Caller, requester: Caller,
                                  log: seq<AdminActivity>, now: DateTime)
    requires requester.profile.Some? && IsProfileComplete(requester.profile.value)
    ensures var r := ApproveInfrastructure(Some(p), Some("approve"), notes, caller, log, now);
      StartFundingRequest(true, Some(r.state.record), p.id, requester) == ShowForm(p.id)
    ensures var r := ApproveInfrastructure(Some(p), Some("reject"), notes, caller, log, now);
      StartFundingRequest(true, Some(r.state.record), p.id, requester) == ProposalNotApproved
  {
  }

  // ------------------------------------------------------------- tax returns

  /** POST `ReviewTaxReturn`: the decision sets the calculation's status and
      nothing else; the notes only reach the log. */
  function ReviewTaxReturn(stored: Option<TaxCalculation>, decision: NullableString, notes: NullableString,
                           caller: Caller, log: seq<AdminActivity>, now: DateTime): (r: Reply<Reviewed<TaxCalculation>>)
    ensures r.Done? || r.NotFound?
    ensures r.NotFound? <==> stored.None?
    ensures r.Done? ==> LogsOnce(log, r.state.log, ReadDecision(decision))
    ensures r.Done? ==> r.state.record.(status := stored.value.status) == stored.value
    ensures r.Done? && ReadDecision(decision) == Approve ==> r.state.record.status == "Approved"
    ensures r.Done? && ReadDecision(decision) == Reject ==> r.state.record.status == "Rejected"
    ensures r.Done? && ReadDecision(decision) == Other ==> r.state.record == stored.value
    ensures r.Done? && ReadDecision(decision) == Reject ==>
      r.state.log[|log|].description
        == "Rejected tax calculation for transaction " + IntToString(stored.value.transactionId) + ". Reason: " + Render(notes)
  {
    if stored.None? then NotFound
    else
      var t := stored.value;
      match ReadDecision(decision)
      case Approve =>
        Done(Reviewed(t.(status := "Approved"),
                      LogActivity(log, "Tax Calculation Approved",
                                  "Approved tax calculation for transaction " + IntToString(t.transactionId), caller, now)))
      case Reject =>
        Done(Reviewed(t.(status := "Rejected"),
                      LogActivity(log, "Tax Calculation Rejected",
                                  "Rejected tax calculation for transaction " + IntToString(t.transactionId)
                                    + ". Reason: " + Render(notes), caller, now)))
      case Other => Done(Reviewed(t, log))
  }

  /** Repeating a decision changes no record further: only the log grows. */
  lemma RepeatedDecisionOnlyLogs(t: TaxCalculation, m: Miner, decision: NullableString, notes: NullableString,
                                 caller: Caller, log: seq<AdminActivity>, now: DateTime)
    requires Valid(now)
    ensures var once := ReviewTaxReturn(Some(t), decision, notes, caller, log, now).state;
      ReviewTaxReturn(Some(once.record), decision, notes, caller, once.log, now).state.record == once.record
    ensures var once := ApproveMiner(Some(m), decision, notes, caller, log, now);
      once.Done? ==> ApproveMiner(Some(once.state.record), decision, notes, caller, once.state.log, now).state.record
                       == once.state.record
  {
  }
}
