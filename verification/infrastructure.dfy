/** The infrastructure controller (Controllers/InfrastructureController.cs):
    proposals move through Draft, Submitted, Approved and Rejected, and a
    funding request for an approved proposal moves from Pending to Approved,
    Rejected or Funded. Each action is a function from the record it looked
    up (an `Option`, `None` when the lookup found nothing), the caller and
    the posted values to the `Reply` it ends in. */
module Infrastructure {

  import opened Common
  import opened Clock
  import opened Profiles

  /** An `InfrastructureProposal` row (navigation properties left out). */
  datatype Proposal = Proposal(
    id: int,
    title: NullableString,
    description: NullableString,
    estimatedCost: real,
    locationId: int,
    proposerId: int,
    documentationUrl: NullableString,
    status: NullableString,
    submissionDate: DateTime,
    approvalDate: Option<DateTime>,
    categoryId: int,
    expectedImpact: NullableString,
    expectedBeneficiaries: Option<int>,
    expectedTimelineMonths: Option<int>,
    createdAt: DateTime,
    updatedAt: DateTime,
    notes: NullableString)

  /** A `FundingRequest` row (navigation properties left out). */
  datatype FundingRequest = FundingRequest(
    id: int,
    proposalId: int,
    requesterId: int,
    amountRequested: real,
    amountApproved: Option<real>,
    fundingType: NullableString,
    interestRate: Option<real>,
    equityPercentage: Option<real>,
    repaymentTermMonths: Option<int>,
    status: NullableString,
    rejectionReason: NullableString,
    submissionDate: DateTime,
    adminComments: NullableString,
    approvalDate: Option<DateTime>,
    fundingDate: Option<DateTime>,
    isShariaCompliant: bool,
    profitSharingTerms: NullableString,
    createdAt: DateTime,
    updatedAt: DateTime,
    recipientAccountNumber: NullableString,
    recipientBankCode: NullableString,
    recipientAccountName: NullableString,
    disbursementTransferId: NullableString,
    disbursementReference: NullableString,
    disbursementDate: Option<DateTime>,
    disbursementStatus: NullableString)

  /** The payment gateway's answer to a transfer request; the call itself is
      outside the model, its answer is an input. */
  datatype TransferResponse = TransferResponse(status: NullableString, transferId: NullableString, reference: NullableString)

  const Draft := "Draft"
  const Submitted := "Submitted"
  const Approved := "Approved"
  const Rejected := "Rejected"
  const Pending := "Pending"
  const Funded := "Funded"
  const NotApplicable := "N/A"
  const TransferSucceeded := "success"

  const AlreadyProcessed := "This funding request has already been processed."
  const ExceedsRequest := "Approved amount cannot exceed requested amount."

  /** The five profile fields a funding requester must have filled in. */
  predicate IsProfileComplete(p: UserProfile) {
    && !IsNullOrEmpty(p.firstName)
    && !IsNullOrEmpty(p.lastName)
    && !IsNullOrEmpty(p.phoneNumber)
    && !IsNullOrEmpty(p.email)
    && !IsNullOrEmpty(p.role)
  }

  predicate HasStatus(status: NullableString, s: string) {
    status == Some(s)
  }

  /** May the caller act on a proposal whose stored proposer is `proposerId`? */
  predicate OwnsOrAdmin(caller: Caller, proposerId: int) {
    caller.profile.Some? && (caller.profile.value.id == proposerId || caller.isAdmin)
  }

  // ------------------------------------------------------------ funding form

  /** Where the GET of the funding-request form leads. */
  datatype FundingForm =
    | LoginRedirect
    | ProposalMissing
    | ProposalNotApproved
    | CompleteProfileFirst
    | ShowForm(proposalId: int)

  /** GET `CreateFundingRequest`: the form is shown only to a signed-in caller
      with a complete profile, and only for an existing approved proposal. */
  function StartFundingRequest(authenticated: bool, proposal: Option<Proposal>, proposalId: int, caller: Caller): (r: FundingForm)
    ensures !authenticated ==> r == LoginRedirect
    ensures authenticated && proposal.None? ==> r == ProposalMissing
    ensures r == ProposalNotApproved <==>
      authenticated && proposal.Some? && !HasStatus(proposal.value.status, Approved)
    ensures r.ShowForm? <==>
      && authenticated
      && proposal.Some? && HasStatus(proposal.value.status, Approved)
      && caller.profile.Some? && IsProfileComplete(caller.profile.value)
    ensures r == CompleteProfileFirst <==>
      && authenticated
      && proposal.Some? && HasStatus(proposal.value.status, Approved)
      && (caller.profile.None? || !IsProfileComplete(caller.profile.value))
    ensures r.ShowForm? ==> r.proposalId == proposalId
  {
    if !authenticated then LoginRedirect
    else if proposal.None? then ProposalMissing
    else if proposal.value.status != Some(Approved) then ProposalNotApproved
    else if caller.profile.None? || !IsProfileComplete(caller.profile.value) then CompleteProfileFirst
    else ShowForm(proposalId)
  }

  /** For an approved proposal, a signed-in caller whose profile lacks any one
      of first name, last name, phone number, email or role is sent to
      complete it; with all five present the form is shown. */
  lemma MissingProfileFieldBlocksFunding(p: Proposal, caller: Caller)
    requires HasStatus(p.status, Approved) && caller.profile.Some?
    ensures var f := caller.profile.value;
      && (IsNullOrEmpty(f.firstName) || IsNullOrEmpty(f.lastName) || IsNullOrEmpty(f.phoneNumber)
          || IsNullOrEmpty(f.email) || IsNullOrEmpty(f.role)
          <==> StartFundingRequest(true, Some(p), p.id, caller) == CompleteProfileFirst)
      && (StartFundingRequest(true, Some(p), p.id, caller) == CompleteProfileFirst
          <==> !StartFundingRequest(true, Some(p), p.id, caller).ShowForm?)
  {
  }

  /** A Sharia-compliant request must state its profit-sharing terms. */
  predicate ShariaTermsMissing(form: FundingRequest) {
    form.isShariaCompliant && IsNullOrEmpty(form.profitSharingTerms)
  }

  /** POST `CreateFundingRequest`. `bindingValid` is the verdict of the
      attribute validation on the fields the action does not exempt. A saved
      request is Pending, belongs to the caller, and has non-empty
      profit-sharing terms and rejection reason ("N/A" standing in for the
      absent ones), with the posted values kept everywhere else. */
  function CreateFundingRequest(form: FundingRequest, bindingValid: bool, caller: Caller, now: DateTime): (r: Reply<FundingRequest>)
    ensures r.Done? || r.Invalid? || r.ProfileRequired?
    ensures r.Invalid? <==> !bindingValid || ShariaTermsMissing(form)
    ensures r.Done? <==> bindingValid && !ShariaTermsMissing(form) && caller.profile.Some?
    ensures r.Done? ==>
      var x := r.state;
      && HasStatus(x.status, Pending)
      && x.requesterId == caller.profile.value.id
      && x.submissionDate == now && x.createdAt == now && x.updatedAt == now
      && !IsNullOrEmpty(x.profitSharingTerms)
      && !IsNullOrEmpty(x.rejectionReason)
      && (x.isShariaCompliant ==> x.profitSharingTerms == form.profitSharingTerms)
      && (!x.isShariaCompliant ==> x.profitSharingTerms == Some(NotApplicable))
      && (!IsNullOrEmpty(form.rejectionReason) ==> x.rejectionReason == form.rejectionReason)
      && (IsNullOrEmpty(form.rejectionReason) ==> x.rejectionReason == Some(NotApplicable))
      && x.(requesterId := form.requesterId, status := form.status, submissionDate := form.submissionDate,
            createdAt := form.createdAt, updatedAt := form.updatedAt,
            profitSharingTerms := form.profitSharingTerms, rejectionReason := form.rejectionReason) == form
  {
    if !bindingValid || ShariaTermsMissing(form) then Invalid
    else if caller.profile.None? then ProfileRequired
    else
      var terms := if !form.isShariaCompliant || IsNullOrEmpty(form.profitSharingTerms) then Some(NotApplicable) else form.profitSharingTerms;
      var reason := if IsNullOrEmpty(form.rejectionReason) then Some(NotApplicable) else form.rejectionReason;
      Done(form.(requesterId := caller.profile.value.id, status := Some(Pending),
                 submissionDate := now, createdAt := now, updatedAt := now,
                 profitSharingTerms := terms, rejectionReason := reason))
  }

  // --------------------------------------------------------- funding decisions

  /** `b` differs from `a` at most in the fields an admin decision writes. */
  predicate DecisionFieldsOnly(a: FundingRequest, b: FundingRequest) {
    b.(status := a.status, amountApproved := a.amountApproved, adminComments := a.adminComments,
       approvalDate := a.approvalDate, recipientAccountNumber := a.recipientAccountNumber,
       recipientBankCode := a.recipientBankCode, recipientAccountName := a.recipientAccountName,
       disbursementTransferId := a.disbursementTransferId, disbursementReference := a.disbursementReference,
       disbursementStatus := a.disbursementStatus) == a
  }

  /** The first save of `ApproveFunding`: the request as approved. The account
      name is set to the account number, as the action does. */
  function Approval(req: FundingRequest, amount: Option<real>, comments: NullableString,
                    account: NullableString, bankCode: NullableString, now: DateTime): FundingRequest
  {
    req.(status := Some(Approved), amountApproved := amount, adminComments := comments,
         approvalDate := Some(now), recipientAccountNumber := account,
         recipientBankCode := bankCode, recipientAccountName := account)
  }

  /** POST `ApproveFunding`. Only a Pending request within its requested amount
      is approved. Approval is saved first; with no approved amount the action
      then fails dereferencing it (`Threw`, the approval already saved);
      otherwise the transfer is requested and, when the gateway answers
      "success", the request becomes Funded with its disbursement recorded. */
  function ApproveFunding(stored: Option<FundingRequest>, amountApproved: Option<real>, adminComments: NullableString,
                          recipientAccount: NullableString, bankCode: NullableString, now: DateTime,
                          transfer: TransferResponse): (r: Reply<FundingRequest>)
    ensures stored.None? ==> r == NotFound
    ensures stored.Some? && !HasStatus(stored.value.status, Pending) ==> r == Refused(AlreadyProcessed)
    ensures (&& stored.Some? && HasStatus(stored.value.status, Pending)
             && amountApproved.Some? && amountApproved.value > stored.value.amountRequested) ==> r == Refused(ExceedsRequest)
    ensures r.Done? || r.Threw? <==>
      && stored.Some? && HasStatus(stored.value.status, Pending)
      && (amountApproved.None? || amountApproved.value <= stored.value.amountRequested)
    ensures r.Threw? <==> (r.Done? || r.Threw?) && amountApproved.None?
    ensures r.Threw? ==> HasStatus(r.saved.status, Approved) && DecisionFieldsOnly(stored.value, r.saved)
    ensures r.Done? ==>
      var x := r.state;
      && DecisionFieldsOnly(stored.value, x)
      && x.amountApproved == amountApproved && x.amountApproved.value <= x.amountRequested
      && x.adminComments == adminComments && x.approvalDate == Some(now)
      && x.recipientAccountNumber == recipientAccount && x.recipientBankCode == bankCode
      && x.recipientAccountName == recipientAccount
      && (HasStatus(x.status, Funded) <==> transfer.status == Some(TransferSucceeded))
      && (HasStatus(x.status, Funded) || HasStatus(x.status, Approved))
    ensures r.Done? && HasStatus(r.state.status, Funded) ==>
      && HasStatus(r.state.disbursementStatus, Pending)
      && r.state.disbursementTransferId == transfer.transferId
      && r.state.disbursementReference == transfer.reference
    ensures r.Done? && HasStatus(r.state.status, Approved) ==>
      && r.state.disbursementStatus == stored.value.disbursementStatus
      && r.state.disbursementTransferId == stored.value.disbursementTransferId
      && r.state.disbursementReference == stored.value.disbursementReference
  {
    if stored.None? then NotFound
    else
      var req := stored.value;
      if req.status != Some(Pending) then Refused(AlreadyProcessed)
      else if amountApproved.Some? && amountApproved.value > req.amountRequested then Refused(ExceedsRequest)
      else
        var approved := Approval(req, amountApproved, adminComments, recipientAccount, bankCode, now);
        if amountApproved.None? then Threw(approved)
        else if transfer.status == Some(TransferSucceeded) then
          Done(approved.(disbursementTransferId := transfer.transferId, disbursementReference := transfer.reference,
                         disbursementStatus := Some(Pending), status := Some(Funded)))
        else Done(approved)
  }

  /** POST `RejectFunding`: only a Pending request is rejected; the reason is
      stored as the admin comment and the decision date recorded. */
  function RejectFunding(stored: Option<FundingRequest>, reason: NullableString, now: DateTime): (r: Reply<FundingRequest>)
    ensures r.Done? || r.NotFound? || r == Refused(AlreadyProcessed)
    ensures stored.None? <==> r.NotFound?
    ensures r.Done? <==> stored.Some? && HasStatus(stored.value.status, Pending)
    ensures r.Done? ==>
      && HasStatus(r.state.status, Rejected)
      && r.state.adminComments == reason
      && r.state.approvalDate == Some(now)
      && r.state.(status := stored.value.status, adminComments := stored.value.adminComments,
                  approvalDate := stored.value.approvalDate) == stored.value
  {
    if stored.None? then NotFound
    else if stored.value.status != Some(Pending) then Refused(AlreadyProcessed)
    else Done(stored.value.(status := Some(Rejected), adminComments := reason, approvalDate := Some(now)))
  }

  /** What an approval or rejection left in the table, if anything. */
  function Recorded(r: Reply<FundingRequest>): Option<FundingRequest> {
    match r
    case Done(x) => Some(x)
    case Threw(x) => Some(x)
    case _ => None
  }

  /** A funding decision is final: once an approval or a rejection has been
      recorded, every later approval or rejection of that request is refused
      as already processed. */
  lemma FundingDecisionIsFinal(req: FundingRequest, first: Reply<FundingRequest>,
                               amount: Option<real>, comments: NullableString, account: NullableString,
                               bankCode: NullableString, transfer: TransferResponse,
                               reason: NullableString, now: DateTime, later: DateTime)
    requires first == ApproveFunding(Some(req), amount, comments, account, bankCode, now, transfer)
          || first == RejectFunding(Some(req), reason, now)
    requires Recorded(first).Some?
    ensures HasStatus(req.status, Pending)
    ensures forall a, c, acc, b, t :: ApproveFunding(Recorded(first), a, c, acc, b, later, t) == Refused(AlreadyProcessed)
    ensures forall why :: RejectFunding(Recorded(first), why, later) == Refused(AlreadyProcessed)
  {
    var x := Recorded(first).value;
    assert HasStatus(x.status, Approved) || HasStatus(x.status, Funded) || HasStatus(x.status, Rejected);
  }

  /** A freshly created request is open to a decision: neither approval nor
      rejection refuses it as already processed. */
  lemma CreatedRequestAwaitsDecision(form: FundingRequest, bindingValid: bool, caller: Caller, now: DateTime,
                                     reason: NullableString, later: DateTime)
    requires CreateFundingRequest(form, bindingValid, caller, now).Done?
    ensures RejectFunding(Some(CreateFundingRequest(form, bindingValid, caller, now).state), reason, later).Done?
    ensures forall a, c, acc, b, t ::
      ApproveFunding(Some(CreateFundingRequest(form, bindingValid, caller, now).state), a, c, acc, b, later, t)
        != Refused(AlreadyProcessed)
  {
  }

  // --------------------------------------------------------------- proposals

  /** POST `CreateProposal`. `modelValid` is the form's validation verdict
      after the exemptions the action makes. A saved proposal is a Draft of
      the caller's, stamped with the current time. */
  function CreateProposal(form: Proposal, modelValid: bool, caller: Caller, now: DateTime): (r: Reply<Proposal>)
    ensures r.Done? || r.Invalid? || r.ProfileRequired?
    ensures r.Invalid? <==> !modelValid
    ensures r.ProfileRequired? <==> modelValid && caller.profile.None?
    ensures r.Done? ==>
      && HasStatus(r.state.status, Draft)
      && r.state.proposerId == caller.profile.value.id
      && r.state.createdAt == now && r.state.updatedAt == now
      && r.state.(status := form.status, proposerId := form.proposerId,
                  createdAt := form.createdAt, updatedAt := form.updatedAt) == form
  {
    if !modelValid then Invalid
    else if caller.profile.None? then ProfileRequired
    else Done(form.(proposerId := caller.profile.value.id, status := Some(Draft), createdAt := now, updatedAt := now))
  }

  /** The record an accepted edit stores: the posted proposal, keeping the
      stored creation time and document link, stamped with the current time. */
  function EditedProposal(posted: Proposal, existing: Proposal, now: DateTime): Proposal {
    posted.(createdAt := existing.createdAt, updatedAt := now, documentationUrl := existing.documentationUrl)
  }

  /** POST `EditProposal` as the action is written: the ownership test reads
      `ProposerId` from the POSTED form, and the stored proposal is only
      consulted afterwards (a missing one makes the action fail). */
  function EditProposalAsWritten(id: int, posted: Proposal, modelValid: bool, caller: Caller,
                                 existing: Option<Proposal>, now: DateTime): (r: Reply<Proposal>)
    ensures r.Done? || r.NotFound? || r.Forbidden? || r.Invalid? || r.Crashed?
    ensures r.NotFound? <==> id != posted.id
    ensures r.Forbidden? <==> id == posted.id && !OwnsOrAdmin(caller, posted.proposerId)
    ensures r.Done? <==> id == posted.id && OwnsOrAdmin(caller, posted.proposerId) && modelValid && existing.Some?
    ensures r.Done? ==>
      r.state.(createdAt := posted.createdAt, updatedAt := posted.updatedAt,
               documentationUrl := posted.documentationUrl) == posted
    ensures r.Done? ==>
      && r.state.proposerId == posted.proposerId
      && r.state.createdAt == existing.value.createdAt
      && r.state.documentationUrl == existing.value.documentationUrl
      && r.state.updatedAt == now
  {
    if id != posted.id then NotFound
    else if !OwnsOrAdmin(caller, posted.proposerId) then Forbidden
    else if !modelValid then Invalid
    else if existing.None? then Crashed
    else Done(EditedProposal(posted, existing.value, now))
  }

  /** The edit as written lets a caller who is neither the proposer nor an
      admin overwrite someone else's proposal, and hand it to themselves, by
      posting their own profile id as `ProposerId`. */
  lemma EditProposalTrustsPostedOwner()
    ensures
      var stored := Proposal(1, Some("Bridge"), None, 0.0, 1, 5, None, Some(Approved),
                             DateTime(2025, 1, 1, 0), None, 1, None, None, None,
                             DateTime(2025, 1, 1, 0), DateTime(2025, 1, 1, 0), None);
      var intruder := Caller(Some("mallory"), Some(UserProfile(7, None, None, None, None, None, None)), false);
      var posted := stored.(title := Some("Mine now"), proposerId := 7);
      var r := EditProposalAsWritten(1, posted, true, intruder, Some(stored), DateTime(2025, 2, 1, 0));
      && !OwnsOrAdmin(intruder, stored.proposerId)
      && r.Done?
      && r.state.proposerId == 7 && r.state.proposerId != stored.proposerId
  {
  }

  /** POST `EditProposal` with the ownership test applied to the STORED
      proposal, as the GET of the same form does: only its proposer or an
      admin may edit it. */
  function EditProposal(id: int, posted: Proposal, modelValid: bool, caller: Caller,
                        existing: Option<Proposal>, now: DateTime): (r: Reply<Proposal>)
    ensures r.Done? || r.NotFound? || r.Forbidden? || r.Invalid?
    ensures r.NotFound? <==> id != posted.id || existing.None?
    ensures r.Done? <==> id == posted.id && existing.Some? && OwnsOrAdmin(caller, existing.value.proposerId) && modelValid
    ensures r.Done? ==>
      r.state.(createdAt := posted.createdAt, updatedAt := posted.updatedAt,
               documentationUrl := posted.documentationUrl) == posted
    ensures r.Done? ==>
      && r.state.createdAt == existing.value.createdAt
      && r.state.documentationUrl == existing.value.documentationUrl
      && r.state.updatedAt == now
  {
    if id != posted.id || existing.None? then NotFound
    else if !OwnsOrAdmin(caller, existing.value.proposerId) then Forbidden
    else if !modelValid then Invalid
    else Done(EditedProposal(posted, existing.value, now))
  }

  /** With the corrected test, an edit that goes through was made by the
      stored proposer or by an admin, whatever owner the form names. */
  lemma EditProposalRespectsStoredOwner(id: int, posted: Proposal, modelValid: bool, caller: Caller,
                                        existing: Option<Proposal>, now: DateTime)
    requires EditProposal(id, posted, modelValid, caller, existing, now).Done?
    ensures existing.Some?
    ensures caller.isAdmin || caller.profile.value.id == existing.value.proposerId
  {
  }

  /** POST `SubmitProposal`: the proposer or an admin submits, from any status. */
  function SubmitProposal(stored: Option<Proposal>, caller: Caller, now: DateTime): (r: Reply<Proposal>)
    ensures r.Done? || r.NotFound? || r.Forbidden?
    ensures r.NotFound? <==> stored.None?
    ensures r.Done? <==> stored.Some? && OwnsOrAdmin(caller, stored.value.proposerId)
    ensures r.Done? ==>
      && HasStatus(r.state.status, Submitted)
      && r.state.submissionDate == now && r.state.updatedAt == now
      && r.state.(status := stored.value.status, submissionDate := stored.value.submissionDate,
                  updatedAt := stored.value.updatedAt) == stored.value
  {
    if stored.None? then NotFound
    else if !OwnsOrAdmin(caller, stored.value.proposerId) then Forbidden
    else Done(stored.value.(status := Some(Submitted), submissionDate := now, updatedAt := now))
  }

  /** POST `ApproveProposal` (admins only): Approved from any status. */
  function ApproveProposal(stored: Option<Proposal>, now: DateTime): (r: Reply<Proposal>)
    ensures r.Done? <==> stored.Some?
    ensures r.Done? || r.NotFound?
    ensures r.Done? ==>
      && HasStatus(r.state.status, Approved)
      && r.state.approvalDate == Some(now) && r.state.updatedAt == now
      && r.state.(status := stored.value.status, approvalDate := stored.value.approvalDate,
                  updatedAt := stored.value.updatedAt) == stored.value
  {
    if stored.None? then NotFound
    else Done(stored.value.(status := Some(Approved), approvalDate := Some(now), updatedAt := now))
  }

  /** POST `RejectProposal` (admins only): Rejected from any status. The reason
      is accepted but not stored anywhere. */
  function RejectProposal(stored: Option<Proposal>, reason: NullableString, now: DateTime): (r: Reply<Proposal>)
    ensures r.Done? <==> stored.Some?
    ensures r.Done? || r.NotFound?
    ensures r.Done? ==>
      && HasStatus(r.state.status, Rejected)
      && r.state.updatedAt == now
      && r.state.(status := stored.value.status, updatedAt := stored.value.updatedAt) == stored.value
  {
    if stored.None? then NotFound
    else Done(stored.value.(status := Some(Rejected), updatedAt := now))
  }

  /** Approval is what opens a proposal to funding requests, and since no
      transition checks the prior status, a later submission (or rejection)
      closes it again while the old approval date stays on the record. */
  lemma ApprovalGatesFunding(p: Proposal, caller: Caller, later: Caller, now: DateTime, t: DateTime)
    requires caller.profile.Some? && IsProfileComplete(caller.profile.value)
    requires OwnsOrAdmin(later, p.proposerId)
    ensures
      var approved := ApproveProposal(Some(p), now).state;
      && StartFundingRequest(true, Some(approved), p.id, caller) == ShowForm(p.id)
      && var resubmitted := SubmitProposal(Some(approved), later, t).state;
         && StartFundingRequest(true, Some(resubmitted), p.id, caller) == ProposalNotApproved
         && resubmitted.approvalDate == Some(now)
  {
  }

  /** A new proposal is a Draft and cannot be funded: neither it nor its
      submitted version opens the funding form, and only an approval does. */
  lemma NewProposalAwaitsApproval(form: Proposal, caller: Caller, requester: Caller, now: DateTime, t: DateTime)
    requires CreateProposal(form, true, caller, now).Done?
    requires requester.profile.Some? && IsProfileComplete(requester.profile.value)
    ensures var p := CreateProposal(form, true, caller, now).state;
      && StartFundingRequest(true, Some(p), p.id, requester) == ProposalNotApproved
      && StartFundingRequest(true, Some(SubmitProposal(Some(p), caller, t).state), p.id, requester)
         == ProposalNotApproved
      && StartFundingRequest(true, Some(ApproveProposal(Some(p), t).state), p.id, requester) == ShowForm(p.id)
  {
  }

  /** A rejection closes the funding form whatever the proposal's history,
      and rejecting again changes nothing but the update time. */
  lemma RejectionClosesFunding(p: Proposal, requester: Caller, reason: NullableString, again: NullableString,
                               now: DateTime, t: DateTime)
    ensures var rejected := RejectProposal(Some(p), reason, now).state;
      && StartFundingRequest(true, Some(rejected), p.id, requester) == ProposalNotApproved
      && RejectProposal(Some(rejected), again, t).state == rejected.(updatedAt := t)
  {
  }
}
