/** Investment opportunities posted by local partners
    (Controllers/InvestmentOpportunityController.cs): creation stamps the
    owner and the Open status, and only the owner's edit goes through, as a
    partial update that ignores blank texts and non-positive numbers. */
module Opportunities {

  import opened Common
  import opened Clock
  import opened Profiles

  /** An `InvestmentOpportunity` row (navigation properties left out). */
  datatype Opportunity = Opportunity(
    id: int,
    title: NullableString,
    description: NullableString,
    sector: NullableString,
    requiredInvestment: real,
    expectedRoi: real,
    investmentPeriodMonths: int,
    riskLevel: NullableString,
    businessPlan: NullableString,
    financialProjections: NullableString,
    locationId: int,
    localPartnerId: Option<int>,
    investorId: Option<int>,
    status: NullableString,
    createdAt: DateTime,
    updatedAt: DateTime)

  const Open := "Open"

  /** POST `Create`: no validation of the form; the caller's profile becomes the
      local partner and the opportunity opens now. */
  function Create(form: Opportunity, caller: Caller, now: DateTime): (r: Reply<Opportunity>)
    ensures r.Done? || r.ProfileRequired?
    ensures r.Done? <==> caller.profile.Some?
    ensures r.Done? ==>
      && r.state.localPartnerId == Some(caller.profile.value.id)
      && r.state.status == Some(Open)
      && r.state.createdAt == now && r.state.updatedAt == now
      && r.state.(localPartnerId := form.localPartnerId, status := form.status,
                  createdAt := form.createdAt, updatedAt := form.updatedAt) == form
  {
    if caller.profile.None? then ProfileRequired
    else Done(form.(localPartnerId := Some(caller.profile.value.id), status := Some(Open), createdAt := now, updatedAt := now))
  }

  /** Is `o` owned by the caller's profile? */
  predicate OwnedBy(o: Opportunity, profile: UserProfile) {
    o.localPartnerId == Some(profile.id)
  }

  /** A posted text replaces the stored one unless it is null or white space. */
  function OverwriteText(stored: NullableString, posted: NullableString): (r: NullableString)
    ensures r == stored || r == posted
    ensures !IsNullOrWhiteSpace(stored) ==> !IsNullOrWhiteSpace(r)
  {
    if IsNullOrWhiteSpace(posted) then stored else posted
  }

  /** The partial update of POST `Edit`. */
  function MergeOpportunity(stored: Opportunity, posted: Opportunity, now: DateTime): Opportunity {
    stored.(
      title := OverwriteText(stored.title, posted.title),
      description := OverwriteText(stored.description, posted.description),
      sector := OverwriteText(stored.sector, posted.sector),
      requiredInvestment := if posted.requiredInvestment > 0.0 then posted.requiredInvestment else stored.requiredInvestment,
      expectedRoi := if posted.expectedRoi > 0.0 then posted.expectedRoi else stored.expectedRoi,
      investmentPeriodMonths := if posted.investmentPeriodMonths > 0 then posted.investmentPeriodMonths else stored.investmentPeriodMonths,
      riskLevel := OverwriteText(stored.riskLevel, posted.riskLevel),
      locationId := if posted.locationId > 0 then posted.locationId else stored.locationId,
      updatedAt := now)
  }

  /** POST `Edit`. `stored` is the row with the routed id. The owner filter
      reads the caller's profile id, so a caller without a profile makes the
      lookup fail; a row that is missing or owned by someone else is NotFound. */
  function Edit(id: int, posted: Opportunity, caller: Caller, stored: Option<Opportunity>, now: DateTime): (r: Reply<Opportunity>)
    requires stored.Some? ==> stored.value.id == id
    ensures r.Done? || r.NotFound? || r.Crashed?
    ensures r.Crashed? <==> id == posted.id && caller.profile.None?
    ensures r.Done? <==> id == posted.id && caller.profile.Some? && stored.Some? && OwnedBy(stored.value, caller.profile.value)
    ensures r.Done? ==>
      var o := r.state;
      // what the edit never touches
      && o.id == stored.value.id
      && o.status == stored.value.status
      && o.localPartnerId == stored.value.localPartnerId
      && o.investorId == stored.value.investorId
      && o.businessPlan == stored.value.businessPlan
      && o.financialProjections == stored.value.financialProjections
      && o.createdAt == stored.value.createdAt
      && o.updatedAt == now
      // texts: taken unless blank
      && o.title == (if IsNullOrWhiteSpace(posted.title) then stored.value.title else posted.title)
      && o.description == (if IsNullOrWhiteSpace(posted.description) then stored.value.description else posted.description)
      && o.sector == (if IsNullOrWhiteSpace(posted.sector) then stored.value.sector else posted.sector)
      && o.riskLevel == (if IsNullOrWhiteSpace(posted.riskLevel) then stored.value.riskLevel else posted.riskLevel)
      // numbers: taken when positive
      && o.requiredInvestment == (if posted.requiredInvestment > 0.0 then posted.requiredInvestment else stored.value.requiredInvestment)
      && o.expectedRoi == (if posted.expectedRoi > 0.0 then posted.expectedRoi else stored.value.expectedRoi)
      && o.investmentPeriodMonths == (if posted.investmentPeriodMonths > 0 then posted.investmentPeriodMonths else stored.value.investmentPeriodMonths)
      && o.locationId == (if posted.locationId > 0 then posted.locationId else stored.value.locationId)
  {
    if id != posted.id then NotFound
    else if caller.profile.None? then Crashed
    else if stored.None? || !OwnedBy(stored.value, caller.profile.value) then NotFound
    else Done(MergeOpportunity(stored.value, posted, now))
  }

  /** An edit cannot blank a field: set texts stay non-blank and positive
      amounts stay positive. */
  lemma EditNeverBlanks(stored: Opportunity, posted: Opportunity, now: DateTime)
    ensures var o := MergeOpportunity(stored, posted, now);
      && (!IsNullOrWhiteSpace(stored.title) ==> !IsNullOrWhiteSpace(o.title))
      && (!IsNullOrWhiteSpace(stored.description) ==> !IsNullOrWhiteSpace(o.description))
      && (!IsNullOrWhiteSpace(stored.sector) ==> !IsNullOrWhiteSpace(o.sector))
      && (!IsNullOrWhiteSpace(stored.riskLevel) ==> !IsNullOrWhiteSpace(o.riskLevel))
      && (stored.requiredInvestment > 0.0 ==> o.requiredInvestment > 0.0)
      && (stored.expectedRoi > 0.0 ==> o.expectedRoi > 0.0)
      && (stored.investmentPeriodMonths > 0 ==> o.investmentPeriodMonths > 0)
      && (stored.locationId > 0 ==> o.locationId > 0)
  {
  }

  /** Submitting the same form again at the same moment changes nothing more. */
  lemma EditIdempotent(stored: Opportunity, posted: Opportunity, now: DateTime)
    ensures MergeOpportunity(MergeOpportunity(stored, posted, now), posted, now) == MergeOpportunity(stored, posted, now)
  {
  }

  /** The partner who created an opportunity can edit it and nobody else with a
      different profile can. */
  lemma OnlyCreatorEdits(form: Opportunity, creator: Caller, other: Caller, posted: Opportunity, now: DateTime, later: DateTime)
    requires creator.profile.Some? && other.profile.Some?
    requires other.profile.value.id != creator.profile.value.id
    requires posted.id == form.id
    ensures var o := Create(form, creator, now).state;
      && Edit(form.id, posted, creator, Some(o), later).Done?
      && Edit(form.id, posted, other, Some(o), later) == NotFound
  {
  }
}
