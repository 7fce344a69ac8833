/** Miner registration and editing (Controllers/MiningController.cs): a new
    miner gets a licence number derived from the year and the size of the
    register, and an edit merges the posted form into the stored row field
    by field, never clearing anything. */
module Mining {

  import opened Common
  import opened Clock
  import opened Text

  /** A `Miner` row (navigation collections left out). */
  datatype Miner = Miner(
    id: int,
    licenseNumber: NullableString,
    fullName: NullableString,
    phoneNumber: NullableString,
    email: NullableString,
    address: NullableString,
    miningType: NullableString,
    licenseStatus: NullableString,
    issueDate: Option<DateTime>,
    expiryDate: Option<DateTime>,
    locationId: Option<int>,
    registrationDate: DateTime,
    createdAt: DateTime,
    notes: NullableString)

  const LicensePrefix := "KG-MIN-"

  /** `$"KG-MIN-{year}-{n:D4}"`. */
  function LicenseNumber(year: int, n: int): string {
    LicensePrefix + IntToString(year) + "-" + FormatD(n, 4)
  }

  /** Different (year, sequence) pairs give different licence numbers. */
  lemma LicenseNumberInjective(y1: nat, n1: nat, y2: nat, n2: nat)
    requires LicenseNumber(y1, n1) == LicenseNumber(y2, n2)
    ensures y1 == y2 && n1 == n2
  {
    NonNegativeDigits(y1);
    NonNegativeDigits(y2);
    PrefixedSplit(LicensePrefix, IntToString(y1), FormatD(n1, 4), IntToString(y2), FormatD(n2, 4));
    FormatDInjective(y1, y2, 0);
    FormatDInjective(n1, n2, 4);
  }

  /** A non-negative number prints as digits only. */
  lemma NonNegativeDigits(y: nat)
    ensures AllDigits(IntToString(y))
  {
    ParsePadded(y, 0);
  }

  /** After a common prefix, digits-dash-rest splits back into its parts. */
  lemma PrefixedSplit(p: string, a: string, b: string, c: string, d: string)
    requires AllDigits(a) && AllDigits(c)
    requires p + a + "-" + b == p + c + "-" + d
    ensures a == c && b == d
  {
    assert a + "-" + b == (p + a + "-" + b)[|p|..];
    assert c + "-" + d == (p + c + "-" + d)[|p|..];
    DigitsDashSplit(a, b, c, d);
  }

  /** POST `CreateMiner`. `otherFieldsValid` is the validation verdict on the
      fields other than the two required ones. Full name and mining type must
      pass `[Required]` (present, not only white space); the action's own
      null-or-empty checks on them add nothing to that. The licence number
      uses the current year and one more than the number of registered miners. */
  function CreateMiner(form: Miner, registered: nat, otherFieldsValid: bool, now: DateTime): (r: Reply<Miner>)
    ensures r.Done? || r.Invalid?
    ensures r.Invalid? <==>
      !otherFieldsValid || IsNullOrWhiteSpace(form.fullName) || IsNullOrWhiteSpace(form.miningType)
    ensures IsNullOrEmpty(form.fullName) || IsNullOrEmpty(form.miningType) ==> r.Invalid?
    ensures r.Done? ==>
      && r.state.licenseNumber == Some(LicenseNumber(now.year, registered + 1))
      && r.state.(licenseNumber := form.licenseNumber) == form
  {
    var attributesValid := otherFieldsValid && RequiredOk(form.fullName) && RequiredOk(form.miningType);
    var explicitChecks := !IsNullOrEmpty(form.miningType) && !IsNullOrEmpty(form.fullName);
    if !(attributesValid && explicitChecks) then Invalid
    else Done(form.(licenseNumber := Some(LicenseNumber(now.year, registered + 1))))
  }

  /** While the register only grows, every registration receives a licence
      number no earlier registration had. */
  lemma SuccessiveLicensesDiffer(a: Miner, b: Miner, registered: nat, later: nat, now: DateTime, then_: DateTime)
    requires registered < later
    requires now.year >= 0 && then_.year >= 0
    requires CreateMiner(a, registered, true, now).Done? && CreateMiner(b, later, true, then_).Done?
    ensures CreateMiner(a, registered, true, now).state.licenseNumber
         != CreateMiner(b, later, true, then_).state.licenseNumber
  {
    if LicenseNumber(now.year, registered + 1) == LicenseNumber(then_.year, later + 1) {
      LicenseNumberInjective(now.year, registered + 1, then_.year, later + 1);
    }
  }

  /** A posted string replaces the stored one only when it is not null or empty. */
  function Overwrite(stored: NullableString, posted: NullableString): (r: NullableString)
    ensures r == stored || r == posted
    ensures !IsNullOrEmpty(stored) ==> !IsNullOrEmpty(r)
  {
    if IsNullOrEmpty(posted) then stored else posted
  }

  /** A posted optional value replaces the stored one only when it has a value. */
  function OverwriteIfSet<T>(stored: Option<T>, posted: Option<T>): (r: Option<T>)
    ensures r == stored || r == posted
    ensures stored.Some? ==> r.Some?
  {
    if posted.Some? then posted else stored
  }

  /** The partial update of POST `EditMiner`. */
  function MergeMiner(stored: Miner, posted: Miner): Miner {
    stored.(
      fullName := Overwrite(stored.fullName, posted.fullName),
      phoneNumber := Overwrite(stored.phoneNumber, posted.phoneNumber),
      email := Overwrite(stored.email, posted.email),
      address := Overwrite(stored.address, posted.address),
      miningType := Overwrite(stored.miningType, posted.miningType),
      licenseStatus := Overwrite(stored.licenseStatus, posted.licenseStatus),
      issueDate := OverwriteIfSet(stored.issueDate, posted.issueDate),
      expiryDate := OverwriteIfSet(stored.expiryDate, posted.expiryDate),
      locationId := OverwriteIfSet(stored.locationId, posted.locationId),
      notes := Overwrite(stored.notes, posted.notes))
  }

  /** The posted value of a field, if the edit would take it. */
  predicate Takes(posted: NullableString) {
    !IsNullOrEmpty(posted)
  }

  /** POST `EditMiner`: NotFound for an unknown id, otherwise the merge. */
  function EditMiner(stored: Option<Miner>, posted: Miner): (r: Reply<Miner>)
    ensures r.NotFound? <==> stored.None?
    ensures r.Done? <==> stored.Some?
    ensures r.Done? ==>
      // identity, licence number and dates of record never change
      && r.state.id == stored.value.id
      && r.state.licenseNumber == stored.value.licenseNumber
      && r.state.registrationDate == stored.value.registrationDate
      && r.state.createdAt == stored.value.createdAt
      // a non-empty posted string wins, an empty one keeps the stored value
      && r.state.fullName == (if Takes(posted.fullName) then posted.fullName else stored.value.fullName)
      && r.state.phoneNumber == (if Takes(posted.phoneNumber) then posted.phoneNumber else stored.value.phoneNumber)
      && r.state.email == (if Takes(posted.email) then posted.email else stored.value.email)
      && r.state.address == (if Takes(posted.address) then posted.address else stored.value.address)
      && r.state.miningType == (if Takes(posted.miningType) then posted.miningType else stored.value.miningType)
      && r.state.licenseStatus == (if Takes(posted.licenseStatus) then posted.licenseStatus else stored.value.licenseStatus)
      && r.state.notes == (if Takes(posted.notes) then posted.notes else stored.value.notes)
      // a posted value that is set wins, an unset one keeps the stored value
      && r.state.issueDate == (if posted.issueDate.Some? then posted.issueDate else stored.value.issueDate)
      && r.state.expiryDate == (if posted.expiryDate.Some? then posted.expiryDate else stored.value.expiryDate)
      && r.state.locationId == (if posted.locationId.Some? then posted.locationId else stored.value.locationId)
  {
    if stored.None? then NotFound else Done(MergeMiner(stored.value, posted))
  }

  /** No field can be cleared through an edit: whatever was set stays set, and
      every field ends up either as stored or as posted. */
  lemma EditNeverClears(stored: Miner, posted: Miner)
    ensures var m := MergeMiner(stored, posted);
      && (!IsNullOrEmpty(stored.fullName) ==> !IsNullOrEmpty(m.fullName))
      && (!IsNullOrEmpty(stored.phoneNumber) ==> !IsNullOrEmpty(m.phoneNumber))
      && (!IsNullOrEmpty(stored.email) ==> !IsNullOrEmpty(m.email))
      && (!IsNullOrEmpty(stored.address) ==> !IsNullOrEmpty(m.address))
      && (!IsNullOrEmpty(stored.miningType) ==> !IsNullOrEmpty(m.miningType))
      && (!IsNullOrEmpty(stored.licenseStatus) ==> !IsNullOrEmpty(m.licenseStatus))
      && (!IsNullOrEmpty(stored.notes) ==> !IsNullOrEmpty(m.notes))
      && (stored.issueDate.Some? ==> m.issueDate.Some?)
      && (stored.expiryDate.Some? ==> m.expiryDate.Some?)
      && (stored.locationId.Some? ==> m.locationId.Some?)
      && (m.fullName == stored.fullName || m.fullName == posted.fullName)
      && (m.notes == stored.notes || m.notes == posted.notes)
  {
  }

  /** Posting the same form twice has the effect of posting it once. */
  lemma EditIdempotent(stored: Miner, posted: Miner)
    ensures MergeMiner(MergeMiner(stored, posted), posted) == MergeMiner(stored, posted)
  {
  }

  /** A form with every field left blank changes nothing. */
  lemma BlankEditChangesNothing(stored: Miner, blank: Miner)
    requires IsNullOrEmpty(blank.fullName) && IsNullOrEmpty(blank.phoneNumber) && IsNullOrEmpty(blank.email)
    requires IsNullOrEmpty(blank.address) && IsNullOrEmpty(blank.miningType) && IsNullOrEmpty(blank.licenseStatus)
    requires IsNullOrEmpty(blank.notes)
    requires blank.issueDate.None? && blank.expiryDate.None? && blank.locationId.None?
    ensures MergeMiner(stored, blank) == stored
  {
  }

  /** Re-posting the stored row itself changes nothing. */
  lemma EditWithStoredValuesChangesNothing(stored: Miner)
    ensures MergeMiner(stored, stored) == stored
  {
  }
}
