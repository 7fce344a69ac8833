/** The tax engine: selection of the tax rules that apply to a completed
    transaction, one tax line per selected rule, one government-revenue
    ledger entry per line, and one receipt aggregating the lines
    (Services/TaxService.cs, records from Models/TaxRule.cs,
    Models/TaxCalculation.cs, Models/GovernmentRevenue.cs,
    Models/TaxReceipt.cs and Models/Transaction.cs).

    The database is an explicit `TaxStore` value, the clock is the `now`
    parameter, and product, category, location and buyer lookups are
    searches of sequences passed in. */
module Tax {

  import opened Common
  import opened Clock
  import opened Text
  import opened Profiles

  /** A standing tax policy. A null category or location means "any". */
  datatype TaxRule = TaxRule(
    id: int,
    name: string,
    taxType: string,
    rate: real,
    minAmount: real,
    maxAmount: real,
    applicableCategory: NullableString,
    applicableLocation: NullableString,
    isActive: bool,
    effectiveDate: DateTime,
    expiryDate: Option<DateTime>,
    description: string)

  /** A sale; its `totalAmount` is the tax base. */
  datatype Transaction = Transaction(
    id: int,
    productId: int,
    buyerId: int,
    quantity: int,
    totalAmount: real,
    status: string,
    paymentMethod: string,
    transactionReference: string)

  /** A product category or location row; only its name matters here. */
  datatype Named = Named(name: NullableString)

  /** A product with its two navigation properties, either of which may fail to load. */
  datatype Product = Product(id: int, category: Option<Named>, location: Option<Named>)

  /** The names the rule filters are compared against. */
  datatype Placement = Placement(categoryName: NullableString, locationName: NullableString)

  /** One computed tax line. */
  datatype TaxCalculation = TaxCalculation(
    id: int,
    transactionId: int,
    taxRuleId: int,
    baseAmount: real,
    taxRate: real,
    taxAmount: real,
    taxType: string,
    status: string,
    calculatedAt: DateTime)

  /** One government-revenue ledger entry. */
  datatype GovernmentRevenue = GovernmentRevenue(
    id: int,
    revenueDate: DateTime,
    revenueType: string,
    source: string,
    amount: real,
    category: string,
    location: string,
    transactionId: Option<int>,
    taxCalculationId: Option<int>,
    description: string,
    referenceNumber: string,
    createdAt: DateTime)

  /** One `{TaxType, Rate, BaseAmount, TaxAmount}` element of a receipt's breakdown. */
  datatype BreakdownEntry = BreakdownEntry(taxType: string, rate: real, baseAmount: real, taxAmount: real)

  /** The payer-facing receipt. The breakdown is kept as the list the source serialises. */
  datatype TaxReceipt = TaxReceipt(
    id: int,
    receiptNumber: string,
    transactionId: int,
    payerId: int,
    totalTaxAmount: real,
    transactionAmount: real,
    issuedDate: DateTime,
    payerName: string,
    payerEmail: NullableString,
    taxBreakdown: seq<BreakdownEntry>,
    status: string,
    createdAt: DateTime)

  /** The tables the pipeline writes, with the next identity value of each. */
  datatype TaxStore = TaxStore(
    calculations: seq<TaxCalculation>,
    revenues: seq<GovernmentRevenue>,
    receipts: seq<TaxReceipt>,
    nextCalculationId: int,
    nextRevenueId: int,
    nextReceiptId: int)

  /** Why rule selection can fail: the product, its category or its location
      did not load, and the source dereferences them. */
  datatype TaxError = ProductNotResolved

  /** The jurisdiction every ledger entry is booked to. */
  const Jurisdiction: string := "Kogi State"

  // ---------------------------------------------------------------- lookups

  /** `FirstOrDefault(x => x.Id == id)` (and `FindAsync(id)`) over a table
      whose key is read by `idOf`: the first row with the key, if any. */
  function FindFirst<T>(rows: seq<T>, id: int, idOf: T -> int): (r: Option<T>)
    ensures r.None? <==> forall x :: x in rows ==> idOf(x) != id
    ensures r.Some? ==> exists i :: 0 <= i < |rows| && rows[i] == r.value && idOf(rows[i]) == id
                                    && forall j :: 0 <= j < i ==> idOf(rows[j]) != id
  {
    if |rows| == 0 then None
    else if idOf(rows[0]) == id then Some(rows[0])
    else
      var rest := FindFirst(rows[1..], id, idOf);
      assert forall x :: x in rows[1..] ==> x in rows;
      assert rest.Some? ==> exists i :: 0 <= i < |rows| && rows[i] == rest.value && idOf(rows[i]) == id
                                        && forall j :: 0 <= j < i ==> idOf(rows[j]) != id by {
        if rest.Some? {
          var i :| 0 <= i < |rows[1..]| && rows[1..][i] == rest.value && idOf(rows[1..][i]) == id
                   && forall j :: 0 <= j < i ==> idOf(rows[1..][j]) != id;
          assert rows[i + 1] == rest.value;
          assert forall j :: 1 <= j < i + 1 ==> rows[j] == rows[1..][j - 1];
        }
      }
      rest
  }

  function ProductId(p: Product): int { p.id }

  function ProfileId(p: UserProfile): int { p.id }

  /** The transaction's product as the rule query loads it. */
  function ProductOf(catalog: seq<Product>, txn: Transaction): Option<Product> {
    FindFirst(catalog, txn.productId, ProductId)
  }

  /** The category and location names of the transaction's product, or the
      error the source raises when one of them cannot be loaded. */
  function Resolve(catalog: seq<Product>, txn: Transaction): (r: Result<Placement, TaxError>)
    ensures r.Ok? <==> exists p :: p in catalog && p.id == txn.productId && ProductOf(catalog, txn) == Some(p)
                                   && p.category.Some? && p.location.Some?
    ensures r.Ok? ==> r.value == Placement(ProductOf(catalog, txn).value.category.value.name,
                                           ProductOf(catalog, txn).value.location.value.name)
  {
    match ProductOf(catalog, txn)
    case None => Err(ProductNotResolved)
    case Some(p) =>
      if p.category.Some? && p.location.Some? then Ok(Placement(p.category.value.name, p.location.value.name))
      else Err(ProductNotResolved)
  }

  // ---------------------------------------------------------- rule matching

  /** A rule filter admits a name when the filter is null or equal to it;
      an empty filter string is not a wildcard. */
  predicate Admits(filter: NullableString, actual: NullableString) {
    filter.None? || filter == actual
  }

  /** The rule is active and in force at `now`. */
  predicate InForce(rule: TaxRule, now: DateTime) {
    && rule.isActive
    && AtOrBefore(rule.effectiveDate, now)
    && (rule.expiryDate.None? || AtOrBefore(now, rule.expiryDate.value))
  }

  /** The amount lies within the rule's bounds; a zero maximum means "no maximum". */
  predicate WithinBounds(rule: TaxRule, amount: real) {
    amount >= rule.minAmount && (rule.maxAmount == 0.0 || amount <= rule.maxAmount)
  }

  /** The selection condition of the rule query, all seven conjuncts. */
  predicate Applies(rule: TaxRule, amount: real, place: Placement, now: DateTime) {
    && InForce(rule, now)
    && Admits(rule.applicableCategory, place.categoryName)
    && Admits(rule.applicableLocation, place.locationName)
    && WithinBounds(rule, amount)
  }

  /** The rules that apply, in the order of the rule table. */
  function ApplicableRules(rules: seq<TaxRule>, amount: real, place: Placement, now: DateTime): (r: seq<TaxRule>)
    ensures forall x :: x in r ==> x in rules && Applies(x, amount, place, now)
    ensures forall x :: x in rules && Applies(x, amount, place, now) ==> x in r
    ensures |r| <= |rules|
  {
    if |rules| == 0 then []
    else
      var rest := ApplicableRules(rules[1..], amount, place, now);
      if Applies(rules[0], amount, place, now) then [rules[0]] + rest else rest
  }

  /** Selection is a filter: it distributes over concatenation of the rule
      table, so the selected rules keep their table order. */
  lemma {:induction false} ApplicableRulesAppend(a: seq<TaxRule>, b: seq<TaxRule>, amount: real, place: Placement, now: DateTime)
    ensures ApplicableRules(a + b, amount, place, now)
         == ApplicableRules(a, amount, place, now) + ApplicableRules(b, amount, place, now)
  {
    if |a| > 0 {
      assert (a + b)[1..] == a[1..] + b;
      ApplicableRulesAppend(a[1..], b, amount, place, now);
    } else {
      assert a + b == b;
    }
  }

  /** A rule whose expiry date is strictly in the past is never selected,
      even when it is active. */
  lemma ExpiredRuleNeverSelected(rules: seq<TaxRule>, rule: TaxRule, amount: real, place: Placement, now: DateTime)
    requires rule.expiryDate.Some? && Before(rule.expiryDate.value, now)
    ensures rule !in ApplicableRules(rules, amount, place, now)
  {
  }

  /** A rule with a non-null category filter applies only to products whose
      category name is exactly that string; in particular "" is no wildcard. */
  lemma CategoryFilterIsExact(rule: TaxRule, amount: real, place: Placement, now: DateTime)
    requires rule.applicableCategory.Some?
    requires Applies(rule, amount, place, now)
    ensures place.categoryName == rule.applicableCategory
  {
  }

  /** With `MaxAmount == 0` a rule that applies to an amount also applies to every larger amount. */
  lemma ZeroMaxAmountIsUnbounded(rule: TaxRule, amount: real, larger: real, place: Placement, now: DateTime)
    requires rule.maxAmount == 0.0
    requires Applies(rule, amount, place, now) && amount <= larger
    ensures Applies(rule, larger, place, now)
  {
  }

  /** Every rule behind a calculated line was selected for the transaction's
      own product: a category or location filter it carries is that
      product's category or location name. */
  lemma LinesFollowTheProduct(rules: seq<TaxRule>, txn: Transaction, catalog: seq<Product>, now: DateTime, i: int)
    requires CalculateTaxes(rules, txn, catalog, now).Ok?
    requires 0 <= i < |CalculateTaxes(rules, txn, catalog, now).value|
    ensures ProductOf(catalog, txn).Some?
    ensures var p := ProductOf(catalog, txn).value;
            var rule := ApplicableRules(rules, txn.totalAmount, Resolve(catalog, txn).value, now)[i];
      && p in catalog && p.id == txn.productId
      && CalculateTaxes(rules, txn, catalog, now).value[i].taxRuleId == rule.id
      && (rule.applicableCategory.None? || rule.applicableCategory == p.category.value.name)
      && (rule.applicableLocation.None? || rule.applicableLocation == p.location.value.name)
  {
    var rule := ApplicableRules(rules, txn.totalAmount, Resolve(catalog, txn).value, now)[i];
    assert Applies(rule, txn.totalAmount, Resolve(catalog, txn).value, now);
  }

  // ------------------------------------------------------------ tax lines

  /** The line for one rule; its id is assigned when it is saved. */
  function TaxLine(txn: Transaction, rule: TaxRule, now: DateTime): TaxCalculation {
    TaxCalculation(
      id := 0,
      transactionId := txn.id,
      taxRuleId := rule.id,
      baseAmount := txn.totalAmount,
      taxRate := rule.rate,
      taxAmount := txn.totalAmount * rule.rate / 100.0,
      taxType := rule.taxType,
      status := "Pending",
      calculatedAt := now)
  }

  /** One line per rule, in rule order, each snapshotting the transaction
      total and the rule's rate, with `TaxAmount = BaseAmount * TaxRate / 100`. */
  function TaxLines(txn: Transaction, rules: seq<TaxRule>, now: DateTime): (r: seq<TaxCalculation>)
    ensures |r| == |rules|
    ensures forall i :: 0 <= i < |r| ==>
      && r[i].transactionId == txn.id
      && r[i].taxRuleId == rules[i].id
      && r[i].taxType == rules[i].taxType
      && r[i].baseAmount == txn.totalAmount
      && r[i].taxRate == rules[i].rate
      && r[i].taxAmount == r[i].baseAmount * r[i].taxRate / 100.0
  {
    seq(|rules|, i requires 0 <= i < |rules| => TaxLine(txn, rules[i], now))
  }

  /** `CalculateTaxesAsync`: the tax lines of a transaction, or the lookup error. */
  function CalculateTaxes(rules: seq<TaxRule>, txn: Transaction, catalog: seq<Product>, now: DateTime)
    : (r: Result<seq<TaxCalculation>, TaxError>)
    ensures r.Err? <==> Resolve(catalog, txn).Err?
    ensures r.Ok? ==> |r.value| == |ApplicableRules(rules, txn.totalAmount, Resolve(catalog, txn).value, now)|
    ensures r.Ok? ==> forall i :: 0 <= i < |r.value| ==>
      var rule := ApplicableRules(rules, txn.totalAmount, Resolve(catalog, txn).value, now)[i];
      && rule in rules
      && Applies(rule, txn.totalAmount, Resolve(catalog, txn).value, now)
      && r.value[i].taxRuleId == rule.id
      && r.value[i].taxAmount == txn.totalAmount * rule.rate / 100.0
  {
    match Resolve(catalog, txn)
    case Err(e) => Err(e)
    case Ok(place) => Ok(TaxLines(txn, ApplicableRules(rules, txn.totalAmount, place, now), now))
  }

  function SumTax(lines: seq<TaxCalculation>): real {
    if |lines| == 0 then 0.0 else lines[0].taxAmount + SumTax(lines[1..])
  }

  function SumRates(rules: seq<TaxRule>): real {
    if |rules| == 0 then 0.0 else rules[0].rate + SumRates(rules[1..])
  }

  /** The total tax on a transaction is its amount times the sum of the
      selected rates, divided by 100. */
  lemma {:induction false} TotalTaxIsCombinedRate(txn: Transaction, rules: seq<TaxRule>, now: DateTime)
    ensures SumTax(TaxLines(txn, rules, now)) == txn.totalAmount * SumRates(rules) / 100.0
  {
    var lines := TaxLines(txn, rules, now);
    if |rules| > 0 {
      assert lines[1..] == TaxLines(txn, rules[1..], now);
      TotalTaxIsCombinedRate(txn, rules[1..], now);
    }
  }

  // ------------------------------------------------------ numbering formats

  /** `prefix + now.ToString("yyyyMMdd") + "-" + id.ToString("D6")`. */
  function StampedNumber(prefix: string, now: DateTime, id: int): string {
    prefix + FormatYmd(now) + "-" + FormatD(id, 6)
  }

  /** `TR-yyyyMMdd-NNNNNN`. */
  function ReceiptNumber(now: DateTime, transactionId: int): string {
    StampedNumber("TR-", now, transactionId)
  }

  /** `REV-yyyyMMdd-NNNNNN`. */
  function RevenueReference(now: DateTime, calculationId: int): string {
    StampedNumber("REV-", now, calculationId)
  }

  /** Splits a stamped number into its eight-digit date and its id. */
  function ParseStampedNumber(prefix: string, s: string): Option<(string, int)> {
    var p := |prefix|;
    if p + 10 <= |s| && s[..p] == prefix && AllDigits(s[p..p + 8]) && s[p + 8] == '-' then
      match ParseInt(s[p + 9..])
      case Some(id) => Some((s[p..p + 8], id))
      case None => None
    else None
  }

  /** A stamped number is recoverable: its date part is the day's `yyyyMMdd`
      and its number part reads back as the id. */
  lemma StampedNumberRoundTrip(prefix: string, now: DateTime, id: int)
    requires Valid(now)
    ensures ParseStampedNumber(prefix, StampedNumber(prefix, now, id)) == Some((FormatYmd(now), id))
  {
    var ymd, tail := FormatYmd(now), FormatD(id, 6);
    FormatYmdShape(now);
    FormatDRoundTrip(id, 6);
    assert |tail| >= 1 by {
      if id < 0 { } else { }
    }
    StampedParts(prefix, ymd, tail);
  }

  /** The slices `ParseStampedNumber` reads out of `prefix + ymd + "-" + tail`. */
  lemma StampedParts(prefix: string, ymd: string, tail: string)
    requires |ymd| == 8
    ensures var s, p := prefix + ymd + "-" + tail, |prefix|;
      && |s| == p + 9 + |tail|
      && s[..p] == prefix
      && s[p..p + 8] == ymd
      && s[p + 8] == '-'
      && s[p + 9..] == tail
  {
    var s, p := prefix + ymd + "-" + tail, |prefix|;
    SlicesOfThree(prefix, ymd, "-" + tail);
    assert s == prefix + ymd + ("-" + tail);
    assert s[p + 8..] == "-" + tail;
  }

  /** Ids below one million give numbers of fixed length with a six-digit tail. */
  lemma StampedNumberLength(prefix: string, now: DateTime, id: int)
    requires Valid(now) && 0 <= id < 1000000
    ensures |StampedNumber(prefix, now, id)| == |prefix| + 15
  {
    FormatYmdShape(now);
    assert Pow10(6) == 1000000;
    FormatDExactWidth(id, 6);
  }

  // --------------------------------------------------- ledger and receipt

  /** The ledger entry derived from one saved line. */
  function RevenueEntry(txn: Transaction, line: TaxCalculation, now: DateTime, id: int): GovernmentRevenue {
    GovernmentRevenue(
      id := id,
      revenueDate := now,
      revenueType := "Tax",
      source := "Transaction",
      amount := line.taxAmount,
      category := line.taxType,
      location := Jurisdiction,
      transactionId := Some(txn.id),
      taxCalculationId := Some(line.id),
      description := line.taxType + " tax from transaction " + IntToString(txn.id),
      referenceNumber := RevenueReference(now, line.id),
      createdAt := now)
  }

  /** One entry per line, in line order, with consecutive ids from `firstId`. */
  function RevenueEntries(txn: Transaction, lines: seq<TaxCalculation>, now: DateTime, firstId: int)
    : (r: seq<GovernmentRevenue>)
    ensures |r| == |lines|
    ensures forall i :: 0 <= i < |r| ==>
      && r[i].amount == lines[i].taxAmount
      && r[i].category == lines[i].taxType
      && r[i].location == Jurisdiction
      && r[i].transactionId == Some(txn.id)
      && r[i].taxCalculationId == Some(lines[i].id)
      && r[i].referenceNumber == RevenueReference(now, lines[i].id)
  {
    seq(|lines|, i requires 0 <= i < |lines| => RevenueEntry(txn, lines[i], now, firstId + i))
  }

  function SumRevenue(entries: seq<GovernmentRevenue>): real {
    if |entries| == 0 then 0.0 else entries[0].amount + SumRevenue(entries[1..])
  }

  function SumBreakdown(entries: seq<BreakdownEntry>): real {
    if |entries| == 0 then 0.0 else entries[0].taxAmount + SumBreakdown(entries[1..])
  }

  function Breakdown(lines: seq<TaxCalculation>): (r: seq<BreakdownEntry>)
    ensures |r| == |lines|
  {
    seq(|lines|, i requires 0 <= i < |lines| =>
      BreakdownEntry(lines[i].taxType, lines[i].taxRate, lines[i].baseAmount, lines[i].taxAmount))
  }

  /** `$"{buyer?.FirstName} {buyer?.LastName}"`: a missing buyer or name renders as "". */
  function PayerName(buyer: Option<UserProfile>): (r: string)
    ensures buyer.None? ==> r == " "
    ensures buyer.Some? ==>
      var first, last := Render(buyer.value.firstName), Render(buyer.value.lastName);
      && |r| == |first| + 1 + |last|
      && r[..|first|] == first && r[|first|] == ' ' && r[|first| + 1..] == last
  {
    assert buyer.Some? ==> (var first, last := Render(buyer.value.firstName), Render(buyer.value.lastName);
      (first + " " + last)[..|first|] == first && (first + " " + last)[|first| + 1..] == last) by {
      if buyer.Some? {
        SlicesOfThree(Render(buyer.value.firstName), " ", Render(buyer.value.lastName));
      }
    }

    match buyer
    case None => " "
    case Some(b) => Render(b.firstName) + " " + Render(b.lastName)
  }

  /** `GenerateTaxReceiptAsync`: the receipt for the transaction's lines. */
  function GenerateReceipt(txn: Transaction, lines: seq<TaxCalculation>, profiles: seq<UserProfile>, now: DateTime)
    : (r: TaxReceipt)
    ensures r.totalTaxAmount == SumTax(lines) == SumBreakdown(r.taxBreakdown)
    ensures |r.taxBreakdown| == |lines|
    ensures forall i :: 0 <= i < |lines| ==>
      r.taxBreakdown[i] == BreakdownEntry(lines[i].taxType, lines[i].taxRate, lines[i].baseAmount, lines[i].taxAmount)
    ensures Valid(now) ==> ParseStampedNumber("TR-", r.receiptNumber) == Some((FormatYmd(now), txn.id))
    ensures r.receiptNumber == ReceiptNumber(now, txn.id)
    ensures r.transactionId == txn.id && r.payerId == txn.buyerId && r.transactionAmount == txn.totalAmount
    ensures r.payerName == PayerName(FindFirst(profiles, txn.buyerId, ProfileId))
    ensures FindFirst(profiles, txn.buyerId, ProfileId).None? ==> r.payerEmail.None?
    ensures FindFirst(profiles, txn.buyerId, ProfileId).Some? ==>
      r.payerEmail == FindFirst(profiles, txn.buyerId, ProfileId).value.email
    ensures r.issuedDate == now && r.createdAt == now
    ensures r.status == "Issued"
  {
    ReceiptReconcilesWithBreakdown(lines);
    assert Valid(now) ==> ParseStampedNumber("TR-", ReceiptNumber(now, txn.id)) == Some((FormatYmd(now), txn.id)) by {
      if Valid(now) {
        StampedNumberRoundTrip("TR-", now, txn.id);
      }
    }
    var buyer := FindFirst(profiles, txn.buyerId, ProfileId);
    TaxReceipt(
      id := 0,
      receiptNumber := ReceiptNumber(now, txn.id),
      transactionId := txn.id,
      payerId := txn.buyerId,
      totalTaxAmount := SumTax(lines),
      transactionAmount := txn.totalAmount,
      issuedDate := now,
      payerName := PayerName(buyer),
      payerEmail := if buyer.Some? then buyer.value.email else None,
      taxBreakdown := Breakdown(lines),
      status := "Issued",
      createdAt := now)
  }

  /** The receipt's total equals the sum of its breakdown, which lists one
      entry per line in line order. */
  lemma {:induction false} ReceiptReconcilesWithBreakdown(lines: seq<TaxCalculation>)
    ensures SumBreakdown(Breakdown(lines)) == SumTax(lines)
    ensures forall i :: 0 <= i < |lines| ==>
      Breakdown(lines)[i] == BreakdownEntry(lines[i].taxType, lines[i].taxRate, lines[i].baseAmount, lines[i].taxAmount)
  {
    if |lines| > 0 {
      assert Breakdown(lines)[1..] == Breakdown(lines[1..]);
      ReceiptReconcilesWithBreakdown(lines[1..]);
    }
  }

  /** Ledger entries whose amounts copy the lines' tax amounts, one for one,
      sum to the lines' total tax. */
  lemma {:induction false} LedgerReconcilesWithLines(entries: seq<GovernmentRevenue>, lines: seq<TaxCalculation>)
    requires |entries| == |lines|
    requires forall i :: 0 <= i < |lines| ==> entries[i].amount == lines[i].taxAmount
    ensures SumRevenue(entries) == SumTax(lines)
  {
    if |lines| > 0 {
      LedgerReconcilesWithLines(entries[1..], lines[1..]);
    }
  }

  // ------------------------------------------------------------ pipeline

  /** Saving assigns consecutive identity values from `firstId`. */
  function AssignIds(lines: seq<TaxCalculation>, firstId: int): (r: seq<TaxCalculation>)
    ensures |r| == |lines|
    ensures forall i :: 0 <= i < |r| ==> r[i] == lines[i].(id := firstId + i)
  {
    seq(|lines|, i requires 0 <= i < |lines| => lines[i].(id := firstId + i))
  }

  /** `ProcessTaxesForTransactionAsync`. When no rule applies nothing is
      written. Otherwise every line is saved, then one ledger entry per saved
      line and one receipt for the transaction; the rows already in the store
      are left as they were. */
  function ProcessTaxes(store: TaxStore, rules: seq<TaxRule>, txn: Transaction, catalog: seq<Product>,
                        profiles: seq<UserProfile>, now: DateTime): (r: Result<TaxStore, TaxError>)
    ensures r.Err? <==> Resolve(catalog, txn).Err?
    ensures r.Ok? && |CalculateTaxes(rules, txn, catalog, now).value| == 0 ==> r.value == store
    ensures r.Ok? && |CalculateTaxes(rules, txn, catalog, now).value| > 0 ==>
      var n := |CalculateTaxes(rules, txn, catalog, now).value|;
      var s := r.value;
      var c0 := |store.calculations|;
      var g0 := |store.revenues|;
      && |s.calculations| == c0 + n
      && |s.revenues| == g0 + n
      && |s.receipts| == |store.receipts| + 1
      && s.calculations[..c0] == store.calculations
      && s.revenues[..g0] == store.revenues
      && s.receipts[..|store.receipts|] == store.receipts
      && (var lines := s.calculations[c0..];
          var entries := s.revenues[g0..];
          forall i :: 0 <= i < n ==>
            && entries[i].amount == lines[i].taxAmount
            && entries[i].category == lines[i].taxType
            && entries[i].location == Jurisdiction
            && entries[i].transactionId == Some(txn.id)
            && entries[i].taxCalculationId == Some(lines[i].id)
            && lines[i].transactionId == txn.id)
      && s.receipts[|store.receipts|].transactionId == txn.id
      && s.receipts[|store.receipts|].totalTaxAmount == SumRevenue(s.revenues[g0..])
      && s.receipts[|store.receipts|].receiptNumber == ReceiptNumber(now, txn.id)
    // the saved lines are the calculated ones, numbered from the next identity value
    ensures r.Ok? && |CalculateTaxes(rules, txn, catalog, now).value| > 0 ==>
      r.value.calculations[|store.calculations|..]
        == AssignIds(CalculateTaxes(rules, txn, catalog, now).value, store.nextCalculationId)
    // the ledger entries and the receipt are derived from the saved lines
    ensures r.Ok? && |CalculateTaxes(rules, txn, catalog, now).value| > 0 ==>
      var saved := r.value.calculations[|store.calculations|..];
      && r.value.revenues[|store.revenues|..] == RevenueEntries(txn, saved, now, store.nextRevenueId)
      && r.value.receipts[|store.receipts|] == GenerateReceipt(txn, saved, profiles, now).(id := store.nextReceiptId)
  {
    match CalculateTaxes(rules, txn, catalog, now)
    case Err(e) => Err(e)
    case Ok(lines) =>
      if |lines| == 0 then Ok(store)
      else
        var saved := AssignIds(lines, store.nextCalculationId);
        var entries := RevenueEntries(txn, saved, now, store.nextRevenueId);
        var receipt := GenerateReceipt(txn, saved, profiles, now).(id := store.nextReceiptId);
        LedgerReconcilesWithLines(entries, saved);
        var s := TaxStore(
          calculations := store.calculations + saved,
          revenues := store.revenues + entries,
          receipts := store.receipts + [receipt],
          nextCalculationId := store.nextCalculationId + |saved|,
          nextRevenueId := store.nextRevenueId + |entries|,
          nextReceiptId := store.nextReceiptId + 1);
        assert s.revenues[|store.revenues|..] == entries;
        assert s.calculations[|store.calculations|..] == saved;
        Ok(s)
  }

  /** Receipts of a store that belong to a transaction. */
  function ReceiptsFor(receipts: seq<TaxReceipt>, transactionId: int): (r: seq<TaxReceipt>)
    ensures forall x :: x in r <==> x in receipts && x.transactionId == transactionId
  {
    if |receipts| == 0 then []
    else
      var rest := ReceiptsFor(receipts[1..], transactionId);
      if receipts[0].transactionId == transactionId then [receipts[0]] + rest else rest
  }

  lemma {:induction false} ReceiptsForAppend(a: seq<TaxReceipt>, b: seq<TaxReceipt>, transactionId: int)
    ensures ReceiptsFor(a + b, transactionId) == ReceiptsFor(a, transactionId) + ReceiptsFor(b, transactionId)
  {
    if |a| > 0 {
      assert (a + b)[1..] == a[1..] + b;
      ReceiptsForAppend(a[1..], b, transactionId);
    } else {
      assert a + b == b;
    }
  }

  /** Nothing guards against processing the same transaction twice: a second
      run on the same day adds a second receipt for it with the very same
      receipt number, and a second set of lines and ledger entries. */
  lemma ReprocessingDuplicatesReceipts(store: TaxStore, rules: seq<TaxRule>, txn: Transaction, catalog: seq<Product>,
                                       profiles: seq<UserProfile>, now: DateTime)
    requires ProcessTaxes(store, rules, txn, catalog, profiles, now).Ok?
    requires |CalculateTaxes(rules, txn, catalog, now).value| > 0
    ensures var once := ProcessTaxes(store, rules, txn, catalog, profiles, now).value;
            var twice := ProcessTaxes(once, rules, txn, catalog, profiles, now);
            && twice.Ok?
            && |ReceiptsFor(twice.value.receipts, txn.id)| == |ReceiptsFor(store.receipts, txn.id)| + 2
            && |twice.value.calculations| == |store.calculations| + 2 * |CalculateTaxes(rules, txn, catalog, now).value|
            && twice.value.receipts[|store.receipts|].receiptNumber == twice.value.receipts[|store.receipts| + 1].receiptNumber
  {
    var once := ProcessTaxes(store, rules, txn, catalog, profiles, now).value;
    var twice := ProcessTaxes(once, rules, txn, catalog, profiles, now).value;
    var k := |store.receipts|;
    assert once.receipts == store.receipts + [once.receipts[k]];
    assert twice.receipts == once.receipts + [twice.receipts[k + 1]];
    ReceiptsForAppend(store.receipts, [once.receipts[k]], txn.id);
    ReceiptsForAppend(once.receipts, [twice.receipts[k + 1]], txn.id);
    assert ReceiptsFor([once.receipts[k]], txn.id) == [once.receipts[k]];
    assert ReceiptsFor([twice.receipts[k + 1]], txn.id) == [twice.receipts[k + 1]];
  }
}
