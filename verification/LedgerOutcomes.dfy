/** What every request of the ledger answers and leaves behind, told from its own fields and the tables
    before it; and, over runs, what the sums of the summary are made of. */
module LedgerOutcomes {
  import opened Registry
  import opened LedgerModel
  import opened LedgerBooks
  import opened LedgerInvariant
  import opened LedgerResults
  import LedgerBookings
  import LedgerTerms
  import Strings

  // ---------------------------------------------------------------- which deliveries are let in

  predicate Letter(c: char) { 'A' <= c <= 'Z' || 'a' <= c <= 'z' }

  predicate Digit(c: char) { '0' <= c <= '9' }

  /** Event numbers: 4 to 100 letters, digits and `._:-`. */
  predicate EventNumber(s: string) {
    4 <= |s| <= 100 && forall i :: 0 <= i < |s| ==> Letter(s[i]) || Digit(s[i]) || s[i] in {'.', '_', ':', '-'}
  }

  /** Provider names: 2 to 12 lower-case letters, digits and `_-`, beginning with a letter or a digit. */
  predicate ProviderName(s: string) {
    && 2 <= |s| <= 12 && s[0] !in {'_', '-'}
    && forall i :: 0 <= i < |s| ==> 'a' <= s[i] <= 'z' || Digit(s[i]) || s[i] in {'_', '-'}
  }

  predicate CaseNumber(s: string) { 4 <= |s| <= 13 && s[0] == 'C' && forall i :: 1 <= i < |s| ==> Digit(s[i]) }

  predicate WellFormed(k: Key, e: Event) {
    && EventNumber(k.event) && 0 < e.amount <= 1_000_000_000 && e.currency == "CNY"
    && (e.caseId.Some? ==> CaseNumber(e.caseId.value))
    && (e.kind == Payment ==> e.original.None?)
    && (e.kind == Refund ==> e.original.Some? && EventNumber(e.original.value))
  }

  /** A delivery that the schema accepts, of a configured provider, with a sane policy and a signature that
      verified. */
  predicate Genuine(k: Key, e: Event, d: Deployment) {
    && WellFormed(k, e) && ProviderName(k.provider) && d.maxAmount.Some? && 60 <= d.tolerance <= 900
    && d.signatureValid
  }

  /** An event within the provider's limit and not from the future. */
  predicate Admitted(e: Event, d: Deployment) {
    d.maxAmount.Some? && e.amount <= d.maxAmount.value && e.occurredAt <= d.now + d.tolerance
  }

  /** Another entry or posting of the tenant already has the keys that the booking of `k` needs. */
  predicate KeysTaken(s: State, k: Key) {
    || (exists i :: 0 <= i < |s.entries|
          && s.entries[i].tenant == k.tenant && s.entries[i].id == k.provider + ":" + k.event)
    || (exists i :: 0 <= i < |s.postings|
          && s.postings[i].tenant == k.tenant
          && s.postings[i].idempotencyKey == "recovery:" + (k.provider + ":" + k.event))
  }

  lemma ScreenIff(k: Key, e: Event, d: Deployment)
    ensures Screen(k, e, d).None? <==> Genuine(k, e, d)
    ensures Screen(k, e, d).None? ==> (Admission(e, d).None? <==> Admitted(e, d))
  {
  }

  lemma KeysFreeIff(s: State, e: Entry, k: Key)
    requires e.tenant == k.tenant && e.id == k.provider + ":" + k.event
    ensures KeysFree(s, e) <==> !KeysTaken(s, k)
  {
    FindEntryFinds(s.entries, e.tenant, e.id);
    FindPostingFinds(s.postings, e.tenant, RecoveryKey(e.id));
  }

  /** The receipt holds the event as it came, matched or waiting for review. */
  ghost predicate Holds(r: Receipt, e: Event) {
    && r.kind == e.kind && r.amount == e.amount && r.occurredAt == e.occurredAt && r.caseId == e.caseId
    && r.original == e.original && r.body == e.body
    && (r.status == Matched || r.status == Unmatched || r.status == ReviewRequired)
  }

  /** What a first delivery leaves. */
  ghost predicate Stores(s: State, n: State, k: Key, e: Event) {
    && k in n.receipts && n.receipts == s.receipts[k := n.receipts[k]] && n.reviews == s.reviews
    && n.duplicates == s.duplicates[k := 0] && Holds(n.receipts[k], e)
  }

  lemma {:induction false} AutoMatchedStores(s: State, n: State, k: Key, e: Event, entry: Entry, author: string,
                                             t: Tables)
    requires AutoMatched(s, n, k, ReceiptOf(e), entry, author, t)
    ensures Stores(s, n, k, e)
  {
    assert s.receipts[k := ReceiptOf(e)][k := n.receipts[k]] == s.receipts[k := n.receipts[k]];
  }

  lemma AcceptStores(s: State, k: Key, e: Event, planAllocated: bool, t: Tables)
    ensures var (n, outcome) := AcceptNew(s, k, ReceiptOf(e), planAllocated, t);
      (outcome == Done && (n == s || Stores(s, n, k, e))) || (outcome == Denied(UniqueViolation) && n == s)
  {
    var n, r := AcceptNew(s, k, ReceiptOf(e), planAllocated, t).0, ReceiptOf(e);
    AcceptShape(s, k, r, planAllocated, t);
    if n != s && !Parked(s, n, k, r) {
      var entry :| AutoMatched(s, n, k, r, entry, "webhook:" + k.provider, t);
      AutoMatchedStores(s, n, k, e, entry, "webhook:" + k.provider, t);
    }
  }

  lemma {:induction false} AcceptedKeys(s: State, result: (State, Outcome), k: Key, r: Receipt, planAllocated: bool,
                                        t: Tables)
    requires AcceptedAs(s, result, k, r, planAllocated, t) && r.entryId.None?
    ensures result.1 == Done ==> k in result.0.receipts
    ensures result.1 == Denied(UniqueViolation) ==> KeysTaken(s, k)
  {
    var entry := Assemble(Stored(s, k, r).receipts, s.entries, k, r, t);
    if entry.Ok? { KeysFreeIff(Stored(s, k, r), entry.value, k); }
  }

  /** What any delivery does, in any state. Unless it is genuine it is denied and changes nothing. An event
      stored before is a duplicate, counted once more, or a conflict when its body differs. A new one is
      denied beyond the limit or from the future; any other is stored, unless its keys are taken. */
  lemma DeliveryIs(s: State, k: Key, e: Event, d: Deployment, t: Tables)
    ensures var (n, outcome) := DeliverStep(s, k, e, d, t);
      if !Genuine(k, e, d) then outcome.Denied? && n == s
      else if k in s.receipts then
        if s.receipts[k].body != e.body then outcome == Denied(IdempotencyConflict) && n == s
        else
          outcome == Replayed && k in n.duplicates && n == s.(duplicates := s.duplicates[k := n.duplicates[k]])
          && n.duplicates[k] == 1 + if k in s.duplicates then s.duplicates[k] else 0
      else if !Admitted(e, d) then outcome.Denied? && n == s
      else if outcome == Done then Stores(s, n, k, e)
      else outcome == Denied(UniqueViolation) && n == s && KeysTaken(s, k)
  {
    ScreenIff(k, e, d);
    if Genuine(k, e, d) && k !in s.receipts && Admitted(e, d) {
      AcceptNewIs(s, k, ReceiptOf(e), d.planAllocated, t);
      AcceptStores(s, k, e, d.planAllocated, t);
      AcceptedKeys(s, AcceptNew(s, k, ReceiptOf(e), d.planAllocated, t), k, ReceiptOf(e), d.planAllocated, t);
    }
  }

  /** Which refusal a delivery meets first. */
  lemma RefusalIs(s: State, k: Key, e: Event, d: Deployment, t: Tables)
    ensures var outcome := DeliverStep(s, k, e, d, t).1;
      var named := WellFormed(k, e) && ProviderName(k.provider);
      && (outcome == Denied(SchemaRejected) <==> !WellFormed(k, e))
      && (outcome == Denied(InvalidProvider) <==> WellFormed(k, e) && !ProviderName(k.provider))
      && (outcome == Denied(WebhookNotConfigured) <==> named && d.maxAmount.None?)
      && (outcome == Denied(InvalidDeploymentPolicy) <==>
            named && d.maxAmount.Some? && !(60 <= d.tolerance <= 900))
      && (outcome == Denied(InvalidSignature) <==>
            named && d.maxAmount.Some? && 60 <= d.tolerance <= 900 && !d.signatureValid)
      && (outcome == Denied(AmountLimitExceeded) <==>
            Genuine(k, e, d) && k !in s.receipts && e.amount > d.maxAmount.value)
      && (outcome == Denied(OccurredInFuture) <==>
            Genuine(k, e, d) && k !in s.receipts && e.amount <= d.maxAmount.value
            && e.occurredAt > d.now + d.tolerance)
  {
    DeliveryIs(s, k, e, d, t);
  }

  // ---------------------------------------------------------------- which receipts are booked

  /** The payment that a refund of `amount` would continue: booked for the event it names, on the same case,
      with enough left. */
  ghost predicate RefundFits(s: State, k: Key, original: string, caseId: string, amount: int) {
    exists p :: p in s.entries && p.receipt == Key(k.tenant, k.provider, original) && p.kind == Payment
                && p.caseId == caseId && amount <= p.amount - Refunded(s.entries, p.tenant, p.id)
  }

  /** A receipt can be booked on a case: a payment on one that is bookable in the tables, a refund on the case
      of the payment it names. */
  ghost predicate CanBook(s: State, k: Key, r: Receipt, caseId: Option<string>, t: Tables) {
    && caseId.Some? && caseId.value != ""
    && if r.kind == Payment then Bookable(t, caseId.value)
       else r.original.Some? && r.original.value != "" && RefundFits(s, k, r.original.value, caseId.value, r.amount)
  }

  lemma RefundAssembledIff(s: State, k: Key, r: Receipt, t: Tables)
    requires Inv(s) && (k in s.receipts ==> s.receipts[k].status != Matched)
    requires r.kind == Refund && r.amount > 0
    ensures Assemble(s.receipts, s.entries, k, r, t).Ok? <==> CanBook(s, k, r, r.caseId, t)
  {
    if r.caseId.Some? && r.caseId.value != "" && r.original.Some? && r.original.value != "" {
      if Assemble(s.receipts, s.entries, k, r, t).Ok? {
        OriginalFound(s, Key(k.tenant, k.provider, r.original.value));
        RefundBookedIff(s, k, r, RefundOriginal(s.receipts, s.entries, k, r, r.caseId.value).value, t);
      }
      if RefundFits(s, k, r.original.value, r.caseId.value, r.amount) {
        var p :| p in s.entries && p.receipt == Key(k.tenant, k.provider, r.original.value) && p.kind == Payment
          && p.caseId == r.caseId.value && r.amount <= p.amount - Refunded(s.entries, p.tenant, p.id);
        RefundBookedIff(s, k, r, p, t);
      }
    }
  }

  lemma AssembledIff(s: State, k: Key, r: Receipt, t: Tables)
    requires Inv(s) && (k in s.receipts ==> s.receipts[k].status != Matched) && r.amount > 0
    ensures Assemble(s.receipts, s.entries, k, r, t).Ok? <==> CanBook(s, k, r, r.caseId, t)
  {
    if r.kind == Refund {
      RefundAssembledIff(s, k, r, t);
    } else if r.caseId.Some? && r.caseId.value != "" {
      LedgerTerms.PaymentBookedIff(s.receipts, s.entries, k, r, t);
    }
  }

  /** The receipt under way is no original of its own. */
  lemma OwnRowAside(s: State, k: Key, r: Receipt, t: Tables)
    requires k !in s.receipts && r.status != Matched
    ensures Assemble(s.receipts[k := r], s.entries, k, r, t) == Assemble(s.receipts, s.entries, k, r, t)
  {
  }

  /** Some payment is booked for the event, whatever its case, and some is on this case but has too little
      left. */
  ghost predicate TooLittleLeft(s: State, k: Key, original: string, caseId: string, amount: int) {
    exists p :: p in s.entries && p.receipt == Key(k.tenant, k.provider, original) && p.kind == Payment
                && p.caseId == caseId && amount > p.amount - Refunded(s.entries, p.tenant, p.id)
  }

  /** Why a receipt cannot be booked. */
  ghost predicate WaitsFor(s: State, k: Key, r: Receipt, t: Tables, failure: Error) {
    && (failure == CaseUnmatched <==>
          || r.caseId.None? || r.caseId.value == ""
          || (r.kind == Payment && (r.caseId.value !in t.cases || r.caseId.value !in t.profiles)))
    && (r.kind == Payment && failure != CaseUnmatched ==> failure == CommissionRuleMissing)
    && (r.kind == Refund && failure != CaseUnmatched ==>
          if r.original.None? || r.original.value == "" then failure == OriginalPaymentRequired
          else
            var source := Key(k.tenant, k.provider, r.original.value);
            && (failure == OriginalPaymentMissing <==> !(source in s.receipts && s.receipts[source].status == Matched))
            && (failure == RefundExceedsPayment <==> TooLittleLeft(s, k, r.original.value, r.caseId.value, r.amount))
            && failure in {OriginalPaymentMissing, RefundCaseMismatch, RefundExceedsPayment})
  }

  /** The entry that a refund finds: the one booked for the event it names, if that receipt is matched. */
  lemma OriginalFound(s: State, source: Key)
    requires Inv(s)
    ensures source in s.receipts && s.receipts[source].status == Matched <==>
      exists p :: p in s.entries && p.receipt == source
    ensures forall p :: p in s.entries && p.receipt == source ==>
      source in s.receipts && s.receipts[source].entryId.Some?
      && FindEntry(s.entries, source.tenant, s.receipts[source].entryId.value) == Some(p)
  {
    forall p | p in s.entries && p.receipt == source
      ensures source in s.receipts && s.receipts[source].status == Matched && s.receipts[source].entryId.Some?
      ensures FindEntry(s.entries, source.tenant, s.receipts[source].entryId.value) == Some(p)
    {
      FoundByReceipt(s, p);
    }
    if source in s.receipts && s.receipts[source].status == Matched {
      assert ReceiptAt(s, source);
      var p :| p in s.entries && Books(p, source, s.receipts[source]);
      assert p.receipt == source;
    }
  }

  lemma RefundWaits(s: State, k: Key, r: Receipt, caseId: string)
    requires Inv(s) && r.original.Some? && r.original.value != "" && r.amount > 0
    requires RefundOriginal(s.receipts, s.entries, k, r, caseId).Err?
    ensures var source, failure := Key(k.tenant, k.provider, r.original.value),
      RefundOriginal(s.receipts, s.entries, k, r, caseId).error;
      && (failure == OriginalPaymentMissing <==> !(source in s.receipts && s.receipts[source].status == Matched))
      && (failure == RefundExceedsPayment <==> TooLittleLeft(s, k, r.original.value, caseId, r.amount))
      && failure in {OriginalPaymentMissing, RefundCaseMismatch, RefundExceedsPayment}
  {
    var source := Key(k.tenant, k.provider, r.original.value);
    OriginalFound(s, source);
    if source in s.receipts && s.receipts[source].status == Matched {
      var p :| p in s.entries && p.receipt == source;
      FoundByReceipt(s, p);
      assert forall q :: q in s.entries && q.receipt == source ==> q == p;
    }
  }

  lemma Waits(s: State, k: Key, r: Receipt, t: Tables)
    requires Inv(s) && r.amount > 0 && Assemble(s.receipts, s.entries, k, r, t).Err?
    ensures WaitsFor(s, k, r, t, Assemble(s.receipts, s.entries, k, r, t).error)
  {
    if r.kind == Refund && r.caseId.Some? && r.caseId.value != "" && r.original.Some? && r.original.value != "" {
      RefundWaits(s, k, r, r.caseId.value);
    }
  }

  /** How a first delivery ends, by what its receipt assembles to. */
  lemma {:induction false} AcceptedOutcome(s: State, result: (State, Outcome), k: Key, r: Receipt, planAllocated: bool,
                                           t: Tables, entry: Result<Entry, Error>)
    requires AcceptedAs(s, result, k, r, planAllocated, t) && r.entryId.None? && r.status == Accepted
    requires entry == Assemble(s.receipts[k := r], s.entries, k, r, t) && entry != Err(UniqueViolation)
    ensures var (n, outcome) := result;
      match entry
      case Ok(e) =>
        if KeysTaken(s, k) then outcome == Denied(UniqueViolation)
        else outcome == Done && k in n.receipts && n.receipts[k].status == Matched && n.entries == s.entries + [e]
      case Err(failure) =>
        && outcome == Done && k in n.receipts && n.receipts[k].failure == Some(failure)
        && n.receipts[k].status == (if failure == CaseUnmatched then Unmatched else ReviewRequired)
        && n.entries == s.entries && n.postings == s.postings
  {
    if entry.Ok? { KeysFreeIff(Stored(s, k, r), entry.value, k); }
  }

  /** A first delivery that is let in is matched at once exactly when its receipt can be booked and its keys are
      free, and refused exactly when it can be booked and they are not. Otherwise it is stored for review with
      the reason that it cannot be booked. */
  lemma FirstDeliveryIs(s: State, k: Key, e: Event, d: Deployment, t: Tables)
    requires Inv(s) && k !in s.receipts && Genuine(k, e, d) && Admitted(e, d)
    ensures var (n, outcome) := DeliverStep(s, k, e, d, t); var can := CanBook(s, k, ReceiptOf(e), e.caseId, t);
      if can then
        if KeysTaken(s, k) then outcome == Denied(UniqueViolation)
        else outcome == Done && k in n.receipts && n.receipts[k].status == Matched && |n.entries| == |s.entries| + 1
      else
        && outcome == Done && k in n.receipts && n.entries == s.entries && n.postings == s.postings
        && n.receipts[k].failure.Some? && WaitsFor(s, k, ReceiptOf(e), t, n.receipts[k].failure.value)
        && n.receipts[k].status
           == if n.receipts[k].failure == Some(CaseUnmatched) then Unmatched else ReviewRequired
  {
    var r := ReceiptOf(e);
    ScreenIff(k, e, d);
    AssembledIff(s, k, r, t);
    OwnRowAside(s, k, r, t);
    AcceptNewIs(s, k, r, d.planAllocated, t);
    var entry := Assemble(s.receipts, s.entries, k, r, t);
    if entry.Err? { Waits(s, k, r, t); }
    AcceptedOutcome(s, AcceptNew(s, k, r, d.planAllocated, t), k, r, d.planAllocated, t, entry);
  }

  // ---------------------------------------------------------------- the entry that is booked

  /** The receipt that a request books, with the case it is booked on. */
  function Subject(s: State, op: Op): Receipt
    requires Booking(s, op).Some?
  {
    if op.Deliver? then ReceiptOf(op.event) else s.receipts[op.key].(caseId := Some(s.reviews[op.key].caseId))
  }

  /** Why a payment earns commission on its day, or does not. */
  function ReasonOn(p: Profile, day: int): Reason {
    if day < p.mandateStart then PreMandate
    else if day <= p.mandateEnd then InMandate
    else if day <= LedgerTerms.LastEligibleDay(p) then SignedPlanTail
    else OutsideTail
  }

  /** What any booked entry takes over from its receipt. */
  ghost predicate Copies(e: Entry, k: Key, r: Receipt) {
    && e.tenant == k.tenant && e.receipt == k && e.id == k.provider + ":" + k.event
    && Some(e.caseId) == r.caseId && e.kind == r.kind && e.bookedAt == r.occurredAt
    && e.amount == (if r.kind == Payment then r.amount else -r.amount)
    && -5_000 < 10_000 * Abs(e.commission) - Abs(e.eligible) * e.rate <= 5_000
    && (e.commission > 0 ==> e.eligible > 0) && (e.commission < 0 ==> e.eligible < 0)
  }

  lemma Rounds(amount: int, rate: Bps)
    ensures var c := CommissionCents(amount, rate);
      && -5_000 < 10_000 * Abs(c) - Abs(amount) * rate <= 5_000
      && (c > 0 ==> amount > 0) && (c < 0 ==> amount < 0)
  {
    CommissionRounds(amount, rate);
    ShareAtMost(Abs(amount), rate);
    var product: nat := Abs(amount) * rate;
    assert 10_000 * ((product + 5_000) / 10_000) == product + 5_000 - (product + 5_000) % 10_000;
  }

  lemma AssembledCopies(receipts: map<Key, Receipt>, entries: seq<Entry>, k: Key, r: Receipt, t: Tables)
    requires Assemble(receipts, entries, k, r, t).Ok? && r.amount > 0
    ensures Copies(Assemble(receipts, entries, k, r, t).value, k, r)
  {
    var e := Assemble(receipts, entries, k, r, t).value;
    Rounds(e.eligible, e.rate);
  }

  /** The terms of a payment are those of its case's profile and rule on its day. */
  ghost predicate OnTerms(e: Entry, t: Tables) {
    && e.caseId in t.cases && e.caseId in t.profiles && e.original.None?
    && var p, day := t.profiles[e.caseId], e.bookedAt / 86_400;
    && e.packageId == t.cases[e.caseId].packageId && e.ruleId == p.ruleId
    && (exists rule :: rule in t.rules && rule.active && rule.packageId == e.packageId && rule.ruleId == e.ruleId
                       && rule.version == e.ruleVersion && rule.rate == e.rate)
    && (forall rule :: rule in t.rules && rule.active && rule.ruleId == e.ruleId && rule.packageId == e.packageId ==>
          rule.version <= e.ruleVersion)
    && e.reason == ReasonOn(p, day)
    && e.eligible == (if e.reason == InMandate || e.reason == SignedPlanTail then e.amount else 0)
  }

  lemma AssembledOnTerms(receipts: map<Key, Receipt>, entries: seq<Entry>, k: Key, r: Receipt, t: Tables)
    requires Assemble(receipts, entries, k, r, t).Ok? && r.kind == Payment
    ensures OnTerms(Assemble(receipts, entries, k, r, t).value, t)
  {
    LedgerTerms.PaymentBookedIff(receipts, entries, k, r, t);
    LedgerTerms.EligibleDaysAreAnInterval(t.profiles[r.caseId.value], r.occurredAt);
  }

  /** The terms of a refund are those of the payment it continues. */
  ghost predicate OnTermsOf(e: Entry, p: Entry) {
    && e.original == Some(p.id) && e.packageId == p.packageId && e.ruleId == p.ruleId
    && e.ruleVersion == p.ruleVersion && e.rate == p.rate && e.reason == RefundOriginalRate
    && e.eligible == (if p.eligible != 0 then e.amount else 0)
  }

  lemma AssembledOnTermsOf(s: State, receipts: map<Key, Receipt>, k: Key, r: Receipt, t: Tables)
    requires Inv(s) && r.kind == Refund && r.status != Matched && (k in s.receipts ==> s.receipts[k].status != Matched)
    requires receipts == s.receipts || (k !in s.receipts && receipts == s.receipts[k := r])
    requires Assemble(receipts, s.entries, k, r, t).Ok?
    ensures r.original.Some?
    ensures exists p :: p in s.entries && p.receipt == Key(k.tenant, k.provider, r.original.value)
                        && OnTermsOf(Assemble(receipts, s.entries, k, r, t).value, p)
  {
    var source := Key(k.tenant, k.provider, r.original.value);
    OriginalFound(s, source);
    if k !in s.receipts { OwnRowAside(s, k, r, t); }
    var p := RefundOriginal(s.receipts, s.entries, k, r, r.caseId.value).value;
    assert p in s.entries && p.receipt == source;
    assert OnTermsOf(Assemble(s.receipts, s.entries, k, r, t).value, p);
  }

  /** A review that `actor` may close. */
  predicate Open(s: State, k: Key, version: int, actor: string) {
    && k in s.reviews && k in s.receipts && s.reviews[k].status == Pending && s.reviews[k].version == version
    && s.reviews[k].proposedBy != actor
  }

  /** The requests that book: a delivery let in for the first time, or an approval of an open review, whose
      receipt can be booked under free keys. */
  ghost predicate WillBook(s: State, op: Op) {
    match op
    case Deliver(k, e, d, t) =>
      Genuine(k, e, d) && k !in s.receipts && Admitted(e, d) && CanBook(s, k, ReceiptOf(e), e.caseId, t)
      && !KeysTaken(s, k)
    case Decide(k, approve, version, actor, t) =>
      approve && Open(s, k, version, actor) && CanBook(s, k, s.receipts[k], Some(s.reviews[k].caseId), t)
      && !KeysTaken(s, k)
    case Propose(_, _, _, _, _) => false
    case Record(_, _, _, _, _, _, _) => false
  }

  lemma BookingOfIff(s: State, receipts: map<Key, Receipt>, k: Key, r: Receipt, t: Tables)
    requires Inv(s) && r.amount > 0 && r.status != Matched && (k in s.receipts ==> s.receipts[k].status != Matched)
    requires receipts == s.receipts || (k !in s.receipts && receipts == s.receipts[k := r])
    ensures BookingOf(s, receipts, k, r, t).Some? <==> CanBook(s, k, r, r.caseId, t) && !KeysTaken(s, k)
    ensures BookingOf(s, receipts, k, r, t).Some? ==> Copies(BookingOf(s, receipts, k, r, t).value, k, r)
  {
    AssembledIff(s, k, r, t);
    if k !in s.receipts { OwnRowAside(s, k, r, t); }
    var e := Assemble(s.receipts, s.entries, k, r, t);
    if e.Ok? {
      AssembledCopies(s.receipts, s.entries, k, r, t);
      KeysFreeIff(s, e.value, k);
    }
  }

  /** What a request is about to book, told without assembling it: whether there is an entry, and what it takes
      over from its receipt. */
  lemma BookingIff(s: State, op: Op)
    requires Inv(s)
    ensures Booking(s, op).Some? <==> WillBook(s, op)
    ensures Booking(s, op).Some? ==> Copies(Booking(s, op).value, op.key, Subject(s, op))
  {
    match op
    case Deliver(k, e, d, t) =>
      ScreenIff(k, e, d);
      if Genuine(k, e, d) && k !in s.receipts && Admitted(e, d) {
        BookingOfIff(s, s.receipts[k := ReceiptOf(e)], k, ReceiptOf(e), t);
      }
    case Decide(k, approve, version, actor, t) =>
      if Open(s, k, version, actor) {
        assert ReviewAt(s, k) && ReceiptAt(s, k);
        BookingOfIff(s, s.receipts, k, s.receipts[k].(caseId := Some(s.reviews[k].caseId)), t);
      }
    case Propose(_, _, _, _, _) =>
    case Record(_, _, _, _, _, _, _) =>
  }

  /** And on which terms: a payment on those of its case's profile and rule on its day, a refund on those of the
      payment it continues. */
  lemma BookingTerms(s: State, op: Op)
    requires Inv(s) && Booking(s, op).Some?
    ensures var e, r := Booking(s, op).value, Subject(s, op);
      && (e.kind == Payment ==> OnTerms(e, op.tables))
      && (e.kind == Refund ==> r.original.Some?)
      && (e.kind == Refund ==>
            exists p :: p in s.entries && OnTermsOf(e, p)
                        && p.receipt == Key(op.key.tenant, op.key.provider, r.original.value))
  {
    var k, r := op.key, Subject(s, op);
    var receipts := if op.Deliver? then s.receipts[k := r] else s.receipts;
    BookingIff(s, op);
    if op.Decide? { assert ReviewAt(s, k) && ReceiptAt(s, k); }
    assert Assemble(receipts, s.entries, k, r, op.tables) == Ok(Booking(s, op).value);
    if r.kind == Payment {
      AssembledOnTerms(receipts, s.entries, k, r, op.tables);
    } else {
      AssembledOnTermsOf(s, receipts, k, r, op.tables);
    }
  }

  // ---------------------------------------------------------------- reviews

  /** A proposal is made exactly by a request of the right shape for a stored receipt that is neither booked nor
      fresh, on a case with a profile that fewer than twenty others are ranked ahead of, when no review of it is
      pending or approved; a repetition of the pending proposal is answered as such, and everything else changes
      nothing. */
  lemma ProposalIs(s: State, k: Key, caseId: string, reason: string, actor: string, t: Tables)
    ensures var (n, outcome) := ProposeStep(s, k, caseId, reason, actor, t);
      var free := CaseNumber(caseId) && 8 <= |reason| <= 500 && k in s.receipts
        && s.receipts[k].status != Matched && s.receipts[k].status != Accepted
        && caseId in t.cases && caseId in t.profiles
        && |Ahead(t, s.receipts[k].caseId, OriginalCase(s.receipts, k, s.receipts[k]), caseId)| < 20;
      && (outcome == Done <==> free && (k in s.reviews ==> s.reviews[k].status == Declined))
      && (outcome == Replayed <==>
            free && k in s.reviews && s.reviews[k].status == Pending && s.reviews[k].caseId == caseId
            && s.reviews[k].proposedBy == actor && s.reviews[k].reason == reason)
      && (outcome != Done ==> n == s)
      && (outcome == Done ==>
            && n.entries == s.entries && n.postings == s.postings && n.duplicates == s.duplicates
            && n.accruedMetric == s.accruedMetric
            && n.receipts == s.receipts[k := s.receipts[k].(status := ReviewPending,
                                                            failure := Some(HumanReviewPending))]
            && n.reviews == s.reviews[k := Review(caseId, reason, Pending,
                                                  if k in s.reviews then s.reviews[k].version + 1 else 1,
                                                  actor, None, None)])
  {
  }

  /** Which candidate is ranked first: the case of the refunded payment above all when it is named too or has a
      signed plan, then by the sums below. */
  lemma ScoresAre(t: Tables, named: Option<string>, original: Option<string>, caseId: string)
    requires caseId in t.cases
    ensures var c := t.cases[caseId];
      var base := if c.blocked then 20 else 25;
      Score(t, named, original, caseId) ==
        if original == Some(caseId) then
          (if named == Some(caseId) || c.hasSignedPlan then 99 else base + 60)
        else if named == Some(caseId) then (if c.hasSignedPlan then base + 70 else base + 50)
        else if c.hasSignedPlan then base + 20 else base
  {
  }

  /** The ranking is one order of the cases with a profile: of any two exactly one is ahead, by its score, and among
      equals by its identifier. */
  lemma RankingIs(t: Tables, named: Option<string>, original: Option<string>, c: string, d: string)
    requires c in t.cases && d in t.cases && c in t.profiles && d in t.profiles && c != d
    ensures d in Ahead(t, named, original, c) <==> c !in Ahead(t, named, original, d)
    ensures Score(t, named, original, d) > Score(t, named, original, c) ==> d in Ahead(t, named, original, c)
    ensures Score(t, named, original, d) == Score(t, named, original, c) ==>
      (d in Ahead(t, named, original, c) <==> Strings.StringLess(d, c))
  {
    Strings.Connected(c, d);
    if Strings.StringLess(c, d) && Strings.StringLess(d, c) {
      Strings.Transitive(c, d, c);
      Strings.Irreflexive(c);
    }
  }

  /** Up to twenty cases with a profile are all offered. */
  lemma FewAreAllOffered(t: Tables, named: Option<string>, original: Option<string>, c: string)
    requires c in t.cases && c in t.profiles && |t.cases.Keys * t.profiles.Keys| <= 20
    ensures |Ahead(t, named, original, c)| < 20
  {
    var all, ahead := t.cases.Keys * t.profiles.Keys, Ahead(t, named, original, c);
    Strings.Irreflexive(c);
    assert ahead <= all - {c};
    assert all == (all - {c}) + {c};
    assert all - {c} == ahead + (all - {c} - ahead);
  }

  /** The original of a refund names its case, once it is matched. */
  lemma OriginalCaseIs(receipts: map<Key, Receipt>, k: Key, r: Receipt, c: string)
    ensures OriginalCase(receipts, k, r) == Some(c) <==>
      && r.kind == Refund && r.original.Some?
      && var source := Key(k.tenant, k.provider, r.original.value);
      source in receipts && receipts[source].status == Matched && receipts[source].caseId == Some(c)
  {
  }

  /** A refusal declines an open review and rejects its receipt; an approval books the receipt on the reviewed
      case, exactly when it can be booked under free keys; any other decision changes nothing. */
  lemma DecisionIs(s: State, k: Key, approve: bool, version: int, actor: string, t: Tables)
    requires Inv(s)
    ensures var (n, outcome) := DecideStep(s, k, approve, version, actor, t);
      && (outcome == Done <==> if approve then WillBook(s, Decide(k, approve, version, actor, t))
                               else Open(s, k, version, actor))
      && (outcome != Done ==> outcome.Denied? && n == s)
      && (outcome == Done ==>
            var v, r := s.reviews[k], s.receipts[k];
            var id := k.provider + ":" + k.event;
            var closed := v.(reviewedBy := Some(actor), version := v.version + 1);
            && n.duplicates == s.duplicates
            && n.reviews == s.reviews[k := if approve then closed.(status := Approved, entryId := Some(id))
                                           else closed.(status := Declined)]
            && n.receipts == s.receipts[k := if approve
                                             then r.(caseId := Some(v.caseId), status := Matched, failure := None,
                                                     entryId := Some(id))
                                             else r.(status := Rejected, failure := Some(ReconciliationRejected))]
            && |n.entries| == |s.entries| + (if approve then 1 else 0))
  {
    if Open(s, k, version, actor) {
      assert ReviewAt(s, k) && ReceiptAt(s, k);
      var op := Decide(k, approve, version, actor, t);
      BookingIff(s, op);
      var r := s.receipts[k].(caseId := Some(s.reviews[k].caseId));
      assert approve ==> (Booking(s, op).Some? <==> Match(s, k, s.reviews[k].caseId, actor, t).Ok?);
      if Booking(s, op).Some? { assert Booking(s, op).value.id == k.provider + ":" + k.event; }
    }
  }

  // ---------------------------------------------------------------- settlement and collection

  predicate RecordAllowed(kind: PostingKind, amount: int, reference: string, key: string) {
    (kind == Settlement || kind == Collection) && 0 < amount <= 1_000_000_000 && 4 <= |reference| <= 160
        && 4 <= |key| <= 120
  }

  predicate KeyUsed(s: State, tenant: string, key: string) {
    exists i :: 0 <= i < |s.postings| && s.postings[i].tenant == tenant && s.postings[i].idempotencyKey == key
  }

  /** A settlement or collection under a fresh key is recorded exactly when its amount is at most what is accrued
      and not settled, or settled and not collected. It then moves that one sum of its tenant, by its amount, and
      no other sum of anyone. Everything else that is not recorded changes nothing. */
  lemma RecordIs(s: State, tenant: string, kind: PostingKind, amount: int, reference: string, key: string,
                 actor: string, at: int, other: string)
    ensures var (n, outcome) := RecordStep(s, tenant, kind, amount, reference, key, actor, at);
      var open := RecordAllowed(kind, amount, reference, key) && !KeyUsed(s, tenant, key);
      && (outcome == Done <==>
            open && amount <= if kind == Settlement then Accrued(s, tenant) - Settled(s, tenant)
                               else Settled(s, tenant) - Collected(s, tenant))
      && (open && outcome != Done ==>
            outcome == Denied(if kind == Settlement then SettlementExceedsAccrual else CollectionExceedsSettlement))
      && (outcome != Done ==> n == s)
      && (outcome == Done ==>
            && n.postings == s.postings + [Posting(tenant, kind, amount, None, reference, key, actor, at)]
            && n == s.(postings := n.postings, accruedMetric := n.accruedMetric)
            && Accrued(n, other) == Accrued(s, other)
            && Settled(n, other) == Settled(s, other) + (if other == tenant && kind == Settlement then amount else 0)
            && Collected(n, other)
               == Collected(s, other) + if other == tenant && kind == Collection then amount else 0)
  {
    FindPostingFinds(s.postings, tenant, key);
    assert KeyUsed(s, tenant, key) <==> exists p :: p in s.postings && p.tenant == tenant && p.idempotencyKey == key;
    var p := Posting(tenant, kind, amount, None, reference, key, actor, at);
    PostedAppend(s.postings, p, other, {Accrual, Reversal});
    PostedAppend(s.postings, p, other, {Settlement});
    PostedAppend(s.postings, p, other, {Collection});
  }

  /** The posting stored under a key is the request that is asked again. */
  predicate SameRecord(p: Posting, kind: PostingKind, amount: int, reference: string, at: int) {
    p.source.None? && p.kind == kind && p.amount == amount && p.reference == reference && p.occurredAt == at
  }

  /** Under a key that is used, a request is a repetition when the posting under it is the same record, and a
      conflict when it is not. */
  lemma RecordAgain(s: State, tenant: string, kind: PostingKind, amount: int, reference: string, key: string,
                    actor: string, at: int)
    requires RecordAllowed(kind, amount, reference, key) && KeyUsed(s, tenant, key)
    ensures var outcome := RecordStep(s, tenant, kind, amount, reference, key, actor, at).1;
      && (outcome == Replayed || outcome == Denied(IdempotencyConflict))
      && (outcome == Replayed ==> exists p :: p in s.postings && p.tenant == tenant && p.idempotencyKey == key
                                              && SameRecord(p, kind, amount, reference, at))
      && (outcome != Replayed ==> exists p :: p in s.postings && p.tenant == tenant && p.idempotencyKey == key
                                              && !SameRecord(p, kind, amount, reference, at))
  {
    FindPostingFinds(s.postings, tenant, key);
    var p := FindPosting(s.postings, tenant, key);
    assert p.Some?;
  }

  // ---------------------------------------------------------------- what the sums are made of

  /** How one request moves the sums of a tenant: a booking its confirmed, eligible and accrued sums, a record its
      settled or collected sum, and nothing else any of them. */
  lemma SumsMove(s: State, op: Op, sc: Scope)
    requires Inv(s)
    ensures var n, outcome := Step(s, op).0, Step(s, op).1; var e := Booking(s, op);
      var mine := e.Some? && op.key.tenant == sc.tenant && (sc.caseId.None? || sc.caseId.value == e.value.caseId);
      var own := e.Some? && op.key.tenant == sc.tenant;
      var recorded := op.Record? && outcome == Done && op.tenant == sc.tenant;
      && Total(n.entries, AmountIn(sc)) == Total(s.entries, AmountIn(sc)) + (if mine then e.value.amount else 0)
      && Total(n.entries, EligibleIn(sc)) == Total(s.entries, EligibleIn(sc)) + (if mine then e.value.eligible else 0)
      && Total(n.entries, CommissionIn(sc))
         == Total(s.entries, CommissionIn(sc)) + (if mine then e.value.commission else 0)
      && Accrued(n, sc.tenant) == Accrued(s, sc.tenant) + (if own then e.value.commission else 0)
      && Settled(n, sc.tenant)
         == Settled(s, sc.tenant) + (if recorded && op.kind == Settlement then op.amount else 0)
      && Collected(n, sc.tenant)
         == Collected(s, sc.tenant) + if recorded && op.kind == Collection then op.amount else 0
  {
    if op.Record? {
      RecordIs(s, op.tenant, op.kind, op.amount, op.reference, op.idempotencyKey, op.actor, op.occurredAt, sc.tenant);
    } else {
      LedgerBookings.BookingIs(s, op);
      if Booking(s, op).Some? {
        LedgerBookings.BookingTenant(s, op);
        SumsAppend(s, Step(s, op).0, op, Booking(s, op).value, sc);
      }
    }
  }

  lemma SumsAppend(s: State, n: State, op: Op, e: Entry, sc: Scope)
    requires LedgerBookings.Appends(s, n, e, LedgerBookings.AuthorOf(op))
    ensures var mine := e.tenant == sc.tenant && (sc.caseId.None? || sc.caseId.value == e.caseId);
      && Total(n.entries, AmountIn(sc)) == Total(s.entries, AmountIn(sc)) + (if mine then e.amount else 0)
      && Total(n.entries, EligibleIn(sc)) == Total(s.entries, EligibleIn(sc)) + (if mine then e.eligible else 0)
      && Total(n.entries, CommissionIn(sc)) == Total(s.entries, CommissionIn(sc)) + if mine then e.commission else 0
    ensures Accrued(n, sc.tenant) == Accrued(s, sc.tenant) + if e.tenant == sc.tenant then e.commission else 0
    ensures Settled(n, sc.tenant) == Settled(s, sc.tenant) && Collected(n, sc.tenant) == Collected(s, sc.tenant)
  {
    TotalAppend(s.entries, e, AmountIn(sc));
    TotalAppend(s.entries, e, EligibleIn(sc));
    TotalAppend(s.entries, e, CommissionIn(sc));
    var p := PostingFor(e, LedgerBookings.AuthorOf(op));
    PostedAppend(s.postings, p, sc.tenant, {Accrual, Reversal});
    PostedAppend(s.postings, p, sc.tenant, {Settlement});
    PostedAppend(s.postings, p, sc.tenant, {Collection});
  }

  /** The amounts of the settlements, or collections, that a run accepted from a tenant. */
  function Recorded(ops: seq<Op>, tenant: string, kind: PostingKind): int {
    if ops == [] then 0
    else
      var before, op := ops[..|ops| - 1], ops[|ops| - 1];
      Recorded(before, tenant, kind)
      + if op.Record? && op.tenant == tenant && op.kind == kind && Step(Run(before), op).1 == Done then op.amount else 0
  }

  /** The amounts a run booked in a scope: payments less refunds. */
  function Confirmed(ops: seq<Op>, sc: Scope): int {
    if ops == [] then 0
    else
      var before, op := ops[..|ops| - 1], ops[|ops| - 1];
      var e := Booking(Run(before), op);
      Confirmed(before, sc)
      + if e.Some? && op.key.tenant == sc.tenant && (sc.caseId.None? || sc.caseId.value == e.value.caseId)
        then e.value.amount else 0
  }

  /** After any run the summary's settled and collected sums are the amounts of the accepted requests, and its
      confirmed net is what the bookings of the run add up to. */
  lemma {:induction false} SumsAreRequests(ops: seq<Op>, sc: Scope)
    ensures Settled(Run(ops), sc.tenant) == Recorded(ops, sc.tenant, Settlement)
    ensures Collected(Run(ops), sc.tenant) == Recorded(ops, sc.tenant, Collection)
    ensures Total(Run(ops).entries, AmountIn(sc)) == Confirmed(ops, sc)
  {
    if ops != [] {
      var before, op := ops[..|ops| - 1], ops[|ops| - 1];
      SumsAreRequests(before, sc);
      RunKeepsInv(before);
      SumsMove(Run(before), op, sc);
    }
  }

  /** A request is carried out with its own fields. */
  lemma RequestIs(s: State, op: Op)
    ensures op.Deliver? ==> Step(s, op) == DeliverStep(s, op.key, op.event, op.deployment, op.tables)
    ensures op.Propose? ==> Step(s, op) == ProposeStep(s, op.key, op.caseId, op.reason, op.actor, op.tables)
    ensures op.Decide? ==> Step(s, op) == DecideStep(s, op.key, op.approve, op.version, op.actor, op.tables)
    ensures op.Record? ==>
      Step(s, op)
      == RecordStep(s, op.tenant, op.kind, op.amount, op.reference, op.idempotencyKey, op.actor, op.occurredAt)
  {
  }
}
