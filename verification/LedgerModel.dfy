/** The payment and commission ledger as a transition system: one committed
    request is one step, and a refused request leaves the state as it was. */
module LedgerModel {
  import opened Registry
  import opened Strings

  datatype Kind = Payment | Refund

  /** The unique key of a receipt. */
  datatype Key = Key(tenant: string, provider: string, event: string)

  datatype ReceiptStatus = Accepted | Matched | Unmatched | ReviewRequired | ReviewPending | Rejected

  datatype Receipt = Receipt(
    kind: Kind, amount: int, occurredAt: int, caseId: Option<string>, original: Option<string>,
    body: string, status: ReceiptStatus, failure: Option<Error>, entryId: Option<string>)

  datatype Reason = PreMandate | InMandate | SignedPlanTail | OutsideTail | RefundOriginalRate

  datatype Entry = Entry(
    tenant: string, id: string, receipt: Key, caseId: string, packageId: string, kind: Kind,
    amount: int, eligible: int, ruleId: string, ruleVersion: int, rate: Bps, commission: int,
    reason: Reason, original: Option<string>, bookedAt: int)

  datatype PostingKind = Accrual | Reversal | Settlement | Collection

  datatype Posting = Posting(
    tenant: string, kind: PostingKind, amount: int, source: Option<string>, reference: string,
    idempotencyKey: string, createdBy: string, occurredAt: int)

  datatype ReviewStatus = Pending | Approved | Declined

  datatype Review = Review(
    caseId: string, reason: string, status: ReviewStatus, version: int,
    proposedBy: string, reviewedBy: Option<string>, entryId: Option<string>)

  /** `duplicates` is the receipts' duplicate counter and `accruedMetric` the
      cached metric of each tenant; no rule of the ledger reads either. */
  datatype State = State(
    receipts: map<Key, Receipt>, duplicates: map<Key, nat>, entries: seq<Entry>,
    postings: seq<Posting>, reviews: map<Key, Review>, accruedMetric: map<string, int>)

  datatype Error =
    | SchemaRejected | InvalidProvider | WebhookNotConfigured | InvalidDeploymentPolicy | InvalidSignature
    | IdempotencyConflict | CurrencyDenied | AmountLimitExceeded | OccurredInFuture
    | CaseUnmatched | CommissionRuleMissing
    | OriginalPaymentRequired | OriginalPaymentMissing | RefundCaseMismatch | RefundExceedsPayment
    | UniqueViolation | LedgerIntegrity
    | ReceiptMissing | ReceiptAlreadyMatched | ReceiptNotReconcilable | CandidateNotAvailable
    | HumanReviewPending | ReconciliationInProgress | ReconciliationRejected
    | ReviewMissing | ReviewNotPending | VersionConflict | SameActorConflict
    | SettlementExceedsAccrual | CollectionExceedsSettlement

  datatype Outcome = Done | Replayed | Denied(error: Error)

  datatype Event = Event(
    kind: Kind, amount: int, currency: string, occurredAt: int,
    caseId: Option<string>, original: Option<string>, body: string)

  /** What the deployment supplies with a delivery: the provider's limit (absent when it is
      not configured), the clock, whether the signature verified, and whether the repayment
      plans took the booking, which flushes the session. */
  datatype Deployment = Deployment(
    maxAmount: Option<int>, now: int, tolerance: int, signatureValid: bool, planAllocated: bool)

  /** A request, with the tenant's reference tables at the moment it runs. */
  datatype Op =
    | Deliver(key: Key, event: Event, deployment: Deployment, tables: Tables)
    | Propose(key: Key, caseId: string, reason: string, actor: string, tables: Tables)
    | Decide(key: Key, approve: bool, version: int, actor: string, tables: Tables)
    | Record(tenant: string, kind: PostingKind, amount: int, reference: string,
             idempotencyKey: string, actor: string, occurredAt: int)

  const CURRENCY := "CNY"
  const MAX_CENTS := 1_000_000_000
  const SECONDS_PER_DAY := 86_400
  const CANDIDATE_LIMIT := 20

  const Empty := State(map[], map[], [], [], map[], map[])

  // ---------------------------------------------------------------- identifiers

  predicate ProviderChar(c: char) { 'a' <= c <= 'z' || '0' <= c <= '9' || c == '_' || c == '-' }

  predicate ValidProvider(p: string) {
    && 2 <= |p| <= 12
    && p[0] != '_' && p[0] != '-'
    && forall i :: 0 <= i < |p| ==> ProviderChar(p[i])
  }

  function EntryId(k: Key): string { k.provider + ":" + k.event }

  function RecoveryKey(entryId: string): string { "recovery:" + entryId }

  // ---------------------------------------------------------------- lookups

  function FindEntry(entries: seq<Entry>, tenant: string, id: string): Option<Entry> {
    if entries == [] then None
    else if entries[0].tenant == tenant && entries[0].id == id then Some(entries[0])
    else FindEntry(entries[1..], tenant, id)
  }

  lemma {:induction false} FindEntryFinds(entries: seq<Entry>, tenant: string, id: string)
    ensures var r := FindEntry(entries, tenant, id);
      && (r.Some? ==> r.value in entries && r.value.tenant == tenant && r.value.id == id)
      && (r.None? ==> forall e :: e in entries ==> !(e.tenant == tenant && e.id == id))
  {
    if entries != [] {
      FindEntryFinds(entries[1..], tenant, id);
      assert forall e :: e in entries ==> e == entries[0] || e in entries[1..];
    }
  }

  function FindPosting(postings: seq<Posting>, tenant: string, key: string): Option<Posting> {
    if postings == [] then None
    else if postings[0].tenant == tenant && postings[0].idempotencyKey == key then Some(postings[0])
    else FindPosting(postings[1..], tenant, key)
  }

  lemma {:induction false} FindPostingFinds(postings: seq<Posting>, tenant: string, key: string)
    ensures var r := FindPosting(postings, tenant, key);
      && (r.Some? ==> r.value in postings && r.value.tenant == tenant && r.value.idempotencyKey == key)
      && (r.None? ==> forall p :: p in postings ==> !(p.tenant == tenant && p.idempotencyKey == key))
  {
    if postings != [] {
      FindPostingFinds(postings[1..], tenant, key);
      assert forall p :: p in postings ==> p == postings[0] || p in postings[1..];
    }
  }

  // ---------------------------------------------------------------- money

  function Abs(x: int): int { if x < 0 then -x else x }

  function CommissionCents(amount: int, rate: Bps): int {
    var rounded := (Abs(amount) * rate + 5_000) / 10_000;
    if amount < 0 then -rounded else rounded
  }

  function Refunded(entries: seq<Entry>, tenant: string, id: string): int {
    if entries == [] then 0
    else
      var last := entries[|entries| - 1];
      Refunded(entries[..|entries| - 1], tenant, id)
      + (if last.tenant == tenant && last.original == Some(id) then Abs(last.amount) else 0)
  }

  function Posted(postings: seq<Posting>, tenant: string, kinds: set<PostingKind>): int {
    if postings == [] then 0
    else
      var last := postings[|postings| - 1];
      Posted(postings[..|postings| - 1], tenant, kinds)
      + (if last.tenant == tenant && last.kind in kinds then last.amount else 0)
  }

  function Accrued(s: State, tenant: string): int { Posted(s.postings, tenant, {Accrual, Reversal}) }
  function Settled(s: State, tenant: string): int { Posted(s.postings, tenant, {Settlement}) }
  function Collected(s: State, tenant: string): int { Posted(s.postings, tenant, {Collection}) }

  function Eligibility(p: Profile, occurredAt: int): (bool, Reason) {
    var booked := occurredAt / SECONDS_PER_DAY;
    if booked < p.mandateStart then (false, PreMandate)
    else if booked <= p.mandateEnd then (true, InMandate)
    else if && p.tailEligible
            && p.signedPlanAt.Some? && p.signedPlanAt.value <= p.mandateEnd
            && p.signedPlanLastDue.Some? && booked <= p.signedPlanLastDue.value
    then (true, SignedPlanTail)
    else (false, OutsideTail)
  }

  // ---------------------------------------------------------------- booking

  function FinancialProfile(t: Tables, caseId: string): Result<(CaseRecord, Profile, Rule), Error> {
    if caseId !in t.cases || caseId !in t.profiles then Err(CaseUnmatched)
    else
      var c, p := t.cases[caseId], t.profiles[caseId];
      match Newest(t.rules, (r: Rule) => r.ruleId == p.ruleId && r.packageId == c.packageId)
      case None => Err(CommissionRuleMissing)
      case Some(rule) => Ok((c, p, rule))
  }

  /** The matched payment entry that a refund receipt names, if the refund may be booked on it. */
  function RefundOriginal(receipts: map<Key, Receipt>, entries: seq<Entry>, k: Key, r: Receipt,
                          caseId: string): Result<Entry, Error> {
    if r.original.None? || r.original.value == "" then Err(OriginalPaymentRequired)
    else
      var source := Key(k.tenant, k.provider, r.original.value);
      if source !in receipts || receipts[source].status != Matched || receipts[source].entryId.None?
      then Err(OriginalPaymentMissing)
      else
        match FindEntry(entries, k.tenant, receipts[source].entryId.value)
        case None => Err(RefundCaseMismatch)
        case Some(e) =>
          if e.kind != Payment || e.caseId != caseId then Err(RefundCaseMismatch)
          else if Refunded(entries, k.tenant, e.id) + r.amount > e.amount then Err(RefundExceedsPayment)
          else Ok(e)
  }

  /** The entry a receipt is booked as. */
  function Assemble(receipts: map<Key, Receipt>, entries: seq<Entry>, k: Key, r: Receipt, t: Tables)
    : Result<Entry, Error>
  {
    if r.caseId.None? || r.caseId.value == "" then Err(CaseUnmatched)
    else
      var caseId := r.caseId.value;
      if r.kind == Refund then
        match RefundOriginal(receipts, entries, k, r, caseId)
        case Err(e) => Err(e)
        case Ok(o) =>
          var eligible := if o.eligible != 0 then -r.amount else 0;
          Ok(Entry(k.tenant, EntryId(k), k, caseId, o.packageId, Refund, -r.amount, eligible,
                   o.ruleId, o.ruleVersion, o.rate, CommissionCents(eligible, o.rate),
                   RefundOriginalRate, Some(o.id), r.occurredAt))
      else
        match FinancialProfile(t, caseId)
        case Err(e) => Err(e)
        case Ok((c, p, rule)) =>
          var (yes, reason) := Eligibility(p, r.occurredAt);
          var eligible := if yes then r.amount else 0;
          Ok(Entry(k.tenant, EntryId(k), k, caseId, c.packageId, Payment, r.amount, eligible,
                   rule.ruleId, rule.version, rule.rate, CommissionCents(eligible, rule.rate),
                   reason, None, r.occurredAt))
  }

  function PostingFor(e: Entry, author: string): Posting {
    Posting(e.tenant, if e.commission >= 0 then Accrual else Reversal, e.commission, Some(e.id),
            e.id, RecoveryKey(e.id), author, e.bookedAt)
  }

  /** The tables after entry `e` is booked for receipt `r`: receipt, entry and posting together. */
  function Enter(s: State, k: Key, r: Receipt, e: Entry, author: string): State {
    s.(receipts := s.receipts[k := r.(status := Matched, failure := None, entryId := Some(e.id))],
       entries := s.entries + [e],
       postings := s.postings + [PostingFor(e, author)])
  }

  function Reconcile(s: State, k: Key, r: Receipt, author: string, t: Tables): Result<(State, string), Error> {
    if r.entryId.Some? && FindEntry(s.entries, k.tenant, r.entryId.value).Some?
    then Ok((s.(receipts := s.receipts[k := r]), r.entryId.value))
    else
      match Assemble(s.receipts, s.entries, k, r, t)
      case Err(e) => Err(e)
      case Ok(e) =>
        if FindEntry(s.entries, e.tenant, e.id).Some? || FindPosting(s.postings, e.tenant, RecoveryKey(e.id)).Some?
        then Err(UniqueViolation)
        else Ok((Enter(s, k, r, e, author), e.id))
  }

  function Match(s: State, k: Key, caseId: string, author: string, t: Tables): Result<(State, string), Error>
    requires k in s.receipts
  {
    var r := s.receipts[k];
    if r.status == Matched then
      if r.entryId.Some? && FindEntry(s.entries, k.tenant, r.entryId.value).Some?
      then Ok((s, r.entryId.value))
      else Err(LedgerIntegrity)
    else Reconcile(s, k, r.(caseId := Some(caseId)), author, t)
  }

  function Refreshed(s: State, tenant: string): State {
    s.(accruedMetric := s.accruedMetric[tenant := Accrued(s, tenant)])
  }

  // ---------------------------------------------------------------- the session

  /** A request's open session: `db` is what its queries see, `pending` are the postings it added and
      has not flushed. Queries flush nothing by themselves. */
  datatype Session = Session(db: State, pending: seq<Posting>)

  function Begin(s: State): Session { Session(s, []) }

  function Flush(x: Session): Session { Session(x.db.(postings := x.db.postings + x.pending), []) }

  function Commit(x: Session): State { Flush(x).db }

  /** `refresh_business_metrics`: the sum is over what the queries see. */
  function RefreshIn(x: Session, tenant: string): Session { x.(db := Refreshed(x.db, tenant)) }

  /** Booking in a session: the entry is flushed, its posting only added; the repayment plans flush
      the session when they allocate the money. */
  function EnterIn(x: Session, k: Key, r: Receipt, e: Entry, author: string, allocates: bool): Session {
    var entered := Flush(x.(db := x.db.(entries := x.db.entries + [e])));
    var posted := entered.(pending := entered.pending + [PostingFor(e, author)]);
    var planned := if allocates then Flush(posted) else posted;
    var matched := r.(status := Matched, failure := None, entryId := Some(e.id));
    planned.(db := planned.db.(receipts := x.db.receipts[k := matched]))
  }

  /** `_reconcile_receipt` in a session. */
  function ReconcileIn(x: Session, k: Key, r: Receipt, author: string, t: Tables, allocates: bool)
    : Result<Session, Error>
  {
    if r.entryId.Some? && FindEntry(x.db.entries, k.tenant, r.entryId.value).Some?
    then Ok(x.(db := x.db.(receipts := x.db.receipts[k := r])))
    else
      match Assemble(x.db.receipts, x.db.entries, k, r, t)
      case Err(e) => Err(e)
      case Ok(e) => if KeysFree(Commit(x), e) then Ok(EnterIn(x, k, r, e, author, allocates)) else Err(UniqueViolation)
  }

  /** No entry and no posting carries the keys that booking `e` needs. */
  predicate KeysFree(s: State, e: Entry) {
    FindEntry(s.entries, e.tenant, e.id).None? && FindPosting(s.postings, e.tenant, RecoveryKey(e.id)).None?
  }

  /** What a session that books commits, and what its queries summed before the commit. */
  lemma EnterInIs(s: State, k: Key, r: Receipt, e: Entry, author: string, allocates: bool, tenant: string)
    ensures var x, n := EnterIn(Begin(s), k, r, e, author, allocates), Enter(s, k, r, e, author);
      && Commit(x) == n
      && Commit(RefreshIn(x, tenant))
         == n.(accruedMetric := s.accruedMetric[tenant := Accrued(if allocates then n else s, tenant)])
  {
    assert s.postings + [] == s.postings && [] + [PostingFor(e, author)] == [PostingFor(e, author)];
    assert s.postings + [PostingFor(e, author)] + [] == s.postings + [PostingFor(e, author)];
  }

  // ---------------------------------------------------------------- candidates

  function OriginalCase(receipts: map<Key, Receipt>, k: Key, r: Receipt): Option<string> {
    if r.kind == Refund && r.original.Some? then
      var source := Key(k.tenant, k.provider, r.original.value);
      if source in receipts && receipts[source].status == Matched then receipts[source].caseId else None
    else None
  }

  function Score(t: Tables, named: Option<string>, original: Option<string>, caseId: string): int
    requires caseId in t.cases
  {
    var c := t.cases[caseId];
    var score := 20
      + (if named == Some(caseId) then 50 else 0)
      + (if original == Some(caseId) then 60 else 0)
      + (if c.hasSignedPlan then 20 else 0)
      + (if c.blocked then 0 else 5);
    if score < 99 then score else 99
  }

  /** The cases with a profile that the ranking puts ahead of `caseId`. */
  function Ahead(t: Tables, named: Option<string>, original: Option<string>, caseId: string): set<string>
    requires caseId in t.cases
  {
    set d | d in t.cases && d in t.profiles
            && (var a, b := Score(t, named, original, d), Score(t, named, original, caseId);
                a > b || (a == b && StringLess(d, caseId)))
  }

  /** `caseId` is on the candidate list: it has a profile and fewer than `limit` cases rank ahead. */
  predicate Offered(t: Tables, named: Option<string>, original: Option<string>, caseId: string, limit: int) {
    caseId in t.cases && caseId in t.profiles && |Ahead(t, named, original, caseId)| < limit
  }

  // ---------------------------------------------------------------- requests

  /** The case identifiers that payment requests may carry: `C` and three to twelve digits. */
  predicate PaymentCaseId(c: string) {
    4 <= |c| <= 13 && c[0] == 'C' && forall i :: 1 <= i < |c| ==> IsDigit(c[i])
  }

  predicate SchemaAccepts(e: Event) {
    && 0 < e.amount <= MAX_CENTS && e.currency == CURRENCY
    && (e.caseId.Some? ==> PaymentCaseId(e.caseId.value))
    && (e.original.Some? ==> Identifier(e.original.value, 100))
    && (e.kind == Refund <==> e.original.Some?)
  }

  predicate Sized(s: string, lo: nat, hi: nat) { lo <= |s| <= hi }

  function ReceiptOf(e: Event): Receipt {
    Receipt(e.kind, e.amount, e.occurredAt, e.caseId, e.original, e.body, Accepted, None, None)
  }

  /** The request schema and `verify_payment_webhook`: what stops a delivery before the tables are read. */
  function Screen(k: Key, e: Event, d: Deployment): Option<Error> {
    if !SchemaAccepts(e) || !Identifier(k.event, 100) then Some(SchemaRejected)
    else if !ValidProvider(k.provider) then Some(InvalidProvider)
    else if d.maxAmount.None? then Some(WebhookNotConfigured)
    else if !(60 <= d.tolerance <= 900) then Some(InvalidDeploymentPolicy)
    else if !d.signatureValid then Some(InvalidSignature)
    else None
  }

  /** What stops an event that was not delivered before. */
  function Admission(e: Event, d: Deployment): Option<Error>
    requires d.maxAmount.Some?
  {
    if e.currency != CURRENCY then Some(CurrencyDenied)
    else if e.amount > d.maxAmount.value then Some(AmountLimitExceeded)
    else if e.occurredAt > d.now + d.tolerance then Some(OccurredInFuture)
    else None
  }

  function DeliverStep(s: State, k: Key, e: Event, d: Deployment, t: Tables): (State, Outcome) {
    if Screen(k, e, d).Some? then (s, Denied(Screen(k, e, d).value))
    else if k in s.receipts then
      if s.receipts[k].body != e.body then (s, Denied(IdempotencyConflict))
      else
        var seen := if k in s.duplicates then s.duplicates[k] else 0;
        (s.(duplicates := s.duplicates[k := seen + 1]), Replayed)
    else if Admission(e, d).Some? then (s, Denied(Admission(e, d).value))
    else AcceptNew(s, k, ReceiptOf(e), d.planAllocated, t)
  }

  function Stored(s: State, k: Key, r: Receipt): State {
    s.(receipts := s.receipts[k := r], duplicates := s.duplicates[k := 0])
  }

  /** A first delivery: booked at once when it can be, queued for review otherwise. The metrics are
      recomputed in the session before the commit flushes it. */
  function AcceptNew(s: State, k: Key, r: Receipt, planAllocated: bool, t: Tables): (State, Outcome) {
    match ReconcileIn(Begin(Stored(s, k, r)), k, r, "webhook:" + k.provider, t, planAllocated)
    case Ok(x) => (Commit(RefreshIn(x, k.tenant)), Done)
    case Err(UniqueViolation) => (s, Denied(UniqueViolation))
    case Err(e) =>
      var parked := r.(status := if e == CaseUnmatched then Unmatched else ReviewRequired, failure := Some(e));
      (Commit(RefreshIn(Begin(Stored(s, k, r).(receipts := s.receipts[k := parked])), k.tenant)), Done)
  }

  /** The outcome of a first delivery, as its session commits it: the metric is the sum that its
      queries saw. */
  ghost predicate AcceptedAs(s: State, result: (State, Outcome), k: Key, r: Receipt, planAllocated: bool, t: Tables) {
    match Reconcile(Stored(s, k, r), k, r, "webhook:" + k.provider, t)
    case Ok((n, _)) =>
      var sum := Accrued(if planAllocated then n else s, k.tenant);
      result == (n.(accruedMetric := s.accruedMetric[k.tenant := sum]), Done)
    case Err(UniqueViolation) => result == (s, Denied(UniqueViolation))
    case Err(e) =>
      var parked := r.(status := if e == CaseUnmatched then Unmatched else ReviewRequired, failure := Some(e));
      result == (Refreshed(Stored(s, k, r).(receipts := s.receipts[k := parked]), k.tenant), Done)
  }

  lemma AcceptNewIs(s: State, k: Key, r: Receipt, planAllocated: bool, t: Tables)
    requires r.entryId.None?
    ensures AcceptedAs(s, AcceptNew(s, k, r, planAllocated, t), k, r, planAllocated, t)
  {
    var author := "webhook:" + k.provider;
    assert s.postings + [] == s.postings;
    var e := Assemble(Stored(s, k, r).receipts, s.entries, k, r, t);
    if e.Ok? { EnterInIs(Stored(s, k, r), k, r, e.value, author, planAllocated, k.tenant); }
  }

  function ProposeStep(s: State, k: Key, caseId: string, reason: string, actor: string, t: Tables): (State, Outcome) {
    if !PaymentCaseId(caseId) || !Sized(reason, 8, 500) then (s, Denied(SchemaRejected))
    else if k !in s.receipts then (s, Denied(ReceiptMissing))
    else
      var r := s.receipts[k];
      if r.status == Matched then (s, Denied(ReceiptAlreadyMatched))
      else if r.status == Accepted then (s, Denied(ReceiptNotReconcilable))
      else if !Offered(t, r.caseId, OriginalCase(s.receipts, k, r), caseId, CANDIDATE_LIMIT) then
        (s, Denied(CandidateNotAvailable))
      else if k in s.reviews && s.reviews[k].status == Pending then
        if s.reviews[k].caseId == caseId && s.reviews[k].proposedBy == actor && s.reviews[k].reason == reason
        then (s, Replayed)
        else (s, Denied(ReconciliationInProgress))
      else if k in s.reviews && s.reviews[k].status == Approved then (s, Denied(ReceiptAlreadyMatched))
      else
        var version := if k in s.reviews then s.reviews[k].version + 1 else 1;
        (s.(reviews := s.reviews[k := Review(caseId, reason, Pending, version, actor, None, None)],
            receipts := s.receipts[k := r.(status := ReviewPending, failure := Some(HumanReviewPending))]), Done)
  }

  function DecideStep(s: State, k: Key, approve: bool, version: int, actor: string, t: Tables): (State, Outcome) {
    if k !in s.reviews then (s, Denied(ReviewMissing))
    else
      var v := s.reviews[k];
      if v.status != Pending then (s, Denied(ReviewNotPending))
      else if v.version != version then (s, Denied(VersionConflict))
      else if v.proposedBy == actor then (s, Denied(SameActorConflict))
      else if k !in s.receipts then (s, Denied(ReceiptMissing))
      else
        var closed := v.(reviewedBy := Some(actor), version := v.version + 1);
        if !approve then
          var r := s.receipts[k].(status := Rejected, failure := Some(ReconciliationRejected));
          (Refreshed(s.(reviews := s.reviews[k := closed.(status := Declined)],
                        receipts := s.receipts[k := r]), k.tenant), Done)
        else
          match Match(s, k, v.caseId, actor, t)
          case Err(e) => (s, Denied(e))
          case Ok((booked, id)) =>
            (Refreshed(booked.(reviews := s.reviews[k := closed.(status := Approved, entryId := Some(id))]),
                       k.tenant), Done)
  }

  /** `match_payment_receipt` without its commit: it refreshes the metrics, then flushes. */
  function MatchIn(x: Session, k: Key, caseId: string, author: string, t: Tables,
                   allocates: bool): Result<Session, Error>
    requires k in x.db.receipts
  {
    var r := x.db.receipts[k];
    if r.status == Matched then
      if r.entryId.Some? && FindEntry(x.db.entries, k.tenant, r.entryId.value).Some? then Ok(x)
      else Err(LedgerIntegrity)
    else
      match ReconcileIn(x, k, r.(caseId := Some(caseId)), author, t, allocates)
      case Err(e) => Err(e)
      case Ok(y) => Ok(Flush(RefreshIn(y, k.tenant)))
  }

  /** The request schema of a settlement or collection. */
  predicate RecordSchema(kind: PostingKind, amount: int, reference: string, key: string) {
    (kind == Settlement || kind == Collection) && 0 < amount <= MAX_CENTS && Sized(reference, 4, 160)
        && Sized(key, 4, 120)
  }

  function RecordStep(s: State, tenant: string, kind: PostingKind, amount: int, reference: string,
                      key: string, actor: string, at: int): (State, Outcome) {
    if !RecordSchema(kind, amount, reference, key) then (s, Denied(SchemaRejected))
    else
      match FindPosting(s.postings, tenant, key)
      case Some(p) =>
        if p.source.None? && p.kind == kind && p.amount == amount && p.reference == reference && p.occurredAt == at
        then (s, Replayed)
        else (s, Denied(IdempotencyConflict))
      case None =>
        if kind == Settlement && amount > Accrued(s, tenant) - Settled(s, tenant)
        then (s, Denied(SettlementExceedsAccrual))
        else if kind == Collection && amount > Settled(s, tenant) - Collected(s, tenant)
        then (s, Denied(CollectionExceedsSettlement))
        else
          var p := Posting(tenant, kind, amount, None, reference, key, actor, at);
          (Refreshed(s.(postings := s.postings + [p]), tenant), Done)
  }

  function Step(s: State, op: Op): (State, Outcome) {
    match op
    case Deliver(k, e, d, t) => DeliverStep(s, k, e, d, t)
    case Propose(k, c, why, actor, t) => ProposeStep(s, k, c, why, actor, t)
    case Decide(k, yes, v, actor, t) => DecideStep(s, k, yes, v, actor, t)
    case Record(tenant, kind, amount, ref, key, actor, at) => RecordStep(s, tenant, kind, amount, ref, key, actor, at)
  }

  /** The entry that a request is about to book, if any, read off the state and the request before it runs. */
  function Booking(s: State, op: Op): Option<Entry> {
    match op
    case Deliver(k, e, d, t) =>
      if Screen(k, e, d).Some? || k in s.receipts || Admission(e, d).Some? then None
      else BookingOf(s, s.receipts[k := ReceiptOf(e)], k, ReceiptOf(e), t)
    case Decide(k, approve, version, actor, t) =>
      if !approve || k !in s.reviews || k !in s.receipts then None
      else
        var v, r := s.reviews[k], s.receipts[k];
        if v.status != Pending || v.version != version || v.proposedBy == actor then None
        else BookingOf(s, s.receipts, k, r.(caseId := Some(v.caseId)), t)
    case Propose(_, _, _, _, _) => None
    case Record(_, _, _, _, _, _, _) => None
  }

  function BookingOf(s: State, receipts: map<Key, Receipt>, k: Key, r: Receipt, t: Tables): Option<Entry> {
    match Assemble(receipts, s.entries, k, r, t)
    case Ok(e) => if KeysFree(s, e) then Some(e) else None
    case Err(_) => None
  }

  function Run(ops: seq<Op>): State {
    if ops == [] then Empty else Step(Run(ops[..|ops| - 1]), ops[|ops| - 1]).0
  }
}
