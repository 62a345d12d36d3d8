/** The ledger's tables as the service updates them in place through a session whose additions stay
    pending until a flush, each request proved to move them exactly as the transition system says. */
module LedgerDatabase {
  import opened Registry
  import opened LedgerModel
  import LedgerReplays

  class Database {
    var receipts: map<Key, Receipt>
    var duplicates: map<Key, nat>
    var entries: seq<Entry>
    var postings: seq<Posting>
    var reviews: map<Key, Review>
    var accruedMetric: map<string, int>
    /** Postings added in the open session and not flushed: no query sees them. */
    var pending: seq<Posting>

    /** What the queries see. */
    ghost function Snapshot(): State
      reads this
    {
      State(receipts, duplicates, entries, postings, reviews, accruedMetric)
    }

    ghost function SessionNow(): Session
      reads this
    {
      Session(Snapshot(), pending)
    }

    constructor ()
      ensures SessionNow() == Begin(Empty)
    {
      receipts, duplicates, entries, postings, reviews, accruedMetric := map[], map[], [], [], map[], map[];
      pending := [];
    }

    /** `flush`, and what a commit does first. */
    method FlushSession()
      modifies this`postings, this`pending
      ensures SessionNow() == Flush(old(SessionNow()))
    {
      postings := postings + pending;
      pending := [];
    }

    /** `sum(abs(row.amount_cents) for row in prior_refunds)` */
    method PriorRefunds(tenant: string, id: string) returns (sum: int)
      ensures sum == Refunded(entries, tenant, id)
    {
      sum := 0;
      for i := 0 to |entries|
        invariant sum == Refunded(entries[..i], tenant, id)
      {
        assert entries[..i + 1][..i] == entries[..i];
        if entries[i].tenant == tenant && entries[i].original == Some(id) {
          sum := sum + Abs(entries[i].amount);
        }
      }
      assert entries[..|entries|] == entries;
    }

    /** The commission side of `financial_summary`. */
    method FinancialSummary(tenant: string) returns (accrued: int, settled: int, collected: int)
      ensures accrued == Accrued(Snapshot(), tenant)
      ensures settled == Settled(Snapshot(), tenant)
      ensures collected == Collected(Snapshot(), tenant)
    {
      accrued, settled, collected := 0, 0, 0;
      for i := 0 to |postings|
        invariant accrued == Posted(postings[..i], tenant, {Accrual, Reversal})
        invariant settled == Posted(postings[..i], tenant, {Settlement})
        invariant collected == Posted(postings[..i], tenant, {Collection})
      {
        assert postings[..i + 1][..i] == postings[..i];
        var p := postings[i];
        if p.tenant == tenant {
          match p.kind {
            case Accrual => accrued := accrued + p.amount;
            case Reversal => accrued := accrued + p.amount;
            case Settlement => settled := settled + p.amount;
            case Collection => collected := collected + p.amount;
          }
        }
      }
      assert postings[..|postings|] == postings;
    }

    method RefreshMetrics(tenant: string)
      modifies this`accruedMetric
      ensures SessionNow() == RefreshIn(old(SessionNow()), tenant)
    {
      var accrued, _, _ := FinancialSummary(tenant);
      accruedMetric := accruedMetric[tenant := accrued];
    }

    method AssembleRefund(k: Key, r: Receipt, caseId: string) returns (result: Result<Entry, Error>)
      ensures result == RefundOriginal(receipts, entries, k, r, caseId)
    {
      if r.original.None? || r.original.value == "" {
        return Err(OriginalPaymentRequired);
      }
      var source := Key(k.tenant, k.provider, r.original.value);
      if source !in receipts || receipts[source].status != Matched || receipts[source].entryId.None? {
        return Err(OriginalPaymentMissing);
      }
      var original := FindEntry(entries, k.tenant, receipts[source].entryId.value);
      if original.None? || original.value.kind != Payment || original.value.caseId != caseId {
        return Err(RefundCaseMismatch);
      }
      var refunded := PriorRefunds(k.tenant, original.value.id);
      if refunded + r.amount > original.value.amount {
        return Err(RefundExceedsPayment);
      }
      return Ok(original.value);
    }

    /** `_reconcile_receipt` on the values `r` of receipt `k`; a refusal changes nothing. */
    method ReconcileReceipt(k: Key, r: Receipt, author: string, t: Tables, allocates: bool)
      returns (result: Result<string, Error>)
      requires pending == []
      modifies this`receipts, this`entries, this`postings, this`pending
      ensures match ReconcileIn(old(SessionNow()), k, r, author, t, allocates)
              case Ok(x) => result.Ok? && SessionNow() == x && k in receipts
                && receipts[k].entryId == Some(result.value)
              case Err(e) => result == Err(e) && SessionNow() == old(SessionNow())
    {
      assert postings + pending == postings;
      if r.entryId.Some? {
        var existing := FindEntry(entries, k.tenant, r.entryId.value);
        if existing.Some? {
          receipts := receipts[k := r];
          return Ok(r.entryId.value);
        }
      }
      if r.caseId.None? || r.caseId.value == "" {
        return Err(CaseUnmatched);
      }
      var entry: Entry;
      if r.kind == Refund {
        var original := AssembleRefund(k, r, r.caseId.value);
        if original.Err? {
          return Err(original.error);
        }
        var o := original.value;
        var eligible := if o.eligible != 0 then -r.amount else 0;
        entry := Entry(k.tenant, EntryId(k), k, r.caseId.value, o.packageId, Refund, -r.amount, eligible,
                       o.ruleId, o.ruleVersion, o.rate, CommissionCents(eligible, o.rate),
                       RefundOriginalRate, Some(o.id), r.occurredAt);
      } else {
        var profile := FinancialProfile(t, r.caseId.value);
        if profile.Err? {
          return Err(profile.error);
        }
        var (c, p, rule) := profile.value;
        var (yes, reason) := Eligibility(p, r.occurredAt);
        var eligible := if yes then r.amount else 0;
        entry := Entry(k.tenant, EntryId(k), k, r.caseId.value, c.packageId, Payment, r.amount, eligible,
                       rule.ruleId, rule.version, rule.rate, CommissionCents(eligible, rule.rate),
                       reason, None, r.occurredAt);
      }
      assert Assemble(receipts, entries, k, r, t) == Ok(entry);
      if FindEntry(entries, entry.tenant, entry.id).Some?
          || FindPosting(postings, entry.tenant, RecoveryKey(entry.id)).Some? {
        return Err(UniqueViolation);
      }
      entries := entries + [entry];
      FlushSession();
      pending := pending + [PostingFor(entry, author)];
      if allocates {
        FlushSession();
      }
      receipts := receipts[k := r.(status := Matched, failure := None, entryId := Some(entry.id))];
      return Ok(entry.id);
    }

    /** `match_payment_receipt` without the commit: refreshed before the flush. */
    method MatchReceipt(k: Key, caseId: string, author: string, t: Tables, allocates: bool)
      returns (result: Result<string, Error>)
      requires pending == [] && k in receipts
      modifies this
      ensures match MatchIn(old(SessionNow()), k, caseId, author, t, allocates)
              case Ok(x) => result.Ok? && SessionNow() == x && k in receipts
                && receipts[k].entryId == Some(result.value)
              case Err(e) => result == Err(e) && SessionNow() == old(SessionNow())
    {
      var r := receipts[k];
      if r.status == Matched {
        if r.entryId.None? || FindEntry(entries, k.tenant, r.entryId.value).None? {
          return Err(LedgerIntegrity);
        }
        return Ok(r.entryId.value);
      }
      result := ReconcileReceipt(k, r.(caseId := Some(caseId)), author, t, allocates);
      if result.Ok? {
        RefreshMetrics(k.tenant);
        FlushSession();
      }
    }

    /** `accept_payment_webhook` after signature verification settled `d.signatureValid`. */
    method AcceptWebhook(k: Key, e: Event, d: Deployment, t: Tables) returns (outcome: Outcome)
      requires pending == []
      modifies this
      ensures pending == [] && (Snapshot(), outcome) == DeliverStep(old(Snapshot()), k, e, d, t)
    {
      var stop := Screen(k, e, d);
      if stop.Some? {
        return Denied(stop.value);
      }
      if k in receipts {
        if receipts[k].body != e.body {
          return Denied(IdempotencyConflict);
        }
        duplicates := duplicates[k := (if k in duplicates then duplicates[k] else 0) + 1];
        return Replayed;
      }
      stop := Admission(e, d);
      if stop.Some? {
        return Denied(stop.value);
      }
      outcome := AcceptFirst(k, ReceiptOf(e), d.planAllocated, t);
    }

    /** A first delivery; the metrics are refreshed before the commit flushes the posting. */
    method AcceptFirst(k: Key, r: Receipt, planAllocated: bool, t: Tables) returns (outcome: Outcome)
      requires pending == []
      modifies this
      ensures pending == [] && (Snapshot(), outcome) == AcceptNew(old(Snapshot()), k, r, planAllocated, t)
    {
      var oldReceipts, oldDuplicates := receipts, duplicates;
      receipts := receipts[k := r];
      duplicates := duplicates[k := 0];
      var result := ReconcileReceipt(k, r, "webhook:" + k.provider, t, planAllocated);
      if result.Err? {
        if result.error == UniqueViolation {
          receipts, duplicates := oldReceipts, oldDuplicates;
          return Denied(UniqueViolation);
        }
        var status := if result.error == CaseUnmatched then Unmatched else ReviewRequired;
        receipts := receipts[k := r.(status := status, failure := Some(result.error))];
        assert receipts == oldReceipts[k := receipts[k]];
      }
      RefreshMetrics(k.tenant);
      FlushSession();
      return Done;
    }

    /** `propose_payment_reconciliation` */
    method ProposeReconciliation(k: Key, caseId: string, reason: string, actor: string, t: Tables)
      returns (outcome: Outcome)
      modifies this`receipts, this`reviews
      ensures (Snapshot(), outcome) == ProposeStep(old(Snapshot()), k, caseId, reason, actor, t)
    {
      if !PaymentCaseId(caseId) || !Sized(reason, 8, 500) {
        return Denied(SchemaRejected);
      }
      if k !in receipts {
        return Denied(ReceiptMissing);
      }
      var r := receipts[k];
      if r.status == Matched {
        return Denied(ReceiptAlreadyMatched);
      }
      if r.status == Accepted {
        return Denied(ReceiptNotReconcilable);
      }
      if !Offered(t, r.caseId, OriginalCase(receipts, k, r), caseId, CANDIDATE_LIMIT) {
        return Denied(CandidateNotAvailable);
      }
      var version := 1;
      if k in reviews {
        var existing := reviews[k];
        if existing.status == Pending {
          if existing.caseId == caseId && existing.proposedBy == actor && existing.reason == reason {
            return Replayed;
          }
          return Denied(ReconciliationInProgress);
        }
        if existing.status == Approved {
          return Denied(ReceiptAlreadyMatched);
        }
        version := existing.version + 1;
      }
      reviews := reviews[k := Review(caseId, reason, Pending, version, actor, None, None)];
      receipts := receipts[k := r.(status := ReviewPending, failure := Some(HumanReviewPending))];
      return Done;
    }

    /** `decide_payment_reconciliation` */
    method DecideReconciliation(k: Key, approve: bool, version: int, actor: string, t: Tables, allocates: bool)
      returns (outcome: Outcome)
      requires pending == []
      modifies this
      ensures pending == [] && (Snapshot(), outcome) == DecideStep(old(Snapshot()), k, approve, version, actor, t)
    {
      if k !in reviews {
        return Denied(ReviewMissing);
      }
      var review := reviews[k];
      if review.status != Pending {
        return Denied(ReviewNotPending);
      }
      if review.version != version {
        return Denied(VersionConflict);
      }
      if review.proposedBy == actor {
        return Denied(SameActorConflict);
      }
      if k !in receipts {
        return Denied(ReceiptMissing);
      }
      var closed := review.(reviewedBy := Some(actor), version := review.version + 1);
      if !approve {
        receipts := receipts[k := receipts[k].(status := Rejected, failure := Some(ReconciliationRejected))];
        reviews := reviews[k := closed.(status := Declined)];
        RefreshMetrics(k.tenant);
        return Done;
      }
      outcome := Approve(k, closed, actor, t, allocates);
    }

    method Approve(k: Key, closed: Review, actor: string, t: Tables, allocates: bool) returns (outcome: Outcome)
      requires pending == [] && k in receipts
      modifies this
      ensures pending == [] && match Match(old(Snapshot()), k, closed.caseId, actor, t)
        case Err(e) => outcome == Denied(e) && Snapshot() == old(Snapshot())
        case Ok((n, id)) =>
          var approved := old(reviews)[k := closed.(status := Approved, entryId := Some(id))];
          outcome == Done && Snapshot() == Refreshed(n.(reviews := approved), k.tenant)
    {
      ghost var s := Snapshot();
      var matched := MatchReceipt(k, closed.caseId, actor, t, allocates);
      LedgerReplays.MatchInIs(s, k, closed.caseId, actor, t, allocates);
      if matched.Err? {
        return Denied(matched.error);
      }
      ghost var x, n := SessionNow(), Match(s, k, closed.caseId, actor, t).value.0;
      reviews := reviews[k := closed.(status := Approved, entryId := Some(matched.value))];
      LedgerReplays.FlushedSession(x, n, k.tenant, reviews);
      RefreshMetrics(k.tenant);
      FlushSession();
      return Done;
    }

    /** `record_commission_event` */
    method RecordCommissionEvent(tenant: string, kind: PostingKind, amount: int, reference: string,
                                 key: string, actor: string, at: int) returns (outcome: Outcome)
      requires pending == []
      modifies this`postings, this`pending, this`accruedMetric
      ensures pending == [] && (Snapshot(), outcome)
        == RecordStep(old(Snapshot()), tenant, kind, amount, reference, key, actor, at)
    {
      if !RecordSchema(kind, amount, reference, key) {
        return Denied(SchemaRejected);
      }
      var existing := FindPosting(postings, tenant, key);
      if existing.Some? {
        var p := existing.value;
        if p.source.None? && p.kind == kind && p.amount == amount && p.reference == reference && p.occurredAt == at {
          return Replayed;
        }
        return Denied(IdempotencyConflict);
      }
      var accrued, settled, collected := FinancialSummary(tenant);
      if kind == Settlement && amount > accrued - settled {
        return Denied(SettlementExceedsAccrual);
      }
      if kind == Collection && amount > settled - collected {
        return Denied(CollectionExceedsSettlement);
      }
      pending := [Posting(tenant, kind, amount, None, reference, key, actor, at)];
      FlushSession();
      RefreshMetrics(tenant);
      return Done;
    }
  }
}
