/** Redelivery, cached metrics, tenants and candidates: what does and does not
    depend on how often, and where, a request arrives. */
module LedgerReplays {
  import opened Registry
  import opened Strings
  import opened LedgerModel
  import opened LedgerBooks
  import opened LedgerInvariant
  import opened LedgerResults
  import opened LedgerBookings

  // ---------------------------------------------------------------- redelivery

  predicate IsRedelivery(s: State, op: Op) { op.Deliver? && op.key in s.receipts }

  /** The state without the duplicate counters. */
  function Sealed(s: State): State { s.(duplicates := map[]) }

  /** A stored event delivered again changes a duplicate counter at most, and a reused event id
      with another body changes nothing. */
  lemma RedeliveryChangesCountersOnly(s: State, op: Op)
    requires IsRedelivery(s, op)
    ensures Sealed(Step(s, op).0) == Sealed(s)
    ensures op.event.body != s.receipts[op.key].body ==> Step(s, op).0 == s && Step(s, op).1.Denied?
    ensures Step(s, op).1 != Done
  {
  }

  /** Two outcomes of a booking that agree but for the counters. */
  ghost predicate SameBooking(x: Result<(State, string), Error>, y: Result<(State, string), Error>) {
    match (x, y)
    case (Ok(p), Ok(q)) => p.1 == q.1 && Sealed(p.0) == Sealed(q.0)
    case (Err(d), Err(e)) => d == e
    case _ => false
  }

  lemma ReconcileIgnoresCounters(a: State, b: State, k: Key, r: Receipt, author: string, t: Tables)
    requires Sealed(a) == Sealed(b)
    ensures SameBooking(Reconcile(a, k, r, author, t), Reconcile(b, k, r, author, t))
  {
  }

  lemma MatchIgnoresCounters(a: State, b: State, k: Key, caseId: string, author: string, t: Tables)
    requires Sealed(a) == Sealed(b) && k in a.receipts
    ensures SameBooking(Match(a, k, caseId, author, t), Match(b, k, caseId, author, t))
  {
    ReconcileIgnoresCounters(a, b, k, a.receipts[k].(caseId := Some(caseId)), author, t);
  }

  lemma DecideIgnoresCounters(a: State, b: State, k: Key, approve: bool, version: int, actor: string, t: Tables)
    requires Sealed(a) == Sealed(b)
    ensures var x, y := DecideStep(a, k, approve, version, actor, t), DecideStep(b, k, approve, version, actor, t);
      Sealed(x.0) == Sealed(y.0) && x.1 == y.1
  {
    if k in a.reviews && k in a.receipts {
      MatchIgnoresCounters(a, b, k, a.reviews[k].caseId, actor, t);
    }
  }

  lemma DeliverIgnoresCounters(a: State, b: State, k: Key, e: Event, d: Deployment, t: Tables)
    requires Sealed(a) == Sealed(b)
    ensures var x, y := DeliverStep(a, k, e, d, t), DeliverStep(b, k, e, d, t);
      Sealed(x.0) == Sealed(y.0) && x.1 == y.1
  {
    if k !in a.receipts {
      AcceptIgnoresCounters(a, b, k, ReceiptOf(e), d.planAllocated, t);
    }
  }

  lemma ProposeIgnoresCounters(a: State, b: State, k: Key, c: string, why: string, actor: string, t: Tables)
    requires Sealed(a) == Sealed(b)
    ensures var x, y := ProposeStep(a, k, c, why, actor, t), ProposeStep(b, k, c, why, actor, t);
      Sealed(x.0) == Sealed(y.0) && x.1 == y.1
  {
    assert b == a.(duplicates := b.duplicates, accruedMetric := b.accruedMetric);
  }

  lemma StepIgnoresCounters(a: State, b: State, op: Op)
    requires Sealed(a) == Sealed(b)
    ensures Sealed(Step(a, op).0) == Sealed(Step(b, op).0) && Step(a, op).1 == Step(b, op).1
  {
    match op
    case Deliver(k, e, d, t) => DeliverIgnoresCounters(a, b, k, e, d, t);
    case Propose(k, c, why, actor, t) => ProposeIgnoresCounters(a, b, k, c, why, actor, t);
    case Decide(k, yes, v, actor, t) => DecideIgnoresCounters(a, b, k, yes, v, actor, t);
    case Record(tenant, kind, amount, ref, key, actor, at) =>
      RecordIgnoresCounters(a, b, tenant, kind, amount, ref, key, actor, at);
  }

  lemma RecordIgnoresCounters(a: State, b: State, tenant: string, kind: PostingKind, amount: int, ref: string,
                              key: string, actor: string, at: int)
    requires Sealed(a) == Sealed(b)
    ensures var x, y := RecordStep(a, tenant, kind, amount, ref, key, actor, at),
      RecordStep(b, tenant, kind, amount, ref, key, actor, at);
      Sealed(x.0) == Sealed(y.0) && x.1 == y.1
  {
    assert b == a.(duplicates := b.duplicates);
  }

  lemma AcceptIgnoresCounters(a: State, b: State, k: Key, r: Receipt, planAllocated: bool, t: Tables)
    requires Sealed(a) == Sealed(b) && r.entryId.None?
    ensures var x, y := AcceptNew(a, k, r, planAllocated, t), AcceptNew(b, k, r, planAllocated, t);
      Sealed(x.0) == Sealed(y.0) && x.1 == y.1
  {
    AcceptNewIs(a, k, r, planAllocated, t);
    AcceptNewIs(b, k, r, planAllocated, t);
    AcceptedAlike(a, b, AcceptNew(a, k, r, planAllocated, t), AcceptNew(b, k, r, planAllocated, t), k, r,
                  planAllocated, t);
  }

  lemma AcceptedAlike(a: State, b: State, x: (State, Outcome), y: (State, Outcome), k: Key, r: Receipt,
                      planAllocated: bool, t: Tables)
    requires Sealed(a) == Sealed(b) && AcceptedAs(a, x, k, r, planAllocated, t)
        && AcceptedAs(b, y, k, r, planAllocated, t)
    ensures Sealed(x.0) == Sealed(y.0) && x.1 == y.1
  {
    ReconcileIgnoresCounters(Stored(a, k, r), Stored(b, k, r), k, r, "webhook:" + k.provider, t);
  }

  function WithoutRedeliveries(ops: seq<Op>): seq<Op> {
    if ops == [] then []
    else
      var before, last := ops[..|ops| - 1], ops[|ops| - 1];
      if IsRedelivery(Run(before), last) then WithoutRedeliveries(before)
      else WithoutRedeliveries(before) + [last]
  }

  /** Delivering stored events again, any number of times and anywhere in a run, leaves the tables
      of the run with those deliveries removed. */
  lemma {:induction false} RedeliveriesErase(ops: seq<Op>)
    ensures Sealed(Run(ops)) == Sealed(Run(WithoutRedeliveries(ops)))
  {
    if ops != [] {
      var before, last := ops[..|ops| - 1], ops[|ops| - 1];
      RedeliveriesErase(before);
      if IsRedelivery(Run(before), last) {
        RedeliveryChangesCountersOnly(Run(before), last);
      } else {
        var kept := WithoutRedeliveries(before);
        assert (kept + [last])[..|kept|] == kept;
        StepIgnoresCounters(Run(before), Run(kept), last);
      }
    }
  }

  /** And what is left redelivers nothing. */
  lemma {:induction false} NothingLeftToErase(ops: seq<Op>, i: nat)
    requires i < |WithoutRedeliveries(ops)|
    ensures !IsRedelivery(Run(WithoutRedeliveries(ops)[..i]), WithoutRedeliveries(ops)[i])
  {
    var before, last := ops[..|ops| - 1], ops[|ops| - 1];
    var kept := WithoutRedeliveries(before);
    if i < |kept| {
      NothingLeftToErase(before, i);
      assert WithoutRedeliveries(ops)[..i] == kept[..i];
    } else {
      assert WithoutRedeliveries(ops)[..i] == kept;
      RedeliveriesErase(before);
      assert Sealed(Run(before)).receipts == Sealed(Run(kept)).receipts;
    }
  }

  // ---------------------------------------------------------------- the cached metric

  /** A flushed session that holds `n` but for the tenant's metric. */
  ghost predicate FlushedTo(x: Session, n: State, tenant: string) {
    && x.pending == [] && x.db == n.(accruedMetric := x.db.accruedMetric)
    && x.db.accruedMetric.Keys + {tenant} == n.accruedMetric.Keys + {tenant}
    && forall a :: a in n.accruedMetric && a != tenant ==> x.db.accruedMetric[a] == n.accruedMetric[a]
  }

  /** What it commits after another refresh. */
  lemma FlushedSession(x: Session, n: State, tenant: string, reviews: map<Key, Review>)
    requires FlushedTo(x, n, tenant)
    ensures Commit(RefreshIn(x.(db := x.db.(reviews := reviews)), tenant)) == Refreshed(n.(reviews := reviews), tenant)
  {
    assert n.postings + [] == n.postings;
    assert x.db.accruedMetric[tenant := Accrued(n, tenant)] == n.accruedMetric[tenant := Accrued(n, tenant)];
  }

  lemma EnteredSession(s: State, k: Key, r: Receipt, e: Entry, author: string, allocates: bool)
    ensures FlushedTo(Flush(RefreshIn(EnterIn(Begin(s), k, r, e, author, allocates), k.tenant)),
                      Enter(s, k, r, e, author), k.tenant)
  {
    EnterInIs(s, k, r, e, author, allocates, k.tenant);
  }

  lemma KeptSession(n: State, tenant: string)
    ensures FlushedTo(Flush(RefreshIn(Begin(n), tenant)), n, tenant) && FlushedTo(Begin(n), n, tenant)
  {
    assert n.postings + [] == n.postings;
  }

  /** A match in a session finds what the tables say, and leaves it flushed. */
  ghost predicate MatchedAs(k: Key, x: Result<Session, Error>, y: Result<(State, string), Error>) {
    match (x, y)
    case (Ok(a), Ok(b)) => FlushedTo(a, b.0, k.tenant) && k in a.db.receipts && a.db.receipts[k].entryId == Some(b.1)
    case (Err(e), Err(f)) => e == f
    case _ => false
  }

  lemma ReconciledAs(s: State, k: Key, r: Receipt, author: string, t: Tables, allocates: bool)
    ensures match ReconcileIn(Begin(s), k, r, author, t, allocates)
      case Err(e) => MatchedAs(k, Err(e), Reconcile(s, k, r, author, t))
      case Ok(y) => MatchedAs(k, Ok(Flush(RefreshIn(y, k.tenant))), Reconcile(s, k, r, author, t))
  {
    assert s.postings + [] == s.postings;
    if r.entryId.Some? && FindEntry(s.entries, k.tenant, r.entryId.value).Some? {
      KeptSession(s.(receipts := s.receipts[k := r]), k.tenant);
    } else if Assemble(s.receipts, s.entries, k, r, t).Ok? {
      EnteredSession(s, k, r, Assemble(s.receipts, s.entries, k, r, t).value, author, allocates);
    }
  }

  lemma MatchInIs(s: State, k: Key, caseId: string, author: string, t: Tables, allocates: bool)
    requires k in s.receipts
    ensures MatchedAs(k, MatchIn(Begin(s), k, caseId, author, t, allocates), Match(s, k, caseId, author, t))
  {
    if s.receipts[k].status == Matched {
      KeptSession(s, k.tenant);
    } else {
      ReconciledAs(s, k, s.receipts[k].(caseId := Some(caseId)), author, t, allocates);
    }
  }

  /** An approval refreshes the metrics twice, the second time after a flush: whether or not a plan takes
      the money, what it commits is what `DecideStep` says, metrics included. */
  lemma ApprovalRefreshesAfterFlush(s: State, k: Key, v: Review, author: string, t: Tables, allocates: bool)
    requires k in s.receipts && Match(s, k, v.caseId, author, t).Ok?
    ensures MatchIn(Begin(s), k, v.caseId, author, t, allocates).Ok?
    ensures var x, reviews := MatchIn(Begin(s), k, v.caseId, author, t, allocates).value, s.reviews[k := v];
      Commit(RefreshIn(x.(db := x.db.(reviews := reviews)), k.tenant))
      == Refreshed(Match(s, k, v.caseId, author, t).value.0.(reviews := reviews), k.tenant)
  {
    MatchInIs(s, k, v.caseId, author, t, allocates);
    FlushedSession(MatchIn(Begin(s), k, v.caseId, author, t, allocates).value, Match(s, k, v.caseId, author, t).value.0,
                   k.tenant, s.reviews[k := v]);
  }

  /** A delivery that books a commission which no repayment plan flushes out of the session. */
  predicate Lags(s: State, op: Op) {
    op.Deliver? && !op.deployment.planAllocated && Booking(s, op).Some? && Booking(s, op).value.commission != 0
  }

  predicate Accurate(s: State, tenant: string) {
    tenant in s.accruedMetric && s.accruedMetric[tenant] == Accrued(s, tenant)
  }

  /** The metric after a delivery that books `booking`. */
  ghost predicate MetricAfter(s: State, n: State, tenant: string, booking: Option<Entry>, planAllocated: bool) {
    if booking.None? then Accurate(n, tenant)
    else
      && tenant in n.accruedMetric && Accrued(n, tenant) == Accrued(s, tenant) + booking.value.commission
      && n.accruedMetric[tenant] == if planAllocated then Accrued(n, tenant) else Accrued(s, tenant)
  }

  lemma BookedMetric(s: State, n: State, k: Key, r: Receipt, e: Entry, author: string, planAllocated: bool)
    requires e.tenant == k.tenant
    requires var booked := Enter(Stored(s, k, r), k, r, e, author);
      n == booked.(accruedMetric := s.accruedMetric[k.tenant := Accrued(if planAllocated then booked else s, k.tenant)])
    ensures MetricAfter(s, n, k.tenant, Some(e), planAllocated)
  {
    PostedAppend(s.postings, PostingFor(e, author), k.tenant, {Accrual, Reversal});
  }

  lemma AcceptMetric(s: State, k: Key, r: Receipt, planAllocated: bool, t: Tables)
    requires r.entryId.None? && AcceptNew(s, k, r, planAllocated, t).1 == Done
    ensures MetricAfter(s, AcceptNew(s, k, r, planAllocated, t).0, k.tenant,
                        BookingOf(s, s.receipts[k := r], k, r, t), planAllocated)
  {
    var n, author := AcceptNew(s, k, r, planAllocated, t).0, "webhook:" + k.provider;
    AcceptNewIs(s, k, r, planAllocated, t);
    if Reconcile(Stored(s, k, r), k, r, author, t).Ok? {
      var e := ReconcileEnters(Stored(s, k, r), k, r, author, t);
      AssembledTenant(s.receipts[k := r], s.entries, k, r, t);
      BookedMetric(s, n, k, r, e, author, planAllocated);
    }
  }

  lemma DeliveryMetric(s: State, op: Op)
    requires op.Deliver? && Step(s, op).1 == Done
    ensures MetricAfter(s, Step(s, op).0, op.key.tenant, Booking(s, op), op.deployment.planAllocated)
  {
    AcceptMetric(s, op.key, ReceiptOf(op.event), op.deployment.planAllocated, op.tables);
  }

  /** After a delivery that lags, the cached accrued metric is off by exactly the commission it booked. */
  lemma MetricLagsByCommission(s: State, op: Op)
    requires Lags(s, op)
    ensures var n, tenant, e := Step(s, op).0, op.key.tenant, Booking(s, op).value;
      && Step(s, op).1 == Done && tenant in n.accruedMetric
      && n.accruedMetric[tenant] == Accrued(n, tenant) - e.commission && !Accurate(n, tenant)
  {
    DeliveryBooks(s, op);
    DeliveryMetric(s, op);
  }

  /** A request keeps the cached accrued metric of a tenant right exactly when it is not a lagging delivery
      of that tenant. */
  lemma MetricAccurateIff(s: State, op: Op, tenant: string)
    requires Accurate(s, tenant)
    ensures Accurate(Step(s, op).0, tenant) <==> !(TenantOf(op) == tenant && Lags(s, op))
  {
    MetricAfterRequest(s, op, tenant);
    if Lags(s, op) { MetricLagsByCommission(s, op); }
  }

  /** Whatever it was before, the metric is right after a request exactly when the request does not lag
      and either refreshed it or found it right. */
  lemma MetricAfterRequest(s: State, op: Op, tenant: string)
    ensures var refreshes := TenantOf(op) == tenant && Step(s, op).1 == Done && !op.Propose?;
      Accurate(Step(s, op).0, tenant) <==> if refreshes then !Lags(s, op) else Accurate(s, tenant)
  {
    if TenantOf(op) != tenant {
      MetricsApart(s, op, tenant);
    } else if op.Deliver? && Step(s, op).1 == Done {
      DeliveryMetric(s, op);
    } else {
      OthersRefreshOrStay(s, op);
    }
  }

  lemma OthersRefreshOrStay(s: State, op: Op)
    requires !(op.Deliver? && Step(s, op).1 == Done)
    ensures var (n, outcome) := Step(s, op); var tenant := TenantOf(op);
      if outcome == Done && !op.Propose? then Accurate(n, tenant)
      else n.accruedMetric == s.accruedMetric && n.postings == s.postings
  {
  }

  /** Another tenant's metric and postings stay as they are. */
  lemma MetricsApart(s: State, op: Op, tenant: string)
    requires TenantOf(op) != tenant
    ensures Accurate(Step(s, op).0, tenant) <==> Accurate(s, tenant)
  {
    TenantsApart(s, op, Scope(tenant, None));
    OnlyOwnMetric(s, op, tenant);
  }

  ghost predicate SameMetric(s: State, n: State, tenant: string) {
    && (tenant in n.accruedMetric <==> tenant in s.accruedMetric)
    && (tenant in s.accruedMetric ==> n.accruedMetric[tenant] == s.accruedMetric[tenant])
  }

  lemma {:induction false} DeliveryOwnMetric(s: State, k: Key, e: Event, d: Deployment, t: Tables, tenant: string)
    requires k.tenant != tenant
    ensures SameMetric(s, DeliverStep(s, k, e, d, t).0, tenant)
  {
    AcceptNewIs(s, k, ReceiptOf(e), d.planAllocated, t);
    var r, result := ReceiptOf(e), AcceptNew(s, k, ReceiptOf(e), d.planAllocated, t);
    AcceptedOwnMetric(s, result, k, r, d.planAllocated, t, tenant);
  }

  lemma {:induction false} AcceptedOwnMetric(s: State, result: (State, Outcome), k: Key, r: Receipt,
                                             planAllocated: bool, t: Tables, tenant: string)
    requires AcceptedAs(s, result, k, r, planAllocated, t) && k.tenant != tenant
    ensures SameMetric(s, result.0, tenant)
  {
  }

  lemma {:induction false} OnlyOwnMetric(s: State, op: Op, tenant: string)
    requires TenantOf(op) != tenant
    ensures SameMetric(s, Step(s, op).0, tenant)
  {
    match op
    case Deliver(k, e, d, t) => DeliveryOwnMetric(s, k, e, d, t, tenant);
    case Propose(_, _, _, _, _) =>
    case Decide(_, _, _, _, _) =>
    case Record(_, _, _, _, _, _, _) =>
  }

  // ---------------------------------------------------------------- tenants

  /** No request of one tenant moves another tenant's money, receipts or reviews. */
  lemma TenantsApart(s: State, op: Op, sc: Scope)
    requires sc.tenant != TenantOf(op)
    ensures var n := Step(s, op).0;
      && Accrued(n, sc.tenant) == Accrued(s, sc.tenant)
      && Settled(n, sc.tenant) == Settled(s, sc.tenant)
      && Collected(n, sc.tenant) == Collected(s, sc.tenant)
      && Total(n.entries, AmountIn(sc)) == Total(s.entries, AmountIn(sc))
      && (forall k: Key :: k.tenant == sc.tenant ==>
            (k in n.receipts <==> k in s.receipts) && (k in n.reviews <==> k in s.reviews))
      && (forall k: Key :: k.tenant == sc.tenant && k in s.receipts ==> n.receipts[k] == s.receipts[k])
      && (forall k: Key :: k.tenant == sc.tenant && k in s.reviews ==> n.reviews[k] == s.reviews[k])
  {
    StepStaysWithin(s, op);
    AppendsApart(s, Step(s, op).0, TenantOf(op), sc);
  }

  lemma AppendsApart(s: State, n: State, tenant: string, sc: Scope)
    requires StaysWithin(s, n, tenant) && sc.tenant != tenant
    ensures Accrued(n, sc.tenant) == Accrued(s, sc.tenant)
    ensures Settled(n, sc.tenant) == Settled(s, sc.tenant)
    ensures Collected(n, sc.tenant) == Collected(s, sc.tenant)
    ensures Total(n.entries, AmountIn(sc)) == Total(s.entries, AmountIn(sc))
  {
    if n.postings != s.postings {
      var p: Posting :| p.tenant == tenant && Appendable(s, p) && n.postings == s.postings + [p];
      PostedAppend(s.postings, p, sc.tenant, {Accrual, Reversal});
      PostedAppend(s.postings, p, sc.tenant, {Settlement});
      PostedAppend(s.postings, p, sc.tenant, {Collection});
    }
    if n.entries != s.entries {
      var e: Entry :| e.tenant == tenant && n.entries == s.entries + [e];
      TotalAppend(s.entries, e, AmountIn(sc));
    }
  }

  // ---------------------------------------------------------------- candidates

  /** The case a receipt names, and the case of the payment a refund names, are always among the
      candidates when they have a profile: at most one case can rank ahead of either. */
  lemma NamedCaseIsOffered(t: Tables, named: Option<string>, original: Option<string>, caseId: string)
    requires caseId in t.cases && caseId in t.profiles
    requires named == Some(caseId) || original == Some(caseId)
    ensures |Ahead(t, named, original, caseId)| <= 1
    ensures Offered(t, named, original, caseId, CANDIDATE_LIMIT)
  {
    var other := if named == Some(caseId) then original else named;
    var ahead := Ahead(t, named, original, caseId);
    if ahead != {} {
      var d :| d in ahead;
      Irreflexive(caseId);
      assert forall x :: x in ahead ==> other == Some(x);
      assert ahead == {d};
    }
  }

  // ---------------------------------------------------------------- the legacy one-step match

  /** Why the one-step match stays off: booking a receipt whose review is pending lets the later
      rejection of that review mark a booked receipt rejected. */
  lemma LegacyMatchBreaksLedger(s: State, k: Key, caseId: string, admin: string, second: string, t: Tables)
    requires Inv(s) && k in s.reviews && s.reviews[k].status == Pending && s.reviews[k].proposedBy != second
    requires k in s.receipts && Match(s, k, caseId, admin, t).Ok?
    ensures var booked := Match(s, k, caseId, admin, t).value.0;
      var (n, outcome) := DecideStep(booked, k, false, s.reviews[k].version, second, t);
      && outcome == Done && n.receipts[k].status == Rejected
      && (exists e :: e in n.entries && e.receipt == k) && !Inv(n)
  {
    assert ReviewAt(s, k) && ReceiptAt(s, k);
    var e := ReconcileEnters(s, k, s.receipts[k].(caseId := Some(caseId)), admin, t);
    var booked := Match(s, k, caseId, admin, t).value.0;
    var n := DecideStep(booked, k, false, s.reviews[k].version, second, t).0;
    assert n.entries[|s.entries|] == e && e.receipt == k;
    assert !ReceiptAt(n, k);
  }
}
