/** What a request is about to book can be told before it runs; and what that booking decides. */
module LedgerBookings {
  import opened Registry
  import opened LedgerModel
  import opened LedgerBooks
  import opened LedgerInvariant
  import opened LedgerResults

  // ---------------------------------------------------------------- the booking of a request

  function AuthorOf(op: Op): string {
    if op.Deliver? then "webhook:" + op.key.provider else op.actor
  }

  /** The request appends entry `e` and its posting, and nothing else to the ledgers. */
  ghost predicate Appends(s: State, n: State, e: Entry, author: string) {
    n.entries == s.entries + [e] && n.postings == s.postings + [PostingFor(e, author)]
  }

  lemma DeliveryBooks(s: State, op: Op)
    requires op.Deliver?
    ensures var (n, outcome) := Step(s, op);
      if Booking(s, op).Some?
      then outcome == Done && op.key !in s.receipts && Appends(s, n, Booking(s, op).value, AuthorOf(op))
      else n.entries == s.entries && n.postings == s.postings
  {
    var k, r := op.key, ReceiptOf(op.event);
    AcceptNewIs(s, k, r, op.deployment.planAllocated, op.tables);
    var e := Assemble(s.receipts[k := r], s.entries, k, r, op.tables);
    if e.Ok? { assert Stored(s, k, r).entries == s.entries; }
  }

  lemma DecisionBooks(s: State, op: Op)
    requires Inv(s) && op.Decide?
    ensures var (n, outcome) := Step(s, op);
      if Booking(s, op).Some?
      then outcome == Done && s.receipts[op.key].status != Matched && Appends(s, n, Booking(s, op).value, AuthorOf(op))
      else n.entries == s.entries && n.postings == s.postings
  {
    if op.key in s.reviews && op.key in s.receipts {
      assert ReviewAt(s, op.key) && ReceiptAt(s, op.key);
    }
  }

  /** What a request does to the ledgers when `booking` is foretold. */
  ghost predicate AsForetold(s: State, n: State, op: Op, booking: Option<Entry>) {
    match booking
    case Some(e) => !op.Record? && Appends(s, n, e, AuthorOf(op)) && e.tenant == TenantOf(op)
    case None => n.entries == s.entries && (n.postings == s.postings || Records(s, n, op))
  }

  /** The request adds a settlement or collection within the balances. */
  ghost predicate Records(s: State, n: State, op: Op) {
    && op.Record? && |n.postings| == |s.postings| + 1 && n.postings == s.postings + [n.postings[|s.postings|]]
    && var p := n.postings[|s.postings|];
    && p.tenant == op.tenant && (p.kind == Settlement || p.kind == Collection)
    && (p.kind == Settlement ==> p.amount <= Accrued(s, op.tenant) - Settled(s, op.tenant))
  }

  lemma RecordForetold(s: State, op: Op)
    requires op.Record?
    ensures AsForetold(s, Step(s, op).0, op, None)
  {
  }

  lemma ProposalForetold(s: State, op: Op)
    requires op.Propose?
    ensures AsForetold(s, Step(s, op).0, op, None)
  {
  }

  lemma AssembledTenant(receipts: map<Key, Receipt>, entries: seq<Entry>, k: Key, r: Receipt, t: Tables)
    requires Assemble(receipts, entries, k, r, t).Ok?
    ensures Assemble(receipts, entries, k, r, t).value.tenant == k.tenant
  {
  }

  /** The tenant of a foretold entry is the tenant of the request. */
  lemma BookingTenant(s: State, op: Op)
    requires Booking(s, op).Some?
    ensures Booking(s, op).value.tenant == TenantOf(op) && !op.Record?
  {
    match op
    case Deliver(k, e, d, t) => AssembledTenant(s.receipts[k := ReceiptOf(e)], s.entries, k, ReceiptOf(e), t);
    case Decide(k, _, _, _, t) =>
      AssembledTenant(s.receipts, s.entries, k, s.receipts[k].(caseId := Some(s.reviews[k].caseId)), t);
    case Propose(_, _, _, _, _) =>
    case Record(_, _, _, _, _, _, _) =>
  }

  /** A request appends exactly the entry foretold, with its posting; a request that foretells none
      appends none, and at most a settlement or collection within the balances. */
  lemma BookingIs(s: State, op: Op)
    requires Inv(s)
    ensures AsForetold(s, Step(s, op).0, op, Booking(s, op))
  {
    if Booking(s, op).Some? { BookingTenant(s, op); }
    match op
    case Deliver(_, _, _, _) => DeliveryBooks(s, op);
    case Decide(_, _, _, _, _) => DecisionBooks(s, op);
    case Propose(_, _, _, _, _) => ProposalForetold(s, op);
    case Record(_, _, _, _, _, _, _) => RecordForetold(s, op);
  }

  // ---------------------------------------------------------------- settled and accrued

  lemma SettledAfter(s: State, n: State, op: Op, booking: Option<Entry>, tenant: string)
    requires AsForetold(s, n, op, booking) && Settled(s, tenant) <= Accrued(s, tenant)
    ensures Settled(n, tenant) <= Accrued(n, tenant) <==>
      (booking.Some? && TenantOf(op) == tenant ==> -booking.value.commission <= Accrued(s, tenant) - Settled(s, tenant))
  {
    assert booking.Some? ==> |n.postings| == |s.postings| + 1;
    if n.postings != s.postings {
      var p := n.postings[|s.postings|];
      assert n.postings == s.postings + [p];
      PostedAppend(s.postings, p, tenant, {Settlement});
      PostedAppend(s.postings, p, tenant, {Accrual, Reversal});
    }
  }

  /** Settled commission stays within accrued commission through a request exactly when the entry it is
      about to book, if any, takes back no more than the unsettled balance; every request that books
      nothing keeps it. */
  lemma SettledStaysWithinAccruedIff(s: State, op: Op, tenant: string)
    requires Inv(s) && Settled(s, tenant) <= Accrued(s, tenant)
    ensures var n, booking := Step(s, op).0, Booking(s, op);
      Settled(n, tenant) <= Accrued(n, tenant) <==>
        (booking.Some? && TenantOf(op) == tenant ==>
           -booking.value.commission <= Accrued(s, tenant) - Settled(s, tenant))
  {
    BookingIs(s, op);
    SettledAfter(s, Step(s, op).0, op, Booking(s, op), tenant);
  }

  // ---------------------------------------------------------------- the net commission of a payment

  function NetCommission(es: seq<Entry>, p: Entry): int { Net(es, p, CommissionIn(Scope(p.tenant, None))) }

  /** No payment has given back more commission than it earned. */
  ghost predicate NetsHold(es: seq<Entry>) {
    forall p {:trigger NetCommission(es, p)} :: p in es && p.kind == Payment ==> NetCommission(es, p) >= 0
  }

  /** The payment that entry `e` refunds. */
  ghost predicate Refunds(es: seq<Entry>, p: Entry, e: Entry) {
    p in es && p.kind == Payment && p.tenant == e.tenant && e.original == Some(p.id)
  }

  lemma NetAppend(es: seq<Entry>, e: Entry, p: Entry)
    ensures NetCommission(es + [e], p) == NetCommission(es, p)
      + if e.tenant == p.tenant && e.original == Some(p.id) then e.commission else 0
  {
    TotalAppend(es, e, RefundsOf(p, CommissionIn(Scope(p.tenant, None))));
  }

  /** A refund leaves its payment's net commission non-negative exactly when the commission on what it
      takes back, rounded by itself, is no more than the net before it. */
  lemma RefundKeepsNetIff(es: seq<Entry>, e: Entry, p: Entry)
    requires BooksSound(es + [e]) && Refunds(es, p, e)
    ensures NetCommission(es + [e], p) >= 0 <==> CommissionCents(-e.eligible, e.rate) <= NetCommission(es, p)
  {
    NetAppend(es, e, p);
    assert EntryAt(es + [e], |es|);
    CommissionRounds(e.eligible, e.rate);
  }

  /** A new payment starts with a net commission of its own, which is not negative. */
  lemma NewPaymentNet(es: seq<Entry>, e: Entry)
    requires BooksSound(es + [e]) && e.kind == Payment
    ensures NetCommission(es + [e], e) == e.commission >= 0
  {
    var all := es + [e];
    assert EntryAt(all, |es|);
    CommissionRounds(e.eligible, e.rate);
    NoRefundBeforePayment(all, |es|, CommissionIn(Scope(e.tenant, None)), |es|);
    assert all[..|es|] == es && all[|es|] == e;
    NetAppend(es, e, e);
  }

  lemma AppendKeepsNetsIff(es: seq<Entry>, e: Entry)
    requires BooksSound(es) && BooksSound(es + [e]) && NetsHold(es)
    ensures NetsHold(es + [e]) <==> Affordable(es, e)
  {
    var all := es + [e];
    assert EntryAt(all, |es|) && all[|es|] == e;
    forall p | p in es && p.kind == Payment
      ensures NetCommission(all, p) >= 0 <==>
        (Refunds(es, p, e) ==> CommissionCents(-e.eligible, e.rate) <= NetCommission(es, p))
    {
      if Refunds(es, p, e) { RefundKeepsNetIff(es, e, p); } else { NetAppend(es, e, p); }
    }
    if e.kind == Payment { NewPaymentNet(es, e); }
    if NetsHold(all) {
      forall p | Refunds(es, p, e) ensures CommissionCents(-e.eligible, e.rate) <= NetCommission(es, p) {
        assert p in all && NetCommission(all, p) >= 0;
      }
    }
  }

  /** Booking `e` takes back, rounded by itself, no more commission than the payment it refunds has left. */
  ghost predicate Affordable(es: seq<Entry>, e: Entry) {
    e.kind == Refund ==> forall p :: Refunds(es, p, e) ==> CommissionCents(-e.eligible, e.rate) <= NetCommission(es, p)
  }

  lemma NetsAfter(s: State, n: State, op: Op, booking: Option<Entry>)
    requires AsForetold(s, n, op, booking) && NetsHold(s.entries) && BooksSound(s.entries) && BooksSound(n.entries)
    ensures NetsHold(n.entries) <==> (booking.Some? ==> Affordable(s.entries, booking.value))
  {
    if booking.Some? { AppendKeepsNetsIff(s.entries, booking.value); }
  }

  /** A delivery or an approval leaves every payment's net commission non-negative exactly when it is not
      about to book a refund whose commission exceeds the net of the payment it continues; every other
      request keeps them all. */
  lemma NetsStayNonNegativeIff(s: State, op: Op)
    requires Inv(s) && NetsHold(s.entries)
    ensures NetsHold(Step(s, op).0.entries) <==>
      (Booking(s, op).Some? ==> Affordable(s.entries, Booking(s, op).value))
  {
    BookingIs(s, op);
    StepKeepsInv(s, op);
    NetsAfter(s, Step(s, op).0, op, Booking(s, op));
  }

  lemma LastRefundHasPayment(es: seq<Entry>, e: Entry)
    requires BooksSound(es + [e]) && e.kind == Refund
    ensures exists p :: Refunds(es, p, e)
  {
    var all := es + [e];
    assert EntryAt(all, |es|) && all[|es|] == e;
    var j :| 0 <= j < |es| && Continues(all[j], all[|es|]);
    assert es[j] == all[j] && Refunds(es, es[j], e);
  }

  /** The refund about to be booked does continue a payment of the ledger. */
  lemma RefundHasPayment(s: State, op: Op)
    requires Inv(s) && Booking(s, op).Some? && Booking(s, op).value.kind == Refund
    ensures exists p :: Refunds(s.entries, p, Booking(s, op).value)
  {
    BookingIs(s, op);
    StepKeepsInv(s, op);
    LastRefundHasPayment(s.entries, Booking(s, op).value);
  }
}
