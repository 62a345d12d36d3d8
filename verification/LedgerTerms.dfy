/** The terms a receipt is booked on, and the obvious claims that are false. */
module LedgerTerms {
  import opened Registry
  import opened LedgerModel
  import opened LedgerBooks
  import opened LedgerInvariant
  import opened LedgerResults
  import LedgerBookings
  import LedgerReplays
  import Strings

  // ---------------------------------------------------------------- payments

  /** A payment can be booked exactly on a case that is bookable in the reference tables, and then
      on the newest active version of the case's own rule. */
  lemma PaymentBookedIff(receipts: map<Key, Receipt>, entries: seq<Entry>, k: Key, r: Receipt, t: Tables)
    requires r.kind == Payment && r.caseId.Some? && r.caseId.value != ""
    ensures var booked := Assemble(receipts, entries, k, r, t);
      && (booked.Ok? <==> Bookable(t, r.caseId.value))
      && (booked.Ok? ==>
            var e, p := booked.value, t.profiles[r.caseId.value];
            && e.packageId == t.cases[r.caseId.value].packageId && e.ruleId == p.ruleId
            && (exists rule :: rule in t.rules && rule.active && rule.packageId == e.packageId
                  && rule.ruleId == e.ruleId && rule.version == e.ruleVersion && rule.rate == e.rate)
            && forall rule ::
                 rule in t.rules && rule.active && rule.ruleId == e.ruleId && rule.packageId == e.packageId ==>
                   rule.version <= e.ruleVersion)
  {
    var caseId := r.caseId.value;
    if caseId in t.cases && caseId in t.profiles {
      var p, c := t.profiles[caseId], t.cases[caseId];
      var wanted := (x: Rule) => x.ruleId == p.ruleId && x.packageId == c.packageId;
      NewestIsNewest(t.rules, wanted);
      assert forall x :: x in t.rules && x.active && wanted(x) <==>
        x in t.rules && x.active && x.ruleId == p.ruleId && x.packageId == c.packageId;
    }
  }

  /** A first, admissible delivery of a payment is matched at once exactly when its case is bookable,
      as long as no client took the idempotency key the booking derives. */
  lemma FreshPaymentMatchedIff(s: State, k: Key, e: Event, d: Deployment, t: Tables)
    requires Inv(s) && k !in s.receipts && e.kind == Payment && e.caseId.Some?
    requires Screen(k, e, d).None? && Admission(e, d).None?
    requires FindPosting(s.postings, k.tenant, RecoveryKey(EntryId(k))).None?
    ensures var (n, outcome) := DeliverStep(s, k, e, d, t);
      && outcome == Done && k in n.receipts
      && (n.receipts[k].status == Matched <==> Bookable(t, e.caseId.value))
      && (n.receipts[k].status != Matched ==> n.entries == s.entries && n.postings == s.postings)
  {
    var r := ReceiptOf(e);
    var stored := Stored(s, k, r);
    AcceptNewIs(s, k, r, d.planAllocated, t);
    PaymentBookedIff(stored.receipts, s.entries, k, r, t);
    UnbookedHasNoEntry(s, k);
    EntryIdFree(s, k);
    FindEntryFinds(s.entries, k.tenant, EntryId(k));
  }

  /** The last day on which a payment earns commission: the end of the mandate, or the last instalment of
      a tail plan signed within it when that is later. */
  function LastEligibleDay(p: Profile): int {
    var tail := p.tailEligible && p.signedPlanAt.Some? && p.signedPlanAt.value <= p.mandateEnd
      && p.signedPlanLastDue.Some?;
    if tail && p.mandateEnd < p.signedPlanLastDue.value then p.signedPlanLastDue.value else p.mandateEnd
  }

  /** The days on which a payment earns commission are one interval, from the start of the mandate to the
      last eligible day. */
  lemma EligibleDaysAreAnInterval(p: Profile, at: int)
    ensures Eligibility(p, at).0 <==> p.mandateStart <= at / SECONDS_PER_DAY <= LastEligibleDay(p)
  {
  }

  /** A payment about to be booked earns on its whole amount if its day lies in that interval of its case's
      profile, and on nothing otherwise. */
  lemma PaymentEarnsWithinInterval(s: State, op: Op)
    requires Booking(s, op).Some? && Booking(s, op).value.kind == Payment
    ensures var e := Booking(s, op).value;
      && e.caseId in op.tables.profiles
      && var p := op.tables.profiles[e.caseId];
      && e.eligible == (if p.mandateStart <= e.bookedAt / SECONDS_PER_DAY <= LastEligibleDay(p) then e.amount else 0)
      && e.commission == CommissionCents(e.eligible, e.rate)
  {
    match op
    case Deliver(k, e, d, t) => AssembledPaymentEarns(s.receipts[k := ReceiptOf(e)], s.entries, k, ReceiptOf(e), t);
    case Decide(k, _, _, _, t) =>
      AssembledPaymentEarns(s.receipts, s.entries, k, s.receipts[k].(caseId := Some(s.reviews[k].caseId)), t);
    case Propose(_, _, _, _, _) =>
    case Record(_, _, _, _, _, _, _) =>
  }

  lemma AssembledPaymentEarns(receipts: map<Key, Receipt>, entries: seq<Entry>, k: Key, r: Receipt, t: Tables)
    requires Assemble(receipts, entries, k, r, t).Ok? && Assemble(receipts, entries, k, r, t).value.kind == Payment
    ensures var e := Assemble(receipts, entries, k, r, t).value;
      && e.caseId in t.profiles
      && var p := t.profiles[e.caseId];
      && e.eligible == (if p.mandateStart <= e.bookedAt / SECONDS_PER_DAY <= LastEligibleDay(p) then e.amount else 0)
      && e.commission == CommissionCents(e.eligible, e.rate)
  {
    EligibleDaysAreAnInterval(t.profiles[r.caseId.value], r.occurredAt);
  }

  // ---------------------------------------------------------------- which cases can be booked on

  /** Receipts, reviews and entries name only cases that the request schemas let through. */
  ghost predicate SchemaCases(s: State) {
    && (forall k {:trigger s.receipts[k]} :: k in s.receipts && s.receipts[k].caseId.Some? ==>
          PaymentCaseId(s.receipts[k].caseId.value))
    && (forall k {:trigger s.reviews[k]} :: k in s.reviews ==> PaymentCaseId(s.reviews[k].caseId))
    && (forall e :: e in s.entries ==> PaymentCaseId(e.caseId))
  }

  lemma BookingOnSchemaCase(s: State, op: Op)
    requires SchemaCases(s) && Booking(s, op).Some?
    ensures PaymentCaseId(Booking(s, op).value.caseId)
  {
  }

  /** A step that touches one receipt, appends at most one entry and keeps the reviews. */
  lemma {:induction false} SchemaCasesAfter(s: State, n: State, k: Key, booking: Option<Entry>)
    requires SchemaCases(s) && n.reviews == s.reviews && k in n.receipts && n.receipts == s.receipts[k := n.receipts[k]]
    requires n.receipts[k].caseId.Some? ==> PaymentCaseId(n.receipts[k].caseId.value)
    requires n.entries == s.entries + if booking.Some? then [booking.value] else []
    requires booking.Some? ==> PaymentCaseId(booking.value.caseId)
    ensures SchemaCases(n)
  {
  }

  /** A first delivery leaves one new receipt, on the case it named. */
  ghost predicate LeavesCase(s: State, n: State, k: Key, r: Receipt) {
    && n.reviews == s.reviews && k in n.receipts && n.receipts == s.receipts[k := n.receipts[k]]
    && n.receipts[k].caseId == r.caseId
  }

  lemma {:induction false} AutoMatchedLeavesCase(s: State, n: State, k: Key, r: Receipt, e: Entry, author: string,
                                                 t: Tables)
    requires AutoMatched(s, n, k, r, e, author, t)
    ensures LeavesCase(s, n, k, r)
  {
    assert s.receipts[k := r][k := n.receipts[k]] == s.receipts[k := n.receipts[k]];
  }

  lemma {:induction false} DeliveryKeepsSchemaCases(s: State, op: Op)
    requires SchemaCases(s) && op.Deliver?
    ensures SchemaCases(Step(s, op).0)
  {
    var n, k, r := Step(s, op).0, op.key, ReceiptOf(op.event);
    if k !in s.receipts && n != s {
      var author := "webhook:" + k.provider;
      AcceptShape(s, k, r, op.deployment.planAllocated, op.tables);
      if !Parked(s, n, k, r) {
        var e :| AutoMatched(s, n, k, r, e, author, op.tables);
        AutoMatchedLeavesCase(s, n, k, r, e, author, op.tables);
      }
      DeliveryBooksSchemaCase(s, op);
      SchemaCasesAfter(s, n, k, Booking(s, op));
    }
  }

  lemma {:induction false} DeliveryBooksSchemaCase(s: State, op: Op)
    requires SchemaCases(s) && op.Deliver?
    ensures Step(s, op).0.entries == s.entries + if Booking(s, op).Some? then [Booking(s, op).value] else []
    ensures Booking(s, op).Some? ==> PaymentCaseId(Booking(s, op).value.caseId)
  {
    LedgerBookings.DeliveryBooks(s, op);
    if Booking(s, op).Some? { BookingOnSchemaCase(s, op); }
    assert s.entries + [] == s.entries;
  }

  lemma DecisionKeepsSchemaCases(s: State, op: Op)
    requires SchemaCases(s) && Inv(s) && op.Decide?
    ensures SchemaCases(Step(s, op).0)
  {
    var n := Step(s, op).0;
    LedgerBookings.DecisionBooks(s, op);
    if Booking(s, op).Some? { BookingOnSchemaCase(s, op); }
    if n != s {
      assert ReviewAt(s, op.key) && ReceiptAt(s, op.key);
      if op.approve { var e := ApproveShape(s, op.key, op.version, op.actor, op.tables); }
    }
  }

  /** In every run, entries are booked only on cases named `C` and three to twelve digits. */
  lemma {:induction false} RunBooksSchemaCases(ops: seq<Op>)
    ensures SchemaCases(Run(ops))
  {
    if ops != [] {
      var before, op := ops[..|ops| - 1], ops[|ops| - 1];
      RunBooksSchemaCases(before);
      RunKeepsInv(before);
      StepKeepsSchemaCases(Run(before), op);
    }
  }

  lemma StepKeepsSchemaCases(s: State, op: Op)
    requires SchemaCases(s) && Inv(s)
    ensures SchemaCases(Step(s, op).0)
  {
    match op
    case Deliver(_, _, _, _) => DeliveryKeepsSchemaCases(s, op);
    case Decide(_, _, _, _, _) => DecisionKeepsSchemaCases(s, op);
    case Propose(_, _, _, _, _) =>
    case Record(_, _, _, _, _, _, _) =>
  }

  // ---------------------------------------------------------------- commission of one payment

  /** The payment that a refund continues is the one it names. */
  lemma RefundOf(es: seq<Entry>, i: nat, j: nat)
    requires BooksSound(es) && i < |es| && j < |es| && es[i].kind == Payment
    requires es[j].tenant == es[i].tenant && es[j].original == Some(es[i].id)
    ensures Continues(es[i], es[j]) && es[j].eligible == if es[i].eligible != 0 then es[j].amount else 0
  {
    assert EntryAt(es, j) && EntryAt(es, i);
    var q :| 0 <= q < j && Continues(es[q], es[j]) && es[j].eligible == if es[q].eligible != 0 then es[j].amount else 0;
    assert EntryAt(es, q);
  }

  /** Within half a cent of the exact product. */
  ghost predicate Rounded(commission: int, eligible: int, rate: int) {
    -5_000 <= 10_000 * commission - eligible * rate <= 5_000
  }

  lemma EntryRounded(es: seq<Entry>, i: nat)
    requires BooksSound(es) && i < |es|
    ensures es[i].commission == CommissionCents(es[i].eligible, es[i].rate)
    ensures Rounded(es[i].commission, es[i].eligible, es[i].rate)
  {
    assert EntryAt(es, i);
    CommissionRounds(es[i].eligible, es[i].rate);
  }

  /** A single full refund gives back exactly the commission of its payment. */
  lemma FullRefundCancels(ops: seq<Op>, i: nat, j: nat)
    requires var es := Run(ops).entries;
      i < |es| && j < |es| && es[i].kind == Payment && es[j].tenant == es[i].tenant
      && es[j].original == Some(es[i].id) && es[j].amount == -es[i].amount
    ensures var p, e := Run(ops).entries[i], Run(ops).entries[j];
      e.commission == -p.commission && e.eligible == -p.eligible && 0 <= p.commission <= p.eligible
  {
    RunKeepsInv(ops);
    var es := Run(ops).entries;
    RefundOf(es, i, j);
    assert EntryAt(es, i);
    EntryRounded(es, i);
    EntryRounded(es, j);
    CommissionRounds(es[i].eligible, es[i].rate);
  }

  function RefundCount(es: seq<Entry>, p: Entry): nat {
    if es == [] then 0
    else
      var last := es[|es| - 1];
      RefundCount(es[..|es| - 1], p) + if last.tenant == p.tenant && last.original == Some(p.id) then 1 else 0
  }

  lemma RoundedSum(c: int, x: int, d: int, y: int, rate: int, n: nat, sum: int)
    requires -5_000 * n <= 10_000 * c - x * rate <= 5_000 * n && Rounded(d, y, rate) && sum == x + y
    ensures -5_000 * (n + 1) <= 10_000 * (c + d) - sum * rate <= 5_000 * (n + 1)
  {
    assert sum * rate == x * rate + y * rate;
  }

  lemma {:induction false} RefundRounding(es: seq<Entry>, i: nat, sc: Scope, n: nat)
    requires BooksSound(es) && i < |es| && n <= |es| && es[i].kind == Payment && Within(sc, es[i])
    ensures var p, k := es[i], RefundCount(es[..n], es[i]);
      var commission := Total(es[..n], RefundsOf(p, CommissionIn(sc)));
      var eligible := Total(es[..n], RefundsOf(p, EligibleIn(sc)));
      var error := 10_000 * commission - eligible * p.rate;
      -5_000 * k <= error <= 5_000 * k
  {
    if n > 0 {
      RefundRounding(es, i, sc, n - 1);
      assert es[..n][..n - 1] == es[..n - 1];
      var p, e := es[i], es[n - 1];
      if e.tenant == p.tenant && e.original == Some(p.id) {
        RefundOf(es, i, n - 1);
        EntryRounded(es, n - 1);
        RoundedSum(Total(es[..n - 1], RefundsOf(p, CommissionIn(sc))), Total(es[..n - 1], RefundsOf(p, EligibleIn(sc))),
                   e.commission, e.eligible, p.rate, RefundCount(es[..n - 1], p),
                   Total(es[..n], RefundsOf(p, EligibleIn(sc))));
      }
    }
  }

  lemma AtLeastHalfCents(c: int, x: int, rate: int, n: nat)
    requires x >= 0 && rate >= 0 && -5_000 * n <= 10_000 * c - x * rate
    ensures 2 * c + n >= 0
  {
    assert x * rate >= 0;
  }

  /** The net commission of a payment may go below zero, but by no more than half a cent for the
      payment and each of its refunds. */
  lemma NetCommissionBound(ops: seq<Op>, i: nat)
    requires i < |Run(ops).entries| && Run(ops).entries[i].kind == Payment
    ensures var es := Run(ops).entries;
      2 * Net(es, es[i], CommissionIn(Scope(es[i].tenant, None))) + 1 + RefundCount(es, es[i]) >= 0
  {
    RunKeepsInv(ops);
    var es := Run(ops).entries;
    var p, sc := es[i], Scope(es[i].tenant, None);
    NetRounding(es, i, sc);
    NetsOfPayment(es, i, sc);
    AtLeastHalfCents(Net(es, p, CommissionIn(sc)), Net(es, p, EligibleIn(sc)), p.rate, 1 + RefundCount(es, p));
  }

  lemma NetRounding(es: seq<Entry>, i: nat, sc: Scope)
    requires BooksSound(es) && i < |es| && es[i].kind == Payment && Within(sc, es[i])
    ensures var p, n := es[i], 1 + RefundCount(es, es[i]);
      -5_000 * n <= 10_000 * Net(es, p, CommissionIn(sc)) - Net(es, p, EligibleIn(sc)) * p.rate <= 5_000 * n
  {
    var p := es[i];
    assert es[..|es|] == es;
    RefundRounding(es, i, sc, |es|);
    EntryRounded(es, i);
    RoundedSum(Total(es, RefundsOf(p, CommissionIn(sc))), Total(es, RefundsOf(p, EligibleIn(sc))),
               p.commission, p.eligible, p.rate, RefundCount(es, p), Net(es, p, EligibleIn(sc)));
  }

  // ---------------------------------------------------------------- claims that fail, with their inputs

  const DEMO := Tables(
    map["P" := Package("P", true)], [Rule("R", 1, "P", 5_000, true)],
    map["C001" := CaseRecord("P", "open", false, false, None)],
    map["C001" := Profile("R", 100, None, None, None, None, None, 0, 10, None, None, false)])

  const PAY := Key("T", "amc", "pay1")
  const BACK1 := Key("T", "amc", "back1")
  const BACK2 := Key("T", "amc", "back2")
  const HOOK := Deployment(Some(1_000), 0, 60, true, false)

  function PaymentOf(amount: int): Op {
    Deliver(PAY, Event(Payment, amount, CURRENCY, 0, Some("C001"), None, "b"), HOOK, DEMO)
  }

  function RefundOp(k: Key, amount: int): Op {
    Deliver(k, Event(Refund, amount, CURRENCY, 0, Some("C001"), Some("pay1"), "b"), HOOK, DEMO)
  }

  function Row(k: Key, kind: Kind, amount: int): Receipt {
    Receipt(kind, amount, 0, Some("C001"), if kind == Payment then None else Some("pay1"), "b", Matched, None,
            Some(EntryId(k)))
  }

  function Line(k: Key, kind: Kind, amount: int, commission: int): Entry {
    Entry("T", EntryId(k), k, "C001", "P", kind, amount, amount, "R", 1, 5_000, commission,
          if kind == Payment then InMandate else RefundOriginalRate,
          if kind == Payment then None else Some(EntryId(PAY)), 0)
  }

  function Post(e: Entry): Posting { PostingFor(e, "webhook:amc") }

  lemma DemoPays()
    ensures var n := Step(Empty, PaymentOf(2)).0;
      && n.receipts == map[PAY := Row(PAY, Payment, 2)] && n.entries == [Line(PAY, Payment, 2, 1)]
      && n.postings == [Post(Line(PAY, Payment, 2, 1))] && n.accruedMetric == map["T" := 0]
  {
    assert ValidProvider("amc") && "webhook:" + "amc" == "webhook:amc";
    assert Newest(DEMO.rules[1..], (x: Rule) => x.ruleId == "R" && x.packageId == "P") == None;
    assert Newest(DEMO.rules, (x: Rule) => x.ruleId == "R" && x.packageId == "P") == Some(DEMO.rules[0]);
    assert CommissionCents(2, 5_000) == 1;
  }

  /** A refund of one cent, half a cent of commission, takes back a whole cent of commission. */
  lemma {:induction false} DemoRefunds(s: State, k: Key)
    requires k == BACK1 || k == BACK2
    requires PAY in s.receipts && s.receipts[PAY] == Row(PAY, Payment, 2) && k !in s.receipts
    requires |s.entries| >= 1 && s.entries[0] == Line(PAY, Payment, 2, 1)
    requires Refunded(s.entries, "T", EntryId(PAY)) <= 1
    requires FindEntry(s.entries, "T", EntryId(k)).None? && FindPosting(s.postings, "T", RecoveryKey(EntryId(k))).None?
    ensures var n := Step(s, RefundOp(k, 1)).0;
      && n.receipts == s.receipts[k := Row(k, Refund, 1)] && n.entries == s.entries + [Line(k, Refund, -1, -1)]
      && n.postings == s.postings + [Post(Line(k, Refund, -1, -1))]
  {
    var r := ReceiptOf(RefundOp(k, 1).event);
    DemoAdmitted(k, 1);
    AcceptNewIs(s, k, r, false, DEMO);
    DemoAssembles(s.receipts[k := r], s.entries, k, r);
    DemoCommits(s, AcceptNew(s, k, r, false, DEMO), k, r);
  }

  lemma {:induction false} DemoCommits(s: State, result: (State, Outcome), k: Key, r: Receipt)
    requires (k == BACK1 || k == BACK2) && r == ReceiptOf(RefundOp(k, 1).event)
        && AcceptedAs(s, result, k, r, false, DEMO)
    requires Assemble(s.receipts[k := r], s.entries, k, r, DEMO) == Ok(Line(k, Refund, -1, -1))
    requires FindEntry(s.entries, "T", EntryId(k)).None? && FindPosting(s.postings, "T", RecoveryKey(EntryId(k))).None?
    ensures var n := result.0;
      && n.receipts == s.receipts[k := Row(k, Refund, 1)] && n.entries == s.entries + [Line(k, Refund, -1, -1)]
      && n.postings == s.postings + [Post(Line(k, Refund, -1, -1))]
  {
    assert "webhook:" + "amc" == "webhook:amc";
  }

  lemma DemoAdmitted(k: Key, amount: int)
    requires (k == BACK1 || k == BACK2) && 0 < amount <= 1_000
    ensures Screen(k, RefundOp(k, amount).event, HOOK).None? && Admission(RefundOp(k, amount).event, HOOK).None?
  {
    assert ValidProvider("amc");
  }

  lemma {:induction false} DemoAssembles(receipts: map<Key, Receipt>, entries: seq<Entry>, k: Key, r: Receipt)
    requires (k == BACK1 || k == BACK2) && r == ReceiptOf(RefundOp(k, 1).event)
    requires PAY in receipts && receipts[PAY] == Row(PAY, Payment, 2)
    requires |entries| >= 1 && entries[0] == Line(PAY, Payment, 2, 1) && Refunded(entries, "T", EntryId(PAY)) <= 1
    ensures Assemble(receipts, entries, k, r, DEMO) == Ok(Line(k, Refund, -1, -1))
  {
    assert CommissionCents(-1, 5_000) == -1;
    assert FindEntry(entries, "T", EntryId(PAY)) == Some(Line(PAY, Payment, 2, 1));
  }

  lemma RunTwo(a: Op, b: Op)
    ensures Run([a, b]) == Step(Step(Empty, a).0, b).0
  {
    assert [a, b][..1] == [a] && [a][..0] == [];
    assert Run([a]) == Step(Empty, a).0;
  }

  lemma RunThree(a: Op, b: Op, c: Op)
    ensures Run([a, b, c]) == Step(Step(Step(Empty, a).0, b).0, c).0
  {
    assert [a, b, c][..2] == [a, b];
    RunTwo(a, b);
  }

  lemma DemoIds()
    ensures EntryId(BACK1) != EntryId(PAY) && EntryId(BACK2) != EntryId(PAY) && EntryId(BACK1) != EntryId(BACK2)
    ensures RecoveryKey(EntryId(BACK1)) != RecoveryKey(EntryId(PAY))
        && RecoveryKey(EntryId(BACK2)) != RecoveryKey(EntryId(PAY))
    ensures RecoveryKey(EntryId(BACK1)) != RecoveryKey(EntryId(BACK2))
    ensures RecoveryKey(EntryId(PAY)) != "key1" && RecoveryKey(EntryId(BACK1)) != "key1"
  {
    assert EntryId(BACK1)[4] == 'b' && EntryId(BACK2)[4] == 'b' && EntryId(PAY)[4] == 'p';
    assert EntryId(BACK1)[8] == '1' && EntryId(BACK2)[8] == '2';
    assert RecoveryKey(EntryId(BACK1))[17] == '1' && RecoveryKey(EntryId(BACK2))[17] == '2';
    assert RecoveryKey(EntryId(BACK1))[13] == 'b' && RecoveryKey(EntryId(BACK2))[13] == 'b'
      && RecoveryKey(EntryId(PAY))[13] == 'p';
  }

  lemma {:induction false} DemoSecondRefund(s: State)
    requires s.receipts == map[PAY := Row(PAY, Payment, 2)] && s.entries == [Line(PAY, Payment, 2, 1)]
    requires s.postings == [Post(Line(PAY, Payment, 2, 1))]
    ensures Step(Step(s, RefundOp(BACK1, 1)).0, RefundOp(BACK2, 1)).0.entries
         == [Line(PAY, Payment, 2, 1), Line(BACK1, Refund, -1, -1), Line(BACK2, Refund, -1, -1)]
  {
    var pay := Line(PAY, Payment, 2, 1);
    DemoIds();
    assert Refunded([pay], "T", EntryId(PAY)) == 0;
    DemoRefunds(s, BACK1);
    var n := Step(s, RefundOp(BACK1, 1)).0;
    DemoFirstRefund(s, n);
    DemoRefundsAgain(n);
  }

  lemma {:induction false} DemoFirstRefund(s: State, n: State)
    requires s.receipts == map[PAY := Row(PAY, Payment, 2)] && s.entries == [Line(PAY, Payment, 2, 1)]
    requires s.postings == [Post(Line(PAY, Payment, 2, 1))]
    requires n.receipts == s.receipts[BACK1 := Row(BACK1, Refund, 1)]
    requires n.entries == s.entries + [Line(BACK1, Refund, -1, -1)]
    requires n.postings == s.postings + [Post(Line(BACK1, Refund, -1, -1))]
    ensures PAY in n.receipts && n.receipts[PAY] == Row(PAY, Payment, 2) && BACK2 !in n.receipts
    ensures n.entries == [Line(PAY, Payment, 2, 1), Line(BACK1, Refund, -1, -1)]
    ensures n.postings == [Post(Line(PAY, Payment, 2, 1)), Post(Line(BACK1, Refund, -1, -1))]
  {
    DemoIds();
  }

  lemma {:induction false} DemoRefundsAgain(n: State)
    requires PAY in n.receipts && n.receipts[PAY] == Row(PAY, Payment, 2) && BACK2 !in n.receipts
    requires n.entries == [Line(PAY, Payment, 2, 1), Line(BACK1, Refund, -1, -1)]
    requires n.postings == [Post(Line(PAY, Payment, 2, 1)), Post(Line(BACK1, Refund, -1, -1))]
    ensures Step(n, RefundOp(BACK2, 1)).0.entries == n.entries + [Line(BACK2, Refund, -1, -1)]
  {
    var pay, back := Line(PAY, Payment, 2, 1), Line(BACK1, Refund, -1, -1);
    DemoIds();
    assert [pay, back][..1] == [pay] && Refunded([pay], "T", EntryId(PAY)) == 0;
    assert Refunded([pay, back], "T", EntryId(PAY)) == 1;
    FindEntryFinds(n.entries, "T", EntryId(BACK2));
    FindPostingFinds(n.postings, "T", RecoveryKey(EntryId(BACK2)));
    DemoRefunds(n, BACK2);
  }

  lemma DemoNet(es: seq<Entry>)
    requires es == [Line(PAY, Payment, 2, 1), Line(BACK1, Refund, -1, -1), Line(BACK2, Refund, -1, -1)]
    ensures Net(es, es[0], CommissionIn(Scope("T", None))) == -1
  {
    var w := RefundsOf(es[0], CommissionIn(Scope("T", None)));
    assert es[..2][..1] == es[..1] && es[..1][..0] == [];
    assert Total(es[..1], w) == 0 && Total(es[..2], w) == -1 && Total(es, w) == -2;
  }

  /** Rounding each refund by itself can leave a payment's net commission negative: two cents paid,
      refunded one by one at half a cent each. */
  lemma NetCommissionMayGoNegative()
    ensures var es := Run([PaymentOf(2), RefundOp(BACK1, 1), RefundOp(BACK2, 1)]).entries;
      |es| == 3 && es[0].kind == Payment && Net(es, es[0], CommissionIn(Scope("T", None))) == -1
  {
    RunThree(PaymentOf(2), RefundOp(BACK1, 1), RefundOp(BACK2, 1));
    DemoPays();
    DemoSecondRefund(Step(Empty, PaymentOf(2)).0);
    DemoNet(Run([PaymentOf(2), RefundOp(BACK1, 1), RefundOp(BACK2, 1)]).entries);
  }

  function Settle(): Op { Record("T", Settlement, 1, "ref1", "key1", "admin", 0) }

  const SETTLED := Posting("T", Settlement, 1, None, "ref1", "key1", "admin", 0)

  lemma DemoSettles(s: State)
    requires s.postings == [Post(Line(PAY, Payment, 2, 1))]
    ensures var n := Step(s, Settle()).0;
      n == s.(postings := s.postings + [SETTLED], accruedMetric := n.accruedMetric)
  {
    DemoIds();
    FindPostingFinds(s.postings, "T", "key1");
    assert s.postings == [] + [s.postings[0]];
    PostedAppend([], s.postings[0], "T", {Accrual, Reversal});
    PostedAppend([], s.postings[0], "T", {Settlement});
  }

  lemma DemoRefundSettled(s: State)
    requires s.receipts == map[PAY := Row(PAY, Payment, 2)] && s.entries == [Line(PAY, Payment, 2, 1)]
    requires s.postings == [Post(Line(PAY, Payment, 2, 1)), SETTLED]
    ensures Step(s, RefundOp(BACK1, 1)).0.postings == s.postings + [Post(Line(BACK1, Refund, -1, -1))]
  {
    DemoIds();
    assert Refunded([Line(PAY, Payment, 2, 1)], "T", EntryId(PAY)) == 0;
    FindPostingFinds(s.postings, "T", RecoveryKey(EntryId(BACK1)));
    DemoRefunds(s, BACK1);
  }

  lemma DemoBalances(s: State)
    requires s.postings == [Post(Line(PAY, Payment, 2, 1)), SETTLED,
                            Post(Line(BACK1, Refund, -1, -1))]
    ensures Settled(s, "T") == 1 && Accrued(s, "T") == 0
  {
    var paid, back := Post(Line(PAY, Payment, 2, 1)), Post(Line(BACK1, Refund, -1, -1));
    assert s.postings == [] + [paid] + [SETTLED] + [back];
    forall kinds: set<PostingKind>
      ensures Posted(s.postings, "T", kinds)
        == (if Accrual in kinds then 1 else 0) + (if Settlement in kinds then 1 else 0)
           - if Reversal in kinds then 1 else 0
    {
      PostedAppend([], paid, "T", kinds);
      PostedAppend([] + [paid], SETTLED, "T", kinds);
      PostedAppend([] + [paid] + [SETTLED], back, "T", kinds);
    }
  }

  /** Settled commission can exceed accrued commission: paid, settled, then refunded. */
  lemma SettledMayExceedAccrued()
    ensures var s := Run([PaymentOf(2), Settle(), RefundOp(BACK1, 1)]);
      Settled(s, "T") == 1 && Accrued(s, "T") == 0
  {
    RunThree(PaymentOf(2), Settle(), RefundOp(BACK1, 1));
    DemoPays();
    DemoThree(Step(Empty, PaymentOf(2)).0);
  }

  lemma DemoThree(s: State)
    requires s.receipts == map[PAY := Row(PAY, Payment, 2)] && s.entries == [Line(PAY, Payment, 2, 1)]
    requires s.postings == [Post(Line(PAY, Payment, 2, 1))]
    ensures var n := Step(Step(s, Settle()).0, RefundOp(BACK1, 1)).0;
      Settled(n, "T") == 1 && Accrued(n, "T") == 0
  {
    DemoSettles(s);
    DemoRefundSettled(Step(s, Settle()).0);
    DemoBalances(Step(Step(s, Settle()).0, RefundOp(BACK1, 1)).0);
  }

  /** One payment, booked at once on a case without a repayment plan, leaves the cached accrued metric at
      zero while one cent is accrued. */
  lemma MetricMayLag()
    ensures var s := Run([PaymentOf(2)]);
      "T" in s.accruedMetric && s.accruedMetric["T"] == 0 && Accrued(s, "T") == 1
  {
    assert [PaymentOf(2)][..0] == [];
    DemoPays();
    var ps := Run([PaymentOf(2)]).postings;
    assert ps[..0] == [];
  }

  // ---------------------------------------------------------------- the legacy one-step match, reached

  function Unnamed(): Op { Deliver(PAY, Event(Payment, 2, CURRENCY, 0, None, None, "b"), HOOK, DEMO) }

  function Proposal(): Op { Propose(PAY, "C001", "by amount", "maker", DEMO) }

  lemma DemoUnnamed()
    ensures var n := Step(Empty, Unnamed()).0;
      n.receipts == map[PAY := Receipt(Payment, 2, 0, None, None, "b", Unmatched, Some(CaseUnmatched), None)]
      && n.reviews == map[] && n.entries == [] && n.postings == []
  {
  }

  lemma DemoOffered()
    ensures Offered(DEMO, None, None, "C001", CANDIDATE_LIMIT)
  {
    Strings.Irreflexive("C001");
    assert Ahead(DEMO, None, None, "C001") == {};
  }

  lemma DemoProposed(s: State)
    requires s.receipts == map[PAY := Receipt(Payment, 2, 0, None, None, "b", Unmatched, Some(CaseUnmatched), None)]
    requires s.reviews == map[] && s.entries == [] && s.postings == []
    ensures var n := Step(s, Proposal()).0;
      && n.reviews == map[PAY := Review("C001", "by amount", Pending, 1, "maker", None, None)]
      && n.receipts == map[PAY := Receipt(Payment, 2, 0, None, None, "b", ReviewPending,
                                          Some(HumanReviewPending), None)]
      && n.entries == [] && n.postings == []
  {
    DemoOffered();
  }

  lemma DemoMatchable(s: State)
    requires s.receipts == map[PAY := Receipt(Payment, 2, 0, None, None, "b", ReviewPending,
                                              Some(HumanReviewPending), None)]
    requires s.entries == [] && s.postings == []
    ensures Match(s, PAY, "C001", "admin", DEMO).Ok?
  {
    var r := s.receipts[PAY].(caseId := Some("C001"));
    assert DEMO.rules[0] in DEMO.rules;
    assert Bookable(DEMO, "C001");
    PaymentBookedIff(s.receipts, s.entries, PAY, r, DEMO);
  }

  /** With the one-step match switched on, two requests, a one-step match and a rejection break the ledger:
      a booked receipt is marked rejected. */
  lemma LegacyMatchBreaksRun()
    ensures var s := Run([Unnamed(), Proposal()]);
      && PAY in s.receipts && Match(s, PAY, "C001", "admin", DEMO).Ok?
      && var n := DecideStep(Match(s, PAY, "C001", "admin", DEMO).value.0, PAY, false, 1, "second", DEMO).0;
      && PAY in n.receipts && n.receipts[PAY].status == Rejected && (exists e :: e in n.entries && e.receipt == PAY)
      && !Inv(n)
  {
    RunTwo(Unnamed(), Proposal());
    DemoUnnamed();
    DemoProposed(Step(Empty, Unnamed()).0);
    var s := Run([Unnamed(), Proposal()]);
    DemoMatchable(s);
    RunKeepsInv([Unnamed(), Proposal()]);
    LedgerReplays.LegacyMatchBreaksLedger(s, PAY, "C001", "admin", "second", DEMO);
  }
}
