/** The promises of the payment ledger, over every run of requests. */
module LedgerResults {
  import opened Registry
  import opened Strings
  import opened LedgerModel
  import opened LedgerBooks
  import opened LedgerInvariant

  // ---------------------------------------------------------------- one receipt, one entry, one posting

  lemma {:induction false} SourcedAt(ps: seq<Posting>, j: nat)
    requires j < |ps| && ps[j].source.Some?
    ensures |Sourced(ps[..j])| < |Sourced(ps)| && Sourced(ps)[|Sourced(ps[..j])|] == ps[j]
  {
    var n := |ps| - 1;
    if j < n {
      SourcedAt(ps[..n], j);
      assert ps[..n][..j] == ps[..j];
    } else {
      assert ps[..n] == ps[..j];
    }
  }

  lemma {:induction false} SourcedGrows(ps: seq<Posting>, a: nat, b: nat)
    requires a < b <= |ps| && ps[a].source.Some?
    ensures |Sourced(ps[..a])| < |Sourced(ps[..b])|
  {
    assert ps[..b][..a] == ps[..a] && ps[..b][a] == ps[a];
    SourcedAt(ps[..b], a);
  }

  lemma {:induction false} SourcedFrom(ps: seq<Posting>, i: nat) returns (j: nat)
    requires i < |Sourced(ps)|
    ensures j < |ps| && ps[j] == Sourced(ps)[i]
  {
    var n := |ps| - 1;
    if i < |Sourced(ps[..n])| {
      j := SourcedFrom(ps[..n], i);
    } else {
      j := n;
    }
  }

  /** Position `j` of the commission ledger belongs to entry `e`. */
  ghost predicate PostsFor(ps: seq<Posting>, j: nat, e: Entry) {
    j < |ps| && ps[j].tenant == e.tenant && ps[j].source == Some(e.id)
  }

  ghost predicate PostsOnce(ps: seq<Posting>, j: nat, e: Entry) {
    && PostsFor(ps, j, e) && ps[j].amount == e.commission
    && forall m: nat :: PostsFor(ps, m, e) ==> m == j
  }

  lemma OnePostingPerEntry(s: State, e: Entry)
    requires Inv(s) && e in s.entries
    ensures exists j: nat :: PostsOnce(s.postings, j, e)
  {
    var ps := s.postings;
    var i: nat :| i < |s.entries| && s.entries[i] == e;
    assert Mirrors(Sourced(ps)[i], e);
    var j := SourcedFrom(ps, i);
    forall m: nat | PostsFor(ps, m, e) ensures m == j {
      SourcedAt(ps, m);
      SourcedAt(ps, j);
      var a, b := |Sourced(ps[..m])|, |Sourced(ps[..j])|;
      assert Mirrors(Sourced(ps)[a], s.entries[a]) && Mirrors(Sourced(ps)[b], s.entries[b]);
      assert EntryAt(s.entries, a) && EntryAt(s.entries, b);
      if m < j { SourcedGrows(ps, m, j); } else if j < m { SourcedGrows(ps, j, m); }
    }
    assert PostsOnce(ps, j, e);
  }

  /** Position `i` of the recovery ledger carries the receipt's entry id and points back at the receipt. */
  ghost predicate CarriesReceipt(s: State, i: nat, k: Key)
    requires k in s.receipts
  {
    && i < |s.entries| && s.entries[i].tenant == k.tenant
    && s.receipts[k].entryId == Some(s.entries[i].id) && s.entries[i].receipt == k
  }

  /** After any run a receipt is matched exactly when one entry, and only one, books it. */
  lemma MatchedIffBookedOnce(ops: seq<Op>, k: Key)
    requires k in Run(ops).receipts
    ensures var s := Run(ops);
      s.receipts[k].status == Matched <==>
        exists i: nat :: CarriesReceipt(s, i, k) && forall m: nat :: CarriesReceipt(s, m, k) ==> m == i
  {
    var s := Run(ops);
    RunKeepsInv(ops);
    assert ReceiptAt(s, k);
    if s.receipts[k].status == Matched {
      var e :| e in s.entries && Books(e, k, s.receipts[k]);
      var i: nat :| i < |s.entries| && s.entries[i] == e;
      assert EntryAt(s.entries, i);
      forall m: nat | CarriesReceipt(s, m, k) ensures m == i {
        assert EntryAt(s.entries, m);
      }
      assert CarriesReceipt(s, i, k);
    }
  }

  /** After any run every entry books a matched receipt of its own case and amount, and has
      exactly one posting, of its own commission. */
  lemma EveryEntryAccountedFor(ops: seq<Op>, e: Entry)
    requires e in Run(ops).entries
    ensures var s := Run(ops);
      && e.receipt in s.receipts && s.receipts[e.receipt].status == Matched
      && Books(e, e.receipt, s.receipts[e.receipt])
      && exists j: nat :: PostsOnce(s.postings, j, e)
  {
    RunKeepsInv(ops);
    assert ReceiptAt(Run(ops), e.receipt);
    OnePostingPerEntry(Run(ops), e);
  }

  /** After any run: a review is pending exactly when its receipt waits unbooked, its version is
      odd exactly then, and whoever closed it was not its proposer. */
  lemma ReviewsSeparateDuties(ops: seq<Op>, k: Key)
    requires k in Run(ops).reviews
    ensures var s := Run(ops); var v := s.reviews[k];
      && k in s.receipts
      && (v.status == Pending <==> s.receipts[k].status == ReviewPending)
      && (v.status == Pending ==> forall e :: e in s.entries ==> e.receipt != k)
      && (v.status == Pending <==> v.version % 2 == 1)
      && (v.status == Approved ==> s.receipts[k].status == Matched && v.entryId == s.receipts[k].entryId)
      && (v.status != Pending ==> v.reviewedBy.Some? && v.reviewedBy.value != v.proposedBy)
  {
    RunKeepsInv(ops);
    var s := Run(ops);
    assert ReviewAt(s, k) && ReceiptAt(s, k);
  }

  // ---------------------------------------------------------------- refunds

  /** After any run the refunds of a payment never sum above it. */
  lemma RefundsNeverExceed(ops: seq<Op>, p: Entry)
    requires p in Run(ops).entries && p.kind == Payment
    ensures Refunded(Run(ops).entries, p.tenant, p.id) <= p.amount
  {
    RunKeepsInv(ops);
  }

  /** After any run a refund continues a payment, never another refund, on that payment's terms. */
  lemma RefundsContinuePayments(ops: seq<Op>, e: Entry)
    requires e in Run(ops).entries && e.kind == Refund
    ensures exists p ::
      p in Run(ops).entries && Continues(p, e) && e.eligible == if p.eligible != 0 then e.amount else 0
  {
    RunKeepsInv(ops);
    var es := Run(ops).entries;
    var i: nat :| i < |es| && es[i] == e;
    assert EntryAt(es, i);
  }

  /** After any run, for the tenant and for each of its cases: 0 <= eligible net <= confirmed net. */
  lemma EligibleNetWithinNet(ops: seq<Op>, sc: Scope)
    ensures 0 <= Total(Run(ops).entries, EligibleIn(sc)) <= Total(Run(ops).entries, AmountIn(sc))
  {
    RunKeepsInv(ops);
    EligibleNetBounds(Run(ops).entries, sc);
  }

  /** Refunds out of a payment, measured from it: what the ledger accepts is exactly what is left. */
  lemma RefundBookedIff(s: State, k: Key, r: Receipt, p: Entry, t: Tables)
    requires Inv(s) && (k in s.receipts ==> s.receipts[k].status != Matched)
    requires r.kind == Refund && r.amount > 0 && r.caseId.Some? && r.caseId.value != "" && r.original.Some?
        && r.original.value != ""
    requires p in s.entries && p.receipt == Key(k.tenant, k.provider, r.original.value)
    ensures Assemble(s.receipts, s.entries, k, r, t).Ok? <==>
      p.kind == Payment && p.caseId == r.caseId.value && r.amount <= p.amount - Refunded(s.entries, p.tenant, p.id)
  {
    FoundByReceipt(s, p);
  }

  /** Looking up the entry a booked receipt names finds that entry. */
  lemma FoundByReceipt(s: State, p: Entry)
    requires Inv(s) && p in s.entries
    ensures p.tenant == p.receipt.tenant && p.receipt in s.receipts && s.receipts[p.receipt].entryId == Some(p.id)
    ensures s.receipts[p.receipt].status == Matched && FindEntry(s.entries, p.tenant, p.id) == Some(p)
  {
    assert ReceiptAt(s, p.receipt);
    var i: nat :| i < |s.entries| && s.entries[i] == p;
    assert EntryAt(s.entries, i);
    FindEntryFinds(s.entries, p.tenant, p.id);
    EntryUnique(s.entries, FindEntry(s.entries, p.tenant, p.id).value, p);
  }

  // ---------------------------------------------------------------- commission

  lemma RoundHalf(product: nat)
    ensures var r := (product + 5_000) / 10_000; r >= 0 && -5_000 <= 10_000 * r - product <= 5_000
  {
  }

  lemma RoundAtMost(product: nat, whole: nat)
    requires product <= 10_000 * whole
    ensures (product + 5_000) / 10_000 <= whole
  {
  }

  lemma {:induction false} ShareAtMost(a: nat, rate: Bps)
    ensures 0 <= a * rate <= 10_000 * a
  {
    if a > 0 {
      ShareAtMost(a - 1, rate);
      assert a * rate == (a - 1) * rate + rate;
    }
  }

  lemma CommissionRounds(amount: int, rate: Bps)
    ensures CommissionCents(-amount, rate) == -CommissionCents(amount, rate)
    ensures -5_000 <= 10_000 * CommissionCents(amount, rate) - amount * rate <= 5_000
    ensures amount >= 0 ==> 0 <= CommissionCents(amount, rate) <= amount
  {
    var a := Abs(amount);
    ShareAtMost(a, rate);
    var product: nat := a * rate;
    RoundHalf(product);
    RoundAtMost(product, a);
    if amount < 0 { Negated(amount, rate); }
  }

  lemma Negated(x: int, y: int)
    ensures x * y == -((-x) * y)
  {
  }

  function WeightedIn(sc: Scope): Entry -> int { (e: Entry) => if Within(sc, e) then e.eligible * e.rate else 0 }

  function CountIn(es: seq<Entry>, sc: Scope): nat {
    if es == [] then 0 else CountIn(es[..|es| - 1], sc) + if Within(sc, es[|es| - 1]) then 1 else 0
  }

  lemma {:induction false} RoundingAddsUp(es: seq<Entry>, sc: Scope)
    requires forall e :: e in es ==> e.commission == CommissionCents(e.eligible, e.rate)
    ensures var error := 10_000 * Total(es, CommissionIn(sc)) - Total(es, WeightedIn(sc));
      -5_000 * CountIn(es, sc) <= error <= 5_000 * CountIn(es, sc)
  {
    if es != [] {
      var before, e := es[..|es| - 1], es[|es| - 1];
      RoundingAddsUp(before, sc);
      assert e in es;
      CommissionRounds(e.eligible, e.rate);
    }
  }

  /** After any run, the commission of a tenant, or of one case, is off the exact products by at most half
      a cent for each of its own entries. */
  lemma CommissionErrorBound(ops: seq<Op>, sc: Scope)
    ensures var es := Run(ops).entries;
      var error := 10_000 * Total(es, CommissionIn(sc)) - Total(es, WeightedIn(sc));
      -5_000 * CountIn(es, sc) <= error <= 5_000 * CountIn(es, sc)
  {
    RunKeepsInv(ops);
    var es := Run(ops).entries;
    forall e | e in es ensures e.commission == CommissionCents(e.eligible, e.rate) {
      var i: nat :| i < |es| && es[i] == e;
      assert EntryAt(es, i);
    }
    RoundingAddsUp(es, sc);
  }

  lemma TotalAppend(es: seq<Entry>, e: Entry, w: Entry -> int)
    ensures Total(es + [e], w) == Total(es, w) + w(e)
  {
    assert (es + [e])[..|es|] == es;
  }

  lemma PostedAppend(ps: seq<Posting>, p: Posting, tenant: string, kinds: set<PostingKind>)
    ensures Posted(ps + [p], tenant, kinds)
         == Posted(ps, tenant, kinds) + if p.tenant == tenant && p.kind in kinds then p.amount else 0
  {
    assert (ps + [p])[..|ps|] == ps;
  }

  lemma {:induction false} PostedIsSourced(ps: seq<Posting>, tenant: string)
    requires forall p :: p in ps ==> (p.source.Some? <==> p.kind == Accrual || p.kind == Reversal)
    ensures Posted(ps, tenant, {Accrual, Reversal}) == Posted(Sourced(ps), tenant, {Accrual, Reversal})
  {
    if ps != [] {
      var n := |ps| - 1;
      PostedIsSourced(ps[..n], tenant);
      assert Sourced(ps) == Sourced(ps[..n]) || Sourced(ps) == Sourced(ps[..n]) + [ps[n]];
      PostedAppend(Sourced(ps[..n]), ps[n], tenant, {Accrual, Reversal});
    }
  }

  lemma {:induction false} PostedIsTotal(es: seq<Entry>, ps: seq<Posting>, tenant: string)
    requires |ps| == |es| && forall i :: 0 <= i < |es| ==> Mirrors(ps[i], es[i])
    ensures Posted(ps, tenant, {Accrual, Reversal}) == Total(es, CommissionIn(Scope(tenant, None)))
  {
    if es != [] {
      PostedIsTotal(es[..|es| - 1], ps[..|ps| - 1], tenant);
    }
  }

  /** After any run the summary's accrued commission is what the recovery entries carry. */
  lemma AccruedIsEntries(ops: seq<Op>, tenant: string)
    ensures Accrued(Run(ops), tenant) == Total(Run(ops).entries, CommissionIn(Scope(tenant, None)))
  {
    RunKeepsInv(ops);
    var s := Run(ops);
    PostedIsSourced(s.postings, tenant);
    PostedIsTotal(s.entries, Sourced(s.postings), tenant);
  }

  function CommissionOver(es: seq<Entry>, tenant: string, cases: seq<string>): int {
    if cases == [] then 0
    else Total(es, CommissionIn(Scope(tenant, Some(cases[0])))) + CommissionOver(es, tenant, cases[1..])
  }

  /** An entry of a listed case counts once in the sum over distinct cases. */
  lemma {:induction false} CommissionOverAppend(es: seq<Entry>, e: Entry, tenant: string, cases: seq<string>)
    requires Distinct(cases)
    ensures CommissionOver(es + [e], tenant, cases)
         == CommissionOver(es, tenant, cases) + if e.tenant == tenant && e.caseId in cases then e.commission else 0
  {
    if cases != [] {
      TotalAppend(es, e, CommissionIn(Scope(tenant, Some(cases[0]))));
      CommissionOverAppend(es, e, tenant, cases[1..]);
      assert cases == [cases[0]] + cases[1..];
    }
  }

  lemma {:induction false} CommissionsAddUp(es: seq<Entry>, tenant: string, cases: seq<string>)
    requires Distinct(cases) && forall c :: HasEntry(es, tenant, c) ==> c in cases
    ensures CommissionOver(es, tenant, cases) == Total(es, CommissionIn(Scope(tenant, None)))
  {
    if es == [] {
      NoEntriesNoCommission(tenant, cases);
    } else {
      var n := |es| - 1;
      assert es == es[..n] + [es[n]];
      forall c | HasEntry(es[..n], tenant, c) ensures c in cases { HasEntryPush(es[..n], es[n], tenant, c); }
      HasEntryPush(es[..n], es[n], tenant, es[n].caseId);
      CommissionsAddUp(es[..n], tenant, cases);
      CommissionOverAppend(es[..n], es[n], tenant, cases);
    }
  }

  /** The groups of GROUP BY: every case of the tenant that has an entry, once. */
  function CasesOf(es: seq<Entry>, tenant: string): seq<string> {
    if es == [] then []
    else
      var front, e := CasesOf(es[..|es| - 1], tenant), es[|es| - 1];
      if e.tenant == tenant && e.caseId !in front then front + [e.caseId] else front
  }

  predicate HasEntry(es: seq<Entry>, tenant: string, c: string) {
    exists k :: 0 <= k < |es| && es[k].tenant == tenant && es[k].caseId == c
  }

  lemma {:induction false} HasEntryPush(es: seq<Entry>, e: Entry, tenant: string, c: string)
    ensures HasEntry(es + [e], tenant, c) <==> HasEntry(es, tenant, c) || (e.tenant == tenant && e.caseId == c)
  {
    var all := es + [e];
    assert all[|es|] == e;
    if HasEntry(es, tenant, c) {
      var k :| 0 <= k < |es| && es[k].tenant == tenant && es[k].caseId == c;
      assert all[k] == es[k];
    }
  }

  lemma {:induction false} CasesOfIs(es: seq<Entry>, tenant: string)
    ensures Distinct(CasesOf(es, tenant)) && forall c :: c in CasesOf(es, tenant) <==> HasEntry(es, tenant, c)
  {
    if es != [] {
      var front, e := es[..|es| - 1], es[|es| - 1];
      CasesOfIs(front, tenant);
      assert es == front + [e];
      forall c ensures c in CasesOf(es, tenant) <==> HasEntry(es, tenant, c) { HasEntryPush(front, e, tenant, c); }
    }
  }

  /** After any run, the catalogue's commission sums over the cases that have entries add up to the
      tenant's accrued commission in the summary. */
  lemma CasesAddUp(ops: seq<Op>, tenant: string)
    ensures var es := Run(ops).entries; var cases := CasesOf(es, tenant);
      && Distinct(cases) && (forall c :: c in cases <==> HasEntry(es, tenant, c))
      && CommissionOver(es, tenant, cases) == Accrued(Run(ops), tenant)
  {
    var es := Run(ops).entries;
    CasesOfIs(es, tenant);
    CommissionsAddUp(es, tenant, CasesOf(es, tenant));
    AccruedIsEntries(ops, tenant);
  }

  lemma {:induction false} NoEntriesNoCommission(tenant: string, cases: seq<string>)
    ensures CommissionOver([], tenant, cases) == 0
  {
    if cases != [] { NoEntriesNoCommission(tenant, cases[1..]); }
  }

  // ---------------------------------------------------------------- settlement

  /** What a step may append to the commission ledger. */
  ghost predicate Appendable(s: State, p: Posting) {
    || p.kind == Accrual || p.kind == Reversal
    || (p.kind == Settlement && 0 < p.amount <= Accrued(s, p.tenant) - Settled(s, p.tenant))
    || (p.kind == Collection && 0 < p.amount <= Settled(s, p.tenant) - Collected(s, p.tenant))
  }

  function TenantOf(op: Op): string {
    if op.Record? then op.tenant else op.key.tenant
  }

  /** The rows of other tenants stand, and the ledgers grow by rows of `tenant` only. */
  ghost predicate StaysWithin(s: State, n: State, tenant: string) {
    && (n.postings == s.postings
        || exists p: Posting :: p.tenant == tenant && Appendable(s, p) && n.postings == s.postings + [p])
    && (n.entries == s.entries || exists e: Entry :: e.tenant == tenant && n.entries == s.entries + [e])
    && (forall k: Key :: k.tenant != tenant ==>
          (k in n.receipts <==> k in s.receipts) && (k in n.reviews <==> k in s.reviews))
    && (forall k: Key :: k.tenant != tenant && k in s.receipts ==> n.receipts[k] == s.receipts[k])
    && (forall k: Key :: k.tenant != tenant && k in s.reviews ==> n.reviews[k] == s.reviews[k])
  }

  lemma ReconcileStaysWithin(s: State, k: Key, r: Receipt, author: string, t: Tables)
    requires Reconcile(s, k, r, author, t).Ok?
    ensures StaysWithin(s, Reconcile(s, k, r, author, t).value.0, k.tenant)
  {
    if Reconcile(s, k, r, author, t).value.0.entries != s.entries {
      var e := Assemble(s.receipts, s.entries, k, r, t).value;
      assert Reconcile(s, k, r, author, t).value.0 == Enter(s, k, r, e, author);
      assert PostingFor(e, author).tenant == k.tenant;
    }
  }

  lemma StepStaysWithin(s: State, op: Op)
    ensures StaysWithin(s, Step(s, op).0, TenantOf(op))
  {
    match op
    case Deliver(k, e, d, t) => DeliverStaysWithin(s, k, e, d, t);
    case Propose(k, c, why, actor, t) => ProposeStaysWithin(s, k, c, why, actor, t);
    case Decide(k, yes, v, actor, t) => DecideStaysWithin(s, k, yes, v, actor, t);
    case Record(tenant, kind, amount, ref, key, actor, at) =>
      RecordStaysWithin(s, tenant, kind, amount, ref, key, actor, at);
  }

  lemma DeliverStaysWithin(s: State, k: Key, e: Event, d: Deployment, t: Tables)
    ensures StaysWithin(s, DeliverStep(s, k, e, d, t).0, k.tenant)
  {
    if k !in s.receipts {
      AcceptStaysWithin(s, k, ReceiptOf(e), d.planAllocated, t);
    }
  }

  lemma AcceptStaysWithin(s: State, k: Key, r: Receipt, planAllocated: bool, t: Tables)
    requires r.entryId.None?
    ensures StaysWithin(s, AcceptNew(s, k, r, planAllocated, t).0, k.tenant)
  {
    var n, author := AcceptNew(s, k, r, planAllocated, t).0, "webhook:" + k.provider;
    AcceptShape(s, k, r, planAllocated, t);
    if n != s && !Parked(s, n, k, r) {
      var e :| AutoMatched(s, n, k, r, e, author, t);
      AutoMatchStaysWithin(s, n, k, r, e, author, t);
    }
  }

  lemma AutoMatchStaysWithin(s: State, n: State, k: Key, r: Receipt, e: Entry, author: string, t: Tables)
    requires AutoMatched(s, n, k, r, e, author, t)
    ensures StaysWithin(s, n, k.tenant)
  {
    assert n.entries == s.entries + [e] && n.postings == s.postings + [PostingFor(e, author)];
    assert PostingFor(e, author).tenant == k.tenant;
  }

  lemma MatchStaysWithin(s: State, k: Key, caseId: string, author: string, t: Tables)
    requires k in s.receipts && Match(s, k, caseId, author, t).Ok?
    ensures StaysWithin(s, Match(s, k, caseId, author, t).value.0, k.tenant)
  {
    if s.receipts[k].status != Matched {
      ReconcileStaysWithin(s, k, s.receipts[k].(caseId := Some(caseId)), author, t);
    }
  }

  lemma ReviewStaysWithin(s: State, m: State, n: State, k: Key, v: Review)
    requires StaysWithin(s, m, k.tenant)
    requires n == m.(reviews := s.reviews[k := v], accruedMetric := n.accruedMetric)
    ensures StaysWithin(s, n, k.tenant)
  {
  }

  lemma DecideStaysWithin(s: State, k: Key, approve: bool, version: int, actor: string, t: Tables)
    ensures StaysWithin(s, DecideStep(s, k, approve, version, actor, t).0, k.tenant)
  {
    var n := DecideStep(s, k, approve, version, actor, t).0;
    if approve && n != s {
      var m := Match(s, k, s.reviews[k].caseId, actor, t).value.0;
      MatchStaysWithin(s, k, s.reviews[k].caseId, actor, t);
      ReviewStaysWithin(s, m, n, k, n.reviews[k]);
    }
  }

  lemma ProposeStaysWithin(s: State, k: Key, caseId: string, reason: string, actor: string, t: Tables)
    ensures StaysWithin(s, ProposeStep(s, k, caseId, reason, actor, t).0, k.tenant)
  {
    var n := ProposeStep(s, k, caseId, reason, actor, t).0;
    assert n.postings == s.postings && n.entries == s.entries;
  }

  lemma RecordStaysWithin(s: State, tenant: string, kind: PostingKind, amount: int, reference: string,
                          key: string, actor: string, at: int)
    ensures StaysWithin(s, RecordStep(s, tenant, kind, amount, reference, key, actor, at).0, tenant)
  {
    var p := Posting(tenant, kind, amount, None, reference, key, actor, at);
    assert RecordStep(s, tenant, kind, amount, reference, key, actor, at).1 == Done ==> Appendable(s, p);
  }

  function Peak(ops: seq<Op>, tenant: string): int {
    if ops == [] then 0
    else
      var before, now := Peak(ops[..|ops| - 1], tenant), Accrued(Run(ops), tenant);
      if before < now then now else before
  }

  lemma AppendSettles(s: State, n: State, p: Posting, tenant: string)
    requires Collected(s, tenant) <= Settled(s, tenant) && Appendable(s, p) && n.postings == s.postings + [p]
    ensures Collected(n, tenant) <= Settled(n, tenant)
    ensures Settled(n, tenant) <= Settled(s, tenant) || Settled(n, tenant) <= Accrued(s, tenant)
  {
    PostedAppend(s.postings, p, tenant, {Settlement});
    PostedAppend(s.postings, p, tenant, {Collection});
  }

  lemma StepSettles(s: State, op: Op, tenant: string)
    requires Collected(s, tenant) <= Settled(s, tenant)
    ensures var n := Step(s, op).0;
      && Collected(n, tenant) <= Settled(n, tenant)
      && (Settled(n, tenant) <= Settled(s, tenant) || Settled(n, tenant) <= Accrued(s, tenant))
  {
    StepStaysWithin(s, op);
    var n := Step(s, op).0;
    if n.postings == s.postings {
      assert Settled(n, tenant) == Settled(s, tenant) && Collected(n, tenant) == Collected(s, tenant);
    } else {
      var p: Posting :| p.tenant == TenantOf(op) && Appendable(s, p) && n.postings == s.postings + [p];
      AppendSettles(s, n, p, tenant);
    }
  }

  /** At every point of every run: collected <= settled <= the most that was ever accrued. */
  lemma {:induction false} SettledWithinPeak(ops: seq<Op>, tenant: string)
    ensures Collected(Run(ops), tenant) <= Settled(Run(ops), tenant) <= Peak(ops, tenant)
    ensures Accrued(Run(ops), tenant) <= Peak(ops, tenant)
  {
    if ops != [] {
      var n := |ops| - 1;
      SettledWithinPeak(ops[..n], tenant);
      StepSettles(Run(ops[..n]), ops[n], tenant);
    }
  }
}
