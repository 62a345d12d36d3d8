/** What every step of the ledger keeps, and hence what holds after any run. */
module LedgerInvariant {
  import opened Registry
  import opened LedgerModel
  import opened LedgerBooks

  /** The postings that recovery entries caused, in order. */
  function Sourced(postings: seq<Posting>): seq<Posting> {
    if postings == [] then []
    else
      var last := postings[|postings| - 1];
      Sourced(postings[..|postings| - 1]) + (if last.source.Some? then [last] else [])
  }

  ghost predicate Mirrors(p: Posting, e: Entry) {
    && p.tenant == e.tenant && p.source == Some(e.id) && p.amount == e.commission
    && p.kind == (if e.commission >= 0 then Accrual else Reversal)
    && p.idempotencyKey == RecoveryKey(e.id) && p.occurredAt == e.bookedAt
  }

  /** The commission ledger repeats the recovery ledger, entry for entry and in its order. */
  ghost predicate PostingsSound(es: seq<Entry>, ps: seq<Posting>) {
    && (forall p :: p in ps ==> (p.source.Some? <==> p.kind == Accrual || p.kind == Reversal))
    && (forall p :: p in ps && p.source.None? ==> p.amount > 0)
    && |Sourced(ps)| == |es|
    && forall i :: 0 <= i < |es| ==> Mirrors(Sourced(ps)[i], es[i])
  }

  /** Entry `e` books receipt `r`. */
  ghost predicate Books(e: Entry, k: Key, r: Receipt) {
    && e.receipt == k && r.entryId == Some(e.id) && r.caseId == Some(e.caseId)
    && e.kind == r.kind && Abs(e.amount) == r.amount && e.bookedAt == r.occurredAt
  }

  ghost predicate ReceiptAt(s: State, k: Key)
    requires k in s.receipts
  {
    var r := s.receipts[k];
    && ValidProvider(k.provider)
    && r.amount > 0
    && r.status != Accepted
    && (r.status == Matched <==> r.entryId.Some?)
    && (r.status == Matched <==> r.failure.None?)
    && (r.status == Matched ==> exists e :: e in s.entries && Books(e, k, r))
    && (r.status == ReviewPending ==> k in s.reviews && s.reviews[k].status == Pending)
    && (r.status == Rejected ==> k in s.reviews && s.reviews[k].status == Declined)
  }

  ghost predicate ReviewAt(s: State, k: Key)
    requires k in s.reviews
  {
    var v := s.reviews[k];
    && k in s.receipts
    && v.version >= 1
    && (v.status == Pending <==> v.version % 2 == 1)
    && (v.status == Pending <==> s.receipts[k].status == ReviewPending)
    && (v.status == Declined <==> s.receipts[k].status == Rejected)
    && (v.status == Approved <==> s.receipts[k].status == Matched)
    && (v.status == Approved ==>
          v.entryId.Some? && v.entryId == s.receipts[k].entryId && s.receipts[k].caseId == Some(v.caseId))
    && (v.status != Approved ==> v.entryId.None?)
    && (v.status == Pending <==> v.reviewedBy.None?)
    && (v.reviewedBy.Some? ==> v.reviewedBy.value != v.proposedBy)
  }

  /** Entries, postings and the receipts they book agree. */
  ghost predicate Ledgers(s: State) {
    && BooksSound(s.entries)
    && RefundsWithin(s.entries)
    && PostingsSound(s.entries, s.postings)
    && forall e :: e in s.entries ==> e.receipt in s.receipts && Books(e, e.receipt, s.receipts[e.receipt])
  }

  ghost predicate Inv(s: State) {
    && Ledgers(s)
    && s.duplicates.Keys == s.receipts.Keys
    && (forall k {:trigger ReceiptAt(s, k)} :: k in s.receipts ==> ReceiptAt(s, k))
    && (forall k {:trigger ReviewAt(s, k)} :: k in s.reviews ==> ReviewAt(s, k))
  }

  // ---------------------------------------------------------------- identifiers

  /** Providers hold no colon, so an entry id names one receipt of the tenant. */
  lemma EntryIdInjective(a: Key, b: Key)
    requires ValidProvider(a.provider) && ValidProvider(b.provider)
    requires a.tenant == b.tenant && EntryId(a) == EntryId(b)
    ensures a == b
  {
    var id := EntryId(a);
    assert id[|a.provider|] == ':' && id[|b.provider|] == ':';
    assert forall i :: 0 <= i < |a.provider| ==> id[i] == a.provider[i];
    assert forall i :: 0 <= i < |b.provider| ==> id[i] == b.provider[i];
    assert |a.provider| == |b.provider|;
    assert a.provider == id[..|a.provider|] == b.provider;
    assert a.event == id[|a.provider| + 1..] == b.event;
  }

  /** Same tenant and id: same entry. */
  lemma EntryUnique(es: seq<Entry>, a: Entry, b: Entry)
    requires BooksSound(es) && a in es && b in es && a.tenant == b.tenant && a.id == b.id
    ensures a == b
  {
    var i: nat :| i < |es| && es[i] == a;
    var j: nat :| j < |es| && es[j] == b;
    assert EntryAt(es, i) && EntryAt(es, j);
  }

  // ---------------------------------------------------------------- booking

  /** What `Assemble` returns is fit to be appended. */
  ghost predicate Fits(es: seq<Entry>, e: Entry) {
    && e.tenant == e.receipt.tenant && e.id == EntryId(e.receipt)
    && e.commission == CommissionCents(e.eligible, e.rate)
    && (e.kind == Payment ==> e.amount > 0 && e.original == None && (e.eligible == 0 || e.eligible == e.amount))
    && (e.kind == Refund ==>
          && e.amount < 0
          && exists p :: p in es && Continues(p, e) && e.eligible == (if p.eligible != 0 then e.amount else 0)
                         && Refunded(es, p.tenant, p.id) - e.amount <= p.amount)
  }

  /** Every matched receipt, `k` aside, is booked. */
  ghost predicate MatchedAreBooked(s: State, k: Key) {
    forall j :: j in s.receipts && j != k && s.receipts[j].status == Matched ==>
      exists e :: e in s.entries && Books(e, j, s.receipts[j])
  }

  lemma RefundOriginalContinues(s: State, k: Key, r: Receipt, caseId: string)
    requires BooksSound(s.entries) && MatchedAreBooked(s, k)
    requires k in s.receipts ==> s.receipts[k].status != Matched
    requires RefundOriginal(s.receipts, s.entries, k, r, caseId).Ok?
    ensures var p := RefundOriginal(s.receipts, s.entries, k, r, caseId).value;
      && p in s.entries && p.kind == Payment && p.caseId == caseId
      && p.tenant == k.tenant && p.receipt.provider == k.provider
      && Refunded(s.entries, p.tenant, p.id) + r.amount <= p.amount
  {
    var p := RefundOriginal(s.receipts, s.entries, k, r, caseId).value;
    FindEntryFinds(s.entries, k.tenant, s.receipts[Key(k.tenant, k.provider, r.original.value)].entryId.value);
    var source := Key(k.tenant, k.provider, r.original.value);
    var q :| q in s.entries && Books(q, source, s.receipts[source]);
    var i: nat :| i < |s.entries| && s.entries[i] == q;
    assert EntryAt(s.entries, i);
    EntryUnique(s.entries, p, q);
  }

  lemma AssembleFits(s: State, k: Key, r: Receipt, t: Tables)
    requires BooksSound(s.entries) && MatchedAreBooked(s, k)
    requires k in s.receipts ==> s.receipts[k].status != Matched
    requires r.amount > 0 && Assemble(s.receipts, s.entries, k, r, t).Ok?
    ensures var e := Assemble(s.receipts, s.entries, k, r, t).value;
      Fits(s.entries, e) && Books(e, k, r.(entryId := Some(e.id)))
  {
    if r.kind == Refund {
      RefundOriginalContinues(s, k, r, r.caseId.value);
      var p := RefundOriginal(s.receipts, s.entries, k, r, r.caseId.value).value;
      assert Continues(p, Assemble(s.receipts, s.entries, k, r, t).value);
    }
  }

  lemma {:induction false} NoRefundYet(es: seq<Entry>, tenant: string, id: string)
    requires BooksSound(es) && forall e :: e in es ==> !(e.tenant == tenant && e.id == id)
    ensures Refunded(es, tenant, id) == 0
  {
    if es != [] {
      var n := |es| - 1;
      BooksSoundPrefix(es, n);
      NoRefundYet(es[..n], tenant, id);
      assert EntryAt(es, n);
    }
  }

  lemma AppendEntry(es: seq<Entry>, e: Entry)
    requires BooksSound(es) && RefundsWithin(es) && Fits(es, e)
    requires forall x :: x in es ==> !(x.tenant == e.tenant && x.id == e.id)
    ensures BooksSound(es + [e]) && RefundsWithin(es + [e])
  {
    var all := es + [e];
    assert all[..|all| - 1] == es;
    forall i: nat | i < |all| ensures EntryAt(all, i) {
      if i < |es| {
        assert EntryAt(es, i);
        if es[i].kind == Refund {
          var j :| 0 <= j < i && Continues(es[j], es[i])
            && es[i].eligible == if es[j].eligible != 0 then es[i].amount else 0;
          assert all[j] == es[j];
        }
      } else if e.kind == Refund {
        var p :| p in es && Continues(p, e) && e.eligible == if p.eligible != 0 then e.amount else 0;
        var j :| 0 <= j < |es| && es[j] == p;
        assert all[j] == p;
      }
    }
    forall p | p in all && p.kind == Payment ensures Refunded(all, p.tenant, p.id) <= p.amount {
      if p in es {
        if e.tenant == p.tenant && e.original == Some(p.id) {
          var q :| q in es && Continues(q, e) && Refunded(es, q.tenant, q.id) - e.amount <= q.amount;
          EntryUnique(es, p, q);
        }
      } else {
        NoRefundYet(es, p.tenant, p.id);
      }
    }
  }

  lemma SourcedAppend(ps: seq<Posting>, p: Posting)
    ensures Sourced(ps + [p]) == Sourced(ps) + if p.source.Some? then [p] else []
  {
    assert (ps + [p])[..|ps|] == ps;
  }

  /** A booking keeps the ledgers in agreement. */
  lemma EnterKeepsLedgers(s: State, k: Key, r: Receipt, e: Entry, author: string)
    requires Ledgers(s) && (forall x :: x in s.entries ==> x.receipt != k)
    requires forall x :: x in s.entries ==> !(x.tenant == e.tenant && x.id == e.id)
    requires Fits(s.entries, e) && Books(e, k, r.(entryId := Some(e.id)))
    ensures Ledgers(Enter(s, k, r, e, author))
  {
    AppendEntry(s.entries, e);
    SourcedAppend(s.postings, PostingFor(e, author));
    var n := Enter(s, k, r, e, author);
    forall x | x in n.entries ensures x.receipt in n.receipts && Books(x, x.receipt, n.receipts[x.receipt]) {
      assert x in s.entries || x == e;
    }
  }

  /** No entry carries the id that an unbooked receipt would get. */
  lemma EntryIdFree(s: State, k: Key)
    requires ValidProvider(k.provider)
    requires forall x :: x in s.entries ==>
      x.receipt != k && x.receipt in s.receipts && ValidProvider(x.receipt.provider)
    requires BooksSound(s.entries)
    ensures forall x :: x in s.entries ==> !(x.tenant == k.tenant && x.id == EntryId(k))
  {
    forall x | x in s.entries && x.tenant == k.tenant && x.id == EntryId(k) ensures false {
      var i: nat :| i < |s.entries| && s.entries[i] == x;
      assert EntryAt(s.entries, i);
      EntryIdInjective(x.receipt, k);
    }
  }

  // ---------------------------------------------------------------- steps

  /** `n` differs from `s` at no receipt and no review but those of `k`, and loses no entry. */
  ghost predicate TouchesOnly(s: State, n: State, k: Key) {
    && n.receipts.Keys == s.receipts.Keys + {k}
    && (forall j :: j in s.receipts && j != k ==> n.receipts[j] == s.receipts[j])
    && (forall j :: j != k ==> (j in n.reviews <==> j in s.reviews))
    && (forall j :: j in s.reviews && j != k ==> n.reviews[j] == s.reviews[j])
    && (forall e :: e in s.entries ==> e in n.entries)
  }

  lemma OthersStand(s: State, n: State, k: Key)
    requires TouchesOnly(s, n, k)
    requires forall j {:trigger ReceiptAt(s, j)} :: j in s.receipts ==> ReceiptAt(s, j)
    requires forall j {:trigger ReviewAt(s, j)} :: j in s.reviews ==> ReviewAt(s, j)
    ensures forall j {:trigger ReceiptAt(n, j)} :: j in n.receipts && j != k ==> ReceiptAt(n, j)
    ensures forall j {:trigger ReviewAt(n, j)} :: j in n.reviews && j != k ==> ReviewAt(n, j)
  {
    forall j | j in n.receipts && j != k ensures ReceiptAt(n, j) {
      assert ReceiptAt(s, j);
      if s.receipts[j].status == Matched {
        var e :| e in s.entries && Books(e, j, s.receipts[j]);
        assert e in n.entries && Books(e, j, n.receipts[j]);
      }
    }
    forall j | j in n.reviews && j != k ensures ReviewAt(n, j) {
      assert ReviewAt(s, j);
    }
  }

  /** It is enough to look at the ledgers and at the one receipt a step touched. */
  lemma InvAfter(s: State, n: State, k: Key)
    requires Inv(s) && TouchesOnly(s, n, k) && Ledgers(n)
    requires n.duplicates.Keys == n.receipts.Keys
    requires ReceiptAt(n, k) && (k in n.reviews ==> ReviewAt(n, k))
    ensures Inv(n)
  {
    OthersStand(s, n, k);
  }

  lemma UnbookedHasNoEntry(s: State, k: Key)
    requires Inv(s) && (k in s.receipts ==> s.receipts[k].status != Matched)
    ensures forall e :: e in s.entries ==> e.receipt != k && ValidProvider(e.receipt.provider)
    ensures MatchedAreBooked(s, k)
  {
    forall e | e in s.entries ensures e.receipt != k && ValidProvider(e.receipt.provider) {
      assert ReceiptAt(s, e.receipt);
    }
    forall j | j in s.receipts && j != k && s.receipts[j].status == Matched
      ensures exists e :: e in s.entries && Books(e, j, s.receipts[j])
    {
      assert ReceiptAt(s, j);
    }
  }

  /** Rewriting the row of an unbooked receipt, or its review, keeps the ledgers. */
  lemma RowChangeKeepsLedgers(s: State, n: State, k: Key)
    requires Ledgers(s) && TouchesOnly(s, n, k) && (forall e :: e in s.entries ==> e.receipt != k)
    requires n.entries == s.entries && n.postings == s.postings
    ensures Ledgers(n)
  {
    forall e | e in n.entries ensures e.receipt in n.receipts && Books(e, e.receipt, n.receipts[e.receipt]) {
      assert e in s.entries;
    }
  }

  lemma ReviewsApart(s: State, n: State)
    requires Ledgers(s)
    requires n.receipts == s.receipts && n.entries == s.entries && n.postings == s.postings
    ensures Ledgers(n)
  {
  }

  ghost predicate Booked(n: State, k: Key, r: Receipt, e: Entry) {
    && k in n.receipts
    && n.receipts[k] == r.(status := Matched, failure := None, entryId := Some(e.id))
    && e in n.entries && Books(e, k, n.receipts[k])
  }

  /** A receipt that is not booked yet is reconciled by entering the assembled entry. */
  lemma ReconcileEnters(s: State, k: Key, r: Receipt, author: string, t: Tables) returns (e: Entry)
    requires r.entryId.None? && Reconcile(s, k, r, author, t).Ok?
    ensures Assemble(s.receipts, s.entries, k, r, t) == Ok(e)
    ensures Reconcile(s, k, r, author, t).value == (Enter(s, k, r, e, author), e.id)
  {
    e := Assemble(s.receipts, s.entries, k, r, t).value;
  }

  lemma EnterTouches(s: State, k: Key, r: Receipt, e: Entry, author: string)
    requires Books(e, k, r.(entryId := Some(e.id)))
    ensures TouchesOnly(s, Enter(s, k, r, e, author), k)
    ensures Booked(Enter(s, k, r, e, author), k, r, e)
  {
    var n := Enter(s, k, r, e, author);
    assert n.entries[|s.entries|] == e;
  }

  /** Booking receipt `k`, whose stored row is not matched. */
  lemma BookingKeepsLedgers(s: State, k: Key, r: Receipt, e: Entry, author: string, t: Tables) returns (n: State)
    requires Ledgers(s) && MatchedAreBooked(s, k)
    requires forall x :: x in s.entries ==> x.receipt != k && ValidProvider(x.receipt.provider)
    requires k in s.receipts ==> s.receipts[k].status != Matched
    requires ValidProvider(k.provider) && r.amount > 0 && Assemble(s.receipts, s.entries, k, r, t) == Ok(e)
    ensures n == Enter(s, k, r, e, author)
    ensures Ledgers(n) && TouchesOnly(s, n, k) && Booked(n, k, r, e)
  {
    n := Enter(s, k, r, e, author);
    AssembleFits(s, k, r, t);
    EntryIdFree(s, k);
    EnterKeepsLedgers(s, k, r, e, author);
    EnterTouches(s, k, r, e, author);
  }

  /** A first delivery keeps the invariant when its new row is sound. */
  lemma FirstRowKeepsInv(s: State, n: State, k: Key)
    requires Inv(s) && Ledgers(n) && k !in s.receipts && k in n.receipts
    requires n.receipts == s.receipts[k := n.receipts[k]] && n.reviews == s.reviews
    requires n.duplicates == s.duplicates[k := 0] && s.entries <= n.entries
    requires ReceiptAt(n, k)
    ensures Inv(n)
  {
    ReviewsHaveReceipts(s);
    InvAfter(s, n, k);
  }

  lemma BookedRow(n: State, k: Key, r: Receipt, e: Entry)
    requires Booked(n, k, r, e) && ValidProvider(k.provider) && r.amount > 0
    ensures ReceiptAt(n, k)
  {
  }

  lemma ReviewsHaveReceipts(s: State)
    requires Inv(s)
    ensures s.reviews.Keys <= s.receipts.Keys
  {
    forall k | k in s.reviews ensures k in s.receipts { assert ReviewAt(s, k); }
  }

  ghost predicate Parked(s: State, n: State, k: Key, r: Receipt) {
    && k in n.receipts
    && n == s.(receipts := s.receipts[k := n.receipts[k]], duplicates := s.duplicates[k := 0],
               accruedMetric := n.accruedMetric)
    && n.receipts[k].status in {Unmatched, ReviewRequired} && n.receipts[k].failure.Some?
    && n.receipts[k] == r.(status := n.receipts[k].status, failure := n.receipts[k].failure)
  }

  ghost predicate AutoMatched(s: State, n: State, k: Key, r: Receipt, e: Entry, author: string, t: Tables) {
    && Assemble(Stored(s, k, r).receipts, s.entries, k, r, t) == Ok(e)
    && n == Enter(Stored(s, k, r), k, r, e, author).(accruedMetric := n.accruedMetric)
  }

  lemma AcceptShape(s: State, k: Key, r: Receipt, planAllocated: bool, t: Tables)
    requires r.entryId.None?
    ensures var n := AcceptNew(s, k, r, planAllocated, t).0;
      || n == s
      || Parked(s, n, k, r)
      || exists e :: AutoMatched(s, n, k, r, e, "webhook:" + k.provider, t)
  {
    var n := AcceptNew(s, k, r, planAllocated, t).0;
    AcceptNewIs(s, k, r, planAllocated, t);
    if Reconcile(Stored(s, k, r), k, r, "webhook:" + k.provider, t).Ok? {
      var e := ReconcileEnters(Stored(s, k, r), k, r, "webhook:" + k.provider, t);
      assert AutoMatched(s, n, k, r, e, "webhook:" + k.provider, t);
    }
  }

  lemma ParkedKeepsInv(s: State, n: State, k: Key, r: Receipt)
    requires Inv(s) && k !in s.receipts && ValidProvider(k.provider) && r.amount > 0 && r.entryId.None?
    requires Parked(s, n, k, r)
    ensures Inv(n)
  {
    UnbookedHasNoEntry(s, k);
    RowChangeKeepsLedgers(s, n, k);
    FirstRowKeepsInv(s, n, k);
  }

  lemma AutoMatchedLedgers(s: State, n: State, k: Key, r: Receipt, e: Entry, author: string, t: Tables)
    requires Inv(s) && k !in s.receipts && ValidProvider(k.provider)
    requires r.amount > 0 && r.status == Accepted && r.entryId.None?
    requires AutoMatched(s, n, k, r, e, author, t)
    ensures Ledgers(n) && Booked(n, k, r, e)
  {
    UnbookedHasNoEntry(s, k);
    var stored := Stored(s, k, r);
    RowChangeKeepsLedgers(s, stored, k);
    var booked := BookingKeepsLedgers(stored, k, r, e, author, t);
    ReviewsApart(booked, n);
  }

  lemma AutoMatchedKeepsInv(s: State, n: State, k: Key, r: Receipt, e: Entry, author: string, t: Tables)
    requires Inv(s) && k !in s.receipts && ValidProvider(k.provider)
    requires r.amount > 0 && r.status == Accepted && r.entryId.None?
    requires AutoMatched(s, n, k, r, e, author, t)
    ensures Inv(n)
  {
    AutoMatchedLedgers(s, n, k, r, e, author, t);
    BookedRow(n, k, r, e);
    FirstRowKeepsInv(s, n, k);
  }

  lemma DeliverKeepsInv(s: State, k: Key, e: Event, d: Deployment, t: Tables)
    requires Inv(s)
    ensures Inv(DeliverStep(s, k, e, d, t).0)
  {
    var n := DeliverStep(s, k, e, d, t).0;
    if k !in s.receipts && n != s {
      var r := ReceiptOf(e);
      AcceptShape(s, k, r, d.planAllocated, t);
      if Parked(s, n, k, r) {
        ParkedKeepsInv(s, n, k, r);
      } else {
        var entry :| AutoMatched(s, n, k, r, entry, "webhook:" + k.provider, t);
        AutoMatchedKeepsInv(s, n, k, r, entry, "webhook:" + k.provider, t);
      }
    } else if n != s {
      CountersAreFree(s, n);
    }
  }

  lemma CountersAreFree(s: State, n: State)
    requires Inv(s) && n == s.(duplicates := n.duplicates, accruedMetric := n.accruedMetric)
    requires n.duplicates.Keys == s.duplicates.Keys
    ensures Inv(n)
  {
    forall j | j in n.receipts ensures ReceiptAt(n, j) { assert ReceiptAt(s, j); }
    forall j | j in n.reviews ensures ReviewAt(n, j) { assert ReviewAt(s, j); }
  }

  lemma ProposeTouches(s: State, k: Key, caseId: string, reason: string, actor: string, t: Tables)
    requires k in s.receipts && ReceiptAt(s, k) && (k in s.reviews ==> ReviewAt(s, k))
    requires ProposeStep(s, k, caseId, reason, actor, t).0 != s
    ensures var n := ProposeStep(s, k, caseId, reason, actor, t).0;
      && TouchesOnly(s, n, k) && ReceiptAt(n, k) && k in n.reviews && ReviewAt(n, k)
      && n.entries == s.entries && n.postings == s.postings && n.duplicates == s.duplicates
      && n.receipts.Keys == s.receipts.Keys && s.receipts[k].status != Matched
  {
  }

  lemma ProposeKeepsInv(s: State, k: Key, caseId: string, reason: string, actor: string, t: Tables)
    requires Inv(s)
    ensures Inv(ProposeStep(s, k, caseId, reason, actor, t).0)
  {
    var n := ProposeStep(s, k, caseId, reason, actor, t).0;
    if n != s {
      ProposeTouches(s, k, caseId, reason, actor, t);
      UnbookedHasNoEntry(s, k);
      RowChangeKeepsLedgers(s, n, k);
      InvAfter(s, n, k);
    }
  }

  /** Closing a pending review: its version turns even and whoever closed it is not the proposer. */
  ghost predicate Closes(s: State, n: State, k: Key, actor: string, verdict: ReviewStatus, id: Option<string>)
  {
    && k in s.reviews && k in s.receipts
    && s.reviews[k].status == Pending && s.reviews[k].proposedBy != actor
    && n.reviews == s.reviews[k := s.reviews[k].(status := verdict, reviewedBy := Some(actor),
                                                 version := s.reviews[k].version + 1, entryId := id)]
  }

  ghost predicate ApprovedAs(s: State, n: State, k: Key, actor: string, e: Entry, t: Tables) {
    && k in s.reviews && k in s.receipts
    && var r := s.receipts[k].(caseId := Some(s.reviews[k].caseId));
    && Closes(s, n, k, actor, Approved, Some(e.id))
    && Assemble(s.receipts, s.entries, k, r, t) == Ok(e)
    && n == Enter(s, k, r, e, actor).(reviews := n.reviews, accruedMetric := n.accruedMetric)
  }

  ghost predicate DeclinedAs(s: State, n: State, k: Key, actor: string) {
    && k in s.reviews && Closes(s, n, k, actor, Declined, s.reviews[k].entryId)
    && n == s.(receipts := s.receipts[k := s.receipts[k].(status := Rejected, failure := Some(ReconciliationRejected))],
               reviews := n.reviews, accruedMetric := n.accruedMetric)
  }

  lemma ApproveShape(s: State, k: Key, version: int, actor: string, t: Tables) returns (e: Entry)
    requires DecideStep(s, k, true, version, actor, t).0 != s
    requires k in s.receipts && s.receipts[k].status != Matched && s.receipts[k].entryId.None?
    ensures ApprovedAs(s, DecideStep(s, k, true, version, actor, t).0, k, actor, e, t)
  {
    e := ReconcileEnters(s, k, s.receipts[k].(caseId := Some(s.reviews[k].caseId)), actor, t);
  }

  lemma ApprovedLedgers(s: State, n: State, k: Key, actor: string, e: Entry, t: Tables)
    requires Inv(s) && ApprovedAs(s, n, k, actor, e, t) && ReviewAt(s, k) && ReceiptAt(s, k)
    ensures Ledgers(n) && TouchesOnly(s, n, k) && Booked(n, k, s.receipts[k].(caseId := Some(s.reviews[k].caseId)), e)
  {
    UnbookedHasNoEntry(s, k);
    var r := s.receipts[k].(caseId := Some(s.reviews[k].caseId));
    var booked := BookingKeepsLedgers(s, k, r, e, actor, t);
    ReviewsApart(booked, n);
  }

  lemma ApprovedKeepsInv(s: State, n: State, k: Key, actor: string, e: Entry, t: Tables)
    requires Inv(s) && ApprovedAs(s, n, k, actor, e, t)
    ensures Inv(n)
  {
    assert ReviewAt(s, k) && ReceiptAt(s, k);
    ApprovedLedgers(s, n, k, actor, e, t);
    ApprovedRow(s, n, k, actor, s.receipts[k].(caseId := Some(s.reviews[k].caseId)), e);
    InvAfter(s, n, k);
  }

  lemma ApprovedRow(s: State, n: State, k: Key, actor: string, r: Receipt, e: Entry)
    requires Closes(s, n, k, actor, Approved, Some(e.id)) && ReviewAt(s, k) && ReceiptAt(s, k)
    requires Booked(n, k, r, e) && r == s.receipts[k].(caseId := Some(s.reviews[k].caseId))
    ensures ReceiptAt(n, k) && ReviewAt(n, k)
  {
  }

  lemma DeclinedRow(s: State, n: State, k: Key, actor: string)
    requires DeclinedAs(s, n, k, actor) && ReviewAt(s, k) && ReceiptAt(s, k)
    ensures TouchesOnly(s, n, k) && ReceiptAt(n, k) && ReviewAt(n, k)
  {
  }

  lemma DeclinedKeepsInv(s: State, n: State, k: Key, actor: string)
    requires Inv(s) && DeclinedAs(s, n, k, actor)
    ensures Inv(n)
  {
    assert ReviewAt(s, k) && ReceiptAt(s, k);
    DeclinedRow(s, n, k, actor);
    UnbookedHasNoEntry(s, k);
    RowChangeKeepsLedgers(s, n, k);
    InvAfter(s, n, k);
  }

  lemma DecideKeepsInv(s: State, k: Key, approve: bool, version: int, actor: string, t: Tables)
    requires Inv(s)
    ensures Inv(DecideStep(s, k, approve, version, actor, t).0)
  {
    var n := DecideStep(s, k, approve, version, actor, t).0;
    if n != s {
      assert ReviewAt(s, k) && ReceiptAt(s, k);
      if approve {
        var e := ApproveShape(s, k, version, actor, t);
        ApprovedKeepsInv(s, n, k, actor, e, t);
      } else {
        DeclinedKeepsInv(s, n, k, actor);
      }
    }
  }

  lemma RecordKeepsInv(s: State, tenant: string, kind: PostingKind, amount: int, reference: string,
                       key: string, actor: string, at: int)
    requires Inv(s)
    ensures Inv(RecordStep(s, tenant, kind, amount, reference, key, actor, at).0)
  {
    var n := RecordStep(s, tenant, kind, amount, reference, key, actor, at).0;
    if n != s {
      SourcedAppend(s.postings, Posting(tenant, kind, amount, None, reference, key, actor, at));
      forall j | j in n.receipts ensures ReceiptAt(n, j) { assert ReceiptAt(s, j); }
      forall j | j in n.reviews ensures ReviewAt(n, j) { assert ReviewAt(s, j); }
    }
  }

  lemma StepKeepsInv(s: State, op: Op)
    requires Inv(s)
    ensures Inv(Step(s, op).0)
  {
    match op
    case Deliver(k, e, d, t) => DeliverKeepsInv(s, k, e, d, t);
    case Propose(k, c, why, actor, t) => ProposeKeepsInv(s, k, c, why, actor, t);
    case Decide(k, yes, v, actor, t) => DecideKeepsInv(s, k, yes, v, actor, t);
    case Record(tenant, kind, amount, ref, key, actor, at) =>
      RecordKeepsInv(s, tenant, kind, amount, ref, key, actor, at);
  }

  lemma {:induction false} RunKeepsInv(ops: seq<Op>)
    ensures Inv(Run(ops))
  {
    if ops != [] {
      RunKeepsInv(ops[..|ops| - 1]);
      StepKeepsInv(Run(ops[..|ops| - 1]), ops[|ops| - 1]);
    }
  }
}
