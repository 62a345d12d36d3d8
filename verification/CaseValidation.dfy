/** The case report's reading of the ledger, and why its outcome check always finds what it needs. */
module CaseValidation {
  import opened Registry
  import opened LedgerModel
  import opened LedgerBooks
  import opened LedgerInvariant
  import LedgerResults

  /** The entries of one case, in ledger order. */
  function EntriesOf(es: seq<Entry>, tenant: string, caseId: string): seq<Entry> {
    if es == [] then []
    else
      EntriesOf(es[..|es| - 1], tenant, caseId)
      + if es[|es| - 1].tenant == tenant && es[|es| - 1].caseId == caseId then [es[|es| - 1]] else []
  }

  /** The receipts the report looks entries up in: those already assigned to the case. */
  function ReceiptsOf(s: State, tenant: string, caseId: string): map<Key, Receipt> {
    map k | k in s.receipts && k.tenant == tenant && s.receipts[k].caseId == Some(caseId) :: s.receipts[k]
  }

  /** The check `outcome`. */
  predicate OutcomePasses(s: State, tenant: string, caseId: string) {
    var es, receipts := EntriesOf(s.entries, tenant, caseId), ReceiptsOf(s, tenant, caseId);
    && es != []
    && forall i :: 0 <= i < |es| ==>
         es[i].receipt in receipts && receipts[es[i].receipt].status == Matched
             && receipts[es[i].receipt].entryId == Some(es[i].id)
  }

  function AmountOf(es: seq<Entry>, kinds: set<Kind>): int {
    if es == [] then 0
    else AmountOf(es[..|es| - 1], kinds) + if es[|es| - 1].kind in kinds then es[|es| - 1].amount else 0
  }

  function PaymentTotal(s: State, tenant: string, caseId: string): int {
    AmountOf(EntriesOf(s.entries, tenant, caseId), {Payment})
  }

  function RefundTotal(s: State, tenant: string, caseId: string): int {
    -AmountOf(EntriesOf(s.entries, tenant, caseId), {Refund})
  }

  function NetTotal(s: State, tenant: string, caseId: string): int {
    AmountOf(EntriesOf(s.entries, tenant, caseId), {Payment, Refund})
  }

  datatype Comparison = NotProvided | Unavailable | Agrees | Differs(difference: int)

  function Compared(s: State, tenant: string, caseId: string, expected: Option<int>): Comparison {
    if expected.None? then NotProvided
    else if !OutcomePasses(s, tenant, caseId) then Unavailable
    else if NetTotal(s, tenant, caseId) == expected.value then Agrees
    else Differs(NetTotal(s, tenant, caseId) - expected.value)
  }

  lemma {:induction false} EntriesOfAre(es: seq<Entry>, tenant: string, caseId: string, e: Entry)
    ensures e in EntriesOf(es, tenant, caseId) <==> e in es && e.tenant == tenant && e.caseId == caseId
  {
    if es != [] {
      EntriesOfAre(es[..|es| - 1], tenant, caseId, e);
      assert es == es[..|es| - 1] + [es[|es| - 1]];
    }
  }

  /** In any state, reachable or not, the outcome check passes exactly when the case has an entry and each of its
      entries has a receipt of the tenant, on this case, matched and pointing back. */
  lemma OutcomeIs(s: State, tenant: string, caseId: string)
    ensures OutcomePasses(s, tenant, caseId) <==>
      && (exists e :: e in s.entries && e.tenant == tenant && e.caseId == caseId)
      && forall e :: e in s.entries && e.tenant == tenant && e.caseId == caseId ==>
           && e.receipt in s.receipts && e.receipt.tenant == tenant
           && s.receipts[e.receipt].caseId == Some(caseId) && s.receipts[e.receipt].status == Matched
           && s.receipts[e.receipt].entryId == Some(e.id)
  {
    var es := EntriesOf(s.entries, tenant, caseId);
    forall e ensures e in es <==> e in s.entries && e.tenant == tenant && e.caseId == caseId {
      EntriesOfAre(s.entries, tenant, caseId, e);
    }
    if es != [] { assert es[0] in es; }
  }

  /** In every run the outcome check passes exactly for the cases that have an entry: each entry's
      receipt is on the case, matched and pointing back. */
  lemma OutcomePassesIff(ops: seq<Op>, tenant: string, caseId: string)
    ensures OutcomePasses(Run(ops), tenant, caseId)
      <==> exists e :: e in Run(ops).entries && e.tenant == tenant && e.caseId == caseId
  {
    var s := Run(ops);
    var es := EntriesOf(s.entries, tenant, caseId);
    RunKeepsInv(ops);
    forall i | 0 <= i < |es|
      ensures es[i] in s.entries && es[i].tenant == tenant && es[i].caseId == caseId
      ensures es[i].receipt in ReceiptsOf(s, tenant, caseId)
        && s.receipts[es[i].receipt].status == Matched && s.receipts[es[i].receipt].entryId == Some(es[i].id)
    {
      EntriesOfAre(s.entries, tenant, caseId, es[i]);
      LedgerResults.EveryEntryAccountedFor(ops, es[i]);
      EntryOfTenant(ops, es[i]);
    }
    if es != [] { assert es[0] in s.entries; }
    forall e | e in s.entries && e.tenant == tenant && e.caseId == caseId ensures es != [] {
      EntriesOfAre(s.entries, tenant, caseId, e);
    }
  }

  lemma EntryOfTenant(ops: seq<Op>, e: Entry)
    requires e in Run(ops).entries
    ensures e.receipt.tenant == e.tenant
  {
    RunKeepsInv(ops);
    var i: nat :| i < |Run(ops).entries| && Run(ops).entries[i] == e;
    assert EntryAt(Run(ops).entries, i);
  }

  lemma AmountPush(es: seq<Entry>, e: Entry, kinds: set<Kind>)
    ensures AmountOf(es + [e], kinds) == AmountOf(es, kinds) + if e.kind in kinds then e.amount else 0
  {
    assert (es + [e])[..|es|] == es;
  }

  lemma {:induction false} KindsSplit(es: seq<Entry>)
    ensures AmountOf(es, {Payment, Refund}) == AmountOf(es, {Payment}) + AmountOf(es, {Refund})
  {
    if es != [] { KindsSplit(es[..|es| - 1]); }
  }

  lemma {:induction false} CaseNetIs(es: seq<Entry>, tenant: string, caseId: string)
    ensures AmountOf(EntriesOf(es, tenant, caseId), {Payment, Refund})
      == Total(es, AmountIn(Scope(tenant, Some(caseId))))
  {
    if es != [] {
      var front, last := es[..|es| - 1], es[|es| - 1];
      CaseNetIs(front, tenant, caseId);
      var mine, own := EntriesOf(front, tenant, caseId), last.tenant == tenant && last.caseId == caseId;
      assert AmountIn(Scope(tenant, Some(caseId)))(last) == if own then last.amount else 0;
      assert last.kind == Payment || last.kind == Refund;
      AmountPush(mine, last, {Payment, Refund});
      assert EntriesOf(es, tenant, caseId) == mine + if own then [last] else [];
      assert mine + [] == mine;
    }
  }

  /** The amounts of one kind on one case. */
  function KindIn(kind: Kind, tenant: string, caseId: string): Entry -> int {
    (e: Entry) => if e.kind == kind && e.tenant == tenant && e.caseId == caseId then e.amount else 0
  }

  lemma {:induction false} CaseKindIs(es: seq<Entry>, kind: Kind, tenant: string, caseId: string)
    ensures AmountOf(EntriesOf(es, tenant, caseId), {kind}) == Total(es, KindIn(kind, tenant, caseId))
  {
    if es != [] {
      var front, last := es[..|es| - 1], es[|es| - 1];
      CaseKindIs(front, kind, tenant, caseId);
      var mine, own := EntriesOf(front, tenant, caseId), last.tenant == tenant && last.caseId == caseId;
      assert KindIn(kind, tenant, caseId)(last) == if last.kind == kind && own then last.amount else 0;
      AmountPush(mine, last, {kind});
      assert EntriesOf(es, tenant, caseId) == mine + if own then [last] else [];
      assert mine + [] == mine;
    }
  }

  /** The report's payments less its refunds are its net, which is the net the catalogue shows for the
      case and the summary sums up; and refunds never exceed payments. */
  lemma ReportAgrees(ops: seq<Op>, tenant: string, caseId: string)
    ensures var s := Run(ops);
      && NetTotal(s, tenant, caseId) == PaymentTotal(s, tenant, caseId) - RefundTotal(s, tenant, caseId)
      && NetTotal(s, tenant, caseId) == Total(s.entries, AmountIn(Scope(tenant, Some(caseId))))
      && RefundTotal(s, tenant, caseId) <= PaymentTotal(s, tenant, caseId)
      && PaymentTotal(s, tenant, caseId) == Total(s.entries, KindIn(Payment, tenant, caseId))
      && RefundTotal(s, tenant, caseId) == -Total(s.entries, KindIn(Refund, tenant, caseId))
  {
    var s := Run(ops);
    RunKeepsInv(ops);
    KindsSplit(EntriesOf(s.entries, tenant, caseId));
    CaseKindIs(s.entries, Payment, tenant, caseId);
    CaseKindIs(s.entries, Refund, tenant, caseId);
    CaseNetIs(s.entries, tenant, caseId);
    EligibleNetBounds(s.entries, Scope(tenant, Some(caseId)));
  }

  /** In every run the report agrees with an expected net exactly when the case has an entry and its
      payments less its refunds are that net; without an entry it compares nothing. */
  lemma ComparisonAgreesIff(ops: seq<Op>, tenant: string, caseId: string, expected: int)
    ensures var s := Run(ops);
      var compared := Compared(s, tenant, caseId, Some(expected));
      var booked := exists e :: e in s.entries && e.tenant == tenant && e.caseId == caseId;
      && (compared == Agrees <==>
            booked && PaymentTotal(s, tenant, caseId) - RefundTotal(s, tenant, caseId) == expected)
      && (compared == Unavailable <==> !booked)
      && (compared.Differs? ==>
            compared.difference == PaymentTotal(s, tenant, caseId) - RefundTotal(s, tenant, caseId) - expected)
      && compared != NotProvided && Compared(s, tenant, caseId, None) == NotProvided
  {
    OutcomePassesIff(ops, tenant, caseId);
    ReportAgrees(ops, tenant, caseId);
  }
}
