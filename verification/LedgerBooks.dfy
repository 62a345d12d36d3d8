/** Facts about a well-kept sequence of recovery entries: what refunds may do to a payment,
    and what that means for every total taken over the entries. */
module LedgerBooks {
  import opened Registry
  import opened LedgerModel

  /** `p` is a payment and refund `e` continues it: same tenant, provider, case, package, rule and rate. */
  ghost predicate Continues(p: Entry, e: Entry) {
    && p.kind == Payment
    && e.original == Some(p.id)
    && p.tenant == e.tenant && p.receipt.provider == e.receipt.provider
    && p.caseId == e.caseId && p.packageId == e.packageId
    && p.ruleId == e.ruleId && p.ruleVersion == e.ruleVersion && p.rate == e.rate
  }

  ghost predicate EntryAt(es: seq<Entry>, i: nat)
    requires i < |es|
  {
    var e := es[i];
    && e.tenant == e.receipt.tenant && e.id == EntryId(e.receipt)
    && e.commission == CommissionCents(e.eligible, e.rate)
    && (forall j :: 0 <= j < i ==> !(es[j].tenant == e.tenant && es[j].id == e.id))
    && (e.kind == Payment ==> e.amount > 0 && e.original == None && (e.eligible == 0 || e.eligible == e.amount))
    && (e.kind == Refund ==>
          && e.amount < 0
          && exists j :: 0 <= j < i && Continues(es[j], e) && e.eligible == if es[j].eligible != 0 then e.amount else 0)
  }

  ghost predicate BooksSound(es: seq<Entry>) {
    forall i: nat :: i < |es| ==> EntryAt(es, i)
  }

  ghost predicate RefundsWithin(es: seq<Entry>) {
    forall p {:trigger Refunded(es, p.tenant, p.id)} :: p in es && p.kind == Payment ==>
        Refunded(es, p.tenant, p.id) <= p.amount
  }

  lemma {:induction false} BooksSoundPrefix(es: seq<Entry>, n: nat)
    requires n <= |es| && BooksSound(es)
    ensures BooksSound(es[..n])
  {
    forall i: nat | i < n ensures EntryAt(es[..n], i) {
      assert EntryAt(es, i);
      if es[i].kind == Refund {
        var j :| 0 <= j < i && Continues(es[j], es[i])
          && es[i].eligible == if es[j].eligible != 0 then es[i].amount else 0;
        assert es[..n][j] == es[j];
      }
    }
  }

  // ---------------------------------------------------------------- totals

  function Total(es: seq<Entry>, w: Entry -> int): int {
    if es == [] then 0 else Total(es[..|es| - 1], w) + w(es[|es| - 1])
  }

  /** What a payment is worth after its refunds, measured by `w`. */
  function Net(es: seq<Entry>, p: Entry, w: Entry -> int): int {
    w(p) + Total(es, RefundsOf(p, w))
  }

  function RefundsOf(p: Entry, w: Entry -> int): Entry -> int {
    (e: Entry) => if e.tenant == p.tenant && e.original == Some(p.id) then w(e) else 0
  }

  /** The nets of the payments among the first `n` entries, summed. */
  function NetsUpTo(es: seq<Entry>, n: nat, w: Entry -> int): int
    requires n <= |es|
  {
    if n == 0 then 0
    else NetsUpTo(es, n - 1, w) + (if es[n - 1].kind == Payment then Net(es, es[n - 1], w) else 0)
  }

  lemma {:induction false} NoRefundBeforePayment(es: seq<Entry>, n: nat, w: Entry -> int, m: nat)
    requires BooksSound(es) && m <= n < |es| && es[n].kind == Payment
    ensures Total(es[..m], RefundsOf(es[n], w)) == 0
  {
    if m > 0 {
      NoRefundBeforePayment(es, n, w, m - 1);
      assert es[..m][..m - 1] == es[..m - 1];
      assert EntryAt(es, m - 1) && EntryAt(es, n);
    }
  }

  /** Appending an entry moves the nets of earlier payments only when it is a refund, and then
      only the net of the payment it continues. */
  lemma {:induction false} NetsAfterAppend(es: seq<Entry>, x: Entry, n: nat, w: Entry -> int, j: nat)
    requires n <= |es| && BooksSound(es + [x])
    requires x.kind == Refund ==> j < |es| && Continues(es[j], x)
    ensures NetsUpTo(es + [x], n, w) == NetsUpTo(es, n, w) + if x.kind == Refund && j < n then w(x) else 0
  {
    var all := es + [x];
    if n > 0 {
      NetsAfterAppend(es, x, n - 1, w, j);
      assert all[..|all| - 1] == es;
      assert all[n - 1] == es[n - 1];
      assert EntryAt(all, |es|) && EntryAt(all, n - 1);
      if x.kind == Refund && j != n - 1 {
        assert all[j] == es[j] && EntryAt(all, j);
      }
    }
  }

  /** Every total over the entries is the sum of the payments' nets: refunds never float free. */
  lemma {:induction false} TotalIsNets(es: seq<Entry>, w: Entry -> int)
    requires BooksSound(es)
    ensures Total(es, w) == NetsUpTo(es, |es|, w)
  {
    if es != [] {
      var n := |es| - 1;
      var before, x := es[..n], es[n];
      assert es == before + [x];
      BooksSoundPrefix(es, n);
      TotalIsNets(before, w);
      assert EntryAt(es, n);
      if x.kind == Refund {
        var j :| 0 <= j < n && Continues(es[j], x);
        assert before[j] == es[j];
        NetsAfterAppend(before, x, n, w, j);
      } else {
        NetsAfterAppend(before, x, n, w, 0);
        NoRefundBeforePayment(es, n, w, n);
      }
    }
  }

  // ---------------------------------------------------------------- recovered money

  /** The cases a total ranges over: all of a tenant's, or one of them. */
  datatype Scope = Scope(tenant: string, caseId: Option<string>)

  predicate Within(sc: Scope, e: Entry) {
    e.tenant == sc.tenant && (sc.caseId == None || sc.caseId == Some(e.caseId))
  }

  function AmountIn(sc: Scope): Entry -> int { (e: Entry) => if Within(sc, e) then e.amount else 0 }
  function EligibleIn(sc: Scope): Entry -> int { (e: Entry) => if Within(sc, e) then e.eligible else 0 }
  function IneligibleIn(sc: Scope): Entry -> int { (e: Entry) => if Within(sc, e) then e.amount - e.eligible else 0 }
  function CommissionIn(sc: Scope): Entry -> int { (e: Entry) => if Within(sc, e) then e.commission else 0 }

  lemma {:induction false} RefundsCarryEligibility(es: seq<Entry>, i: nat, sc: Scope, n: nat)
    requires BooksSound(es) && i < |es| && n <= |es| && es[i].kind == Payment && Within(sc, es[i])
    ensures var refunded := Refunded(es[..n], es[i].tenant, es[i].id);
      && Total(es[..n], RefundsOf(es[i], AmountIn(sc))) == -refunded
      && Total(es[..n], RefundsOf(es[i], EligibleIn(sc))) == (if es[i].eligible != 0 then -refunded else 0)
      && Total(es[..n], RefundsOf(es[i], IneligibleIn(sc))) == (if es[i].eligible != 0 then 0 else -refunded)
  {
    if n > 0 {
      RefundsCarryEligibility(es, i, sc, n - 1);
      assert es[..n][..n - 1] == es[..n - 1];
      var e := es[n - 1];
      assert EntryAt(es, n - 1) && EntryAt(es, i);
      if e.tenant == es[i].tenant && e.original == Some(es[i].id) {
        var j :| 0 <= j < n - 1 && Continues(es[j], e) && e.eligible == if es[j].eligible != 0 then e.amount else 0;
        assert EntryAt(es, j);
        assert j == i;
      }
    }
  }

  lemma {:induction false} RefundsOutsideScope(es: seq<Entry>, i: nat, sc: Scope, w: Entry -> int, n: nat)
    requires BooksSound(es) && i < |es| && n <= |es| && es[i].kind == Payment && !Within(sc, es[i])
    requires forall e :: !Within(sc, e) ==> w(e) == 0
    ensures Total(es[..n], RefundsOf(es[i], w)) == 0
  {
    if n > 0 {
      RefundsOutsideScope(es, i, sc, w, n - 1);
      assert es[..n][..n - 1] == es[..n - 1];
      var e := es[n - 1];
      assert EntryAt(es, n - 1) && EntryAt(es, i);
      if e.tenant == es[i].tenant && e.original == Some(es[i].id) {
        var j :| 0 <= j < n - 1 && Continues(es[j], e);
        assert EntryAt(es, j);
        assert j == i;
      }
    }
  }

  /** Per payment: the eligible net lies between zero and the confirmed net. */
  lemma NetsOfPayment(es: seq<Entry>, i: nat, sc: Scope)
    requires BooksSound(es) && RefundsWithin(es) && i < |es| && es[i].kind == Payment
    ensures 0 <= Net(es, es[i], EligibleIn(sc))
    ensures 0 <= Net(es, es[i], IneligibleIn(sc))
    ensures Net(es, es[i], AmountIn(sc)) == Net(es, es[i], EligibleIn(sc)) + Net(es, es[i], IneligibleIn(sc))
  {
    assert es[..|es|] == es;
    assert EntryAt(es, i);
    if Within(sc, es[i]) {
      RefundsCarryEligibility(es, i, sc, |es|);
    } else {
      RefundsOutsideScope(es, i, sc, EligibleIn(sc), |es|);
      RefundsOutsideScope(es, i, sc, IneligibleIn(sc), |es|);
      RefundsOutsideScope(es, i, sc, AmountIn(sc), |es|);
    }
  }

  lemma {:induction false} NetsUpToBounds(es: seq<Entry>, n: nat, sc: Scope)
    requires BooksSound(es) && RefundsWithin(es) && n <= |es|
    ensures 0 <= NetsUpTo(es, n, EligibleIn(sc)) <= NetsUpTo(es, n, AmountIn(sc))
  {
    if n > 0 {
      NetsUpToBounds(es, n - 1, sc);
      if es[n - 1].kind == Payment {
        NetsOfPayment(es, n - 1, sc);
      }
    }
  }

  /** Over a tenant, or over any one case of it: 0 <= eligible net <= confirmed net. */
  lemma EligibleNetBounds(es: seq<Entry>, sc: Scope)
    requires BooksSound(es) && RefundsWithin(es)
    ensures 0 <= Total(es, EligibleIn(sc)) <= Total(es, AmountIn(sc))
  {
    TotalIsNets(es, EligibleIn(sc));
    TotalIsNets(es, AmountIn(sc));
    NetsUpToBounds(es, |es|, sc);
  }
}
