/** What imports guarantee the catalogue and the ledger, and which imported cases no payment can reach. */
module ImportLedger {
  import opened Registry
  import opened Strings
  import opened ImportModel
  import opened ImportReading
  import opened ImportCommit
  import opened ImportResults
  import L = LedgerModel
  import LedgerInvariant
  import LedgerTerms
  import LedgerOutcomes
  import ImportOutcomes
  import E = CatalogueEligibility
  import P = CataloguePages
  import C = CatalogueCursor
  import CL = CatalogueList

  // ---------------------------------------------------------------- executable cases are bookable

  /** In every state that imports reach without a rule being deactivated, a case the catalogue counts as
      executable is one the ledger can book on. */
  lemma ExecutableIsBookable(t: Tables, actions: seq<Action>, lib: Lib, id: string, today: int)
    requires AllBookable(t) && RulesStay(t, actions, lib)
    requires E.Executable(Run(t, actions, lib).tables, id, today)
    ensures Bookable(Run(t, actions, lib).tables, id)
  {
    ImportsKeepCasesBookable(t, actions, lib);
  }

  /** And so is every case that the preflight lets through. */
  lemma EligibleIsBookable(t: Tables, actions: seq<Action>, lib: Lib, inFlight: set<string>, goal: string, today: int,
                           id: string)
    requires AllBookable(t) && RulesStay(t, actions, lib) && id in Run(t, actions, lib).tables.cases
    requires E.Reason(Run(t, actions, lib).tables, inFlight, goal, today, id).None?
    ensures Bookable(Run(t, actions, lib).tables, id)
  {
    ImportsKeepCasesBookable(t, actions, lib);
  }

  // ---------------------------------------------------------------- imported cases can be listed

  ghost predicate RowsNamed(b: Batch) {
    forall i {:trigger b.rows[i]} :: 0 <= i < |b.rows| ==> Identifier(b.rows[i].caseId, 40)
  }

  ghost predicate AllNamed(s: State) {
    CL.Named(s.tables) && forall i {:trigger s.batches[i]} :: 0 <= i < |s.batches| ==> RowsNamed(s.batches[i])
  }

  /** Other operations leave only case identifiers that fit their column. */
  ghost predicate NamesStay(actions: seq<Action>) {
    forall n :: 0 <= n < |actions| && actions[n].Elsewhere? ==> CL.Named(actions[n].tables)
  }

  lemma AddedAreNamed(t: Tables, u: Tables, rows: seq<Row>)
    requires CL.Named(t) && AddsCases(t, u, rows, |rows|)
    requires forall i {:trigger rows[i]} :: 0 <= i < |rows| ==> Identifier(rows[i].caseId, 40)
    ensures CL.Named(u)
  {
    IdsAre(rows, |rows|);
    forall c | c in u.cases ensures C.CaseName(c) {
      if c !in t.cases {
        assert c in CaseIds(rows, |rows|);
        var i :| 0 <= i < |rows| && rows[i].caseId == c;
        assert Identifier(rows[i].caseId, 40);
      }
    }
  }

  lemma PreviewKeepsNames(s: State, actor: string, key: string, text: string, today: int, lib: Lib)
    requires AllNamed(s)
    ensures AllNamed(PreviewStep(s, actor, key, text, today, lib).0)
  {
    AcceptedRowsAreSound(s.tables, actor, key, text, today, lib);
    assert RowsNamed(BatchOf(s.tables, actor, key, text, today, lib));
  }

  lemma CommitKeepsNames(s: State, actor: string, id: nat, expected: nat, note: string)
    requires BatchesWell(s) && AllNamed(s)
    ensures AllNamed(CommitStep(s, actor, id, expected, note).0)
  {
    CommitsIff(s, actor, id, expected, note);
    if CommitStep(s, actor, id, expected, note).1 == Done(id) {
      CommitAddsExactlyItsRows(s, actor, id, expected, note);
      assert RowsNamed(s.batches[id]);
      AddedAreNamed(s.tables, CommitStep(s, actor, id, expected, note).0.tables, s.batches[id].rows);
    }
  }

  lemma StepKeepsNames(s: State, a: Action, lib: Lib)
    requires BatchesWell(s) && AllNamed(s) && (a.Elsewhere? ==> CL.Named(a.tables))
    ensures AllNamed(Step(s, a, lib))
  {
    match a
    case Preview(actor, key, text, today) => PreviewKeepsNames(s, actor, key, text, today, lib);
    case Commit(actor, id, expected, note) => CommitKeepsNames(s, actor, id, expected, note);
    case Elsewhere(_) =>
  }

  lemma {:induction false} RunKeepsNames(t: Tables, actions: seq<Action>, lib: Lib)
    requires CL.Named(t) && NamesStay(actions)
    ensures AllNamed(Run(t, actions, lib))
  {
    if actions != [] {
      var before := actions[..|actions| - 1];
      RunKeepsNames(t, before, lib);
      RunKeepsBatches(t, before, lib);
      StepKeepsNames(Run(t, before, lib), actions[|actions| - 1], lib);
    }
  }

  /** After any imports, a client that follows the cursors it is handed lists every matching case in order,
      once each: none of its requests is refused, for its length or otherwise. */
  lemma ImportedCasesAreListed(t: Tables, actions: seq<Action>, lib: Lib, q: CL.Query, size: nat, n: nat, pages: CL.Lib)
    requires CL.Named(t) && NamesStay(actions) && size > 0 && C.Lawful(pages.cursors)
    requires n > 0 && n >= P.Pages(|CL.Matching(Run(t, actions, lib).tables, q, pages)|, size)
    ensures var u := Run(t, actions, lib).tables; var ids := CL.Matching(u, q, pages);
      var requests := if ids == {} then 1 else P.Pages(|ids|, size);
      CL.Browse(seq(n, _ => u), q, None, size, pages) == Ok(P.Walk(P.Ordered(ids), requests, true))
  {
    RunKeepsNames(t, actions, lib);
    CL.BrowsingListsAll(Run(t, actions, lib).tables, q, size, n, pages);
  }

  // ---------------------------------------------------------------- payments on imported cases

  /** A first, otherwise admissible payment that names an imported case is accepted and matched at once
      exactly when the case is named `C` and three to twelve digits; for any other imported case the
      request schema refuses it and nothing changes. */
  lemma PaymentsOnImportedCasesMatchIff(t: Tables, actions: seq<Action>, lib: Lib, s: L.State, k: L.Key, e: L.Event,
                                        d: L.Deployment)
    requires AllBookable(t) && RulesStay(t, actions, lib)
    requires e.kind == L.Payment && e.caseId.Some? && e.caseId.value in Run(t, actions, lib).tables.cases
    requires LedgerInvariant.Inv(s) && k !in s.receipts
    requires L.Screen(k, e.(caseId := None), d).None? && L.Admission(e, d).None?
    requires L.FindPosting(s.postings, k.tenant, L.RecoveryKey(L.EntryId(k))).None?
    ensures var (n, outcome) := L.DeliverStep(s, k, e, d, Run(t, actions, lib).tables);
      if L.PaymentCaseId(e.caseId.value)
      then outcome == L.Done && k in n.receipts && n.receipts[k].status == L.Matched
      else outcome == L.Denied(L.SchemaRejected) && n == s
  {
    ImportsKeepCasesBookable(t, actions, lib);
    var u := Run(t, actions, lib).tables;
    assert Bookable(u, e.caseId.value);
    if L.PaymentCaseId(e.caseId.value) { LedgerTerms.FreshPaymentMatchedIff(s, k, e, d, u); }
  }

  /** From the file's cells to the commission: a payment booked on a case, over the tables that its import left, earns
      on its whole amount from the row's first day of the mandate to its last, and on nothing before or after. */
  lemma ImportedPaymentEarns(s: State, actor: string, id: nat, expected: nat, note: string, i: nat, l: L.State,
                             op: L.Op)
    requires BatchesWell(s) && CommitStep(s, actor, id, expected, note).1 == Done(id)
    requires id < |s.batches| && i < |s.batches[id].rows|
    requires LedgerInvariant.Inv(l) && L.Booking(l, op).Some? && L.Booking(l, op).value.kind == L.Payment
    requires op.tables == CommitStep(s, actor, id, expected, note).0.tables
    requires L.Booking(l, op).value.caseId == s.batches[id].rows[i].caseId
    ensures var e, r := L.Booking(l, op).value, s.batches[id].rows[i];
      && e.eligible == (if r.mandateStart <= e.bookedAt / 86_400 <= r.mandateEnd then e.amount else 0)
      && e.packageId == r.packageId && e.ruleId == r.ruleId
  {
    ImportOutcomes.CommitWrites(s, actor, id, expected, note);
    assert ImportOutcomes.Becomes(op.tables, s.batches[id].rows[i]);
    LedgerOutcomes.BookingTerms(l, op);
  }

  /** No run of the ledger ever books an entry on a case named otherwise, whatever the tables hold, and
      every delivery or proposal that names it is refused. */
  lemma OtherCasesAreNeverBooked(ops: seq<L.Op>, op: L.Op, c: string)
    requires !L.PaymentCaseId(c)
    ensures forall e :: e in L.Run(ops).entries ==> e.caseId != c
    ensures (op.Deliver? && op.event.caseId == Some(c)) || (op.Propose? && op.caseId == c) ==>
      L.Step(L.Run(ops), op) == (L.Run(ops), L.Denied(L.SchemaRejected))
  {
    LedgerTerms.RunBooksSchemaCases(ops);
  }

  // ---------------------------------------------------------------- a row of this kind

  lemma {:induction false} FieldsAre(headers: seq<string>, cells: seq<string>, i: nat)
    requires |headers| == |cells| && Distinct(headers) && i < |headers|
    ensures Get(Fields(headers, cells), headers[i]) == cells[i]
  {
    var last := |headers| - 1;
    if i < last {
      FieldsAre(headers[..last], cells[..last], i);
      assert headers[i] != headers[last];
    }
  }

  lemma {:induction false} OtherFieldsAreEmpty(headers: seq<string>, cells: seq<string>, f: string)
    requires |headers| == |cells| && f !in headers
    ensures Get(Fields(headers, cells), f) == ""
  {
    if headers != [] {
      var last := |headers| - 1;
      OtherFieldsAreEmpty(headers[..last], cells[..last], f);
      assert headers[last] in headers;
    }
  }

  lemma {:induction false} NoBlanks(row: map<string, string>, fields: seq<string>)
    requires forall i :: 0 <= i < |fields| ==> Get(row, fields[i]) != ""
    ensures Blanks(row, fields) == []
  {
    if fields != [] { NoBlanks(row, fields[1..]); }
  }

  lemma RequiredAreDistinct()
    ensures Distinct(REQUIRED)
    ensures forall f :: f in OPTIONAL ==> f !in REQUIRED
  {
    assert |REQUIRED[0]| == 10 && |REQUIRED[1]| == 13 && |REQUIRED[2]| == 7 && |REQUIRED[3]| == 19
      && |REQUIRED[4]| == 13
      && |REQUIRED[5]| == 11 && |REQUIRED[6]| == 18 && |REQUIRED[7]| == 19 && |REQUIRED[8]| == 17;
    assert REQUIRED[1][0] == 'p' && REQUIRED[4][0] == 'm' && REQUIRED[3][1] == 'l' && REQUIRED[7][1] == 'o';
    assert OPTIONAL[0][5] == 's' && REQUIRED[5][5] == 't';
    assert |OPTIONAL[0]| == 11 && |OPTIONAL[1]| == 15 && |OPTIONAL[2]| == 14 && |OPTIONAL[3]| == 9
      && |OPTIONAL[4]| == 18
      && |OPTIONAL[5]| == 15;
    assert OPTIONAL[4][0] == 'f' && REQUIRED[6][0] == 'c';
  }

  const LOAN_CELLS := ["PKG-1", "Loans 2026", "LOAN-77", "100", "2026-01-01", "2026-12-31", "RULE-1", "500", "ref:1"]

  const LOAN := Row(2, "PKG-1", "Loans 2026", "LOAN-77", STATUSES[0], 100, 0, 364, "RULE-1", 500, "ref:1",
                    None, None, None, None, None)

  /** Parsers that read the row's numbers and dates; day 0 is the first of January 2026. */
  function Parsers(lib: Lib): Lib {
    lib.(toInt := (s: string) => if s == "100" then Some(100) else if s == "500" then Some(500) else None,
         toDate := (s: string) => if s == "2026-01-01" then Some(0) else if s == "2026-12-31" then Some(364) else None)
  }

  lemma LoanCells(row: map<string, string>)
    requires row == Fields(REQUIRED, LOAN_CELLS)
    ensures forall i :: 0 <= i < 9 ==> Get(row, REQUIRED[i]) == LOAN_CELLS[i]
    ensures forall f :: f in OPTIONAL ==> Get(row, f) == ""
  {
    RequiredAreDistinct();
    forall i | 0 <= i < 9 ensures Get(row, REQUIRED[i]) == LOAN_CELLS[i] { FieldsAre(REQUIRED, LOAN_CELLS, i); }
    forall f | f in OPTIONAL ensures Get(row, f) == "" { OtherFieldsAreEmpty(REQUIRED, LOAN_CELLS, f); }
  }

  lemma LoanWords()
    ensures Identifier("PKG-1", 40) && Identifier("LOAN-77", 40) && Identifier("RULE-1", 80)
    ensures Title("Loans 2026") && Reference("ref:1")
  {
  }

  lemma {:induction false} LoanText(row: map<string, string>)
    requires forall i :: 0 <= i < 9 ==> Get(row, REQUIRED[i]) == LOAN_CELLS[i]
    ensures TextIssues(row) == []
  {
    forall i | 0 <= i < |REQUIRED| ensures Get(row, REQUIRED[i]) != "" { assert LOAN_CELLS[i] != ""; }
    NoBlanks(row, REQUIRED);
    LoanWords();
    assert Get(row, REQUIRED[0]) == LOAN_CELLS[0] && Get(row, REQUIRED[1]) == LOAN_CELLS[1];
    assert Get(row, REQUIRED[2]) == LOAN_CELLS[2];
    assert Get(row, REQUIRED[6]) == LOAN_CELLS[6] && Get(row, REQUIRED[8]) == LOAN_CELLS[8];
  }

  const PARSED := Parsed(Ok(100), Ok(500), Ok(0), Ok(364), Ok(None), Ok(None), Ok(None), Ok(None), Ok(None))

  lemma {:induction false} LoanParses(row: map<string, string>, lib: Lib)
    requires forall i :: 0 <= i < 9 ==> Get(row, REQUIRED[i]) == LOAN_CELLS[i]
    requires forall f :: f in OPTIONAL ==> Get(row, f) == ""
    ensures ParseCells(row, Parsers(lib)) == PARSED && Status(row) == STATUSES[0]
  {
    assert Get(row, REQUIRED[3]) == LOAN_CELLS[3] && Get(row, REQUIRED[7]) == LOAN_CELLS[7];
    assert Get(row, REQUIRED[4]) == LOAN_CELLS[4] && Get(row, REQUIRED[5]) == LOAN_CELLS[5];
    assert OPTIONAL[0] in OPTIONAL && OPTIONAL[1] in OPTIONAL && OPTIONAL[2] in OPTIONAL && OPTIONAL[3] in OPTIONAL
      && OPTIONAL[4] in OPTIONAL && OPTIONAL[5] in OPTIONAL;
  }

  lemma {:induction false} LoanIsRow(row: map<string, string>, p: Parsed)
    requires forall i :: 0 <= i < 9 ==> Get(row, REQUIRED[i]) == LOAN_CELLS[i]
    requires p == PARSED && Status(row) == STATUSES[0]
    ensures RowOf(2, row, p) == LOAN
  {
    assert Get(row, REQUIRED[0]) == LOAN_CELLS[0] && Get(row, REQUIRED[1]) == LOAN_CELLS[1];
    assert Get(row, REQUIRED[2]) == LOAN_CELLS[2];
    assert Get(row, REQUIRED[6]) == LOAN_CELLS[6] && Get(row, REQUIRED[8]) == LOAN_CELLS[8];
  }

  lemma {:induction false} NothingWrong(row: map<string, string>, p: Parsed)
    requires TextIssues(row) == [] && p == PARSED && Status(row) == STATUSES[0]
    ensures Codes(Unread, row, p, 0) == []
  {
    assert ValueIssues(p, 0) == [] && ClashIssues(Unread, row, p) == [];
    assert STATUSES[0] in STATUSES;
  }

  lemma {:induction false} CleanRowIsRead(s: Reading, number: nat, headers: seq<string>, cells: seq<string>,
                                          row: map<string, string>, p: Parsed, today: int, lib: Lib)
    requires |cells| == |headers| && row == Fields(headers, cells) && p == ParseCells(row, lib)
    requires Codes(s, row, p, today) == []
    ensures Complete(p) && ReadRow(s, number, headers, cells, today, lib).rows == s.rows + [RowOf(number, row, p)]
  {
    NoCodes(s, row, p, today);
  }

  lemma {:induction false} LoanIsSound()
    ensures Sound(LOAN, 0) && !L.PaymentCaseId(LOAN.caseId)
  {
    LoanWords();
    assert STATUSES[0] in STATUSES;
    assert LOAN.caseId[0] == 'L';
  }

  /** The importer accepts a row for the case `LOAN-77`, and in every state of the ledger a payment that
      names it is refused. */
  lemma {:induction false} ImporterAcceptsUnpayableCase(lib: Lib, ops: seq<L.Op>, op: L.Op)
    ensures ReadRow(Unread, 2, REQUIRED, LOAN_CELLS, 0, Parsers(lib)).rows == [LOAN] && Sound(LOAN, 0)
    ensures op.Deliver? && op.event.caseId == Some(LOAN.caseId) ==>
      L.Step(L.Run(ops), op) == (L.Run(ops), L.Denied(L.SchemaRejected))
  {
    LoanReads(Fields(REQUIRED, LOAN_CELLS), lib);
    LoanIsSound();
    OtherCasesAreNeverBooked(ops, op, LOAN.caseId);
  }

  lemma {:induction false} LoanReads(row: map<string, string>, lib: Lib)
    requires row == Fields(REQUIRED, LOAN_CELLS)
    ensures ReadRow(Unread, 2, REQUIRED, LOAN_CELLS, 0, Parsers(lib)).rows == [LOAN]
  {
    LoanCells(row);
    LoanText(row);
    LoanParses(row, lib);
    LoanIsRow(row, PARSED);
    NothingWrong(row, PARSED);
    CleanRowIsRead(Unread, 2, REQUIRED, LOAN_CELLS, row, PARSED, 0, Parsers(lib));
  }
}
