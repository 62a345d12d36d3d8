/** Imports over whole runs. */
module ImportResults {
  import opened Registry
  import opened ImportModel
  import opened ImportReading
  import opened ImportCommit

  // ---------------------------------------------------------------- a case is imported once

  /** Other operations never delete a case. */
  ghost predicate CasesStay(t: Tables, actions: seq<Action>, lib: Lib) {
    forall n :: 0 <= n < |actions| && actions[n].Elsewhere? ==>
        Run(t, actions[..n], lib).tables.cases.Keys <= actions[n].tables.cases.Keys
  }

  ghost predicate CommittedPresent(s: State, i: nat)
    requires i < |s.batches|
  {
    s.batches[i].status == Committed ==> forall k :: 0 <= k < |s.batches[i].rows| ==>
        s.batches[i].rows[k].caseId in s.tables.cases
  }

  ghost predicate Apart(a: Batch, b: Batch) {
    a.status == Committed && b.status == Committed ==>
      forall k, l :: 0 <= k < |a.rows| && 0 <= l < |b.rows| ==> a.rows[k].caseId != b.rows[l].caseId
  }

  ghost predicate OnceEach(s: State) {
    && (forall i: nat {:trigger CommittedPresent(s, i)} :: i < |s.batches| ==> CommittedPresent(s, i))
    && (forall i, j :: 0 <= i < j < |s.batches| ==> Apart(s.batches[i], s.batches[j]))
  }

  lemma CommitKeepsOnce(s: State, actor: string, id: nat, expected: nat, note: string)
    requires BatchesWell(s) && OnceEach(s) && CommitStep(s, actor, id, expected, note).1 == Done(id)
    ensures OnceEach(CommitStep(s, actor, id, expected, note).0)
  {
    var n := CommitStep(s, actor, id, expected, note).0;
    CommitAddsExactlyItsRows(s, actor, id, expected, note);
    CommitsIff(s, actor, id, expected, note);
    forall i: nat | i < |n.batches| ensures CommittedPresent(n, i) { assert CommittedPresent(s, i); }
    forall i, j | 0 <= i < j < |n.batches| ensures Apart(n.batches[i], n.batches[j]) {
      assert Apart(s.batches[i], s.batches[j]);
      assert CommittedPresent(s, i) && CommittedPresent(s, j);
    }
  }

  lemma StepKeepsOnce(s: State, a: Action, lib: Lib)
    requires BatchesWell(s) && OnceEach(s) && (a.Elsewhere? ==> s.tables.cases.Keys <= a.tables.cases.Keys)
    ensures OnceEach(Step(s, a, lib))
  {
    var n := Step(s, a, lib);
    match a
    case Preview(actor, key, text, today) =>
      forall i: nat | i < |n.batches| ensures CommittedPresent(n, i) {
        if i < |s.batches| { assert CommittedPresent(s, i); }
      }
    case Commit(actor, id, expected, note) =>
      CommitsIff(s, actor, id, expected, note);
      if CommitStep(s, actor, id, expected, note).1 == Done(id) { CommitKeepsOnce(s, actor, id, expected, note); }
    case Elsewhere(tables) =>
      forall i: nat | i < |n.batches| ensures CommittedPresent(n, i) { assert CommittedPresent(s, i); }
  }

  lemma {:induction false} RunKeepsOnce(t: Tables, actions: seq<Action>, lib: Lib)
    requires CasesStay(t, actions, lib)
    ensures OnceEach(Run(t, actions, lib))
  {
    if actions != [] {
      var before := actions[..|actions| - 1];
      forall n | 0 <= n < |before| && before[n].Elsewhere?
        ensures Run(t, before[..n], lib).tables.cases.Keys <= before[n].tables.cases.Keys
      {
        assert before[..n] == actions[..n] && before[n] == actions[n];
      }
      RunKeepsOnce(t, before, lib);
      RunKeepsBatches(t, before, lib);
      StepKeepsOnce(Run(t, before, lib), actions[|actions| - 1], lib);
    }
  }

  /** Of two batches that name the same case, at most one ever commits. */
  lemma SharedCaseCommitsOnce(t: Tables, actions: seq<Action>, lib: Lib, i: nat, j: nat, a: Row, b: Row)
    requires CasesStay(t, actions, lib)
    requires var s := Run(t, actions, lib); i < j < |s.batches| && a in s.batches[i].rows && b in s.batches[j].rows
    requires a.caseId == b.caseId
    ensures var s := Run(t, actions, lib); s.batches[i].status != Committed || s.batches[j].status != Committed
  {
    RunKeepsOnce(t, actions, lib);
    var s := Run(t, actions, lib);
    assert Apart(s.batches[i], s.batches[j]);
  }

  /** In every run: counts add up, a committed batch was confirmed by someone other than its
      creator, and one idempotency key names one batch. */
  lemma BatchesStayWell(t: Tables, actions: seq<Action>, lib: Lib, i: nat)
    requires i < |Run(t, actions, lib).batches|
    ensures var bs := Run(t, actions, lib).batches;
      && bs[i].valid + bs[i].invalid + bs[i].duplicates == bs[i].rowCount && bs[i].valid == |bs[i].rows|
      && (bs[i].status == Committed <==> bs[i].committedBy.Some?)
      && (bs[i].status == Committed ==> bs[i].committedBy.value != bs[i].createdBy && bs[i].version == 2)
      && (forall j :: 0 <= j < |bs| && bs[j].key == bs[i].key ==> j == i)
  {
    RunKeepsBatches(t, actions, lib);
  }

  /** Asking again is harmless: the same file under its key, or a committed batch, is answered from
      what is stored; a key with another file is refused. */
  lemma ReplaysChangeNothing(s: State, actor: string, id: nat, text: string, today: int, expected: nat, note: string,
                             lib: Lib)
    requires BatchesWell(s) && id < |s.batches|
    ensures PreviewStep(s, actor, s.batches[id].key, text, today, lib)
      == (s, if s.batches[id].text == text then Replayed(id) else Denied(IdempotencyConflict))
    ensures s.batches[id].status == Committed ==> CommitStep(s, actor, id, expected, note) == (s, Replayed(id))
  {
    FindKeyFinds(s.batches, s.batches[id].key);
  }

  // ---------------------------------------------------------------- imported cases can be booked

  /** Other operations keep every case in its package and on its rule, and deactivate no rule; the
      cases they add are bookable. */
  ghost predicate Sustains(t: Tables, u: Tables) {
    && (forall c :: c in t.cases ==> c in u.cases && u.cases[c].packageId == t.cases[c].packageId)
    && (forall c :: c in t.profiles ==> c in u.profiles && u.profiles[c].ruleId == t.profiles[c].ruleId)
    && (forall rule :: rule in t.rules && rule.active ==> rule in u.rules)
    && (forall c :: c in u.cases && c !in t.cases ==> Bookable(u, c))
  }

  ghost predicate AllBookable(t: Tables) { forall c {:trigger Bookable(t, c)} :: c in t.cases ==> Bookable(t, c) }

  ghost predicate RulesStay(t: Tables, actions: seq<Action>, lib: Lib) {
    forall n :: 0 <= n < |actions| && actions[n].Elsewhere? ==>
        Sustains(Run(t, actions[..n], lib).tables, actions[n].tables)
  }

  lemma SustainedIsBookable(t: Tables, u: Tables, c: string)
    requires Bookable(t, c) && c in u.cases && u.cases[c].packageId == t.cases[c].packageId
    requires c in u.profiles && u.profiles[c].ruleId == t.profiles[c].ruleId
    requires forall rule :: rule in t.rules && rule.active ==> rule in u.rules
    ensures Bookable(u, c)
  {
    var rule :| rule in t.rules && rule.active && rule.ruleId == t.profiles[c].ruleId
      && rule.packageId == t.cases[c].packageId;
    assert rule in u.rules;
  }

  lemma ImportedIsBookable(u: Tables, r: Row)
    requires r.caseId in u.cases && u.cases[r.caseId] == NewCase(r)
    requires r.caseId in u.profiles && u.profiles[r.caseId] == NewProfile(r)
    requires HasMatch(u.rules, r)
    ensures Bookable(u, r.caseId)
  {
    var k :| 0 <= k < |u.rules| && MatchingRule(u.rules[k], r);
    assert u.rules[k] in u.rules;
  }

  lemma CommitKeepsBookable(s: State, actor: string, id: nat, expected: nat, note: string)
    requires BatchesWell(s) && AllBookable(s.tables) && CommitStep(s, actor, id, expected, note).1 == Done(id)
    ensures AllBookable(CommitStep(s, actor, id, expected, note).0.tables)
  {
    CommitAddsExactlyItsRows(s, actor, id, expected, note);
    var t, u, rows := s.tables, CommitStep(s, actor, id, expected, note).0.tables, s.batches[id].rows;
    IdsAre(rows, |rows|);
    forall c | c in u.cases ensures Bookable(u, c) {
      if c in t.cases {
        assert Bookable(t, c);
        RulesRemain(t.rules, u.rules);
        SustainedIsBookable(t, u, c);
      } else {
        assert c in CaseIds(rows, |rows|);
        var i :| 0 <= i < |rows| && rows[i].caseId == c;
        assert HasMatch(u.rules, rows[i]);
        ImportedIsBookable(u, rows[i]);
      }
    }
  }

  lemma RulesRemain(before: seq<Rule>, rules: seq<Rule>)
    requires Longer(before, rules)
    ensures forall rule :: rule in before ==> rule in rules
  {
    forall rule | rule in before ensures rule in rules {
      var j :| 0 <= j < |before| && before[j] == rule;
      assert rules[j] == rule;
    }
  }

  lemma StepKeepsBookable(s: State, a: Action, lib: Lib)
    requires BatchesWell(s) && AllBookable(s.tables) && (a.Elsewhere? ==> Sustains(s.tables, a.tables))
    ensures AllBookable(Step(s, a, lib).tables)
  {
    match a
    case Preview(actor, key, text, today) =>
    case Commit(actor, id, expected, note) =>
      CommitsIff(s, actor, id, expected, note);
      if CommitStep(s, actor, id, expected, note).1 == Done(id) { CommitKeepsBookable(s, actor, id, expected, note); }
    case Elsewhere(u) =>
      forall c | c in u.cases ensures Bookable(u, c) {
        if c in s.tables.cases {
          assert Bookable(s.tables, c);
          SustainedIsBookable(s.tables, u, c);
        }
      }
  }

  /** Every case reached by imports from tables whose cases are bookable is bookable, as long as no
      rule is deactivated. */
  lemma {:induction false} ImportsKeepCasesBookable(t: Tables, actions: seq<Action>, lib: Lib)
    requires AllBookable(t) && RulesStay(t, actions, lib)
    ensures AllBookable(Run(t, actions, lib).tables)
  {
    if actions != [] {
      var before := actions[..|actions| - 1];
      forall n | 0 <= n < |before| && before[n].Elsewhere?
        ensures Sustains(Run(t, before[..n], lib).tables, before[n].tables)
      {
        assert before[..n] == actions[..n] && before[n] == actions[n];
      }
      ImportsKeepCasesBookable(t, before, lib);
      RunKeepsBatches(t, before, lib);
      StepKeepsBookable(Run(t, before, lib), actions[|actions| - 1], lib);
    }
  }
}
