/** What a commit does, when it succeeds, and what of a preview survives other requests. */
module ImportCommit {
  import opened Registry
  import opened ImportModel
  import opened ImportReading

  // ---------------------------------------------------------------- one commit

  ghost predicate AllFit(t: Tables, rows: seq<Row>, n: nat)
    requires n <= |rows|
  {
    forall i :: 0 <= i < n ==> Fits(t, rows[i])
  }

  lemma {:induction false} WrittenIff(t: Tables, rows: seq<Row>, n: nat)
    requires n <= |rows|
    ensures WriteRows(t, rows, n).Ok? <==> AllFit(t, rows, n)
  {
    if n > 0 {
      WrittenIff(t, rows, n - 1);
    }
  }

  ghost predicate Longer(before: seq<Rule>, rules: seq<Rule>) {
    |before| <= |rules| && forall j {:trigger rules[j]} :: 0 <= j < |before| ==> rules[j] == before[j]
  }

  ghost predicate FirstVersion(rule: Rule, r: Row) { rule == Rule(r.ruleId, 1, r.packageId, r.rate, true) }

  /** The rule is the first version of one that a row among the first `n` brings. */
  ghost predicate AddedFor(before: seq<Rule>, rule: Rule, rows: seq<Row>, n: nat)
    requires n <= |rows|
  {
    exists i :: 0 <= i < n && FirstVersion(rule, rows[i]) && !Versioned(before, rows[i].ruleId)
  }

  /** The rules a batch adds: one first version for every rule of its rows that had none. */
  ghost predicate AddsRules(before: seq<Rule>, rules: seq<Rule>, rows: seq<Row>, n: nat)
    requires n <= |rows|
  {
    && Longer(before, rules)
    && (forall j {:trigger rules[j]} :: |before| <= j < |rules| ==> AddedFor(before, rules[j], rows, n))
    && (forall j, k :: |before| <= j < k < |rules| ==> rules[j].ruleId != rules[k].ruleId)
    && (forall i {:trigger HasMatch(rules, rows[i])} :: 0 <= i < n ==> HasMatch(rules, rows[i]))
  }

  function PackageIds(rows: seq<Row>, n: nat): set<string>
    requires n <= |rows|
  {
    if n == 0 then {} else PackageIds(rows, n - 1) + {rows[n - 1].packageId}
  }

  function CaseIds(rows: seq<Row>, n: nat): set<string>
    requires n <= |rows|
  {
    if n == 0 then {} else CaseIds(rows, n - 1) + {rows[n - 1].caseId}
  }

  lemma {:induction false} IdsAre(rows: seq<Row>, n: nat)
    requires n <= |rows|
    ensures forall p :: p in PackageIds(rows, n) <==> exists i :: 0 <= i < n && rows[i].packageId == p
    ensures forall c :: c in CaseIds(rows, n) <==> exists i :: 0 <= i < n && rows[i].caseId == c
  {
    if n > 0 { IdsAre(rows, n - 1); }
  }

  ghost predicate AddsPackages(t: Tables, u: Tables, rows: seq<Row>, n: nat)
    requires n <= |rows|
  {
    && (forall p :: p in t.packages ==> p in u.packages && u.packages[p] == t.packages[p])
    && (forall i {:trigger rows[i]} :: 0 <= i < n ==>
          rows[i].packageId in u.packages
          && (rows[i].packageId !in t.packages ==> u.packages[rows[i].packageId] == Package(rows[i].title, false)))
    && u.packages.Keys == t.packages.Keys + PackageIds(rows, n)
  }

  ghost predicate AddsCases(t: Tables, u: Tables, rows: seq<Row>, n: nat)
    requires n <= |rows|
  {
    && (forall c :: c in t.cases ==> c in u.cases && u.cases[c] == t.cases[c])
    && (forall c :: c in t.profiles && c in t.cases ==> c in u.profiles && u.profiles[c] == t.profiles[c])
    && (forall i {:trigger rows[i]} :: 0 <= i < n ==>
          && rows[i].caseId in u.cases && u.cases[rows[i].caseId] == NewCase(rows[i])
          && rows[i].caseId in u.profiles && u.profiles[rows[i].caseId] == NewProfile(rows[i]))
    && u.cases.Keys == t.cases.Keys + CaseIds(rows, n)
  }

  /** The loop's own bookkeeping. */
  ghost predicate Tracks(t: Tables, w: Writing, rows: seq<Row>, n: nat)
    requires n <= |rows|
  {
    && (forall p :: p in w.packages <==> p in w.tables.packages && p !in t.packages)
    && Created(t.rules, w.tables.rules, w.rules)
  }

  ghost predicate Created(before: seq<Rule>, rules: seq<Rule>, created: set<string>) {
    forall r :: r in created <==> exists j :: |before| <= j < |rules| && rules[j].ruleId == r
  }

  ghost predicate Written(t: Tables, w: Writing, rows: seq<Row>, n: nat)
    requires n <= |rows|
  {
    && AddsRules(t.rules, w.tables.rules, rows, n) && AddsPackages(t, w.tables, rows, n)
    && AddsCases(t, w.tables, rows, n) && Tracks(t, w, rows, n)
  }

  /** One turn of the loop, table by table. */
  lemma WriteRowTurns(t: Tables, v: Writing, r: Row, w: Writing)
    requires WriteRow(t, v, r) == Ok(w)
    ensures Turn(t, v, w, r)
  {
  }

  ghost predicate CasesTurn(v: Writing, w: Writing, r: Row) {
    w.tables.cases == v.tables.cases[r.caseId := NewCase(r)]
        && w.tables.profiles == v.tables.profiles[r.caseId := NewProfile(r)]
  }

  ghost predicate PackagesTurn(t: Tables, v: Writing, w: Writing, r: Row) {
    if r.packageId in t.packages || r.packageId in v.packages then
      w.tables.packages == v.tables.packages && w.packages == v.packages
    else
      w.tables.packages == v.tables.packages[r.packageId := Package(r.title, false)]
          && w.packages == v.packages + {r.packageId}
  }

  ghost predicate Turn(t: Tables, v: Writing, w: Writing, r: Row) {
    CasesTurn(v, w, r) && PackagesTurn(t, v, w, r) && RulesTurn(t.rules, v, w, r)
  }

  ghost predicate Kept(t: Tables, rows: seq<Row>, inv: (Writing, nat) -> bool) {
    forall v, w, k: nat {:trigger Turn(t, v, w, rows[k])} ::
      0 <= k < |rows| && inv(v, k) && Turn(t, v, w, rows[k]) ==> inv(w, k + 1)
  }

  /** What every turn keeps holds when the loop ends. */
  lemma {:induction false} LoopKeeps(t: Tables, rows: seq<Row>, n: nat, w: Writing, inv: (Writing, nat) -> bool)
    requires n <= |rows| && WriteRows(t, rows, n) == Ok(w)
    requires inv(Writing(t, {}, {}), 0) && Kept(t, rows, inv)
    ensures inv(w, n)
  {
    if n > 0 {
      var v := WriteRows(t, rows, n - 1).value;
      LoopKeeps(t, rows, n - 1, v, inv);
      WriteRowTurns(t, v, rows[n - 1], w);
    }
  }

  lemma WrittenIs(t: Tables, rows: seq<Row>, w: Writing)
    requires Coherent(rows) && Absent(t, rows) && WriteRows(t, rows, |rows|) == Ok(w)
    ensures Written(t, w, rows, |rows|)
  {
    var inv := (v: Writing, k: nat) => k <= |rows| && Written(t, v, rows, k);
    RowsKeep(t, rows, inv);
    LoopKeeps(t, rows, |rows|, w, inv);
  }

  lemma RowsKeep(t: Tables, rows: seq<Row>, inv: (Writing, nat) -> bool)
    requires Coherent(rows) && Absent(t, rows)
    requires forall v, k: nat :: inv(v, k) <==> k <= |rows| && Written(t, v, rows, k)
    ensures inv(Writing(t, {}, {}), 0) && Kept(t, rows, inv)
  {
    forall v, w, k: nat | 0 <= k < |rows| && inv(v, k) && Turn(t, v, w, rows[k]) ensures inv(w, k + 1) {
      RowAdds(t, v, rows, k, w);
    }
  }

  lemma RowAdds(t: Tables, v: Writing, rows: seq<Row>, n: nat, w: Writing)
    requires n < |rows| && Coherent(rows) && Absent(t, rows)
    requires Turn(t, v, w, rows[n]) && Written(t, v, rows, n)
    ensures Written(t, w, rows, n + 1)
  {
    WriteRowRules(t.rules, v, rows, n, w);
    WriteRowPackages(t, v, rows, n, w);
    WriteRowCases(t, v, rows, n, w);
  }

  lemma WriteRowCases(t: Tables, v: Writing, rows: seq<Row>, n: nat, w: Writing)
    requires n < |rows| && Coherent(rows) && Absent(t, rows) && CasesTurn(v, w, rows[n])
    requires AddsCases(t, v.tables, rows, n)
    ensures AddsCases(t, w.tables, rows, n + 1)
  {
    forall i | 0 <= i < n ensures rows[i].caseId != rows[n].caseId { assert Agree(rows[i], rows[n]); }
  }

  lemma WriteRowPackages(t: Tables, v: Writing, rows: seq<Row>, n: nat, w: Writing)
    requires n < |rows| && Coherent(rows) && PackagesTurn(t, v, w, rows[n])
    requires AddsPackages(t, v.tables, rows, n)
    requires forall p :: p in v.packages <==> p in v.tables.packages && p !in t.packages
    ensures AddsPackages(t, w.tables, rows, n + 1)
    ensures forall p :: p in w.packages <==> p in w.tables.packages && p !in t.packages
  {
    forall i | 0 <= i < n && rows[i].packageId == rows[n].packageId ensures rows[i].title == rows[n].title {
      assert Agree(rows[i], rows[n]);
    }
    if rows[n].packageId in t.packages || rows[n].packageId in v.packages {
      PackageThere(t, v.tables, rows, n);
    }
  }

  /** A package that is present, from before or from this batch, serves the row. */
  lemma PackageThere(t: Tables, u: Tables, rows: seq<Row>, n: nat)
    requires n < |rows| && Coherent(rows) && AddsPackages(t, u, rows, n) && rows[n].packageId in u.packages
    ensures AddsPackages(t, u, rows, n + 1)
  {
    IdsAre(rows, n);
    if rows[n].packageId !in t.packages {
      assert rows[n].packageId in PackageIds(rows, n);
      var i :| 0 <= i < n && rows[i].packageId == rows[n].packageId;
      assert Agree(rows[i], rows[n]);
    }
  }

  /** What the loop does to the rules: a first version for a rule without any, once. */
  ghost predicate RulesTurn(before: seq<Rule>, v: Writing, w: Writing, r: Row) {
    if Versioned(before, r.ruleId) || r.ruleId in v.rules then
      w.tables.rules == v.tables.rules && w.rules == v.rules && (Versioned(before, r.ruleId) ==> HasMatch(before, r))
    else
      w.tables.rules == v.tables.rules + [Rule(r.ruleId, 1, r.packageId, r.rate, true)]
          && w.rules == v.rules + {r.ruleId}
  }

  lemma WriteRowRules(before: seq<Rule>, v: Writing, rows: seq<Row>, n: nat, w: Writing)
    requires n < |rows| && Coherent(rows) && RulesTurn(before, v, w, rows[n])
    requires AddsRules(before, v.tables.rules, rows, n) && Created(before, v.tables.rules, v.rules)
    ensures AddsRules(before, w.tables.rules, rows, n + 1) && Created(before, w.tables.rules, w.rules)
  {
    var r := rows[n];
    if Versioned(before, r.ruleId) {
      HasMatchGrows(before, v.tables.rules, r);
      AddsNone(before, v.tables.rules, rows, n);
    } else if r.ruleId in v.rules {
      assert exists j :: |before| <= j < |v.tables.rules| && v.tables.rules[j].ruleId == r.ruleId;
      RuleThere(before, v.tables.rules, rows, n);
      AddsNone(before, v.tables.rules, rows, n);
    } else {
      assert forall j :: |before| <= j < |v.tables.rules| ==> v.tables.rules[j].ruleId != r.ruleId;
      RulePushed(before, v.tables.rules, rows, n);
      CreatedPush(before, v.tables.rules, v.rules, Rule(r.ruleId, 1, r.packageId, r.rate, true));
    }
  }

  lemma HasMatchGrows(before: seq<Rule>, rules: seq<Rule>, r: Row)
    requires HasMatch(before, r) && Longer(before, rules)
    ensures HasMatch(rules, r)
  {
    var i :| 0 <= i < |before| && MatchingRule(before[i], r);
    assert MatchingRule(rules[i], r);
  }

  lemma AddsNone(before: seq<Rule>, rules: seq<Rule>, rows: seq<Row>, n: nat)
    requires n < |rows| && AddsRules(before, rules, rows, n) && HasMatch(rules, rows[n])
    ensures AddsRules(before, rules, rows, n + 1)
  {
    forall j | |before| <= j < |rules| ensures AddedFor(before, rules[j], rows, n + 1) {
      assert AddedFor(before, rules[j], rows, n);
    }
  }

  lemma CreatedPush(before: seq<Rule>, rules: seq<Rule>, created: set<string>, rule: Rule)
    requires Created(before, rules, created) && |before| <= |rules|
    ensures Created(before, rules + [rule], created + {rule.ruleId})
  {
    var after := rules + [rule];
    assert after[|rules|] == rule;
    assert forall j :: 0 <= j < |rules| ==> after[j] == rules[j];
  }

  lemma RulePushed(before: seq<Rule>, rules: seq<Rule>, rows: seq<Row>, n: nat)
    requires n < |rows| && AddsRules(before, rules, rows, n) && !Versioned(before, rows[n].ruleId)
    requires forall j :: |before| <= j < |rules| ==> rules[j].ruleId != rows[n].ruleId
    ensures AddsRules(before, rules + [Rule(rows[n].ruleId, 1, rows[n].packageId, rows[n].rate, true)], rows, n + 1)
  {
    var after := rules + [Rule(rows[n].ruleId, 1, rows[n].packageId, rows[n].rate, true)];
    assert MatchingRule(after[|rules|], rows[n]);
    assert FirstVersion(after[|rules|], rows[n]);
    forall i | 0 <= i < n ensures HasMatch(after, rows[i]) { HasMatchGrows(rules, after, rows[i]); }
  }

  /** A rule this batch created earlier serves its later rows. */
  lemma RuleThere(before: seq<Rule>, rules: seq<Rule>, rows: seq<Row>, n: nat)
    requires n < |rows| && Coherent(rows) && AddsRules(before, rules, rows, n)
    requires exists j :: |before| <= j < |rules| && rules[j].ruleId == rows[n].ruleId
    ensures HasMatch(rules, rows[n])
  {
    var j :| |before| <= j < |rules| && rules[j].ruleId == rows[n].ruleId;
    assert AddedFor(before, rules[j], rows, n);
    var i :| 0 <= i < n && FirstVersion(rules[j], rows[i]);
    assert Agree(rows[i], rows[n]);
    assert MatchingRule(rules[j], rows[n]);
  }

  // ---------------------------------------------------------------- batches of a run

  /** What a batch promises for as long as it exists. */
  ghost predicate BatchWell(b: Batch) {
    && Coherent(b.rows) && b.valid == |b.rows| && b.valid + b.invalid + b.duplicates == b.rowCount
    && (b.status == Committed ==> b.committedBy.Some? && b.committedBy.value != b.createdBy)
    && (b.status == Blocked ==> b.committedBy.None?) && (b.status == Ready ==> b.committedBy.None?)
    && b.version == (if b.status == Committed then 2 else 1)
  }

  ghost predicate BatchesWell(s: State) {
    && (forall i {:trigger s.batches[i]} :: 0 <= i < |s.batches| ==> BatchWell(s.batches[i]))
    && (forall i, j :: 0 <= i < j < |s.batches| ==> s.batches[i].key != s.batches[j].key)
  }

  lemma {:induction false} FindKeyFinds(batches: seq<Batch>, key: string)
    ensures var id := FindKey(batches, key);
      && (id.Some? ==> id.value < |batches| && batches[id.value].key == key)
      && (id.None? ==> forall i :: 0 <= i < |batches| ==> batches[i].key != key)
  {
    if batches != [] {
      FindKeyFinds(batches[..|batches| - 1], key);
    }
  }

  lemma FreshBatchWell(t: Tables, actor: string, key: string, text: string, today: int, lib: Lib)
    ensures BatchWell(BatchOf(t, actor, key, text, today, lib))
  {
    AcceptedRowsAreSound(t, actor, key, text, today, lib);
    RowsAccountedFor(t, actor, key, text, today, lib);
  }

  lemma StepKeepsBatches(s: State, a: Action, lib: Lib)
    requires BatchesWell(s)
    ensures BatchesWell(Step(s, a, lib))
  {
    if a.Preview? {
      FindKeyFinds(s.batches, a.key);
      FreshBatchWell(s.tables, a.actor, a.key, a.text, a.today, lib);
    }
  }

  lemma {:induction false} RunKeepsBatches(t: Tables, actions: seq<Action>, lib: Lib)
    ensures BatchesWell(Run(t, actions, lib))
  {
    if actions != [] {
      RunKeepsBatches(t, actions[..|actions| - 1], lib);
      StepKeepsBatches(Run(t, actions[..|actions| - 1], lib), actions[|actions| - 1], lib);
    }
  }

  // ---------------------------------------------------------------- when a commit succeeds

  /** No row's case exists and every row fits: the state of the tables a commit needs. */
  ghost predicate Committable(t: Tables, rows: seq<Row>) {
    Absent(t, rows) && AllFit(t, rows, |rows|)
  }

  /** A commit succeeds exactly when a second person confirms the current version of a ready batch
      whose rows the tables still take; otherwise nothing changes. */
  lemma CommitsIff(s: State, actor: string, id: nat, expected: nat, note: string)
    ensures var (n, outcome) := CommitStep(s, actor, id, expected, note);
      && (outcome == Done(id) <==>
            && id < |s.batches| && s.batches[id].status == Ready && s.batches[id].version == expected
            && s.batches[id].createdBy != actor && Committable(s.tables, s.batches[id].rows))
      && (outcome != Done(id) ==> n == s)
      && (outcome == Done(id) ==> n.batches[id].status == Committed && n.batches[id].committedBy == Some(actor))
  {
    if id < |s.batches| {
      WrittenIff(s.tables, s.batches[id].rows, |s.batches[id].rows|);
    }
  }

  /** A successful commit adds exactly the batch's rows, each with its profile and a matching active
      rule, one first version per new rule and one draft package per new package, and leaves every
      row of every table as it was. */
  lemma CommitAddsExactlyItsRows(s: State, actor: string, id: nat, expected: nat, note: string)
    requires BatchesWell(s) && CommitStep(s, actor, id, expected, note).1 == Done(id)
    ensures id < |s.batches|
    ensures var u, rows := CommitStep(s, actor, id, expected, note).0.tables, s.batches[id].rows;
      AddsRules(s.tables.rules, u.rules, rows, |rows|) && AddsPackages(s.tables, u, rows, |rows|)
          && AddsCases(s.tables, u, rows, |rows|)
  {
    var rows := s.batches[id].rows;
    WrittenIs(s.tables, rows, WriteRows(s.tables, rows, |rows|).value);
  }

  // ---------------------------------------------------------------- staleness

  /** Two rows of different batches can both be added to tables that take each of them. */
  predicate Together(t: Tables, a: Row, b: Row) {
    && a.caseId != b.caseId
    && (a.packageId == b.packageId && a.packageId !in t.packages ==> a.title == b.title)
    && (a.ruleId == b.ruleId && !Versioned(t.rules, a.ruleId) ==> a.packageId == b.packageId && a.rate == b.rate)
  }

  lemma StillFits(t: Tables, u: Tables, rows: seq<Row>, a: Row)
    requires AddsRules(t.rules, u.rules, rows, |rows|) && AddsPackages(t, u, rows, |rows|)
        && AddsCases(t, u, rows, |rows|)
    requires Fits(t, a) && a.caseId !in t.cases
    requires forall i :: 0 <= i < |rows| ==> Together(t, a, rows[i])
    ensures Fits(u, a) && a.caseId !in u.cases
  {
    PackageStillFits(t, u, rows, a);
    CaseStillAbsent(t, u, rows, a);
    if Versioned(t.rules, a.ruleId) {
      HasMatchGrows(t.rules, u.rules, a);
    } else if Versioned(u.rules, a.ruleId) {
      NewRuleFits(t, u.rules, rows, a);
    }
  }

  lemma PackageStillFits(t: Tables, u: Tables, rows: seq<Row>, a: Row)
    requires AddsPackages(t, u, rows, |rows|) && forall i :: 0 <= i < |rows| ==> Together(t, a, rows[i])
    requires a.packageId in t.packages ==> t.packages[a.packageId].title == a.title
    ensures a.packageId in u.packages ==> u.packages[a.packageId].title == a.title
  {
    IdsAre(rows, |rows|);
    if a.packageId in u.packages && a.packageId !in t.packages {
      assert a.packageId in PackageIds(rows, |rows|);
      var i :| 0 <= i < |rows| && rows[i].packageId == a.packageId;
      assert Together(t, a, rows[i]);
    }
  }

  lemma CaseStillAbsent(t: Tables, u: Tables, rows: seq<Row>, a: Row)
    requires AddsCases(t, u, rows, |rows|) && forall i :: 0 <= i < |rows| ==> Together(t, a, rows[i])
    requires a.caseId !in t.cases
    ensures a.caseId !in u.cases
  {
    IdsAre(rows, |rows|);
  }

  lemma NewRuleFits(t: Tables, rules: seq<Rule>, rows: seq<Row>, a: Row)
    requires AddsRules(t.rules, rules, rows, |rows|) && !Versioned(t.rules, a.ruleId) && Versioned(rules, a.ruleId)
    requires forall i :: 0 <= i < |rows| ==> Together(t, a, rows[i])
    ensures HasMatch(rules, a)
  {
    var j :| 0 <= j < |rules| && rules[j].ruleId == a.ruleId;
    Appended(t.rules, rules, a.ruleId, j);
    assert AddedFor(t.rules, rules[j], rows, |rows|);
    var i :| 0 <= i < |rows| && FirstVersion(rules[j], rows[i]);
    assert Together(t, a, rows[i]);
    assert MatchingRule(rules[j], a);
  }

  lemma FitsBefore(t: Tables, u: Tables, rows: seq<Row>, a: Row, i: nat)
    requires AddsRules(t.rules, u.rules, rows, |rows|) && AddsPackages(t, u, rows, |rows|)
        && AddsCases(t, u, rows, |rows|)
    requires Coherent(rows) && i < |rows| && Fits(u, a) && a.caseId !in u.cases
    ensures Together(t, a, rows[i])
  {
    if a.ruleId == rows[i].ruleId && !Versioned(t.rules, a.ruleId) {
      OnlyMatch(t, u, rows, a, i);
    }
  }

  lemma OnlyMatch(t: Tables, u: Tables, rows: seq<Row>, a: Row, i: nat)
    requires AddsRules(t.rules, u.rules, rows, |rows|) && Coherent(rows) && i < |rows| && Fits(u, a)
    requires a.ruleId == rows[i].ruleId && !Versioned(t.rules, a.ruleId)
    ensures a.packageId == rows[i].packageId && a.rate == rows[i].rate
  {
    assert HasMatch(u.rules, rows[i]);
    var k :| 0 <= k < |u.rules| && MatchingRule(u.rules[k], rows[i]);
    assert Versioned(u.rules, a.ruleId);
    var j :| 0 <= j < |u.rules| && MatchingRule(u.rules[j], a);
    Appended(t.rules, u.rules, a.ruleId, j);
    Appended(t.rules, u.rules, a.ruleId, k);
    assert j == k;
  }

  lemma Appended(before: seq<Rule>, rules: seq<Rule>, id: string, j: nat)
    requires j < |rules| && Longer(before, rules) && rules[j].ruleId == id && !Versioned(before, id)
    ensures j >= |before|
  {
  }

  /** A batch the tables take is still taken after another batch commits exactly when the two share
      no case, and share a package or rule new to the tables only on the same title, or the same
      package and rate. */
  lemma StillCommittableIff(s: State, actor: string, id: nat, expected: nat, note: string, other: seq<Row>)
    requires BatchesWell(s) && Committable(s.tables, other)
    requires CommitStep(s, actor, id, expected, note).1 == Done(id)
    ensures id < |s.batches|
    ensures Committable(CommitStep(s, actor, id, expected, note).0.tables, other)
      <==> forall i, j :: 0 <= i < |other| && 0 <= j < |s.batches[id].rows| ==>
          Together(s.tables, other[i], s.batches[id].rows[j])
  {
    CommitAddsExactlyItsRows(s, actor, id, expected, note);
    var u, rows := CommitStep(s, actor, id, expected, note).0.tables, s.batches[id].rows;
    if Committable(u, other) {
      forall i, j | 0 <= i < |other| && 0 <= j < |rows| ensures Together(s.tables, other[i], rows[j]) {
        FitsBefore(s.tables, u, rows, other[i], j);
      }
    }
    if forall i, j :: 0 <= i < |other| && 0 <= j < |rows| ==> Together(s.tables, other[i], rows[j]) {
      forall i | 0 <= i < |other| ensures Fits(u, other[i]) && other[i].caseId !in u.cases {
        StillFits(s.tables, u, rows, other[i]);
      }
    }
  }

  /** The preview predicts the commit: on the tables it was made against, a ready batch commits for
      any second person. */
  lemma PreviewPredictsCommit(s: State, actor: string, key: string, text: string, today: int, lib: Lib,
                              second: string, note: string)
    requires FindKey(s.batches, key).None?
    ensures var (n, outcome) := PreviewStep(s, actor, key, text, today, lib);
      && outcome == Done(|s.batches|)
      && ((CommitStep(n, second, |s.batches|, 1, note).1 == Done(|s.batches|)) <==>
            n.batches[|s.batches|].status == Ready && second != actor)
  {
    var n := PreviewStep(s, actor, key, text, today, lib).0;
    AcceptedRowsAreSound(s.tables, actor, key, text, today, lib);
    CommitsIff(n, second, |s.batches|, 1, note);
  }

  // ---------------------------------------------------------------- runs of previews and commits

  /** The action is a preview, or a commit of a batch other than `id` that agrees with `rows`. */
  ghost predicate Harmless(s: State, a: Action, id: nat, rows: seq<Row>) {
    match a
    case Preview(_, _, _, _) => true
    case Commit(_, other, _, _) =>
      other != id && (other < |s.batches| ==>
        forall i, j :: 0 <= i < |rows| && 0 <= j < |s.batches[other].rows| ==> Agree(rows[i], s.batches[other].rows[j]))
    case Elsewhere(_) => false
  }

  ghost predicate AllHarmless(s: State, actions: seq<Action>, id: nat, rows: seq<Row>, lib: Lib)
    decreases |actions|
  {
    actions != [] ==>
      Harmless(s, actions[0], id, rows) && AllHarmless(Step(s, actions[0], lib), actions[1..], id, rows, lib)
  }

  function RunFrom(s: State, actions: seq<Action>, lib: Lib): State
    decreases |actions|
  {
    if actions == [] then s else RunFrom(Step(s, actions[0], lib), actions[1..], lib)
  }

  lemma HarmlessStep(s: State, a: Action, id: nat, lib: Lib)
    requires BatchesWell(s) && id < |s.batches| && Committable(s.tables, s.batches[id].rows)
    requires Harmless(s, a, id, s.batches[id].rows)
    ensures var n := Step(s, a, lib);
      id < |n.batches| && n.batches[id] == s.batches[id] && Committable(n.tables, n.batches[id].rows)
  {
    if a.Commit? {
      CommitsIff(s, a.actor, a.id, a.expected, a.note);
      if CommitStep(s, a.actor, a.id, a.expected, a.note).1 == Done(a.id) {
        var rows, others := s.batches[id].rows, s.batches[a.id].rows;
        forall i, j | 0 <= i < |rows| && 0 <= j < |others| ensures Together(s.tables, rows[i], others[j]) {
          assert Agree(rows[i], others[j]);
        }
        StillCommittableIff(s, a.actor, a.id, a.expected, a.note, rows);
      }
    }
  }

  /** A ready batch stays committable through any previews and any commits of batches that share no
      case with it and name no package or rule differently. */
  lemma {:induction false} ReadyStaysCommittable(s: State, actions: seq<Action>, id: nat, lib: Lib, second: string,
                                                 note: string)
    requires BatchesWell(s) && id < |s.batches| && s.batches[id].status == Ready && s.batches[id].createdBy != second
    requires Committable(s.tables, s.batches[id].rows) && AllHarmless(s, actions, id, s.batches[id].rows, lib)
    ensures CommitStep(RunFrom(s, actions, lib), second, id, 1, note).1 == Done(id)
    decreases |actions|
  {
    if actions == [] {
      CommitsIff(s, second, id, 1, note);
    } else {
      HarmlessStep(s, actions[0], id, lib);
      StepKeepsBatches(s, actions[0], lib);
      ReadyStaysCommittable(Step(s, actions[0], lib), actions[1..], id, lib, second, note);
    }
  }
}
