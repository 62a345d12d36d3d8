/** The import endpoints over tables that are updated in place. */
module ImportDesk {
  import opened Registry
  import opened ImportModel
  import opened ImportReading
  import opened ImportCommit

  /** One row against what the rows before claimed, and its own claims. */
  method ClaimRow(cases: set<string>, titles: map<string, string>, rules: map<string, (string, int)>,
                  row: map<string, string>, parsed: Parsed, ghost before: Reading)
    returns (cases': set<string>, titles': map<string, string>, rules': map<string, (string, int)>, clash: seq<string>)
    requires before.cases == cases && before.titles == titles && before.rules == rules
    ensures clash == ClashIssues(before, row, parsed)
    ensures Claim(before, row, parsed) == before.(cases := cases', titles := titles', rules := rules')
  {
    cases', titles', rules', clash := cases, titles, rules, [];
    var caseId, packageId, title, ruleId :=
      Get(row, "case_id"), Get(row, "package_id"), Get(row, "package_title"), Get(row, "commission_rule_id");
    if caseId in cases' { clash := clash + ["DUPLICATE_IN_FILE"]; }
    cases' := cases' + {caseId};
    if packageId !in titles' { titles' := titles'[packageId := title]; }
    if titles'[packageId] != title { clash := clash + ["PACKAGE_TITLE_CONFLICT"]; }
    if parsed.rate.Ok? {
      if ruleId !in rules' { rules' := rules'[ruleId := (packageId, parsed.rate.value)]; }
      if rules'[ruleId] != (packageId, parsed.rate.value) { clash := clash + ["COMMISSION_RULE_CONFLICT"]; }
    }
  }

  /** The row loop of `_parse_csv`, with what earlier rows claimed kept in three collections. */
  method ReadAll(headers: seq<string>, data: seq<seq<string>>, today: int, lib: Lib)
    returns (rows: seq<Row>, issues: seq<Issue>)
    ensures rows == ReadRows(headers, data, |data|, today, lib).rows
    ensures issues == ReadRows(headers, data, |data|, today, lib).issues
  {
    rows, issues := [], [];
    var cases: set<string>, titles: map<string, string>, rules: map<string, (string, int)> := {}, map[], map[];
    for i := 0 to |data|
      invariant ReadRows(headers, data, i, today, lib) == Reading(rows, issues, cases, titles, rules)
    {
      ghost var before := Reading(rows, issues, cases, titles, rules);
      var number, cells := i + 2, data[i];
      if |cells| != |headers| {
        issues := issues + RowIssues(number, ["COLUMN_COUNT_MISMATCH"]);
      } else {
        var row := Fields(headers, cells);
        var parsed := ParseCells(row, lib);
        var found := TextIssues(row) + ValueIssues(parsed, today)
          + Code(Status(row) !in STATUSES, "UNSAFE_INITIAL_STATUS");
        var clash;
        cases, titles, rules, clash := ClaimRow(cases, titles, rules, row, parsed, before);
        assert found + clash == Codes(before, row, parsed, today);
        if found + clash != [] {
          issues := issues + RowIssues(number, found + clash);
        } else {
          NoCodes(before, row, parsed, today);
          rows := rows + [RowOf(number, row, parsed)];
        }
      }
    }
  }

  /** `_parse_csv` after tokenising. */
  method ReadFile(text: string, today: int, lib: Lib) returns (rows: seq<Row>, issues: seq<Issue>, count: nat)
    ensures (rows, issues, count) == ParseFile(text, today, lib)
  {
    var cells := lib.cells(text);
    if cells.None? { return [], Global(true, "MALFORMED_CSV"), 0; }
    var records := NonBlank(cells.value);
    if records == [] { return [], Global(true, "EMPTY_FILE"), 0; }
    var headers, data := Headers(records[0]), records[1..];
    issues := HeaderIssues(headers, |data|, lib);
    if issues != [] { return [], issues, |data|; }
    rows, issues := ReadAll(headers, data, today, lib);
    return rows, issues, |data|;
  }

  method Screen(t: Tables, rows: seq<Row>, found: seq<Issue>)
    returns (accepted: seq<Row>, issues: seq<Issue>, duplicates: nat)
    ensures Screened(accepted, issues, duplicates) == ScreenRows(t, rows, found)
  {
    accepted, issues, duplicates := [], found, 0;
    for i := 0 to |rows|
      invariant Screened(accepted, issues, duplicates) == ScreenRows(t, rows[..i], found)
    {
      var r := rows[i];
      assert rows[..i + 1][..i] == rows[..i];
      if r.caseId in t.cases {
        duplicates := duplicates + 1;
        issues := issues + [Issue(Some(r.number), false, "EXISTING_CASE_SKIPPED")];
        continue;
      }
      if r.packageId in t.packages && t.packages[r.packageId].title != r.title {
        issues := issues + [Issue(Some(r.number), true, "EXISTING_PACKAGE_CONFLICT")];
        continue;
      }
      if Versioned(t.rules, r.ruleId) && !HasMatch(t.rules, r) {
        issues := issues + [Issue(Some(r.number), true, "EXISTING_COMMISSION_RULE_CONFLICT")];
        continue;
      }
      accepted := accepted + [r];
    }
    assert rows[..|rows|] == rows;
  }

  /** The batch a new file makes. */
  method NewBatch(t: Tables, actor: string, key: string, text: string, today: int, lib: Lib) returns (batch: Batch)
    ensures batch == BatchOf(t, actor, key, text, today, lib)
  {
    var rows, found, count := ReadFile(text, today, lib);
    var accepted, issues, duplicates := Screen(t, rows, found);
    var invalid, global := InvalidRows(issues), GlobalError(issues);
    var status := if global || invalid != {} || accepted == [] then Blocked else Ready;
    batch := Batch(key, text, status, 1, count, |accepted|,
                   if invalid != {} then |invalid| else if global then count else 0, duplicates,
                   |set i | 0 <= i < |accepted| :: accepted[i].packageId|, Balance(accepted), accepted, issues,
                   actor, None, None);
  }

  class ImportDesk {
    var packages: map<string, Package>
    var rules: seq<Rule>
    var cases: map<string, CaseRecord>
    var profiles: map<string, Profile>
    var batches: seq<Batch>

    function TablesNow(): Tables
      reads this
    {
      Tables(packages, rules, cases, profiles)
    }

    function Snapshot(): State
      reads this
    {
      State(TablesNow(), batches)
    }

    constructor (t: Tables)
      ensures Snapshot() == State(t, [])
    {
      packages, rules, cases, profiles, batches := t.packages, t.rules, t.cases, t.profiles, [];
    }

    /** `create_import_preview` */
    method Preview(actor: string, key: string, text: string, today: int, lib: Lib) returns (outcome: Outcome)
      modifies this`batches
      ensures (Snapshot(), outcome) == PreviewStep(old(Snapshot()), actor, key, text, today, lib)
    {
      var existing := FindKey(batches, key);
      if existing.Some? {
        FindKeyFinds(batches, key);
        return if batches[existing.value].text == text then Replayed(existing.value) else Denied(IdempotencyConflict);
      }
      var batch := NewBatch(TablesNow(), actor, key, text, today, lib);
      batches := batches + [batch];
      return Done(|batches| - 1);
    }

    /** `commit_import_batch`: a refusal on the way rolls every insertion back. */
    method Commit(actor: string, id: nat, expected: nat, note: string) returns (outcome: Outcome)
      modifies this
      ensures (Snapshot(), outcome) == CommitStep(old(Snapshot()), actor, id, expected, note)
    {
      if id >= |batches| { return Denied(BatchNotFound); }
      var b := batches[id];
      if b.status == Committed { return Replayed(id); }
      if b.status != Ready { return Denied(BatchBlocked); }
      if b.version != expected { return Denied(StaleBatch); }
      if b.createdBy == actor { return Denied(SelfApproval); }
      var t := TablesNow();
      if !Absent(t, b.rows) { return Denied(StaleCase); }
      var failure := Insert(b.rows);
      if failure.Some? {
        packages, rules, cases, profiles := t.packages, t.rules, t.cases, t.profiles;
        return Denied(failure.value);
      }
      batches := batches[id := b.(status := Committed, version := b.version + 1,
                                  committedBy := Some(actor), note := Some(note))];
      return Done(id);
    }

    /** The insertion loop; what it looks existing packages and rules up in was read before it. */
    method Insert(rows: seq<Row>) returns (failure: Option<Error>)
      modifies this`packages, this`rules, this`cases, this`profiles
      ensures match WriteRows(old(TablesNow()), rows, |rows|)
        case Ok(w) => failure.None? && TablesNow() == w.tables
        case Err(e) => failure == Some(e)
    {
      var t := TablesNow();
      var createdPackages: set<string>, createdRules: set<string> := {}, {};
      for i := 0 to |rows|
        invariant WriteRows(t, rows, i) == Ok(Writing(TablesNow(), createdPackages, createdRules))
      {
        var r := rows[i];
        if r.packageId in t.packages && t.packages[r.packageId].title != r.title {
          WriteStops(t, rows, i + 1);
          return Some(StalePackage);
        }
        if r.packageId !in t.packages && r.packageId !in createdPackages {
          packages := packages[r.packageId := Package(r.title, false)];
          createdPackages := createdPackages + {r.packageId};
        }
        if Versioned(t.rules, r.ruleId) && !HasMatch(t.rules, r) {
          WriteStops(t, rows, i + 1);
          return Some(StaleRule);
        }
        if !Versioned(t.rules, r.ruleId) && r.ruleId !in createdRules {
          rules := rules + [Rule(r.ruleId, 1, r.packageId, r.rate, true)];
          createdRules := createdRules + {r.ruleId};
        }
        cases := cases[r.caseId := NewCase(r)];
        profiles := profiles[r.caseId := NewProfile(r)];
      }
      return None;
    }
  }

  /** A refused row refuses the batch. */
  lemma {:induction false} WriteStops(t: Tables, rows: seq<Row>, n: nat)
    requires n <= |rows| && WriteRows(t, rows, n).Err?
    ensures WriteRows(t, rows, |rows|) == WriteRows(t, rows, n)
    decreases |rows| - n
  {
    if n < |rows| { WriteStops(t, rows, n + 1); }
  }
}
