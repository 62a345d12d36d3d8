/** What a previewed batch says about its file: every row accounted for, every accepted row sound. */
module ImportReading {
  import opened Registry
  import opened Strings
  import opened ImportModel

  /** An accepted row on its own. */
  ghost predicate Sound(r: Row, today: int) {
    && Identifier(r.packageId, 40) && Identifier(r.caseId, 40) && Identifier(r.ruleId, 80)
    && Title(r.title) && Reference(r.contact) && r.status in STATUSES
    && 1 <= r.balance <= MAX_CENTS && 1 <= r.rate
    && r.mandateStart <= r.mandateEnd && today <= r.mandateEnd
    && (r.principal.Some? && r.interest.Some? && r.fee.Some? ==>
          r.principal.value + r.interest.value + r.fee.value == r.balance)
    && (r.principal.Some? ==> 0 <= r.principal.value) && (r.interest.Some? ==> 0 <= r.interest.value)
    && (r.fee.Some? ==> 0 <= r.fee.value)
  }

  /** Two accepted rows of one batch. */
  predicate Agree(a: Row, b: Row) {
    && a.caseId != b.caseId
    && (a.packageId == b.packageId ==> a.title == b.title)
    && (a.ruleId == b.ruleId ==> a.packageId == b.packageId && a.rate == b.rate)
  }

  ghost predicate Coherent(rows: seq<Row>) { forall i, j :: 0 <= i < j < |rows| ==> Agree(rows[i], rows[j]) }

  // ---------------------------------------------------------------- one row

  lemma {:induction false} BlanksAre(row: map<string, string>, fields: seq<string>, f: string)
    requires Blanks(row, fields) == [] && f in fields
    ensures Get(row, f) != ""
  {
    assert |Blanks(row, fields)| >= |Blanks(row, fields[1..])|;
    if f != fields[0] {
      assert f in fields[1..];
      BlanksAre(row, fields[1..], f);
    }
  }

  lemma TextIsSound(row: map<string, string>)
    requires TextIssues(row) == []
    ensures Identifier(Get(row, "package_id"), 40) && Identifier(Get(row, "case_id"), 40)
    ensures Identifier(Get(row, "commission_rule_id"), 80)
    ensures Title(Get(row, "package_title")) && Reference(Get(row, "contact_basis_ref"))
  {
    assert |TextIssues(row)| >= |Blanks(row, REQUIRED)|;
    BlanksAre(row, REQUIRED, REQUIRED[0]);
    BlanksAre(row, REQUIRED, REQUIRED[1]);
    BlanksAre(row, REQUIRED, REQUIRED[2]);
    BlanksAre(row, REQUIRED, REQUIRED[6]);
    BlanksAre(row, REQUIRED, REQUIRED[8]);
  }

  /** One turn of the loop that accepts its row. */
  ghost predicate Accepts(s: Reading, n: Reading, number: nat, today: int) {
    && n.issues == s.issues && |n.rows| == |s.rows| + 1 && n.rows == s.rows + [n.rows[|s.rows|]]
    && var r := n.rows[|s.rows|];
    && r.number == number && Sound(r, today)
    && r.caseId !in s.cases
    && n.cases == s.cases + {r.caseId}
    && n.titles == SetDefault(s.titles, r.packageId, r.title) && n.titles[r.packageId] == r.title
    && n.rules == SetDefault(s.rules, r.ruleId, (r.packageId, r.rate as int))
    && n.rules[r.ruleId] == (r.packageId, r.rate as int)
  }

  /** One turn that raises issues under its number instead. */
  ghost predicate Refuses(s: Reading, n: Reading, number: nat) {
    && n.rows == s.rows
    && (exists codes :: codes != [] && n.issues == s.issues + RowIssues(number, codes))
    && s.cases <= n.cases && Extends(s.titles, n.titles) && Extends(s.rules, n.rules)
  }

  ghost predicate Extends<V(!new)>(m: map<string, V>, n: map<string, V>) {
    forall k :: k in m ==> k in n && n[k] == m[k]
  }

  lemma RowIsSound(number: nat, row: map<string, string>, p: Parsed, today: int, lib: Lib)
    requires p == ParseCells(row, lib) && TextIssues(row) == [] && ValueIssues(p, today) == []
        && Status(row) in STATUSES
    ensures Complete(p) && Sound(RowOf(number, row, p), today)
  {
    TextIsSound(row);
    CompleteWithoutIssues(p, today);
  }

  lemma ClashFree(s: Reading, row: map<string, string>, p: Parsed)
    requires ClashIssues(s, row, p) == [] && p.rate.Ok?
    ensures var pid, title, rid := Get(row, "package_id"), Get(row, "package_title"), Get(row, "commission_rule_id");
      && Get(row, "case_id") !in s.cases
      && SetDefault(s.titles, pid, title)[pid] == title
      && SetDefault(s.rules, rid, (pid, p.rate.value))[rid] == (pid, p.rate.value)
  {
  }

  lemma ReadRowTurns(s: Reading, n: Reading, number: nat, headers: seq<string>, cells: seq<string>, today: int,
                     lib: Lib)
    requires n == ReadRow(s, number, headers, cells, today, lib)
    ensures Accepts(s, n, number, today) || Refuses(s, n, number)
  {
    if |cells| != |headers| {
      Refused(s, s, number, ["COLUMN_COUNT_MISMATCH"]);
    } else {
      var row := Fields(headers, cells);
      var p := ParseCells(row, lib);
      if Codes(s, row, p, today) == [] {
        RowPasses(s, number, row, p, today, lib);
      } else {
        Refused(s, Claim(s, row, p), number, Codes(s, row, p, today));
      }
    }
  }

  lemma RowPasses(s: Reading, number: nat, row: map<string, string>, p: Parsed, today: int, lib: Lib)
    requires p == ParseCells(row, lib) && Codes(s, row, p, today) == []
    ensures Complete(p) && Accepts(s, Claim(s, row, p).(rows := s.rows + [RowOf(number, row, p)]), number, today)
  {
    NoCodes(s, row, p, today);
    RowIsSound(number, row, p, today, lib);
    ClashFree(s, row, p);
    Accepted(s, number, row, p, today);
  }

  lemma Refused(s: Reading, claimed: Reading, number: nat, codes: seq<string>)
    requires codes != [] && claimed.rows == s.rows
    requires s.cases <= claimed.cases && Extends(s.titles, claimed.titles) && Extends(s.rules, claimed.rules)
    ensures Refuses(s, claimed.(issues := s.issues + RowIssues(number, codes)), number)
  {
  }

  lemma Accepted(s: Reading, number: nat, row: map<string, string>, p: Parsed, today: int)
    requires Complete(p) && 1 <= p.rate.value <= 10_000 && Sound(RowOf(number, row, p), today)
    requires Get(row, "case_id") !in s.cases
    requires SetDefault(s.titles, Get(row, "package_id"), Get(row, "package_title"))[Get(row, "package_id")]
      == Get(row, "package_title")
    requires SetDefault(s.rules, Get(row, "commission_rule_id"),
                        (Get(row, "package_id"), p.rate.value))[Get(row, "commission_rule_id")]
          == (Get(row, "package_id"), p.rate.value)
    ensures Accepts(s, Claim(s, row, p).(rows := s.rows + [RowOf(number, row, p)]), number, today)
  {
  }

  // ---------------------------------------------------------------- all rows

  /** After `n` rows: the accepted ones are sound and agree, and each row is either accepted or has
      an issue, never both. */
  ghost predicate ReadWell(s: Reading, n: nat, today: int) {
    && (forall i {:trigger s.rows[i]} :: 0 <= i < |s.rows| ==>
          && Sound(s.rows[i], today) && 2 <= s.rows[i].number <= n + 1 && s.rows[i].number !in InvalidRows(s.issues)
          && s.rows[i].caseId in s.cases
          && s.rows[i].packageId in s.titles && s.titles[s.rows[i].packageId] == s.rows[i].title
          && s.rows[i].ruleId in s.rules && s.rules[s.rows[i].ruleId] == (s.rows[i].packageId, s.rows[i].rate as int))
    && Coherent(s.rows)
    && (forall i, j :: 0 <= i < j < |s.rows| ==> s.rows[i].number < s.rows[j].number)
    && (forall k :: k in InvalidRows(s.issues) ==> 2 <= k <= n + 1)
    && |s.rows| + |InvalidRows(s.issues)| == n
    && !GlobalError(s.issues)
  }

  lemma InvalidAppend(a: seq<Issue>, b: seq<Issue>)
    ensures InvalidRows(a + b) == InvalidRows(a) + InvalidRows(b)
    ensures GlobalError(a + b) <==> GlobalError(a) || GlobalError(b)
  {
    var c := a + b;
    assert forall i :: 0 <= i < |a| ==> c[i] == a[i];
    assert forall i :: 0 <= i < |b| ==> c[|a| + i] == b[i];
  }

  lemma InvalidRaised(number: nat, codes: seq<string>)
    requires codes != []
    ensures InvalidRows(RowIssues(number, codes)) == {number} && !GlobalError(RowIssues(number, codes))
  {
    var raised := RowIssues(number, codes);
    assert raised[0].error && raised[0].row.value == number;
  }

  lemma RefusesKeeps(s: Reading, n: Reading, k: nat, today: int)
    requires ReadWell(s, k, today) && Refuses(s, n, k + 2)
    ensures ReadWell(n, k + 1, today)
  {
    assert k + 2 !in InvalidRows(s.issues);
    InvalidGrows(s, n, k + 2);
  }

  lemma InvalidGrows(s: Reading, n: Reading, number: nat)
    requires Refuses(s, n, number)
    ensures InvalidRows(n.issues) == InvalidRows(s.issues) + {number}
    ensures GlobalError(n.issues) <==> GlobalError(s.issues)
  {
    var codes :| codes != [] && n.issues == s.issues + RowIssues(number, codes);
    InvalidAppend(s.issues, RowIssues(number, codes));
    InvalidRaised(number, codes);
  }

  lemma AcceptsKeeps(s: Reading, n: Reading, k: nat, today: int)
    requires ReadWell(s, k, today) && Accepts(s, n, k + 2, today)
    ensures ReadWell(n, k + 1, today)
  {
    var r := n.rows[|s.rows|];
    forall i | 0 <= i < |s.rows| ensures Agree(s.rows[i], r) { }
    CoherentPush(s.rows, r);
  }

  lemma CoherentPush(rows: seq<Row>, r: Row)
    requires Coherent(rows) && forall i :: 0 <= i < |rows| ==> Agree(rows[i], r)
    ensures Coherent(rows + [r])
  {
  }

  lemma TurnKeeps(s: Reading, n: Reading, k: nat, today: int)
    requires ReadWell(s, k, today) && (Accepts(s, n, k + 2, today) || Refuses(s, n, k + 2))
    ensures ReadWell(n, k + 1, today)
  {
    if Accepts(s, n, k + 2, today) {
      AcceptsKeeps(s, n, k, today);
    } else {
      RefusesKeeps(s, n, k, today);
    }
  }

  lemma ReadRowKeeps(s: Reading, n: Reading, k: nat, headers: seq<string>, cells: seq<string>, today: int, lib: Lib)
    requires ReadWell(s, k, today) && n == ReadRow(s, k + 2, headers, cells, today, lib)
    ensures ReadWell(n, k + 1, today)
  {
    ReadRowTurns(s, n, k + 2, headers, cells, today, lib);
    TurnKeeps(s, n, k, today);
  }

  lemma UnreadWell(today: int)
    ensures ReadWell(Unread, 0, today)
  {
    assert InvalidRows([]) == {};
  }

  ghost predicate Next(v: Reading, w: Reading, k: nat, headers: seq<string>, cells: seq<string>, today: int, lib: Lib) {
    w == ReadRow(v, k + 2, headers, cells, today, lib)
  }

  lemma {:induction false} NextRow(headers: seq<string>, records: seq<seq<string>>, k: nat, today: int, lib: Lib)
    requires k < |records|
    ensures Next(ReadRows(headers, records, k, today, lib), ReadRows(headers, records, k + 1, today, lib), k, headers,
                 records[k], today, lib)
  {
  }

  /** What every row keeps holds when the loop ends; `reading(k)` is the reading after `k` rows. */
  lemma {:induction false} LoopKeeps(headers: seq<string>, records: seq<seq<string>>, n: nat, reading: nat -> Reading,
                                     today: int, lib: Lib,
                                     inv: (Reading, nat) -> bool)
    requires n <= |records| && inv(reading(0), 0)
    requires forall k: nat :: k < |records| ==> Next(reading(k), reading(k + 1), k, headers, records[k], today, lib)
    requires forall v, w, k: nat {:trigger Next(v, w, k, headers, records[k], today, lib)} ::
      k < |records| && inv(v, k) && Next(v, w, k, headers, records[k], today, lib) ==> inv(w, k + 1)
    ensures inv(reading(n), n)
  {
    if n > 0 {
      var k := n - 1;
      LoopKeeps(headers, records, k, reading, today, lib, inv);
      assert Next(reading(k), reading(k + 1), k, headers, records[k], today, lib);
    }
  }

  lemma RowsReadWell(headers: seq<string>, records: seq<seq<string>>, n: nat, today: int, lib: Lib)
    requires n <= |records|
    ensures ReadWell(ReadRows(headers, records, n, today, lib), n, today)
  {
    var inv := (v: Reading, k: nat) => ReadWell(v, k, today);
    var reading := (k: nat) => if k <= |records| then ReadRows(headers, records, k, today, lib) else Unread;
    UnreadWell(today);
    forall k: nat | k < |records| ensures Next(reading(k), reading(k + 1), k, headers, records[k], today, lib) {
      NextRow(headers, records, k, today, lib);
    }
    forall v, w, k: nat | k < |records| && inv(v, k) && Next(v, w, k, headers, records[k], today, lib)
        ensures inv(w, k + 1) {
      ReadRowKeeps(v, w, k, headers, records[k], today, lib);
    }
    LoopKeeps(headers, records, n, reading, today, lib, inv);
  }

  // ---------------------------------------------------------------- screening

  ghost predicate Increasing(rows: seq<Row>) { forall i, j :: 0 <= i < j < |rows| ==> rows[i].number < rows[j].number }

  /** Where row `i` of `rows` went. */
  ghost predicate Screens(t: Tables, rows: seq<Row>, s: Screened, found: seq<Issue>) {
    && (forall i {:trigger s.accepted[i]} :: 0 <= i < |s.accepted| ==>
          s.accepted[i] in rows && s.accepted[i].caseId !in t.cases && Fits(t, s.accepted[i]))
    && (forall r :: r in rows ==> r in s.accepted || r.caseId in t.cases || r.number in InvalidRows(s.issues))
    && Coherent(s.accepted)
    && (forall k :: k in InvalidRows(s.issues) ==> k in InvalidRows(found) || exists r :: r in rows && r.number == k)
    && InvalidRows(found) <= InvalidRows(s.issues)
    && |s.accepted| + s.duplicates + |InvalidRows(s.issues)| == |rows| + |InvalidRows(found)|
    && (GlobalError(s.issues) <==> GlobalError(found))
  }

  lemma {:induction false} ScreensRows(t: Tables, rows: seq<Row>, found: seq<Issue>)
    requires Coherent(rows) && Increasing(rows)
    requires forall r :: r in rows ==> r.number !in InvalidRows(found)
    ensures Screens(t, rows, ScreenRows(t, rows, found), found)
  {
    if rows != [] {
      var before, r := rows[..|rows| - 1], rows[|rows| - 1];
      assert rows == before + [r];
      ScreensRows(t, before, found);
      ScreensRow(t, before, ScreenRows(t, before, found), r, found);
    }
  }

  lemma ScreensRow(t: Tables, before: seq<Row>, s: Screened, r: Row, found: seq<Issue>)
    requires Screens(t, before, s, found) && Coherent(before + [r]) && Increasing(before + [r])
    requires r.number !in InvalidRows(found)
    ensures Screens(t, before + [r], ScreenRow(t, s, r), found)
  {
    forall i | 0 <= i < |before| ensures before[i].number < r.number && Agree(before[i], r) {
      assert (before + [r])[i] == before[i] && (before + [r])[|before|] == r;
      assert Agree((before + [r])[i], (before + [r])[|before|]);
    }
    assert r.number !in InvalidRows(s.issues);
    var n := ScreenRow(t, s, r);
    if n.accepted == s.accepted {
      var raised := n.issues[|s.issues|];
      assert n.issues == s.issues + [raised] && [raised][0] == raised;
      Raises(t, before, s, r, found, raised);
    } else {
      Passes(t, before, s, r, found);
    }
  }

  lemma Raises(t: Tables, before: seq<Row>, s: Screened, r: Row, found: seq<Issue>, raised: Issue)
    requires Screens(t, before, s, found) && r.number !in InvalidRows(s.issues)
    requires raised.row == Some(r.number) && (raised.error <==> r.caseId !in t.cases)
    ensures Screens(t, before + [r],
                    s.(issues := s.issues + [raised],
                       duplicates := s.duplicates + if raised.error then 0 else 1), found)
  {
    InvalidAppend(s.issues, [raised]);
    assert [raised][0] == raised;
    assert InvalidRows([raised]) == if raised.error then {r.number} else {};
    assert r in before + [r];
  }

  lemma Passes(t: Tables, before: seq<Row>, s: Screened, r: Row, found: seq<Issue>)
    requires Screens(t, before, s, found) && r.caseId !in t.cases && Fits(t, r)
    requires forall i :: 0 <= i < |before| ==> Agree(before[i], r)
    ensures Screens(t, before + [r], s.(accepted := s.accepted + [r]), found)
  {
    forall i | 0 <= i < |s.accepted| ensures Agree(s.accepted[i], r) {
      assert s.accepted[i] in before;
    }
    CoherentPush(s.accepted, r);
    assert r in before + [r];
  }

  // ---------------------------------------------------------------- results

  lemma FileReads(text: string, today: int, lib: Lib)
    ensures var (rows, found, count) := ParseFile(text, today, lib);
      && Coherent(rows) && Increasing(rows)
      && (forall r :: r in rows ==> Sound(r, today) && r.number !in InvalidRows(found))
      && (GlobalError(found) ==> rows == [] && InvalidRows(found) == {})
      && (!GlobalError(found) ==> |rows| + |InvalidRows(found)| == count)
  {
    var (rows, found, count) := ParseFile(text, today, lib);
    if lib.cells(text).Some? {
      var records := NonBlank(lib.cells(text).value);
      if records != [] {
        var headers, data := Headers(records[0]), records[1..];
        if HeaderIssues(headers, |data|, lib) == [] {
          RowsReadWell(headers, data, |data|, today, lib);
        } else {
          HeaderIssuesAreGlobal(headers, |data|, lib);
          assert found[0].error && found[0].row.None?;
        }
      } else {
        assert found[0].error && found[0].row.None?;
      }
    } else {
      assert found[0].error && found[0].row.None?;
    }
  }

  lemma HeaderIssuesAreGlobal(headers: seq<string>, rows: nat, lib: Lib)
    ensures forall i :: 0 <= i < |HeaderIssues(headers, rows, lib)| ==>
      HeaderIssues(headers, rows, lib)[i].error && HeaderIssues(headers, rows, lib)[i].row.None?
  {
  }

  /** Every data row is accepted, invalid or a duplicate, and counted once. */
  lemma RowsAccountedFor(t: Tables, actor: string, key: string, text: string, today: int, lib: Lib)
    ensures var b := BatchOf(t, actor, key, text, today, lib);
      b.valid + b.invalid + b.duplicates == b.rowCount && b.valid == |b.rows|
  {
    var (rows, found, count) := ParseFile(text, today, lib);
    FileReads(text, today, lib);
    ScreensRows(t, rows, found);
  }

  /** The rows a batch accepts are sound, agree with one another, and fit the tables they were
      screened against. */
  lemma AcceptedRowsAreSound(t: Tables, actor: string, key: string, text: string, today: int, lib: Lib)
    ensures var b := BatchOf(t, actor, key, text, today, lib);
      && Coherent(b.rows)
      && forall i :: 0 <= i < |b.rows| ==> Sound(b.rows[i], today) && b.rows[i].caseId !in t.cases && Fits(t, b.rows[i])
  {
    var (rows, found, count) := ParseFile(text, today, lib);
    FileReads(text, today, lib);
    ScreensRows(t, rows, found);
  }

  /** A batch is ready exactly when its file raised no error and brings at least one new case; then
      nothing but known cases was left behind. */
  lemma ReadyIff(t: Tables, actor: string, key: string, text: string, today: int, lib: Lib)
    ensures var b := BatchOf(t, actor, key, text, today, lib);
      && (b.status == Ready <==> b.valid > 0 && forall i :: 0 <= i < |b.issues| ==> !b.issues[i].error)
      && (b.status == Ready ==> b.invalid == 0 && b.valid + b.duplicates == b.rowCount)
      && (b.status == Ready ==> forall r :: r in ParseFile(text, today, lib).0 ==> r in b.rows || r.caseId in t.cases)
  {
    var (rows, found, count) := ParseFile(text, today, lib);
    FileReads(text, today, lib);
    ScreensRows(t, rows, found);
    RowsAccountedFor(t, actor, key, text, today, lib);
    var b := BatchOf(t, actor, key, text, today, lib);
    if i :| 0 <= i < |b.issues| && b.issues[i].error {
      assert b.issues[i].row.Some? ==> b.issues[i].row.value in InvalidRows(b.issues);
    }
  }
}
