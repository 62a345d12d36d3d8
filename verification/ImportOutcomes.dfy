/** When a row of a file is accepted and what is wrong with it otherwise, and what a commit writes for it: column
    by column, down to the commission that its payments earn. */
module ImportOutcomes {
  import opened Registry
  import opened Strings
  import opened ImportModel
  import opened ImportReading
  import opened ImportCommit

  // ---------------------------------------------------------------- which records are rows

  predicate Blank(record: seq<string>) { forall c :: c in record ==> c == "" }

  /** The records that are read are those with some cell that is not empty, in their order: dropping the blank ones
      respects concatenation, drops a blank record and keeps any other. */
  lemma {:induction false} NonBlankIs(before: seq<seq<string>>, record: seq<string>)
    ensures NonBlank(before + [record]) == NonBlank(before) + if Blank(record) then [] else [record]
    ensures NonBlank([]) == []
  {
    if before == [] {
      assert before + [record] == [record] && [record][1..] == [];
      assert NonBlank([]) == [];
    } else {
      NonBlankIs(before[1..], record);
      assert (before + [record])[1..] == before[1..] + [record] && (before + [record])[0] == before[0];
      var first := if exists c :: c in before[0] && c != "" then [before[0]] else [];
      assert NonBlank(before) == first + NonBlank(before[1..]);
      assert NonBlank(before + [record]) == first + NonBlank(before[1..] + [record]);
    }
  }

  /** Columns that name personal data. */
  predicate Personal(name: string) {
    name in {"address", "borrower_name", "email", "id_card", "id_number", "name", "phone", "phone_number",
             "姓名", "手机号", "身份证号", "地址", "邮箱"}
  }

  predicate Needed(name: string) {
    name in {"package_id", "package_title", "case_id", "claim_balance_cents", "mandate_start", "mandate_end",
             "commission_rule_id", "commission_rate_bps", "contact_basis_ref"}
  }

  predicate Extra(name: string) {
    name in {"case_status", "principal_cents", "interest_cents", "fee_cents", "first_overdue_date", "last_contact_at"}
  }

  lemma NamesAre()
    ensures forall f :: f in REQUIRED <==> Needed(f)
    ensures forall f :: f in OPTIONAL <==> Extra(f)
    ensures forall f :: f in FORBIDDEN <==> Personal(f)
  {
  }

  lemma NoIssues(a: seq<Issue>, b: seq<Issue>, c: seq<Issue>, d: seq<Issue>, e: seq<Issue>)
    ensures a + b + c + d + e == [] <==> a == [] && b == [] && c == [] && d == [] && e == []
  {
    assert |a + b + c + d + e| == |a| + |b| + |c| + |d| + |e|;
  }

  /** A header row lets the data rows be read exactly when its names are distinct, known and complete, none of them
      names personal data in any case of letters, and there are at most 1000 data rows. */
  lemma HeadersIff(headers: seq<string>, rows: nat, lib: Lib)
    ensures HeaderIssues(headers, rows, lib) == [] <==>
      && (forall i, j :: 0 <= i < j < |headers| ==> headers[i] != headers[j])
      && (forall h :: h in headers ==> !Personal(lib.lower(h)))
      && (forall f :: Needed(f) ==> f in headers)
      && (forall h :: h in headers ==> Needed(h) || Extra(h) || Personal(h))
      && rows <= 1000
  {
    NamesAre();
    var personal := exists h :: h in headers && lib.lower(h) in FORBIDDEN;
    var missing := exists f :: f in REQUIRED && f !in headers;
    var unknown := exists h :: h in headers && h !in REQUIRED && h !in OPTIONAL && h !in FORBIDDEN;
    NoIssues(Global(!Distinct(headers), "DUPLICATE_HEADER"), Global(personal, "PII_FIELD_FORBIDDEN"),
             Global(missing, "MISSING_HEADER"), Global(unknown, "UNKNOWN_HEADER"),
             Global(rows > MAX_ROWS, "ROW_LIMIT_EXCEEDED"));
  }

  // ---------------------------------------------------------------- one row

  predicate Letter(c: char) { 'A' <= c <= 'Z' || 'a' <= c <= 'z' || '0' <= c <= '9' }

  /** Identifiers: 4 up to `max` letters, digits and `._:-`. */
  predicate Name(s: string, max: nat) {
    4 <= |s| <= max && forall i :: 0 <= i < |s| ==> Letter(s[i]) || s[i] in {'.', '_', ':', '-'}
  }

  predicate ReferenceText(s: string) {
    4 <= |s| <= 120 && forall i :: 0 <= i < |s| ==> Letter(s[i]) || s[i] in {'.', '_', ':', '-', '/'}
  }

  predicate TitleText(s: string) {
    && 1 <= |s| <= 120 && s[0] !in {'=', '+', '-', '@'}
    && forall i :: 0 <= i < |s| ==>
         Letter(s[i]) || 0x3400 <= s[i] as int <= 0x9fff || s[i] in {' ', '_', '(', ')', '\U{ff08}', '\U{ff09}', '-'}
  }

  predicate Number(text: string, lo: int, hi: int, lib: Lib) {
    lib.toInt(text).Some? && lo <= lib.toInt(text).value <= hi
  }

  /** What an optional cell holds. */
  function Optional(text: string, read: string -> Option<int>): Option<int> {
    if text == "" then None else read(text)
  }

  predicate OptionalMoney(text: string, lib: Lib) { text == "" || Number(text, 0, 1_000_000_000, lib) }

  /** The components of the balance, when all three are given, add up to it. */
  predicate AddsUp(row: map<string, string>, lib: Lib) {
    var p, i, f := Get(row, "principal_cents"), Get(row, "interest_cents"), Get(row, "fee_cents");
    p != "" && i != "" && f != "" && lib.toInt(p).Some? && lib.toInt(i).Some? && lib.toInt(f).Some?
    && lib.toInt(Get(row, "claim_balance_cents")).Some? ==>
      lib.toInt(p).value + lib.toInt(i).value + lib.toInt(f).value == lib.toInt(Get(row, "claim_balance_cents")).value
  }

  predicate Statused(text: string) { text in {"", "待联系", "资料待补", "授权待补", "金额待核", "身份待核"} }

  /** The texts of a row. */
  predicate Texts(row: map<string, string>) {
    && Get(row, "claim_balance_cents") != "" && Get(row, "commission_rate_bps") != ""
    && Get(row, "mandate_start") != "" && Get(row, "mandate_end") != ""
    && Name(Get(row, "package_id"), 40) && Name(Get(row, "case_id"), 40) && Name(Get(row, "commission_rule_id"), 80)
    && TitleText(Get(row, "package_title")) && ReferenceText(Get(row, "contact_basis_ref"))
  }

  /** The values of a row, within their bounds and with one another. */
  predicate Values(row: map<string, string>, today: int, lib: Lib) {
    && Number(Get(row, "claim_balance_cents"), 1, 1_000_000_000, lib)
    && Number(Get(row, "commission_rate_bps"), 1, 10_000, lib) && Dated(row, today, lib) && AddsUp(row, lib)
    && OptionalMoney(Get(row, "principal_cents"), lib) && OptionalMoney(Get(row, "interest_cents"), lib)
    && OptionalMoney(Get(row, "fee_cents"), lib)
    && (Get(row, "first_overdue_date") != "" ==> lib.toDate(Get(row, "first_overdue_date")).Some?)
    && (Get(row, "last_contact_at") != "" ==> lib.toMoment(Get(row, "last_contact_at")).Some?)
  }

  /** A row that is fine by itself. */
  predicate Fine(row: map<string, string>, today: int, lib: Lib) {
    Texts(row) && Values(row, today, lib) && Statused(Get(row, "case_status"))
  }

  /** A mandate that ends today or later and not before it starts. */
  predicate Dated(row: map<string, string>, today: int, lib: Lib) {
    && lib.toDate(Get(row, "mandate_start")).Some? && lib.toDate(Get(row, "mandate_end")).Some?
    && lib.toDate(Get(row, "mandate_start")).value <= lib.toDate(Get(row, "mandate_end")).value
    && today <= lib.toDate(Get(row, "mandate_end")).value
  }

  /** A row that does not contradict the rows before it. */
  predicate Clear(s: Reading, row: map<string, string>, lib: Lib) {
    var pid, rid := Get(row, "package_id"), Get(row, "commission_rule_id");
    var rate := lib.toInt(Get(row, "commission_rate_bps"));
    && Get(row, "case_id") !in s.cases
    && (pid in s.titles ==> s.titles[pid] == Get(row, "package_title"))
    && (rid in s.rules && rate.Some? ==> s.rules[rid] == (pid, rate.value))
  }

  /** The row a file's cells make. */
  function Made(number: nat, row: map<string, string>, today: int, lib: Lib): Row
    requires Fine(row, today, lib)
  {
    Row(number, Get(row, "package_id"), Get(row, "package_title"), Get(row, "case_id"),
        if Get(row, "case_status") == "" then "待联系" else Get(row, "case_status"),
        lib.toInt(Get(row, "claim_balance_cents")).value, lib.toDate(Get(row, "mandate_start")).value,
        lib.toDate(Get(row, "mandate_end")).value, Get(row, "commission_rule_id"),
        lib.toInt(Get(row, "commission_rate_bps")).value, Get(row, "contact_basis_ref"),
        Optional(Get(row, "principal_cents"), lib.toInt), Optional(Get(row, "interest_cents"), lib.toInt),
        Optional(Get(row, "fee_cents"), lib.toInt), Optional(Get(row, "first_overdue_date"), lib.toDate),
        Optional(Get(row, "last_contact_at"), lib.toMoment))
  }

  lemma TitleFine(row: map<string, string>)
    ensures Get(row, "package_title") == "" || Title(Get(row, "package_title")) <==>
      Get(row, "package_title") == "" || TitleText(Get(row, "package_title"))
    ensures Get(row, "contact_basis_ref") == "" || Reference(Get(row, "contact_basis_ref")) <==>
      Get(row, "contact_basis_ref") == "" || ReferenceText(Get(row, "contact_basis_ref"))
  {
  }

  lemma NamesFine(row: map<string, string>, field: string, max: nat)
    ensures IdentifierIssue(Get(row, field), max) == [] <==> Get(row, field) == "" || Name(Get(row, field), max)
  {
  }

  lemma TextParts(row: map<string, string>)
    ensures TextIssues(row) == [] <==>
      && Blanks(row, REQUIRED) == [] && IdentifierIssue(Get(row, "package_id"), 40) == []
      && IdentifierIssue(Get(row, "case_id"), 40) == [] && IdentifierIssue(Get(row, "commission_rule_id"), 80) == []
      && (Get(row, "package_title") == "" || Title(Get(row, "package_title")))
      && (Get(row, "contact_basis_ref") == "" || Reference(Get(row, "contact_basis_ref")))
  {
    var title, contact := Get(row, "package_title"), Get(row, "contact_basis_ref");
    assert |TextIssues(row)| == |Blanks(row, REQUIRED)|
      + |IdentifierIssue(Get(row, "package_id"), 40)| + |IdentifierIssue(Get(row, "case_id"), 40)|
      + |IdentifierIssue(Get(row, "commission_rule_id"), 80)|
      + (if title != "" && !Title(title) then 1 else 0) + (if contact != "" && !Reference(contact) then 1 else 0);
  }

  lemma BlanksIff(row: map<string, string>)
    ensures Blanks(row, REQUIRED) == [] <==>
      && Get(row, "claim_balance_cents") != "" && Get(row, "commission_rate_bps") != ""
      && Get(row, "mandate_start") != "" && Get(row, "mandate_end") != "" && Get(row, "package_id") != ""
      && Get(row, "case_id") != "" && Get(row, "commission_rule_id") != "" && Get(row, "package_title") != ""
      && Get(row, "contact_basis_ref") != ""
  {
    NoBlanksIff(row, REQUIRED);
    assert REQUIRED[0] == "package_id" && REQUIRED[1] == "package_title" && REQUIRED[2] == "case_id"
      && REQUIRED[3] == "claim_balance_cents" && REQUIRED[4] == "mandate_start" && REQUIRED[5] == "mandate_end"
      && REQUIRED[6] == "commission_rule_id" && REQUIRED[7] == "commission_rate_bps"
      && REQUIRED[8] == "contact_basis_ref" && |REQUIRED| == 9;
  }

  lemma TextFine(row: map<string, string>)
    ensures TextIssues(row) == [] <==> Texts(row)
  {
    TextParts(row);
    BlanksIff(row);
    NamesFine(row, "package_id", 40);
    NamesFine(row, "case_id", 40);
    NamesFine(row, "commission_rule_id", 80);
    TitleFine(row);
  }

  lemma {:induction false} NoBlanksIff(row: map<string, string>, fields: seq<string>)
    ensures Blanks(row, fields) == [] <==> forall i :: 0 <= i < |fields| ==> Get(row, fields[i]) != ""
  {
    if fields != [] { NoBlanksIff(row, fields[1..]); }
  }

  lemma ValuesFine(row: map<string, string>, today: int, lib: Lib)
    ensures ValueIssues(ParseCells(row, lib), today) == [] <==> Values(row, today, lib)
  {
    var p := ParseCells(row, lib);
    assert |ValueIssues(p, today)| == |Problem(p.balance)| + |Problem(p.rate)| + |Problem(p.start)| + |Problem(p.end)|
      + |Problem(p.principal)| + |Problem(p.interest)| + |Problem(p.fee)| + (if Unbalanced(p) then 1 else 0)
      + |Problem(p.overdue)| + |Problem(p.contact)|
      + (if p.start.Ok? && p.end.Ok? && p.end.value < p.start.value then 1 else 0)
      + (if p.start.Ok? && p.end.Ok? && p.end.value < today then 1 else 0);
  }

  lemma StatusFine(row: map<string, string>)
    ensures Status(row) in STATUSES <==> Statused(Get(row, "case_status"))
    ensures Status(row) == if Get(row, "case_status") == "" then "待联系" else Get(row, "case_status")
  {
  }

  lemma CodesAreParts(s: Reading, row: map<string, string>, p: Parsed, today: int)
    ensures Codes(s, row, p, today) == [] <==>
      TextIssues(row) == [] && ValueIssues(p, today) == [] && Status(row) in STATUSES && ClashIssues(s, row, p) == []
  {
    assert |Codes(s, row, p, today)| == |TextIssues(row)| + |ValueIssues(p, today)|
      + |Code(Status(row) !in STATUSES, "UNSAFE_INITIAL_STATUS")| + |ClashIssues(s, row, p)|;
  }

  lemma CodesIff(s: Reading, row: map<string, string>, today: int, lib: Lib)
    ensures Codes(s, row, ParseCells(row, lib), today) == [] <==> Fine(row, today, lib) && Clear(s, row, lib)
  {
    CodesAreParts(s, row, ParseCells(row, lib), today);
    TextFine(row);
    ValuesFine(row, today, lib);
    StatusFine(row);
    if Values(row, today, lib) { ClearIff(s, row, lib); }
  }

  lemma ClearIff(s: Reading, row: map<string, string>, lib: Lib)
    requires Number(Get(row, "commission_rate_bps"), 1, 10_000, lib)
    ensures ClashIssues(s, row, ParseCells(row, lib)) == [] <==> Clear(s, row, lib)
  {
    var pid, title, rid := Get(row, "package_id"), Get(row, "package_title"), Get(row, "commission_rule_id");
    var p := ParseCells(row, lib);
    assert |ClashIssues(s, row, p)| == (if Get(row, "case_id") in s.cases then 1 else 0)
      + (if pid in s.titles && s.titles[pid] != title then 1 else 0)
      + (if p.rate.Ok? && rid in s.rules && s.rules[rid] != (pid, p.rate.value) then 1 else 0);
  }

  lemma RowIsMade(number: nat, row: map<string, string>, today: int, lib: Lib)
    requires Fine(row, today, lib)
    ensures Complete(ParseCells(row, lib)) && RowOf(number, row, ParseCells(row, lib)) == Made(number, row, today, lib)
  {
    StatusFine(row);
  }

  /** A record is accepted exactly when it has a cell for every column and its row is fine and clear; the row it
      becomes holds its cells, column by column. Otherwise it raises at least one error under its number, and no
      row. */
  lemma RowAcceptedIff(s: Reading, number: nat, headers: seq<string>, cells: seq<string>, today: int, lib: Lib)
    ensures var n := ReadRow(s, number, headers, cells, today, lib);
      if |cells| == |headers| && Fine(Fields(headers, cells), today, lib) && Clear(s, Fields(headers, cells), lib)
      then n.rows == s.rows + [Made(number, Fields(headers, cells), today, lib)] && n.issues == s.issues
      else n.rows == s.rows && Complains(s, n, number)
  {
    if |cells| == |headers| {
      var row := Fields(headers, cells);
      CodesIff(s, row, today, lib);
      if Fine(row, today, lib) && Clear(s, row, lib) {
        NoCodes(s, row, ParseCells(row, lib), today);
        RowIsMade(number, row, today, lib);
      } else {
        Complained(s, Claim(s, row, ParseCells(row, lib)), number, Codes(s, row, ParseCells(row, lib), today));
      }
    } else {
      Complained(s, s, number, ["COLUMN_COUNT_MISMATCH"]);
    }
  }

  /** At least one more issue, all of them errors of this row. */
  ghost predicate Complains(s: Reading, n: Reading, number: nat) {
    && |n.issues| > |s.issues| && n.issues[..|s.issues|] == s.issues
    && forall i :: |s.issues| <= i < |n.issues| ==> n.issues[i].error && n.issues[i].row == Some(number)
  }

  lemma Complained(s: Reading, v: Reading, number: nat, codes: seq<string>)
    requires codes != [] && v.issues == s.issues
    ensures Complains(s, v.(issues := s.issues + RowIssues(number, codes)), number)
  {
  }

  /** The row claims its case, and its title and rule where no row before it did. */
  predicate Claims(s: Reading, n: Reading, row: map<string, string>, lib: Lib) {
    var pid, rid, rate := Get(row, "package_id"), Get(row, "commission_rule_id"), Get(row, "commission_rate_bps");
    && n.cases == s.cases + {Get(row, "case_id")}
    && n.titles == (if pid in s.titles then s.titles else s.titles[pid := Get(row, "package_title")])
    && n.rules == if rid in s.rules || !Number(rate, 1, 10_000, lib) then s.rules
                  else s.rules[rid := (pid, lib.toInt(rate).value)]
  }

  lemma ClaimIs(s: Reading, row: map<string, string>, lib: Lib)
    ensures Claims(s, Claim(s, row, ParseCells(row, lib)), row, lib)
  {
  }

  /** Accepted or not, a record of the right width makes those claims; any other claims nothing. */
  lemma RowClaims(s: Reading, number: nat, headers: seq<string>, cells: seq<string>, today: int, lib: Lib)
    ensures var n := ReadRow(s, number, headers, cells, today, lib);
      if |cells| == |headers| then Claims(s, n, Fields(headers, cells), lib)
      else n.cases == s.cases && n.titles == s.titles && n.rules == s.rules
  {
    if |cells| == |headers| {
      var row := Fields(headers, cells);
      var n := ReadRow(s, number, headers, cells, today, lib);
      var c := Claim(s, row, ParseCells(row, lib));
      ClaimIs(s, row, lib);
      assert n == c.(rows := n.rows, issues := n.issues);
    }
  }

  // ---------------------------------------------------------------- a file

  /** What reading a file gives: nothing and one error for the whole file when its quoting is broken or it has no
      records; otherwise a count of the data records, and their rows and issues if the header row allows it. */
  lemma FileIs(text: string, today: int, lib: Lib)
    ensures var (rows, issues, count) := ParseFile(text, today, lib);
      if lib.cells(text).None? then rows == [] && count == 0 && issues == [Issue(None, true, "MALFORMED_CSV")]
      else if NonBlank(lib.cells(text).value) == [] then
        rows == [] && count == 0 && issues == [Issue(None, true, "EMPTY_FILE")]
      else
        var records := NonBlank(lib.cells(text).value);
        var headers, found := Headers(records[0]), HeaderIssues(Headers(records[0]), count, lib);
        && count == |records| - 1 && |headers| == |records[0]|
        && (forall i :: 0 <= i < |headers| ==>
              headers[i] == if records[0][i] != "" && records[0][i][0] == '\U{feff}' then records[0][i][1..]
                            else records[0][i])
        && if found != [] then rows == [] && issues == found
           else rows == ReadRows(headers, records[1..], count, today, lib).rows
                && issues == ReadRows(headers, records[1..], count, today, lib).issues
  {
  }

  /** The tables take a row: its package, if there is one, has its title, and its rule, if there is any version of it,
      has an active one of its package and rate. */
  predicate FitsTables(t: Tables, r: Row) {
    && (r.packageId in t.packages ==> t.packages[r.packageId].title == r.title)
    && ((exists i :: 0 <= i < |t.rules| && t.rules[i].ruleId == r.ruleId) ==>
          exists i :: 0 <= i < |t.rules| && t.rules[i].active && t.rules[i].ruleId == r.ruleId
                      && t.rules[i].packageId == r.packageId && t.rules[i].rate == r.rate)
  }

  lemma FitsIff(t: Tables, r: Row)
    ensures Fits(t, r) <==> FitsTables(t, r)
  {
    if HasMatch(t.rules, r) {
      var i :| 0 <= i < |t.rules| && MatchingRule(t.rules[i], r);
    }
    forall i | 0 <= i < |t.rules| && t.rules[i].active && t.rules[i].ruleId == r.ruleId
               && t.rules[i].packageId == r.packageId && t.rules[i].rate == r.rate ensures HasMatch(t.rules, r) {
      assert MatchingRule(t.rules[i], r);
    }
  }

  /** A row of a known case is counted as a duplicate, with a warning; any other is accepted exactly when the tables
      take it, and is an error otherwise. */
  lemma ScreenRowIs(t: Tables, s: Screened, r: Row)
    ensures var n := ScreenRow(t, s, r);
      if r.caseId in t.cases then
        && n.accepted == s.accepted && n.duplicates == s.duplicates + 1
        && n.issues == s.issues + [Issue(Some(r.number), false, "EXISTING_CASE_SKIPPED")]
      else if FitsTables(t, r) then n == s.(accepted := s.accepted + [r])
      else
        && n.accepted == s.accepted && n.duplicates == s.duplicates && |n.issues| == |s.issues| + 1
        && n.issues[..|s.issues|] == s.issues && n.issues[|s.issues|].error
        && n.issues[|s.issues|].row == Some(r.number)
  {
    FitsIff(t, r);
  }

  lemma {:induction false} BalanceIs(rows: seq<Row>, r: Row)
    ensures Balance([]) == 0 && Balance(rows + [r]) == Balance(rows) + r.balance
  {
    assert (rows + [r])[..|rows|] == rows;
  }

  /** What a new batch records of its file besides its counts. */
  lemma BatchIs(t: Tables, actor: string, key: string, text: string, today: int, lib: Lib)
    ensures var b := BatchOf(t, actor, key, text, today, lib); var (rows, found, count) := ParseFile(text, today, lib);
      && b.key == key && b.text == text && b.createdBy == actor && b.version == 1
      && b.committedBy.None? && b.note.None? && b.rowCount == count && b.valid == |b.rows|
      && b.rows == ScreenRows(t, rows, found).accepted && b.issues == ScreenRows(t, rows, found).issues
      && b.duplicates == ScreenRows(t, rows, found).duplicates && b.balance == Balance(b.rows)
      && b.packages == |set i | 0 <= i < |b.rows| :: b.rows[i].packageId|
  {
  }

  /** A preview of a key used before is answered from its batch, or conflicts when the file differs; any other adds the
      batch of its file. */
  lemma PreviewIs(s: State, actor: string, key: string, text: string, today: int, lib: Lib)
    requires BatchesWell(s)
    ensures var (n, outcome) := PreviewStep(s, actor, key, text, today, lib);
      && ((forall i :: 0 <= i < |s.batches| ==> s.batches[i].key != key) ==>
            outcome == Done(|s.batches|)
            && n == s.(batches := s.batches + [BatchOf(s.tables, actor, key, text, today, lib)]))
      && (forall i: nat :: i < |s.batches| && s.batches[i].key == key ==>
            n == s && outcome == if s.batches[i].text == text then Replayed(i) else Denied(IdempotencyConflict))
  {
    FindKeyFinds(s.batches, key);
  }

  // ---------------------------------------------------------------- a commit

  /** The case and the profile that a row becomes, field by field. */
  ghost predicate Becomes(u: Tables, r: Row) {
    && r.caseId in u.cases && r.caseId in u.profiles
    && var c, p := u.cases[r.caseId], u.profiles[r.caseId];
    && c.packageId == r.packageId && c.status == r.status && c.contactBasis == Some(r.contact)
    && !c.blocked && !c.hasSignedPlan
    && p.ruleId == r.ruleId && p.balance == r.balance
    && p.principal == r.principal && p.interest == r.interest && p.fee == r.fee
    && p.mandateStart == r.mandateStart && p.mandateEnd == r.mandateEnd
    && p.firstOverdue == r.firstOverdue && p.lastContact == r.lastContact
    && p.signedPlanAt.None? && p.signedPlanLastDue.None? && !p.tailEligible
  }

  /** Its package, with its title, and an active version of its rule for that package at its rate. */
  ghost predicate Carries(u: Tables, r: Row) {
    && r.packageId in u.packages && u.packages[r.packageId].title == r.title
    && exists i :: 0 <= i < |u.rules| && u.rules[i].active && u.rules[i].ruleId == r.ruleId
                   && u.rules[i].packageId == r.packageId && u.rules[i].rate == r.rate
  }

  /** Nothing that was there is changed, and what is new belongs to a row: its case, its unpublished package, the first
      version of its rule. */
  ghost predicate Keeps(t: Tables, u: Tables, rows: seq<Row>) {
    KeepsCases(t, u, rows) && KeepsPackages(t, u, rows) && KeepsRules(t.rules, u.rules, rows)
  }

  ghost predicate KeepsCases(t: Tables, u: Tables, rows: seq<Row>) {
    && (forall c :: c in t.cases ==> c in u.cases && u.cases[c] == t.cases[c])
    && (forall c :: c in u.cases && c !in t.cases ==> exists i :: 0 <= i < |rows| && rows[i].caseId == c)
  }

  ghost predicate KeepsPackages(t: Tables, u: Tables, rows: seq<Row>) {
    && (forall p :: p in t.packages ==> p in u.packages && u.packages[p] == t.packages[p])
    && (forall p :: p in u.packages && p !in t.packages ==>
          !u.packages[p].published && exists i :: 0 <= i < |rows| && rows[i].packageId == p)
  }

  ghost predicate KeepsRules(before: seq<Rule>, rules: seq<Rule>, rows: seq<Row>) {
    && |before| <= |rules| && rules[..|before|] == before
    && (forall j :: |before| <= j < |rules| ==>
          rules[j].version == 1 && rules[j].active && exists i :: 0 <= i < |rows| && rows[i].ruleId == rules[j].ruleId)
  }

  lemma CommittedBecome(t: Tables, u: Tables, rows: seq<Row>, i: nat)
    requires AddsCases(t, u, rows, |rows|) && i < |rows|
    ensures Becomes(u, rows[i])
  {
    assert u.cases[rows[i].caseId] == NewCase(rows[i]);
  }

  lemma CommittedCarry(t: Tables, u: Tables, rows: seq<Row>, i: nat)
    requires AddsRules(t.rules, u.rules, rows, |rows|) && AddsPackages(t, u, rows, |rows|) && i < |rows|
    requires Fits(t, rows[i])
    ensures Carries(u, rows[i])
  {
    assert HasMatch(u.rules, rows[i]);
    var j :| 0 <= j < |u.rules| && MatchingRule(u.rules[j], rows[i]);
  }

  lemma CommittedKeepCases(t: Tables, u: Tables, rows: seq<Row>)
    requires AddsCases(t, u, rows, |rows|)
    ensures KeepsCases(t, u, rows)
  {
    IdsAre(rows, |rows|);
  }

  lemma CommittedKeepPackages(t: Tables, u: Tables, rows: seq<Row>)
    requires AddsPackages(t, u, rows, |rows|)
    ensures KeepsPackages(t, u, rows)
  {
    IdsAre(rows, |rows|);
    forall p | p in u.packages && p !in t.packages
      ensures !u.packages[p].published && exists i :: 0 <= i < |rows| && rows[i].packageId == p
    {
      assert p in PackageIds(rows, |rows|);
      var i :| 0 <= i < |rows| && rows[i].packageId == p;
      assert u.packages[rows[i].packageId] == Package(rows[i].title, false);
    }
  }

  lemma CommittedKeepRules(before: seq<Rule>, rules: seq<Rule>, rows: seq<Row>)
    requires AddsRules(before, rules, rows, |rows|)
    ensures KeepsRules(before, rules, rows)
  {
    forall j | |before| <= j < |rules|
      ensures rules[j].version == 1 && rules[j].active
      ensures exists i :: 0 <= i < |rows| && rows[i].ruleId == rules[j].ruleId
    {
      assert AddedFor(before, rules[j], rows, |rows|);
      var i :| 0 <= i < |rows| && FirstVersion(rules[j], rows[i]);
    }
  }

  /** A commit succeeds exactly when a second person confirms the current version of a ready batch none of whose cases
      exists and whose rows the tables take; any other changes nothing. */
  lemma CommitSucceedsIff(s: State, actor: string, id: nat, expected: nat, note: string)
    ensures var (n, outcome) := CommitStep(s, actor, id, expected, note);
      && (outcome == Done(id) <==>
            && id < |s.batches| && s.batches[id].status == Ready && s.batches[id].version == expected
            && s.batches[id].createdBy != actor
            && forall i {:trigger s.batches[id].rows[i]} :: 0 <= i < |s.batches[id].rows| ==>
                 s.batches[id].rows[i].caseId !in s.tables.cases && FitsTables(s.tables, s.batches[id].rows[i]))
      && (outcome == Replayed(id) <==> id < |s.batches| && s.batches[id].status == Committed)
      && (outcome != Done(id) ==> n == s)
  {
    CommitsIff(s, actor, id, expected, note);
    if id < |s.batches| {
      var rows := s.batches[id].rows;
      forall i | 0 <= i < |rows| ensures Fits(s.tables, rows[i]) <==> FitsTables(s.tables, rows[i]) {
        FitsIff(s.tables, rows[i]);
      }
    }
  }

  /** What a commit that succeeds writes: each row is a case with its profile, field by field, under its package and an
      active rule of its own rate; nothing else changes but the batch. */
  lemma CommitWrites(s: State, actor: string, id: nat, expected: nat, note: string)
    requires BatchesWell(s) && CommitStep(s, actor, id, expected, note).1 == Done(id)
    ensures id < |s.batches|
    ensures var n, b := CommitStep(s, actor, id, expected, note).0, s.batches[id];
      && n.batches == s.batches[id := b.(status := Committed, version := expected + 1, committedBy := Some(actor),
                                         note := Some(note))]
      && Keeps(s.tables, n.tables, b.rows)
      && forall i {:trigger b.rows[i]} :: 0 <= i < |b.rows| ==>
           Becomes(n.tables, b.rows[i]) && Carries(n.tables, b.rows[i])
  {
    CommitsIff(s, actor, id, expected, note);
    CommitAddsExactlyItsRows(s, actor, id, expected, note);
    AllCommitted(s.tables, CommitStep(s, actor, id, expected, note).0.tables, s.batches[id].rows);
  }

  lemma AllCommitted(t: Tables, u: Tables, rows: seq<Row>)
    requires AddsRules(t.rules, u.rules, rows, |rows|) && AddsPackages(t, u, rows, |rows|)
    requires AddsCases(t, u, rows, |rows|) && AllFit(t, rows, |rows|)
    ensures Keeps(t, u, rows)
    ensures forall i {:trigger rows[i]} :: 0 <= i < |rows| ==> Becomes(u, rows[i]) && Carries(u, rows[i])
  {
    CommittedKeepCases(t, u, rows);
    CommittedKeepPackages(t, u, rows);
    CommittedKeepRules(t.rules, u.rules, rows);
    forall i | 0 <= i < |rows| ensures Becomes(u, rows[i]) && Carries(u, rows[i]) {
      CommittedBecome(t, u, rows, i);
      CommittedCarry(t, u, rows, i);
    }
  }

  /** A request is carried out with its own fields. */
  lemma RequestIs(s: State, a: Action, lib: Lib)
    ensures a.Preview? ==> Step(s, a, lib) == PreviewStep(s, a.actor, a.key, a.text, a.today, lib).0
    ensures a.Commit? ==> Step(s, a, lib) == CommitStep(s, a.actor, a.id, a.expected, a.note).0
    ensures a.Elsewhere? ==> Step(s, a, lib) == s.(tables := a.tables)
  {
  }
}
