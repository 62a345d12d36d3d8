/** The two-step import of cases: a preview checks a file row by row against the tables, and a
    later commit replays the accepted rows against tables that may have changed. */
module ImportModel {
  import opened Registry
  import opened Strings

  // ---------------------------------------------------------------- files

  /** What the importer calls: the tokeniser with every cell stripped (None when the quoting is
      broken), number and date parsers, and lower-casing. */
  datatype Lib = Lib(
    cells: string -> Option<seq<seq<string>>>, toInt: string -> Option<int>,
    toDate: string -> Option<int>, toMoment: string -> Option<int>, lower: string -> string)

  const MAX_ROWS := 1000
  const MAX_CENTS := 1_000_000_000

  const REQUIRED := ["package_id", "package_title", "case_id", "claim_balance_cents", "mandate_start", "mandate_end",
                     "commission_rule_id", "commission_rate_bps", "contact_basis_ref"]
  const OPTIONAL := ["case_status", "principal_cents", "interest_cents", "fee_cents", "first_overdue_date",
                     "last_contact_at"]
  const FORBIDDEN := ["address", "borrower_name", "email", "id_card", "id_number", "name", "phone", "phone_number",
                      "姓名", "手机号", "身份证号", "地址", "邮箱"]
  const STATUSES := ["待联系", "资料待补", "授权待补", "金额待核", "身份待核"]

  predicate Reference(s: string) { 4 <= |s| <= 120 && forall i :: 0 <= i < |s| ==> IdChar(s[i]) || s[i] == '/' }

  predicate TitleChar(c: char) {
    'A' <= c <= 'Z' || 'a' <= c <= 'z' || '0' <= c <= '9' || '\U{3400}' <= c <= '\U{9fff}'
    || c == ' ' || c == '_' || c == '(' || c == ')' || c == '\U{ff08}' || c == '\U{ff09}' || c == '-'
  }

  predicate Title(s: string) { 0 < |s| <= 120 && (forall i :: 0 <= i < |s| ==> TitleChar(s[i])) && s[0] !in "=+-@" }

  datatype Issue = Issue(row: Option<nat>, error: bool, code: string)

  datatype Row = Row(
    number: nat, packageId: string, title: string, caseId: string, status: string, balance: int,
    mandateStart: int, mandateEnd: int, ruleId: string, rate: Bps, contact: string,
    principal: Option<int>, interest: Option<int>, fee: Option<int>, firstOverdue: Option<int>,
    lastContact: Option<int>)

  // ---------------------------------------------------------------- header

  function Bare(header: string): string { if header != "" && header[0] == '\U{feff}' then header[1..] else header }

  function Headers(cells: seq<string>): seq<string> { seq(|cells|, i requires 0 <= i < |cells| => Bare(cells[i])) }

  function Global(bad: bool, code: string): seq<Issue> { if bad then [Issue(None, true, code)] else [] }

  function HeaderIssues(headers: seq<string>, rows: nat, lib: Lib): seq<Issue> {
    Global(!Distinct(headers), "DUPLICATE_HEADER")
    + Global(exists h :: h in headers && lib.lower(h) in FORBIDDEN, "PII_FIELD_FORBIDDEN")
    + Global(exists f :: f in REQUIRED && f !in headers, "MISSING_HEADER")
    + Global(exists h :: h in headers && h !in REQUIRED && h !in OPTIONAL && h !in FORBIDDEN, "UNKNOWN_HEADER")
    + Global(rows > MAX_ROWS, "ROW_LIMIT_EXCEEDED")
  }

  // ---------------------------------------------------------------- one row

  /** The row as a map from header to cell. */
  function Fields(headers: seq<string>, cells: seq<string>): map<string, string>
    requires |headers| == |cells|
  {
    if headers == [] then map[]
    else Fields(headers[..|headers| - 1], cells[..|cells| - 1])[headers[|headers| - 1] := cells[|cells| - 1]]
  }

  function Get(row: map<string, string>, field: string): string { if field in row then row[field] else "" }

  function Integer(text: string, lo: int, hi: int, lib: Lib): (r: Result<int, string>)
    ensures r.Ok? ==> lo <= r.value <= hi
  {
    match lib.toInt(text)
    case None => Err("INVALID_INTEGER")
    case Some(n) => if n < lo || n > hi then Err("INTEGER_OUT_OF_RANGE") else Ok(n)
  }

  function OptionalInteger(text: string, lib: Lib): Result<Option<int>, string> {
    if text == "" then Ok(None)
    else
      match Integer(text, 0, MAX_CENTS, lib)
      case Ok(n) => Ok(Some(n))
      case Err(code) => Err(code)
  }

  function Day(text: string, lib: Lib): Result<int, string> {
    match lib.toDate(text) case Some(d) => Ok(d) case None => Err("INVALID_DATE")
  }

  function OptionalDay(text: string, lib: Lib): Result<Option<int>, string> {
    if text == "" then Ok(None) else match lib.toDate(text) case Some(d) => Ok(Some(d)) case None => Err("INVALID_DATE")
  }

  function OptionalMoment(text: string, lib: Lib): Result<Option<int>, string> {
    if text == "" then Ok(None)
    else match lib.toMoment(text) case Some(d) => Ok(Some(d)) case None => Err("INVALID_DATETIME")
  }

  function Code(bad: bool, code: string): seq<string> { if bad then [code] else [] }

  function Problem<T>(r: Result<T, string>): seq<string> { match r case Ok(_) => [] case Err(code) => [code] }

  function Blanks(row: map<string, string>, fields: seq<string>): seq<string> {
    if fields == [] then [] else Code(Get(row, fields[0]) == "", "REQUIRED_VALUE") + Blanks(row, fields[1..])
  }

  function IdentifierIssue(text: string, max: nat): seq<string> {
    Code(text != "" && !Identifier(text, max), "INVALID_IDENTIFIER")
  }

  /** The cells of a row after parsing, good or bad. */
  datatype Parsed = Parsed(
    balance: Result<int, string>, rate: Result<int, string>, start: Result<int, string>, end: Result<int, string>,
    principal: Result<Option<int>, string>, interest: Result<Option<int>, string>, fee: Result<Option<int>, string>,
    overdue: Result<Option<int>, string>, contact: Result<Option<int>, string>)

  function ParseCells(row: map<string, string>, lib: Lib): (p: Parsed)
    ensures p.balance.Ok? ==> 1 <= p.balance.value <= MAX_CENTS
    ensures p.rate.Ok? ==> 1 <= p.rate.value <= 10_000
  {
    Parsed(Integer(Get(row, "claim_balance_cents"), 1, MAX_CENTS, lib),
           Integer(Get(row, "commission_rate_bps"), 1, 10_000, lib),
           Day(Get(row, "mandate_start"), lib), Day(Get(row, "mandate_end"), lib),
           OptionalInteger(Get(row, "principal_cents"), lib), OptionalInteger(Get(row, "interest_cents"), lib),
           OptionalInteger(Get(row, "fee_cents"), lib),
           OptionalDay(Get(row, "first_overdue_date"), lib), OptionalMoment(Get(row, "last_contact_at"), lib))
  }

  /** All three components are present and parsed, and do not add up to the balance. */
  predicate Unbalanced(p: Parsed) {
    && p.balance.Ok?
    && p.principal.Ok? && p.principal.value.Some? && p.interest.Ok? && p.interest.value.Some? && p.fee.Ok?
    && p.fee.value.Some?
    && p.principal.value.value + p.interest.value.value + p.fee.value.value != p.balance.value
  }

  function Status(row: map<string, string>): string {
    if Get(row, "case_status") == "" then STATUSES[0] else Get(row, "case_status")
  }

  function TextIssues(row: map<string, string>): seq<string> {
    Blanks(row, REQUIRED)
    + IdentifierIssue(Get(row, "package_id"), 40) + IdentifierIssue(Get(row, "case_id"), 40)
    + IdentifierIssue(Get(row, "commission_rule_id"), 80)
    + Code(Get(row, "package_title") != "" && !Title(Get(row, "package_title")), "INVALID_TITLE")
    + Code(Get(row, "contact_basis_ref") != "" && !Reference(Get(row, "contact_basis_ref")), "INVALID_REFERENCE")
  }

  function ValueIssues(p: Parsed, today: int): seq<string> {
    Problem(p.balance) + Problem(p.rate) + Problem(p.start) + Problem(p.end)
    + Problem(p.principal) + Problem(p.interest) + Problem(p.fee)
    + Code(Unbalanced(p), "BALANCE_COMPONENT_MISMATCH")
    + Problem(p.overdue) + Problem(p.contact)
    + Code(p.start.Ok? && p.end.Ok? && p.end.value < p.start.value, "INVALID_MANDATE_RANGE")
    + Code(p.start.Ok? && p.end.Ok? && p.end.value < today, "MANDATE_EXPIRED")
  }

  // ---------------------------------------------------------------- the rows of a file

  /** `cases`, `titles` and `rules` are what the rows before have claimed. */
  datatype Reading = Reading(
    rows: seq<Row>, issues: seq<Issue>, cases: set<string>, titles: map<string, string>,
    rules: map<string, (string, int)>)

  function SetDefault<V>(m: map<string, V>, k: string, v: V): map<string, V> { if k in m then m else m[k := v] }

  function RowIssues(number: nat, codes: seq<string>): (r: seq<Issue>)
    ensures |r| == |codes|
    ensures forall i :: 0 <= i < |r| ==> r[i] == Issue(Some(number), true, codes[i])
  {
    seq(|codes|, i requires 0 <= i < |codes| => Issue(Some(number), true, codes[i]))
  }

  /** The conflicts of a row with the rows before it. */
  function ClashIssues(s: Reading, row: map<string, string>, p: Parsed): seq<string> {
    var pid, title, rid := Get(row, "package_id"), Get(row, "package_title"), Get(row, "commission_rule_id");
    Code(Get(row, "case_id") in s.cases, "DUPLICATE_IN_FILE")
    + Code(pid in s.titles && s.titles[pid] != title, "PACKAGE_TITLE_CONFLICT")
    + Code(p.rate.Ok? && rid in s.rules && s.rules[rid] != (pid, p.rate.value), "COMMISSION_RULE_CONFLICT")
  }

  function Claim(s: Reading, row: map<string, string>, p: Parsed): Reading {
    var pid := Get(row, "package_id");
    s.(cases := s.cases + {Get(row, "case_id")},
       titles := SetDefault(s.titles, pid, Get(row, "package_title")),
       rules := if p.rate.Err? then s.rules
                else SetDefault(s.rules, Get(row, "commission_rule_id"), (pid, p.rate.value)))
  }

  predicate Complete(p: Parsed) {
    p.balance.Ok? && p.rate.Ok? && p.start.Ok? && p.end.Ok? && p.principal.Ok? && p.interest.Ok? && p.fee.Ok?
    && p.overdue.Ok? && p.contact.Ok?
  }

  lemma CompleteWithoutIssues(p: Parsed, today: int)
    requires ValueIssues(p, today) == []
    ensures Complete(p) && !Unbalanced(p) && p.start.value <= p.end.value && today <= p.end.value
  {
    var n := |Problem(p.balance)| + |Problem(p.rate)| + |Problem(p.start)| + |Problem(p.end)|
      + |Problem(p.principal)| + |Problem(p.interest)| + |Problem(p.fee)|;
    assert |ValueIssues(p, today)| >= n;
  }

  function RowOf(number: nat, row: map<string, string>, p: Parsed): Row
    requires Complete(p) && 1 <= p.rate.value <= 10_000
  {
    Row(number, Get(row, "package_id"), Get(row, "package_title"), Get(row, "case_id"), Status(row), p.balance.value,
        p.start.value, p.end.value, Get(row, "commission_rule_id"), p.rate.value, Get(row, "contact_basis_ref"),
        p.principal.value, p.interest.value, p.fee.value, p.overdue.value, p.contact.value)
  }

  /** Everything that is wrong with a row. */
  function Codes(s: Reading, row: map<string, string>, p: Parsed, today: int): seq<string> {
    TextIssues(row) + ValueIssues(p, today) + Code(Status(row) !in STATUSES, "UNSAFE_INITIAL_STATUS")
        + ClashIssues(s, row, p)
  }

  lemma NoCodes(s: Reading, row: map<string, string>, p: Parsed, today: int)
    requires Codes(s, row, p, today) == []
    ensures TextIssues(row) == ValueIssues(p, today) == ClashIssues(s, row, p) == [] && Status(row) in STATUSES
        && Complete(p)
  {
    var codes := Codes(s, row, p, today);
    assert |codes| == |TextIssues(row)| + |ValueIssues(p, today)|
      + |Code(Status(row) !in STATUSES, "UNSAFE_INITIAL_STATUS")| + |ClashIssues(s, row, p)|;
    CompleteWithoutIssues(p, today);
  }

  function ReadRow(s: Reading, number: nat, headers: seq<string>, cells: seq<string>, today: int, lib: Lib): Reading {
    if |cells| != |headers| then s.(issues := s.issues + RowIssues(number, ["COLUMN_COUNT_MISMATCH"]))
    else
      var row := Fields(headers, cells);
      var p := ParseCells(row, lib);
      var codes := Codes(s, row, p, today);
      var next := Claim(s, row, p);
      if codes != [] then next.(issues := s.issues + RowIssues(number, codes))
      else
        NoCodes(s, row, p, today);
        next.(rows := s.rows + [RowOf(number, row, p)])
  }

  const Unread := Reading([], [], {}, map[], map[])

  /** The loop over the first `n` data rows; the file's rows are numbered from 2. */
  function ReadRows(headers: seq<string>, records: seq<seq<string>>, n: nat, today: int, lib: Lib): Reading
    requires n <= |records|
  {
    if n == 0 then Unread
    else ReadRow(ReadRows(headers, records, n - 1, today, lib), n + 1, headers, records[n - 1], today, lib)
  }

  function NonBlank(records: seq<seq<string>>): seq<seq<string>> {
    if records == [] then []
    else (if exists c :: c in records[0] && c != "" then [records[0]] else []) + NonBlank(records[1..])
  }

  /** `_parse_csv`: accepted rows, issues and the number of data rows. */
  function ParseFile(text: string, today: int, lib: Lib): (seq<Row>, seq<Issue>, nat) {
    match lib.cells(text)
    case None => ([], Global(true, "MALFORMED_CSV"), 0)
    case Some(all) =>
      var records := NonBlank(all);
      if records == [] then ([], Global(true, "EMPTY_FILE"), 0)
      else
        var headers, data := Headers(records[0]), records[1..];
        var issues := HeaderIssues(headers, |data|, lib);
        if issues != [] then ([], issues, |data|)
        else var s := ReadRows(headers, data, |data|, today, lib); (s.rows, s.issues, |data|)
  }

  // ---------------------------------------------------------------- preview

  predicate Versioned(rules: seq<Rule>, ruleId: string) { exists i :: 0 <= i < |rules| && rules[i].ruleId == ruleId }

  predicate MatchingRule(rule: Rule, r: Row) {
    rule.ruleId == r.ruleId && rule.active && rule.packageId == r.packageId && rule.rate == r.rate
  }

  predicate HasMatch(rules: seq<Rule>, r: Row) { exists i :: 0 <= i < |rules| && MatchingRule(rules[i], r) }

  /** The tables take a row: its package, if present, has the row's title, and its rule, if it has
      any version, has an active one for the row's package and rate. */
  predicate Fits(t: Tables, r: Row) {
    && (r.packageId in t.packages ==> t.packages[r.packageId].title == r.title)
    && (Versioned(t.rules, r.ruleId) ==> HasMatch(t.rules, r))
  }

  datatype Screened = Screened(accepted: seq<Row>, issues: seq<Issue>, duplicates: nat)

  function ScreenRow(t: Tables, s: Screened, r: Row): Screened {
    if r.caseId in t.cases then
      s.(duplicates := s.duplicates + 1, issues := s.issues + [Issue(Some(r.number), false, "EXISTING_CASE_SKIPPED")])
    else if r.packageId in t.packages && t.packages[r.packageId].title != r.title then
      s.(issues := s.issues + [Issue(Some(r.number), true, "EXISTING_PACKAGE_CONFLICT")])
    else if Versioned(t.rules, r.ruleId) && !HasMatch(t.rules, r) then
      s.(issues := s.issues + [Issue(Some(r.number), true, "EXISTING_COMMISSION_RULE_CONFLICT")])
    else s.(accepted := s.accepted + [r])
  }

  function ScreenRows(t: Tables, rows: seq<Row>, issues: seq<Issue>): Screened {
    if rows == [] then Screened([], issues, 0)
    else ScreenRow(t, ScreenRows(t, rows[..|rows| - 1], issues), rows[|rows| - 1])
  }

  function InvalidRows(issues: seq<Issue>): set<nat> {
    set i | 0 <= i < |issues| && issues[i].error && issues[i].row.Some? :: issues[i].row.value
  }

  predicate GlobalError(issues: seq<Issue>) { exists i :: 0 <= i < |issues| && issues[i].error && issues[i].row.None? }

  datatype BatchStatus = Ready | Blocked | Committed

  datatype Batch = Batch(
    key: string, text: string, status: BatchStatus, version: nat, rowCount: nat, valid: nat, invalid: nat,
    duplicates: nat, packages: nat, balance: int, rows: seq<Row>, issues: seq<Issue>, createdBy: string,
    committedBy: Option<string>, note: Option<string>)

  function Balance(rows: seq<Row>): int {
    if rows == [] then 0 else Balance(rows[..|rows| - 1]) + rows[|rows| - 1].balance
  }

  function BatchOf(t: Tables, actor: string, key: string, text: string, today: int, lib: Lib): Batch {
    var (rows, found, count) := ParseFile(text, today, lib);
    var s := ScreenRows(t, rows, found);
    var invalid, global := InvalidRows(s.issues), GlobalError(s.issues);
    Batch(key, text, if global || invalid != {} || s.accepted == [] then Blocked else Ready, 1, count, |s.accepted|,
          if invalid != {} then |invalid| else if global then count else 0, s.duplicates,
          |set i | 0 <= i < |s.accepted| :: s.accepted[i].packageId|, Balance(s.accepted), s.accepted, s.issues,
          actor, None, None)
  }

  // ---------------------------------------------------------------- state

  /** A batch's identifier is its place in `batches`. */
  datatype State = State(tables: Tables, batches: seq<Batch>)

  datatype Error =
    | IdempotencyConflict | BatchNotFound | BatchBlocked | StaleBatch | SelfApproval
    | StaleCase | StalePackage | StaleRule

  datatype Outcome = Done(id: nat) | Replayed(id: nat) | Denied(error: Error)

  function FindKey(batches: seq<Batch>, key: string): Option<nat> {
    if batches == [] then None
    else if batches[|batches| - 1].key == key then Some(|batches| - 1)
    else FindKey(batches[..|batches| - 1], key)
  }

  function PreviewStep(s: State, actor: string, key: string, text: string, today: int, lib: Lib): (State, Outcome) {
    match FindKey(s.batches, key)
    case Some(id) =>
      if id < |s.batches| && s.batches[id].text == text then (s, Replayed(id)) else (s, Denied(IdempotencyConflict))
    case None => (s.(batches := s.batches + [BatchOf(s.tables, actor, key, text, today, lib)]), Done(|s.batches|))
  }

  /** The tables while a batch is written, with the packages and rules this batch created. */
  datatype Writing = Writing(tables: Tables, packages: set<string>, rules: set<string>)

  function NewCase(r: Row): CaseRecord { CaseRecord(r.packageId, r.status, false, false, Some(r.contact)) }

  function NewProfile(r: Row): Profile {
    Profile(r.ruleId, r.balance, r.principal, r.interest, r.fee, r.firstOverdue, r.lastContact,
            r.mandateStart, r.mandateEnd, None, None, false)
  }

  /** One turn of the commit loop; `t` is what the loop read before it began. */
  function WriteRow(t: Tables, w: Writing, r: Row): Result<Writing, Error> {
    if r.packageId in t.packages && t.packages[r.packageId].title != r.title then Err(StalePackage)
    else
      var addPackage := r.packageId !in t.packages && r.packageId !in w.packages;
      var packages := if addPackage then w.tables.packages[r.packageId := Package(r.title, false)]
        else w.tables.packages;
      if Versioned(t.rules, r.ruleId) && !HasMatch(t.rules, r) then Err(StaleRule)
      else
        var addRule := !Versioned(t.rules, r.ruleId) && r.ruleId !in w.rules;
        var rules := if addRule then w.tables.rules + [Rule(r.ruleId, 1, r.packageId, r.rate, true)]
          else w.tables.rules;
        Ok(Writing(Tables(packages, rules, w.tables.cases[r.caseId := NewCase(r)],
                          w.tables.profiles[r.caseId := NewProfile(r)]),
                   if addPackage then w.packages + {r.packageId} else w.packages,
                   if addRule then w.rules + {r.ruleId} else w.rules))
  }

  function WriteRows(t: Tables, rows: seq<Row>, n: nat): Result<Writing, Error>
    requires n <= |rows|
  {
    if n == 0 then Ok(Writing(t, {}, {}))
    else
      match WriteRows(t, rows, n - 1)
      case Err(e) => Err(e)
      case Ok(w) => WriteRow(t, w, rows[n - 1])
  }

  predicate Absent(t: Tables, rows: seq<Row>) { forall i :: 0 <= i < |rows| ==> rows[i].caseId !in t.cases }

  function CommitStep(s: State, actor: string, id: nat, expected: nat, note: string): (State, Outcome) {
    if id >= |s.batches| then (s, Denied(BatchNotFound))
    else
      var b := s.batches[id];
      if b.status == Committed then (s, Replayed(id))
      else if b.status != Ready then (s, Denied(BatchBlocked))
      else if b.version != expected then (s, Denied(StaleBatch))
      else if b.createdBy == actor then (s, Denied(SelfApproval))
      else if !Absent(s.tables, b.rows) then (s, Denied(StaleCase))
      else
        match WriteRows(s.tables, b.rows, |b.rows|)
        case Err(e) => (s, Denied(e))
        case Ok(w) =>
          var done := b.(status := Committed, version := b.version + 1, committedBy := Some(actor), note := Some(note));
          (State(w.tables, s.batches[id := done]), Done(id))
  }

  /** `Elsewhere` is any other operation, which leaves the given tables behind. */
  datatype Action =
    | Preview(actor: string, key: string, text: string, today: int)
    | Commit(actor: string, id: nat, expected: nat, note: string)
    | Elsewhere(tables: Tables)

  function Step(s: State, a: Action, lib: Lib): State {
    match a
    case Preview(actor, key, text, today) => PreviewStep(s, actor, key, text, today, lib).0
    case Commit(actor, id, expected, note) => CommitStep(s, actor, id, expected, note).0
    case Elsewhere(tables) => s.(tables := tables)
  }

  function Run(tables: Tables, actions: seq<Action>, lib: Lib): State {
    if actions == [] then State(tables, [])
    else Step(Run(tables, actions[..|actions| - 1], lib), actions[|actions| - 1], lib)
  }
}
