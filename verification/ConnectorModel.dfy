/** The incremental pull of one customer connector, with every commit a step of its own: pulls by
    any number of workers, configuration, tests, enabling and crashes interleave freely. */
module ConnectorModel {
  import opened Registry
  import opened Strings

  // ---------------------------------------------------------------- pages

  datatype Value = Text(text: string) | Number(number: int) | Other

  /** One fetched event: identifier and reference as received, records as field maps. */
  datatype RawEvent = RawEvent(id: Option<string>, reference: Option<string>, records: seq<map<string, Value>>)

  datatype Page = Page(events: seq<RawEvent>, next: string)

  datatype Payload = Payload(reference: Option<string>, rows: seq<seq<string>>)

  datatype Event = Event(id: string, payload: Payload)

  /** `mapping` names the customer's column for each of the three fields. */
  datatype Config = Config(endpoint: string, mapping: map<string, string>)

  /** The schema of an event and the row parser, called but not modelled here. */
  datatype Checks = Checks(schema: (string, Option<string>) -> bool, rows: seq<seq<string>> -> bool)

  const FIELDS := ["case_id", "payment_cents", "refund_cents"]
  const MAX_EVENTS := 20
  const MAX_RECORDS := 50
  const MAX_CURSOR := 500

  predicate ValidCursor(c: string) {
    |c| <= MAX_CURSOR && forall i :: 0 <= i < |c| ==> ' ' <= c[i] != '\U{7f}'
  }

  function Cell(v: Value): Option<string> {
    match v
    case Text(s) => Some(s)
    case Number(n) => Some(if n < 0 then "-" + Decimal(-n) else Decimal(n))
    case Other => None
  }

  /** A record's cells in field order, if every mapped field is present and printable. */
  function Cells(record: map<string, Value>, mapping: map<string, string>, fields: seq<string>): Option<seq<string>> {
    if fields == [] then Some([])
    else if fields[0] !in mapping || mapping[fields[0]] !in record then None
    else
      match (Cell(record[mapping[fields[0]]]), Cells(record, mapping, fields[1..]))
      case (Some(cell), Some(rest)) => Some([cell] + rest)
      case _ => None
  }

  function Rows(records: seq<map<string, Value>>, mapping: map<string, string>): Option<seq<seq<string>>> {
    if records == [] then Some([])
    else
      match (Cells(records[0], mapping, FIELDS), Rows(records[1..], mapping))
      case (Some(row), Some(rest)) => Some([row] + rest)
      case _ => None
  }

  function Normalized(e: RawEvent, mapping: map<string, string>, checks: Checks): Option<Event> {
    if !(1 <= |e.records| <= MAX_RECORDS) || e.id.None? || !checks.schema(e.id.value, e.reference) then None
    else
      match Rows(e.records, mapping)
      case Some(rows) => if checks.rows(rows) then Some(Event(e.id.value, Payload(e.reference, rows))) else None
      case None => None
  }

  function NormalizedAll(es: seq<RawEvent>, mapping: map<string, string>, checks: Checks): Option<seq<Event>> {
    if es == [] then Some([])
    else
      match (NormalizedAll(es[..|es| - 1], mapping, checks), Normalized(es[|es| - 1], mapping, checks))
      case (Some(before), Some(e)) =>
        if exists i :: 0 <= i < |before| && before[i].id == e.id then None else Some(before + [e])
      case _ => None
  }

  /** `normalize_page`: the events of a page that may be taken in after cursor `cursor`. */
  function Intake(page: Page, cursor: string, mapping: map<string, string>, checks: Checks): Option<seq<Event>> {
    if |page.events| > MAX_EVENTS || !ValidCursor(page.next) || (page.next == cursor && page.events != []) then None
    else NormalizedAll(page.events, mapping, checks)
  }

  // ---------------------------------------------------------------- state

  datatype JobStatus = Queued | Running | Succeeded | Failed | Cancelled

  /** `grant` counts the changes of responsible administrator before the job was submitted. */
  datatype Job = Job(version: nat, actor: string, status: JobStatus, attempt: nat, maxAttempts: nat, grant: nat)

  /** A worker inside `process_pull`: what it read, and how much of the page it stored. */
  datatype Pull = Pull(job: nat, version: nat, config: Config, cursor: string, events: seq<Event>, next: string,
                       stored: nat, checked: bool)

  datatype TestRun = TestRun(version: nat, config: Config, cursor: string)

  datatype EventKey = EventKey(source: string, id: string)

  /** A successful cursor move, with the pull that made it. */
  datatype Move = Move(pull: Pull, grant: nat)

  datatype Row = Row(version: nat, config: Config, enabled: bool, testedAt: Option<int>, cursor: string,
                     activeJob: Option<nat>, enabledBy: Option<string>)

  /** `configs`, `passed`, `grant` and `moves` are history: what each version configured, which
      versions passed a test, how often responsibility changed, and the moves of the cursor. */
  datatype State = State(
    row: Row, jobs: seq<Job>, events: map<EventKey, Payload>, pulls: map<nat, Pull>, tests: map<nat, TestRun>,
    configs: map<nat, Config>, passed: set<nat>, grant: nat, moves: seq<Move>)

  datatype Action =
    | Configure(expected: nat, config: Config)
    | BeginTest(test: nat, expected: nat)
    | FinishTest(test: nat, page: Page, now: int)
    | Enable(expected: nat, actor: string, on: bool, now: int)
    | Submit(actor: string, maxAttempts: nat, now: int)
    | SetJob(job: nat, status: JobStatus, attempt: nat)
    | BeginPull(worker: nat, job: nat, page: Page, now: int)
    | CheckEvent(worker: nat)
    | StoreEvent(worker: nat)
    | Advance(worker: nat)
    | Crash(worker: nat)
    | Receive(key: EventKey, payload: Payload)

  const DAY := 86_400
  const SELF := "connector"

  function Created(config: Config): State {
    State(Row(1, config, false, None, "", None, None), [], map[], map[], map[], map[1 := config], {}, 0, [])
  }

  predicate TestCurrent(row: Row, now: int) { row.testedAt.Some? && row.testedAt.value > now - DAY }

  function Without<V>(m: map<nat, V>, k: nat): map<nat, V> { m - {k} }

  /** `persist_event`: one payload per source and event id; None is the conflict. */
  function Persist(events: map<EventKey, Payload>, k: EventKey, p: Payload): Option<map<EventKey, Payload>> {
    if k in events then (if events[k] == p then Some(events) else None) else Some(events[k := p])
  }

  // ---------------------------------------------------------------- steps

  function ConfigureStep(s: State, expected: nat, config: Config): State {
    if expected != s.row.version then s
    else
      var version := s.row.version + 1;
      s.(row := s.row.(version := version, config := config, enabled := false, testedAt := None),
         configs := s.configs[version := config])
  }

  function BeginTestStep(s: State, test: nat, expected: nat): State {
    if expected != s.row.version || test in s.tests then s
    else s.(row := s.row.(enabled := false, testedAt := None),
            tests := s.tests[test := TestRun(s.row.version, s.row.config, s.row.cursor)])
  }

  function FinishTestStep(s: State, test: nat, page: Page, now: int, checks: Checks): State {
    if test !in s.tests then s
    else
      var run := s.tests[test];
      var done := s.(tests := Without(s.tests, test));
      if Intake(page, run.cursor, run.config.mapping, checks).None? || run.version != s.row.version then done
      else done.(row := s.row.(testedAt := Some(now)), passed := s.passed + {run.version})
  }

  function EnableStep(s: State, expected: nat, actor: string, on: bool, now: int): State {
    if expected != s.row.version || (on && !TestCurrent(s.row, now)) then s
    else
      var handover := on && s.row.enabledBy != Some(actor);
      s.(row := s.row.(enabled := on, enabledBy := if on then Some(actor) else None,
                       activeJob := if handover then None else s.row.activeJob),
         grant := if handover then s.grant + 1 else s.grant)
  }

  function SubmitStep(s: State, actor: string, maxAttempts: nat, now: int): State {
    if !s.row.enabled || !TestCurrent(s.row, now) then s
    else
      var waiting :=
        && s.row.activeJob.Some? && s.row.activeJob.value < |s.jobs|
        && var job := s.jobs[s.row.activeJob.value];
        || job.status == Queued || job.status == Running
        || (job.status == Failed && job.attempt < job.maxAttempts && job.version == s.row.version);
      if waiting then s
      else s.(jobs := s.jobs + [Job(s.row.version, actor, Queued, 0, maxAttempts, s.grant)],
              row := s.row.(activeJob := Some(|s.jobs|)))
  }

  function BeginPullStep(s: State, worker: nat, j: nat, page: Page, now: int, checks: Checks): State {
    if worker in s.pulls || j >= |s.jobs| then s
    else
      var row, job := s.row, s.jobs[j];
      if row.version != job.version || !row.enabled || !TestCurrent(row, now) || row.activeJob != Some(j) then s
      else
        match Intake(page, row.cursor, row.config.mapping, checks)
        case None => s
        case Some(events) =>
          s.(pulls := s.pulls[worker := Pull(j, job.version, row.config, row.cursor, events, page.next, 0, false)])
  }

  function CheckEventStep(s: State, worker: nat): State {
    if worker !in s.pulls || s.pulls[worker].stored >= |s.pulls[worker].events| then s
    else
      var p := s.pulls[worker];
      if s.row.version != p.version || !s.row.enabled || s.row.activeJob != Some(p.job)
      then s.(pulls := Without(s.pulls, worker))
      else s.(pulls := s.pulls[worker := p.(checked := true)])
  }

  function StoreEventStep(s: State, worker: nat): State {
    if worker !in s.pulls || !s.pulls[worker].checked || s.pulls[worker].stored >= |s.pulls[worker].events| then s
    else
      var p := s.pulls[worker];
      var e := p.events[p.stored];
      match Persist(s.events, EventKey(SELF, e.id), e.payload)
      case None => s.(pulls := Without(s.pulls, worker))
      case Some(events) =>
        s.(events := events, pulls := s.pulls[worker := p.(stored := p.stored + 1, checked := false)])
  }

  /** The compare-and-set on version, enabled, cursor and active job. */
  predicate MayAdvance(row: Row, p: Pull) {
    row.version == p.version && row.enabled && row.cursor == p.cursor && row.activeJob == Some(p.job)
  }

  function AdvanceStep(s: State, worker: nat): State {
    if worker !in s.pulls || s.pulls[worker].stored != |s.pulls[worker].events| then s
    else
      var p := s.pulls[worker];
      var done := s.(pulls := Without(s.pulls, worker));
      if !MayAdvance(s.row, p) then done
      else done.(row := s.row.(cursor := p.next), moves := s.moves + [Move(p, s.grant)])
  }

  function ReceiveStep(s: State, k: EventKey, p: Payload): State {
    match Persist(s.events, k, p)
    case None => s
    case Some(events) => s.(events := events)
  }

  function Step(s: State, a: Action, checks: Checks): State {
    match a
    case Configure(expected, config) => ConfigureStep(s, expected, config)
    case BeginTest(test, expected) => BeginTestStep(s, test, expected)
    case FinishTest(test, page, now) => FinishTestStep(s, test, page, now, checks)
    case Enable(expected, actor, on, now) => EnableStep(s, expected, actor, on, now)
    case Submit(actor, max, now) => SubmitStep(s, actor, max, now)
    case SetJob(j, status, attempt) =>
      if j < |s.jobs| then s.(jobs := s.jobs[j := s.jobs[j].(status := status, attempt := attempt)]) else s
    case BeginPull(worker, j, page, now) => BeginPullStep(s, worker, j, page, now, checks)
    case CheckEvent(worker) => CheckEventStep(s, worker)
    case StoreEvent(worker) => StoreEventStep(s, worker)
    case Advance(worker) => AdvanceStep(s, worker)
    case Crash(worker) => s.(pulls := Without(s.pulls, worker))
    case Receive(k, p) => ReceiveStep(s, k, p)
  }

  function Run(config: Config, actions: seq<Action>, checks: Checks): State {
    if actions == [] then Created(config)
    else Step(Run(config, actions[..|actions| - 1], checks), actions[|actions| - 1], checks)
  }
}
