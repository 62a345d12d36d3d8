/** What every commit of a customer connector does, told from the row and the request; and what a pull may
    still store once the connector no longer stands behind it. */
module ConnectorOutcomes {
  import opened Registry
  import opened Strings
  import opened ConnectorModel
  import opened ConnectorResults

  // ---------------------------------------------------------------- pages

  /** The cell of a record that the customer's column for `field` holds, as text. */
  predicate Holds(record: map<string, Value>, mapping: map<string, string>, field: string, cell: string) {
    && field in mapping && mapping[field] in record
    && match record[mapping[field]]
       case Text(s) => cell == s
       case Number(n) => cell == if n < 0 then "-" + Decimal(-n) else Decimal(n)
       case Other => false
  }

  /** A row is case, payment and refund, in this order. */
  predicate IsRow(record: map<string, Value>, mapping: map<string, string>, row: seq<string>) {
    && |row| == 3 && Holds(record, mapping, "case_id", row[0]) && Holds(record, mapping, "payment_cents", row[1])
    && Holds(record, mapping, "refund_cents", row[2])
  }

  predicate AreRows(records: seq<map<string, Value>>, mapping: map<string, string>, rows: seq<seq<string>>) {
    |rows| == |records| && forall i :: 0 <= i < |rows| ==> IsRow(records[i], mapping, rows[i])
  }

  lemma CellsStep(record: map<string, Value>, mapping: map<string, string>, fields: seq<string>, row: seq<string>)
    ensures Cells(record, mapping, fields) == Some(row) <==>
      if fields == [] then row == []
      else
        row != [] && Holds(record, mapping, fields[0], row[0])
        && Cells(record, mapping, fields[1..]) == Some(row[1..])
  {
    if row != [] { assert row == [row[0]] + row[1..]; }
  }

  lemma CellsIff(record: map<string, Value>, mapping: map<string, string>, row: seq<string>)
    ensures Cells(record, mapping, FIELDS) == Some(row) <==> IsRow(record, mapping, row)
  {
    assert FIELDS[1..] == ["payment_cents", "refund_cents"];
    CellsStep(record, mapping, FIELDS, row);
    if |row| > 0 { CellsStep(record, mapping, FIELDS[1..], row[1..]); }
    if |row| > 1 { CellsStep(record, mapping, FIELDS[1..][1..], row[1..][1..]); }
    if |row| > 2 { CellsStep(record, mapping, FIELDS[1..][1..][1..], row[1..][1..][1..]); }
  }

  lemma {:induction false} RowsIff(records: seq<map<string, Value>>, mapping: map<string, string>,
                                   rows: seq<seq<string>>)
    ensures Rows(records, mapping) == Some(rows) <==> AreRows(records, mapping, rows)
  {
    if records != [] && rows != [] {
      CellsIff(records[0], mapping, rows[0]);
      RowsIff(records[1..], mapping, rows[1..]);
      assert rows == [rows[0]] + rows[1..];
    }
  }

  /** What an accepted event is: its identifier, its reference and the rows of its 1 to 50 records. */
  predicate IsEvent(e: RawEvent, mapping: map<string, string>, checks: Checks, out: Event) {
    && 1 <= |e.records| <= 50 && e.id == Some(out.id) && checks.schema(out.id, e.reference)
    && out.payload.reference == e.reference && AreRows(e.records, mapping, out.payload.rows)
    && checks.rows(out.payload.rows)
  }

  lemma NormalizedIff(e: RawEvent, mapping: map<string, string>, checks: Checks, out: Event)
    ensures Normalized(e, mapping, checks) == Some(out) <==> IsEvent(e, mapping, checks, out)
  {
    RowsIff(e.records, mapping, out.payload.rows);
  }

  lemma {:induction false} NormalizedAllIff(es: seq<RawEvent>, mapping: map<string, string>, checks: Checks,
                                            out: seq<Event>)
    ensures NormalizedAll(es, mapping, checks) == Some(out) <==>
      && |out| == |es| && (forall i :: 0 <= i < |out| ==> IsEvent(es[i], mapping, checks, out[i]))
      && (forall i, j :: 0 <= i < j < |out| ==> out[i].id != out[j].id)
  {
    if es != [] && out != [] {
      var n, m := |es| - 1, |out| - 1;
      NormalizedAllIff(es[..n], mapping, checks, out[..m]);
      NormalizedIff(es[n], mapping, checks, out[m]);
      assert out == out[..m] + [out[m]];
    }
  }

  /** A page is taken in exactly when it has at most 20 events, all of them acceptable under distinct
      identifiers, and its next cursor is printable, of at most 500 characters, and new unless the page is empty. */
  lemma IntakeIff(page: Page, cursor: string, mapping: map<string, string>, checks: Checks, out: seq<Event>)
    ensures Intake(page, cursor, mapping, checks) == Some(out) <==>
      && |page.events| <= 20 && |out| == |page.events|
      && |page.next| <= 500 && (forall i :: 0 <= i < |page.next| ==> 32 <= page.next[i] as int != 127)
      && (page.next == cursor ==> page.events == [])
      && (forall i :: 0 <= i < |out| ==> IsEvent(page.events[i], mapping, checks, out[i]))
      && (forall i, j :: 0 <= i < j < |out| ==> out[i].id != out[j].id)
  {
    NormalizedAllIff(page.events, mapping, checks, out);
  }

  // ---------------------------------------------------------------- administration

  /** A test counts for a day. */
  predicate Tested(row: Row, now: int) { row.testedAt.Some? && now < row.testedAt.value + 86_400 }

  /** Reconfiguring takes the version it expects, makes the next one, and disables the connector untested; the
      cursor and the active job stay. */
  lemma ConfigureIs(s: State, expected: nat, config: Config)
    ensures var n, v := ConfigureStep(s, expected, config), s.row.version + 1;
      if expected != s.row.version then n == s
      else
        n == s.(row := Row(v, config, false, None, s.row.cursor, s.row.activeJob, s.row.enabledBy),
                configs := s.configs[v := config])
  {
  }

  /** A test disables the connector before it asks the customer, and counts only when the page it fetched is
      acceptable and the version is still the one it began at. */
  lemma TestIs(s: State, test: nat, expected: nat, page: Page, now: int, checks: Checks)
    ensures var n := BeginTestStep(s, test, expected);
      if expected != s.row.version || test in s.tests then n == s
      else
        n == s.(row := s.row.(enabled := false, testedAt := None),
                tests := s.tests[test := TestRun(s.row.version, s.row.config, s.row.cursor)])
    ensures test in s.tests ==>
      var n, run := FinishTestStep(s, test, page, now, checks), s.tests[test];
      && n.tests == s.tests - {test}
      && if run.version == s.row.version && Intake(page, run.cursor, run.config.mapping, checks).Some?
         then n == s.(row := s.row.(testedAt := Some(now)), tests := n.tests, passed := s.passed + {run.version})
         else n == s.(tests := n.tests)
    ensures test !in s.tests ==> FinishTestStep(s, test, page, now, checks) == s
  {
  }

  /** Enabling needs the expected version and a test less than a day old, disabling the version only. Another
      administrator unbinds the active job; disabling leaves it, and nobody responsible. */
  lemma EnableIs(s: State, expected: nat, actor: string, on: bool, now: int)
    ensures var n := EnableStep(s, expected, actor, on, now);
      var changes := s.row.enabledBy != Some(actor);
      if expected != s.row.version || (on && !Tested(s.row, now)) then n == s
      else if on then
        n == s.(row := s.row.(enabled := true, enabledBy := Some(actor),
                              activeJob := if changes then None else s.row.activeJob),
                grant := if changes then s.grant + 1 else s.grant)
      else n == s.(row := s.row.(enabled := false, enabledBy := None))
  {
  }

  /** A job the connector waits for: queued, running, or failed with attempts left at the current version. */
  predicate Waiting(s: State) {
    && s.row.activeJob.Some? && s.row.activeJob.value < |s.jobs|
    && var job := s.jobs[s.row.activeJob.value];
    match job.status
    case Queued => true
    case Running => true
    case Failed => job.attempt < job.maxAttempts && job.version == s.row.version
    case Succeeded => false
    case Cancelled => false
  }

  /** A job is submitted exactly when the connector is enabled, tested within a day, and waits for none. */
  lemma SubmitIs(s: State, actor: string, maxAttempts: nat, now: int)
    ensures var n := SubmitStep(s, actor, maxAttempts, now);
      if s.row.enabled && Tested(s.row, now) && !Waiting(s)
      then n == s.(jobs := s.jobs + [Job(s.row.version, actor, Queued, 0, maxAttempts, s.grant)],
                   row := s.row.(activeJob := Some(|s.jobs|)))
      else n == s
  {
  }

  // ---------------------------------------------------------------- pulls

  /** The connector stands behind a job of a version: this is its version, it is enabled, and the job is its own. */
  predicate Stands(row: Row, version: nat, job: nat) {
    row.version == version && row.enabled && row.activeJob == Some(job)
  }

  /** A free worker begins a pull exactly for a job that the connector stands behind, while the test counts and
      the fetched page is acceptable. */
  lemma BeginPullIs(s: State, worker: nat, j: nat, page: Page, now: int, checks: Checks)
    ensures var n, row := BeginPullStep(s, worker, j, page, now, checks), s.row;
      var taken := Intake(page, row.cursor, row.config.mapping, checks);
      if worker !in s.pulls && j < |s.jobs| && Stands(row, s.jobs[j].version, j) && Tested(row, now) && taken.Some?
      then
        n == s.(pulls := s.pulls[worker := Pull(j, row.version, row.config, row.cursor, taken.value, page.next, 0,
                                                false)])
      else n == s
  {
  }

  /** Between two events a pull goes on exactly while the connector stands behind its job and version; otherwise
      it ends. */
  lemma CheckIs(s: State, worker: nat)
    requires worker in s.pulls && s.pulls[worker].stored < |s.pulls[worker].events|
    ensures var n, p := CheckEventStep(s, worker), s.pulls[worker];
      n == s.(pulls := if Stands(s.row, p.version, p.job) then s.pulls[worker := p.(checked := true)]
                       else s.pulls - {worker})
  {
  }

  /** Whatever a step is, if it leaves a pull checked that was not, it found the connector behind that pull. */
  lemma CheckedWhileStanding(s: State, a: Action, checks: Checks, w: nat)
    requires var n := Step(s, a, checks);
      w in n.pulls && n.pulls[w].checked && !(w in s.pulls && s.pulls[w].checked)
    ensures a == CheckEvent(w) && w in s.pulls && Stands(s.row, s.pulls[w].version, s.pulls[w].job)
    ensures Step(s, a, checks).pulls[w] == s.pulls[w].(checked := true)
  {
  }

  /** Whatever a step is, if it stores one more event of a pull, that event was checked, and is the next one; it is
      now in the store and another check is due. A step that finds the event stored differently ends the pull. */
  lemma StoredWhenChecked(s: State, a: Action, checks: Checks, w: nat)
    requires var n := Step(s, a, checks); w in s.pulls && w in n.pulls && n.pulls[w].stored != s.pulls[w].stored
    ensures var n, p := Step(s, a, checks), s.pulls[w];
      && a == StoreEvent(w) && p.checked && p.stored < |p.events|
      && n.pulls[w] == p.(stored := p.stored + 1, checked := false)
      && var e := p.events[p.stored];
      && n.events == s.events[EventKey("connector", e.id) := e.payload]
      && (EventKey("connector", e.id) in s.events ==> s.events[EventKey("connector", e.id)] == e.payload)
  {
    if a.StoreEvent? && a.worker == w {
      var e := s.pulls[w].events[s.pulls[w].stored];
      var k := EventKey(SELF, e.id);
      if k in s.events && s.events[k] == e.payload { assert s.events[k := e.payload] == s.events; }
    } else {
      OthersKeepStored(s, a, checks, w);
    }
  }

  lemma OthersKeepStored(s: State, a: Action, checks: Checks, w: nat)
    requires w in s.pulls && w in Step(s, a, checks).pulls && a != StoreEvent(w)
    ensures Step(s, a, checks).pulls[w].(checked := false) == s.pulls[w].(checked := false)
  {
  }

  /** A pull advances the cursor exactly when all its events are stored, the connector stands behind it, and the
      cursor is where it began; either way it ends there. */
  lemma AdvanceIs(s: State, worker: nat)
    requires worker in s.pulls && s.pulls[worker].stored == |s.pulls[worker].events|
    ensures var n, p := AdvanceStep(s, worker), s.pulls[worker];
      if Stands(s.row, p.version, p.job) && s.row.cursor == p.cursor
      then n == s.(row := s.row.(cursor := p.next), pulls := s.pulls - {worker}, moves := s.moves + [Move(p, s.grant)])
      else n == s.(pulls := s.pulls - {worker})
  {
  }

  /** An event of any source is stored once, and kept. */
  lemma ReceiveIs(s: State, k: EventKey, p: Payload)
    ensures ReceiveStep(s, k, p) == if k in s.events then s else s.(events := s.events[k := p])
  {
  }

  // ---------------------------------------------------------------- once the connector turns away

  /** Worker `w` has a pull of this job and version that has checked its next event. */
  predicate CheckedFor(s: State, w: nat, version: nat, job: nat) {
    w in s.pulls && s.pulls[w].version == version && s.pulls[w].job == job && s.pulls[w].checked
  }

  /** The step stored an event of the pull of this job and version. */
  predicate StoresFor(s: State, n: State, w: nat, version: nat, job: nat) {
    && w in s.pulls && s.pulls[w].version == version && s.pulls[w].job == job
    && w in n.pulls && n.pulls[w].stored != s.pulls[w].stored
  }

  /** How many events the worker stored for this job and version in the steps from the `n`-th on. */
  function StoredSince(config: Config, actions: seq<Action>, checks: Checks, n: nat, w: nat, version: nat,
                       job: nat): nat
    requires n <= |actions|
  {
    if |actions| == n then 0
    else
      var before := actions[..|actions| - 1];
      StoredSince(config, before, checks, n, w, version, job)
      + if StoresFor(Run(config, before, checks), Run(config, actions, checks), w, version, job) then 1 else 0
  }

  lemma StepSpendsCheck(s: State, a: Action, checks: Checks, w: nat, version: nat, job: nat)
    requires !Stands(s.row, version, job)
    ensures var n := Step(s, a, checks);
      && (StoresFor(s, n, w, version, job) ==>
            CheckedFor(s, w, version, job) && !CheckedFor(n, w, version, job))
      && (CheckedFor(n, w, version, job) ==> CheckedFor(s, w, version, job))
  {
    var n := Step(s, a, checks);
    if StoresFor(s, n, w, version, job) { StoredWhenChecked(s, a, checks, w); }
    if CheckedFor(n, w, version, job) && !CheckedFor(s, w, version, job) {
      if w in s.pulls && s.pulls[w].checked {
        ChangedHands(s, a, checks, w);
      } else {
        CheckedWhileStanding(s, a, checks, w);
      }
    }
  }

  lemma ChangedHands(s: State, a: Action, checks: Checks, w: nat)
    requires w in s.pulls && w in Step(s, a, checks).pulls
    ensures var p, q := s.pulls[w], Step(s, a, checks).pulls[w]; p.version == q.version && p.job == q.job
  {
    if a != StoreEvent(w) { OthersKeepStored(s, a, checks, w); }
  }

  /** From the moment the connector is disabled, reconfigured or bound to another job, and as long as that lasts, a
      worker stores for the old job and version at most the one event it had already checked. */
  lemma {:induction false} StaleStoresAtMostOne(config: Config, actions: seq<Action>, checks: Checks, n: nat, w: nat,
                                                version: nat, job: nat)
    requires n <= |actions|
    requires forall m :: n <= m < |actions| ==> !Stands(Run(config, actions[..m], checks).row, version, job)
    ensures StoredSince(config, actions, checks, n, w, version, job)
         <= if CheckedFor(Run(config, actions[..n], checks), w, version, job) then 1 else 0
  {
    StaleSpends(config, actions, checks, n, w, version, job);
  }

  lemma {:induction false} StaleSpends(config: Config, actions: seq<Action>, checks: Checks, n: nat, w: nat,
                                       version: nat, job: nat)
    requires n <= |actions|
    requires forall m :: n <= m < |actions| ==> !Stands(Run(config, actions[..m], checks).row, version, job)
    ensures StoredSince(config, actions, checks, n, w, version, job)
         + (if CheckedFor(Run(config, actions, checks), w, version, job) then 1 else 0)
         <= if CheckedFor(Run(config, actions[..n], checks), w, version, job) then 1 else 0
  {
    if n == |actions| {
      assert actions[..n] == actions;
    } else {
      var last := |actions| - 1;
      var before := actions[..last];
      forall m | n <= m < last ensures !Stands(Run(config, before[..m], checks).row, version, job) {
        assert before[..m] == actions[..m];
      }
      assert before[..n] == actions[..n];
      StaleSpends(config, before, checks, n, w, version, job);
      StepSpendsCheck(Run(config, before, checks), actions[last], checks, w, version, job);
    }
  }

  /** A request is carried out with its own fields; a crash ends the worker's pull and nothing else. */
  lemma RequestIs(s: State, a: Action, checks: Checks)
    ensures var n := Step(s, a, checks);
      && (a.Configure? ==> n == ConfigureStep(s, a.expected, a.config))
      && (a.BeginTest? ==> n == BeginTestStep(s, a.test, a.expected))
      && (a.FinishTest? ==> n == FinishTestStep(s, a.test, a.page, a.now, checks))
      && (a.Enable? ==> n == EnableStep(s, a.expected, a.actor, a.on, a.now))
      && (a.Submit? ==> n == SubmitStep(s, a.actor, a.maxAttempts, a.now))
      && (a.BeginPull? ==> n == BeginPullStep(s, a.worker, a.job, a.page, a.now, checks))
      && (a.CheckEvent? ==> n == CheckEventStep(s, a.worker))
      && (a.StoreEvent? ==> n == StoreEventStep(s, a.worker))
      && (a.Advance? ==> n == AdvanceStep(s, a.worker))
      && (a.Crash? ==> n == s.(pulls := s.pulls - {a.worker}))
      && (a.Receive? ==> n == ReceiveStep(s, a.key, a.payload))
      && (a.SetJob? ==>
            n == s.(jobs := n.jobs) && |n.jobs| == |s.jobs|
            && forall j :: 0 <= j < |s.jobs| ==>
                 n.jobs[j] == if j == a.job then s.jobs[j].(status := a.status, attempt := a.attempt) else s.jobs[j])
  {
  }

  /** A worker without a pull, or with nothing due, changes nothing. */
  lemma IdleIs(s: State, worker: nat)
    ensures worker !in s.pulls ==>
      CheckEventStep(s, worker) == StoreEventStep(s, worker) == AdvanceStep(s, worker) == s
    ensures worker in s.pulls && s.pulls[worker].stored >= |s.pulls[worker].events| ==>
      CheckEventStep(s, worker) == StoreEventStep(s, worker) == s
    ensures worker in s.pulls && !s.pulls[worker].checked ==> StoreEventStep(s, worker) == s
    ensures worker in s.pulls && s.pulls[worker].stored != |s.pulls[worker].events| ==> AdvanceStep(s, worker) == s
  {
  }

  /** A checked pull stores its next event, unless the event is known with another payload, which ends the pull. */
  lemma StoreIs(s: State, worker: nat)
    requires worker in s.pulls && s.pulls[worker].checked && s.pulls[worker].stored < |s.pulls[worker].events|
    ensures var n, p := StoreEventStep(s, worker), s.pulls[worker];
      var e := p.events[p.stored];
      var k := EventKey("connector", e.id);
      if k in s.events && s.events[k] != e.payload then n == s.(pulls := s.pulls - {worker})
      else
        n == s.(events := s.events[k := e.payload],
                pulls := s.pulls[worker := p.(stored := p.stored + 1, checked := false)])
  {
    var k := EventKey(SELF, s.pulls[worker].events[s.pulls[worker].stored].id);
    if k in s.events { assert s.events[k := s.events[k]] == s.events; }
  }

  /** A connector as it is created: version one, disabled, untested, at the empty cursor, with nothing to do. */
  lemma CreatedIs(config: Config)
    ensures var s := Created(config);
      && s.row == Row(1, config, false, None, "", None, None) && s.jobs == [] && s.events == map[] && s.pulls == map[]
      && s.tests == map[] && s.configs == map[1 := config] && s.passed == {} && s.grant == 0 && s.moves == []
  {
  }
}
