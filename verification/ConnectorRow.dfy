/** The connector's row, its jobs and its event table, updated in place. */
module ConnectorRow {
  import opened Registry
  import opened ConnectorModel
  import opened ConnectorResults

  /** `normalize_page` */
  method NormalizePage(page: Page, cursor: string, mapping: map<string, string>, checks: Checks)
    returns (result: Option<seq<Event>>)
    ensures result == Intake(page, cursor, mapping, checks)
  {
    if |page.events| > MAX_EVENTS || !ValidCursor(page.next) {
      return None;
    }
    if page.next == cursor && page.events != [] {
      return None;
    }
    var events: seq<Event>, ids: set<string> := [], {};
    for i := 0 to |page.events|
      invariant NormalizedAll(page.events[..i], mapping, checks) == Some(events)
      invariant ids == Ids(events)
    {
      assert page.events[..i + 1][..i] == page.events[..i];
      var event := Normalized(page.events[i], mapping, checks);
      if event.None? || event.value.id in ids {
        RefusedFromHere(page.events, i + 1, mapping, checks);
        return None;
      }
      ids := ids + {event.value.id};
      IdsPush(events, event.value);
      events := events + [event.value];
    }
    assert page.events[..|page.events|] == page.events;
    return Some(events);
  }

  ghost function Ids(es: seq<Event>): set<string> {
    set i | 0 <= i < |es| :: es[i].id
  }

  lemma IdsPush(es: seq<Event>, e: Event)
    ensures Ids(es + [e]) == Ids(es) + {e.id}
  {
    var longer := es + [e];
    assert longer[|es|] == e;
    assert forall i :: 0 <= i < |es| ==> longer[i] == es[i];
  }

  lemma {:induction false} RefusedFromHere(es: seq<RawEvent>, n: nat, mapping: map<string, string>, checks: Checks)
    requires n <= |es| && NormalizedAll(es[..n], mapping, checks).None?
    ensures NormalizedAll(es, mapping, checks).None?
  {
    if n < |es| {
      assert es[..|es| - 1][..n] == es[..n];
      RefusedFromHere(es[..|es| - 1], n, mapping, checks);
    } else {
      assert es[..n] == es;
    }
  }

  /** The active job failed and may still be retried at this version, so a new job would skip its page. */
  ghost predicate MustBeRetried(s: State) {
    && s.row.activeJob.Some? && s.row.activeJob.value < |s.jobs|
    && var last := s.jobs[s.row.activeJob.value];
    && last.status == Failed && last.attempt < last.maxAttempts && last.version == s.row.version
  }

  class Connector {
    var version: nat
    var config: Config
    var enabled: bool
    var testedAt: Option<int>
    var cursor: string
    var activeJob: Option<nat>
    var enabledBy: Option<string>
    var jobs: seq<Job>
    var events: map<EventKey, Payload>
    var grant: nat

    ghost function RowNow(): Row
      reads this
    {
      Row(version, config, enabled, testedAt, cursor, activeJob, enabledBy)
    }

    /** The committed part of state `s`. */
    ghost predicate Holds(s: State)
      reads this
    {
      RowNow() == s.row && jobs == s.jobs && events == s.events && grant == s.grant
    }

    constructor (config: Config)
      ensures Holds(Created(config))
    {
      version, enabled, testedAt, cursor, activeJob, enabledBy := 1, false, None, "", None, None;
      this.config := config;
      jobs, events, grant := [], map[], 0;
    }

    /** `save_config` on an existing row; the answer says whether it was saved. */
    method SaveConfig(ghost s: State, expected: nat, config: Config) returns (ok: bool)
      requires Holds(s)
      modifies this
      ensures Holds(ConfigureStep(s, expected, config)) && ok == (expected == s.row.version)
    {
      if version != expected {
        return false;
      }
      this.config := config;
      version := version + 1;
      enabled := false;
      testedAt := None;
      return true;
    }

    /** `test_connector` up to its first commit: the earlier test is void before the request is made. */
    method BeginTest(ghost s: State, ghost test: nat, expected: nat) returns (run: Option<TestRun>)
      requires Holds(s) && test !in s.tests
      modifies this
      ensures Holds(BeginTestStep(s, test, expected))
      ensures run.Some? <==> expected == s.row.version
      ensures run.Some? ==>
        test in BeginTestStep(s, test, expected).tests && BeginTestStep(s, test, expected).tests[test] == run.value
    {
      if expected != version {
        return None;
      }
      testedAt := None;
      enabled := false;
      return Some(TestRun(version, config, cursor));
    }

    /** `test_connector` after the page came back. */
    method FinishTest(ghost s: State, ghost test: nat, run: TestRun, page: Page, now: int, checks: Checks)
      returns (ok: bool)
      requires Holds(s) && test in s.tests && s.tests[test] == run
      modifies this
      ensures Holds(FinishTestStep(s, test, page, now, checks))
      ensures ok <==> Intake(page, run.cursor, run.config.mapping, checks).Some? && s.row.version == run.version
    {
      var events := NormalizePage(page, run.cursor, run.config.mapping, checks);
      if events.None? || version != run.version {
        return false;
      }
      testedAt := Some(now);
      return true;
    }

    /** `enable_connector` */
    method Enable(ghost s: State, expected: nat, actor: string, on: bool, now: int) returns (ok: bool)
      requires Holds(s)
      modifies this
      ensures Holds(EnableStep(s, expected, actor, on, now))
      ensures ok <==> expected == s.row.version && (on ==> TestCurrent(s.row, now))
    {
      if expected != version {
        return false;
      }
      if on && !(testedAt.Some? && testedAt.value > now - DAY) {
        return false;
      }
      if on && enabledBy != Some(actor) {
        activeJob := None;
        grant := grant + 1;
      }
      enabled := on;
      enabledBy := if on then Some(actor) else None;
      return true;
    }

    /** `submit`: the job that is waiting or new; none when there may be no new job yet. */
    method Submit(ghost s: State, actor: string, maxAttempts: nat, now: int) returns (job: Option<nat>)
      requires Holds(s)
      modifies this
      ensures Holds(SubmitStep(s, actor, maxAttempts, now))
      ensures job.Some? ==> activeJob == job && job.value < |jobs| && jobs[job.value].status != Failed
      ensures job.None? ==> Holds(s)
      ensures job.None? <==> !s.row.enabled || !TestCurrent(s.row, now) || MustBeRetried(s)
    {
      if !enabled || !(testedAt.Some? && testedAt.value > now - DAY) {
        return None;
      }
      if activeJob.Some? && activeJob.value < |jobs| {
        var last := jobs[activeJob.value];
        if last.status == Queued || last.status == Running {
          return activeJob;
        }
        if last.status == Failed && last.attempt < last.maxAttempts && last.version == version {
          return None;
        }
      }
      jobs := jobs + [Job(version, actor, Queued, 0, maxAttempts, grant)];
      activeJob := Some(|jobs| - 1);
      return activeJob;
    }

    /** `persist_event`: false is the conflict. */
    method PersistEvent(k: EventKey, payload: Payload) returns (ok: bool)
      modifies this`events
      ensures ok == Persist(old(events), k, payload).Some?
      ensures events == if ok then Persist(old(events), k, payload).value else old(events)
    {
      if k in events {
        return events[k] == payload;
      }
      events := events[k := payload];
      return true;
    }

    /** The compare-and-set that ends `process_pull`. */
    method CompareAndSet(job: nat, version: nat, cursor: string, next: string) returns (ok: bool)
      modifies this`cursor
      ensures ok == old(this.version == version && enabled && this.cursor == cursor && activeJob == Some(job))
      ensures this.cursor == if ok then next else old(this.cursor)
    {
      ok := this.version == version && enabled && this.cursor == cursor && activeJob == Some(job);
      if ok {
        this.cursor := next;
      }
    }

    /** `process_pull` by one worker with nothing in between: its guards, its loop over the page with
        a commit per event, and the final compare-and-set. */
    method ProcessPull(j: nat, page: Page, now: int, checks: Checks) returns (ok: bool)
      requires j < |jobs|
      modifies this`events, this`cursor
      ensures var begun := old(version == jobs[j].version && enabled && TestCurrent(RowNow(), now)
                               && activeJob == Some(j));
        var intake := old(Intake(page, cursor, config.mapping, checks));
        && (ok <==> begun && intake.Some? && PersistAll(old(events), intake.value).Some?)
        && (ok ==> cursor == page.next && events == PersistAll(old(events), intake.value).value)
        && (!ok ==> cursor == old(cursor))
        && (!ok && begun && intake.Some? ==>
              exists n :: 0 <= n <= |intake.value| && PersistAll(old(events), intake.value[..n]) == Some(events))
        && (!begun || intake.None? ==> events == old(events))
        && (forall k :: k in old(events) ==> k in events && events[k] == old(events)[k])
    {
      if version != jobs[j].version || !enabled || !(testedAt.Some? && testedAt.value > now - DAY)
          || activeJob != Some(j) {
        return false;
      }
      var from := cursor;
      var intake := NormalizePage(page, from, config.mapping, checks);
      if intake.None? {
        return false;
      }
      var es := intake.value;
      for i := 0 to |es|
        invariant PersistAll(old(events), es[..i]) == Some(events)
        invariant cursor == from
        invariant forall k :: k in old(events) ==> k in events && events[k] == old(events)[k]
      {
        assert es[..i + 1][..i] == es[..i];
        var stored := PersistEvent(EventKey(SELF, es[i].id), es[i].payload);
        if !stored {
          ConflictFromHere(old(events), es, i + 1);
          assert PersistAll(old(events), es[..i]) == Some(events);
          return false;
        }
      }
      assert es[..|es|] == es;
      assert PersistAll(old(events), es[..|es|]) == Some(events);
      ok := CompareAndSet(j, version, from, page.next);
    }
  }

  lemma {:induction false} ConflictFromHere(events: map<EventKey, Payload>, es: seq<Event>, n: nat)
    requires n <= |es| && PersistAll(events, es[..n]).None?
    ensures PersistAll(events, es).None?
  {
    if n < |es| {
      assert es[..|es| - 1][..n] == es[..n];
      ConflictFromHere(events, es[..|es| - 1], n);
    } else {
      assert es[..n] == es;
    }
  }
}
