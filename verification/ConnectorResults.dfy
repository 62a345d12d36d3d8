/** What holds of the customer pull under every interleaving. */
module ConnectorResults {
  import opened Registry
  import opened ConnectorModel

  ghost predicate StoredUpTo(s: State, p: Pull, n: nat)
    requires n <= |p.events|
  {
    forall i :: 0 <= i < n ==>
      EventKey(SELF, p.events[i].id) in s.events && s.events[EventKey(SELF, p.events[i].id)] == p.events[i].payload
  }

  /** A pull was begun by a job of its version, with the configuration of that version. */
  ghost predicate PullAt(s: State, p: Pull) {
    && p.job < |s.jobs| && s.jobs[p.job].version == p.version
    && p.version in s.configs && s.configs[p.version] == p.config
    && p.stored <= |p.events| && StoredUpTo(s, p, p.stored)
  }

  ghost predicate MoveAt(s: State, i: nat)
    requires i < |s.moves|
  {
    var m := s.moves[i];
    && PullAt(s, m.pull) && m.pull.stored == |m.pull.events|
    && m.pull.version in s.passed && m.pull.version <= s.row.version
    && m.grant == s.jobs[m.pull.job].grant && m.grant <= s.grant
    && m.pull.cursor == (if i == 0 then "" else s.moves[i - 1].pull.next)
    && (i > 0 ==> s.moves[i - 1].pull.version <= m.pull.version && s.moves[i - 1].grant <= m.grant)
  }

  ghost predicate RowAt(s: State) {
    && s.row.version in s.configs && s.configs[s.row.version] == s.row.config
    && (forall v :: v in s.configs ==> v <= s.row.version)
    && (s.row.testedAt.Some? ==> s.row.version in s.passed)
    && (s.row.enabled ==> s.row.version in s.passed)
    && (s.row.activeJob.Some? ==> s.row.activeJob.value < |s.jobs| && s.jobs[s.row.activeJob.value].grant == s.grant)
    && s.row.cursor == (if s.moves == [] then "" else s.moves[|s.moves| - 1].pull.next)
  }

  ghost predicate Inv(s: State) {
    && RowAt(s)
    && (forall w {:trigger s.pulls[w]} :: w in s.pulls ==> PullAt(s, s.pulls[w]))
    && (forall i: nat {:trigger MoveAt(s, i)} :: i < |s.moves| ==> MoveAt(s, i))
    && (forall t {:trigger s.tests[t]} :: t in s.tests ==>
          s.tests[t].version in s.configs && s.configs[s.tests[t].version] == s.tests[t].config)
  }

  /** What no step takes back. */
  ghost predicate Grows(s: State, n: State) {
    && (forall k :: k in s.events ==> k in n.events && n.events[k] == s.events[k])
    && (forall v :: v in s.configs ==> v in n.configs && n.configs[v] == s.configs[v])
    && s.passed <= n.passed && s.row.version <= n.row.version && s.grant <= n.grant
    && |s.jobs| <= |n.jobs|
    && (forall j :: 0 <= j < |s.jobs| ==> n.jobs[j].version == s.jobs[j].version && n.jobs[j].grant == s.jobs[j].grant)
    && s.moves <= n.moves
  }

  /** Administration and the job queue: steps that leave pulls, moves and events alone. */
  predicate IsAdmin(a: Action) {
    a.Configure? || a.BeginTest? || a.FinishTest? || a.Enable? || a.Submit? || a.SetJob?
  }

  lemma AdminLeaves(s: State, a: Action, checks: Checks)
    requires IsAdmin(a)
    ensures var n := Step(s, a, checks);
      n.pulls == s.pulls && n.moves == s.moves && n.events == s.events && n.row.cursor == s.row.cursor
  {
  }

  lemma AdminKeepsJobs(s: State, a: Action, checks: Checks)
    requires IsAdmin(a)
    ensures var n := Step(s, a, checks);
      && |s.jobs| <= |n.jobs|
      && (forall j :: 0 <= j < |s.jobs| ==>
            n.jobs[j].version == s.jobs[j].version && n.jobs[j].grant == s.jobs[j].grant)
  {
  }

  lemma AdminGrows(s: State, a: Action, checks: Checks)
    requires RowAt(s) && IsAdmin(a)
    ensures Grows(s, Step(s, a, checks))
  {
    AdminLeaves(s, a, checks);
    AdminKeepsJobs(s, a, checks);
  }

  lemma AdminKeepsRow(s: State, a: Action, checks: Checks)
    requires Inv(s) && IsAdmin(a)
    ensures RowAt(Step(s, a, checks))
  {
  }

  lemma AdminKeepsTests(s: State, a: Action, checks: Checks, t: nat)
    requires Inv(s) && IsAdmin(a) && t in Step(s, a, checks).tests
    ensures var n := Step(s, a, checks);
      n.tests[t].version in n.configs && n.configs[n.tests[t].version] == n.tests[t].config
  {
  }

  lemma WorkLeaves(s: State, a: Action, checks: Checks)
    requires !IsAdmin(a)
    ensures var n := Step(s, a, checks);
      && n.row == s.row.(cursor := n.row.cursor) && n.jobs == s.jobs && n.tests == s.tests
      && n.configs == s.configs && n.passed == s.passed && n.grant == s.grant
      && (n.moves == s.moves || (a.Advance? && |n.moves| == |s.moves| + 1))
      && n.row.cursor == (if n.moves == s.moves then s.row.cursor else n.moves[|s.moves|].pull.next)
  {
  }

  lemma WorkGrows(s: State, a: Action, checks: Checks)
    requires !IsAdmin(a)
    ensures Grows(s, Step(s, a, checks))
  {
    WorkLeaves(s, a, checks);
  }

  lemma PullStands(s: State, n: State, p: Pull)
    requires Grows(s, n) && PullAt(s, p)
    ensures PullAt(n, p)
  {
  }

  /** How pull `w` may have changed: begun, checked, or with one event more stored. */
  ghost predicate PullChanged(s: State, n: State, w: nat)
    requires w in n.pulls
  {
    var q := n.pulls[w];
    || (w in s.pulls && q == s.pulls[w].(checked := q.checked))
    || (q.stored == 0 && q.job < |s.jobs| && s.jobs[q.job].version == q.version == s.row.version
        && q.config == s.row.config)
    || (w in s.pulls && s.pulls[w].stored < |s.pulls[w].events|
        && q == s.pulls[w].(stored := s.pulls[w].stored + 1, checked := false)
        && var e := q.events[s.pulls[w].stored];
        && EventKey(SELF, e.id) in n.events && n.events[EventKey(SELF, e.id)] == e.payload)
  }

  lemma BeginChanges(s: State, worker: nat, j: nat, page: Page, now: int, checks: Checks, w: nat)
    requires RowAt(s) && w in BeginPullStep(s, worker, j, page, now, checks).pulls
    ensures PullChanged(s, BeginPullStep(s, worker, j, page, now, checks), w)
  {
  }

  lemma StoreChanges(s: State, worker: nat, w: nat)
    requires w in StoreEventStep(s, worker).pulls
    ensures PullChanged(s, StoreEventStep(s, worker), w)
  {
  }

  lemma PullChanges(s: State, a: Action, checks: Checks, w: nat)
    requires RowAt(s) && !IsAdmin(a) && w in Step(s, a, checks).pulls
    ensures PullChanged(s, Step(s, a, checks), w)
  {
    if a.BeginPull? {
      BeginChanges(s, a.worker, a.job, a.page, a.now, checks, w);
    } else if a.StoreEvent? {
      StoreChanges(s, a.worker, w);
    } else {
      assert w in s.pulls && Step(s, a, checks).pulls[w] == s.pulls[w].(checked := Step(s, a, checks).pulls[w].checked);
    }
  }

  lemma ChangedPullStands(s: State, n: State, w: nat)
    requires RowAt(s) && Grows(s, n) && w in n.pulls && PullChanged(s, n, w)
    requires w in s.pulls ==> PullAt(s, s.pulls[w])
    ensures PullAt(n, n.pulls[w])
  {
  }

  lemma WorkKeepsPull(s: State, a: Action, checks: Checks, w: nat)
    requires Inv(s) && !IsAdmin(a) && w in Step(s, a, checks).pulls
    ensures PullAt(Step(s, a, checks), Step(s, a, checks).pulls[w])
  {
    WorkGrows(s, a, checks);
    PullChanges(s, a, checks, w);
    ChangedPullStands(s, Step(s, a, checks), w);
  }

  lemma NewMove(s: State, worker: nat)
    requires Inv(s) && |AdvanceStep(s, worker).moves| > |s.moves|
    ensures MoveAt(AdvanceStep(s, worker), |s.moves|)
  {
    var p := s.pulls[worker];
    assert PullAt(s, p);
    if s.moves != [] { assert MoveAt(s, |s.moves| - 1); }
  }

  lemma MovesStand(s: State, n: State)
    requires Inv(s) && Grows(s, n)
    ensures forall i: nat {:trigger MoveAt(n, i)} :: i < |s.moves| ==> MoveAt(n, i)
  {
    forall i: nat | i < |s.moves| ensures MoveAt(n, i) {
      assert MoveAt(s, i);
      PullStands(s, n, s.moves[i].pull);
    }
  }

  lemma AdminKeepsInv(s: State, a: Action, checks: Checks)
    requires Inv(s) && IsAdmin(a)
    ensures Inv(Step(s, a, checks))
  {
    var n := Step(s, a, checks);
    AdminLeaves(s, a, checks);
    AdminGrows(s, a, checks);
    AdminKeepsRow(s, a, checks);
    MovesStand(s, n);
    forall w | w in n.pulls ensures PullAt(n, n.pulls[w]) { PullStands(s, n, s.pulls[w]); }
    forall t | t in n.tests
      ensures n.tests[t].version in n.configs && n.configs[n.tests[t].version] == n.tests[t].config
    {
      AdminKeepsTests(s, a, checks, t);
    }
  }

  lemma WorkKeepsInv(s: State, a: Action, checks: Checks)
    requires Inv(s) && !IsAdmin(a)
    ensures Inv(Step(s, a, checks))
  {
    var n := Step(s, a, checks);
    WorkLeaves(s, a, checks);
    WorkGrows(s, a, checks);
    MovesStand(s, n);
    forall w | w in n.pulls ensures PullAt(n, n.pulls[w]) { WorkKeepsPull(s, a, checks, w); }
    if n.moves != s.moves {
      NewMove(s, a.worker);
    }
  }

  lemma StepKeepsInv(s: State, a: Action, checks: Checks)
    requires Inv(s)
    ensures Inv(Step(s, a, checks)) && Grows(s, Step(s, a, checks))
  {
    if IsAdmin(a) {
      AdminGrows(s, a, checks);
      AdminKeepsInv(s, a, checks);
    } else {
      WorkGrows(s, a, checks);
      WorkKeepsInv(s, a, checks);
    }
  }

  lemma {:induction false} RunKeepsInv(config: Config, actions: seq<Action>, checks: Checks)
    ensures Inv(Run(config, actions, checks))
  {
    if actions != [] {
      RunKeepsInv(config, actions[..|actions| - 1], checks);
      StepKeepsInv(Run(config, actions[..|actions| - 1], checks), actions[|actions| - 1], checks);
    }
  }

  lemma {:induction false} RunGrows(config: Config, actions: seq<Action>, checks: Checks, n: nat)
    requires n <= |actions|
    ensures Grows(Run(config, actions[..n], checks), Run(config, actions, checks))
  {
    if n == |actions| {
      assert actions[..n] == actions;
    } else {
      var m := |actions| - 1;
      RunGrows(config, actions[..m], checks, n);
      assert actions[..m][..n] == actions[..n];
      RunKeepsInv(config, actions[..m], checks);
      StepKeepsInv(Run(config, actions[..m], checks), actions[m], checks);
    }
  }

  // ---------------------------------------------------------------- results

  /** An event keeps the payload it was first stored with, whatever happens later. */
  lemma PayloadsAreForever(config: Config, actions: seq<Action>, checks: Checks, n: nat, k: EventKey)
    requires n <= |actions| && k in Run(config, actions[..n], checks).events
    ensures k in Run(config, actions, checks).events
    ensures Run(config, actions, checks).events[k] == Run(config, actions[..n], checks).events[k]
  {
    RunGrows(config, actions, checks, n);
  }

  /** Every event of the page behind every cursor move is stored, with exactly its payload. */
  lemma MovesAreDurable(config: Config, actions: seq<Action>, checks: Checks, m: Move, e: Event)
    requires m in Run(config, actions, checks).moves && e in m.pull.events
    ensures var k := EventKey(SELF, e.id);
      k in Run(config, actions, checks).events && Run(config, actions, checks).events[k] == e.payload
  {
    RunKeepsInv(config, actions, checks);
    var s := Run(config, actions, checks);
    var i: nat :| i < |s.moves| && s.moves[i] == m;
    assert MoveAt(s, i);
  }

  /** Moves serialise: each starts where the one before ended, the first at the empty cursor, and
      the cursor is where the last one ended. */
  lemma MovesSerialise(config: Config, actions: seq<Action>, checks: Checks, i: nat)
    requires i < |Run(config, actions, checks).moves|
    ensures var s := Run(config, actions, checks);
      && s.moves[i].pull.cursor == (if i == 0 then "" else s.moves[i - 1].pull.next)
      && (i == |s.moves| - 1 ==> s.row.cursor == s.moves[i].pull.next)
  {
    RunKeepsInv(config, actions, checks);
    assert MoveAt(Run(config, actions, checks), i);
  }

  /** No move mixes configurations: the version it was made at had passed a test, its page came from
      that version's configuration, its job was submitted at that version and under the administrator
      responsible at the move; later moves never fall back to an earlier version or administrator. */
  lemma MovesAreGoverned(config: Config, actions: seq<Action>, checks: Checks, i: nat)
    requires i < |Run(config, actions, checks).moves|
    ensures var s := Run(config, actions, checks);
      var m := s.moves[i];
      && m.pull.version in s.passed
      && m.pull.version in s.configs && s.configs[m.pull.version] == m.pull.config
      && m.pull.job < |s.jobs| && s.jobs[m.pull.job].version == m.pull.version && s.jobs[m.pull.job].grant == m.grant
      && (i > 0 ==> s.moves[i - 1].pull.version <= m.pull.version && s.moves[i - 1].grant <= m.grant)
  {
    RunKeepsInv(config, actions, checks);
    assert MoveAt(Run(config, actions, checks), i);
  }

  /** The cursor changes only by a logged move, made by the active job at the current version while
      the connector is enabled. */
  lemma CursorMovesAreLogged(s: State, a: Action, checks: Checks)
    requires Step(s, a, checks).row.cursor != s.row.cursor
    ensures a.Advance? && a.worker in s.pulls
    ensures var p := s.pulls[a.worker];
      && s.row.enabled && s.row.version == p.version && s.row.activeJob == Some(p.job)
      && s.row.cursor == p.cursor && p.stored == |p.events|
      && Step(s, a, checks).moves == s.moves + [Move(p, s.grant)]
  {
  }

  // ---------------------------------------------------------------- replay

  function PersistAll(events: map<EventKey, Payload>, es: seq<Event>): Option<map<EventKey, Payload>> {
    if es == [] then Some(events)
    else
      match PersistAll(events, es[..|es| - 1])
      case None => None
      case Some(m) => Persist(m, EventKey(SELF, es[|es| - 1].id), es[|es| - 1].payload)
  }

  /** The store `m` is `events` with every event of the list. */
  ghost predicate Extends(events: map<EventKey, Payload>, m: map<EventKey, Payload>, es: seq<Event>) {
    && (forall k :: k in events ==> k in m && m[k] == events[k])
    && (forall e :: e in es ==> EventKey(SELF, e.id) in m && m[EventKey(SELF, e.id)] == e.payload)
    && (forall k :: k in m ==> k in events || exists e :: e in es && k == EventKey(SELF, e.id))
  }

  lemma {:induction false} PersistTurn(events: map<EventKey, Payload>, m: map<EventKey, Payload>, before: seq<Event>,
                                       e: Event)
    requires Extends(events, m, before) && forall x :: x in before ==> x.id != e.id
    ensures var k := EventKey(SELF, e.id); var n := Persist(m, k, e.payload);
      && (n.Some? <==> (k in events ==> events[k] == e.payload))
      && (n.Some? ==> Extends(events, n.value, before + [e]))
  {
    var k := EventKey(SELF, e.id);
    assert k in m <==> k in events;
    var n := Persist(m, k, e.payload);
    if n.Some? {
      assert forall x :: x in before + [e] <==> x in before || x == e;
      forall l | l in n.value ensures l in events || exists x :: x in before + [e] && l == EventKey(SELF, x.id) {
        if l == k {
          assert e in before + [e];
        } else if l !in events {
          var x :| x in before && l == EventKey(SELF, x.id);
          assert x in before + [e];
        }
      }
    }
  }

  lemma {:induction false} PersistAllIs(events: map<EventKey, Payload>, es: seq<Event>)
    requires forall i, j :: 0 <= i < j < |es| ==> es[i].id != es[j].id
    ensures PersistAll(events, es).Some? <==>
      forall e :: e in es && EventKey(SELF, e.id) in events ==> events[EventKey(SELF, e.id)] == e.payload
    ensures PersistAll(events, es).Some? ==> Extends(events, PersistAll(events, es).value, es)
  {
    if es != [] {
      var before, e := es[..|es| - 1], es[|es| - 1];
      PersistAllIs(events, before);
      assert es == before + [e];
      assert forall x :: x in before ==> x.id != e.id;
      if PersistAll(events, before).Some? { PersistTurn(events, PersistAll(events, before).value, before, e); }
    }
  }

  lemma PartAgrees(events: map<EventKey, Payload>, es: seq<Event>, n: nat, e: Event)
    requires n <= |es| && forall i, j :: 0 <= i < j < |es| ==> es[i].id != es[j].id
    requires PersistAll(events, es[..n]).Some? && e in es
    ensures var part, k := PersistAll(events, es[..n]).value, EventKey(SELF, e.id);
      (k in part && part[k] != e.payload) <==> (k in events && events[k] != e.payload)
  {
    PersistAllIs(events, es[..n]);
    var part, k := PersistAll(events, es[..n]).value, EventKey(SELF, e.id);
    if k in part && k !in events {
      var x :| x in es[..n] && k == EventKey(SELF, x.id);
      assert x in es && x == e;
    }
  }

  /** A page taken in again after any partial attempt ends in the store of one full attempt, or is
      refused exactly when the full attempt is. */
  lemma ReplayIsHarmless(events: map<EventKey, Payload>, es: seq<Event>, n: nat)
    requires n <= |es| && forall i, j :: 0 <= i < j < |es| ==> es[i].id != es[j].id
    requires PersistAll(events, es[..n]).Some?
    ensures PersistAll(PersistAll(events, es[..n]).value, es) == PersistAll(events, es)
  {
    var part := PersistAll(events, es[..n]).value;
    PersistAllIs(events, es);
    PersistAllIs(part, es);
    forall e | e in es
      ensures (EventKey(SELF, e.id) in part && part[EventKey(SELF, e.id)] != e.payload)
          <==> (EventKey(SELF, e.id) in events && events[EventKey(SELF, e.id)] != e.payload)
    {
      PartAgrees(events, es, n, e);
    }
    if PersistAll(events, es).Some? {
      PersistAllIs(events, es[..n]);
      SameStore(events, part, PersistAll(events, es).value, PersistAll(part, es).value, es);
    }
  }

  lemma SameStore(events: map<EventKey, Payload>, part: map<EventKey, Payload>, a: map<EventKey, Payload>,
                  b: map<EventKey, Payload>, es: seq<Event>)
    requires forall k :: k in events ==> k in part && k in a && part[k] == events[k] == a[k]
    requires forall k :: k in part ==> k in b && b[k] == part[k]
    requires forall k :: k in part ==> k in events || exists e :: e in es && k == EventKey(SELF, e.id)
    requires forall e :: e in es ==> EventKey(SELF, e.id) in a && a[EventKey(SELF, e.id)] == e.payload
    requires forall e :: e in es ==> EventKey(SELF, e.id) in b && b[EventKey(SELF, e.id)] == e.payload
    requires forall k :: k in a ==> k in events || exists e :: e in es && k == EventKey(SELF, e.id)
    requires forall k :: k in b ==> k in part || exists e :: e in es && k == EventKey(SELF, e.id)
    ensures a == b
  {
    assert a.Keys == b.Keys;
    forall k | k in a ensures a[k] == b[k] { }
  }

  // ---------------------------------------------------------------- an undisturbed pull

  lemma {:induction false} PersistAllFront(events: map<EventKey, Payload>, e: Event, es: seq<Event>)
    ensures PersistAll(events, [e] + es) ==
      match Persist(events, EventKey(SELF, e.id), e.payload)
      case None => None
      case Some(m) => PersistAll(m, es)
  {
    if es == [] {
      assert [e] + es == [e] && [e][..0] == [];
      assert PersistAll(events, [e][..0]) == Some(events);
    } else {
      PersistAllFront(events, e, es[..|es| - 1]);
      assert ([e] + es)[..|es|] == [e] + es[..|es| - 1];
    }
  }

  /** A worker run to its end with nothing in between. */
  function Drive(s: State, worker: nat, left: nat): State
    decreases left
  {
    if left == 0 then AdvanceStep(s, worker)
    else Drive(StoreEventStep(CheckEventStep(s, worker), worker), worker, left - 1)
  }

  /** An undisturbed pull completes, storing its page and moving the cursor, exactly when no event
      of the page is already stored with another payload. */
  lemma {:induction false} UndisturbedPullCompletesIff(s: State, worker: nat, left: nat)
    requires worker in s.pulls && MayAdvance(s.row, s.pulls[worker])
    requires left + s.pulls[worker].stored == |s.pulls[worker].events|
    ensures var p := s.pulls[worker];
      var n, all := Drive(s, worker, left), PersistAll(s.events, p.events[p.stored..]);
      && (all.Some? <==> |n.moves| == |s.moves| + 1)
      && (all.Some? ==> n.row == s.row.(cursor := p.next) && n.events == all.value)
      && (all.None? ==> n.row == s.row && n.moves == s.moves)
    decreases left
  {
    var p := s.pulls[worker];
    if left == 0 {
      assert p.events[p.stored..] == [];
    } else {
      var e := p.events[p.stored];
      assert p.events[p.stored..] == [e] + p.events[p.stored + 1..];
      PersistAllFront(s.events, e, p.events[p.stored + 1..]);
      var n := StoreEventStep(CheckEventStep(s, worker), worker);
      if worker in n.pulls {
        UndisturbedPullCompletesIff(n, worker, left - 1);
      } else {
        GoneStaysGone(n, worker, left - 1);
      }
    }
  }

  lemma {:induction false} GoneStaysGone(s: State, worker: nat, left: nat)
    requires worker !in s.pulls
    ensures Drive(s, worker, left) == s
  {
    if left > 0 { GoneStaysGone(s, worker, left - 1); }
  }

  // ---------------------------------------------------------------- pages

  lemma {:induction false} NormalizedAllIs(es: seq<RawEvent>, mapping: map<string, string>, checks: Checks)
    requires NormalizedAll(es, mapping, checks).Some?
    ensures var out := NormalizedAll(es, mapping, checks).value;
      && |out| == |es|
      && (forall i :: 0 <= i < |es| ==> Normalized(es[i], mapping, checks) == Some(out[i]))
      && (forall i, j :: 0 <= i < j < |out| ==> out[i].id != out[j].id)
  {
    if es != [] {
      NormalizedAllIs(es[..|es| - 1], mapping, checks);
    }
  }

  /** A page is taken in whole or not at all: all its events validated, ids distinct, and the cursor
      moved unless the page is empty. */
  lemma IntakeIsWhole(page: Page, cursor: string, mapping: map<string, string>, checks: Checks)
    requires Intake(page, cursor, mapping, checks).Some?
    ensures var out := Intake(page, cursor, mapping, checks).value;
      && |out| == |page.events| <= MAX_EVENTS
      && (out != [] ==> page.next != cursor)
      && (forall i :: 0 <= i < |out| ==>
            Normalized(page.events[i], mapping, checks) == Some(out[i]) && checks.rows(out[i].payload.rows))
      && (forall i, j :: 0 <= i < j < |out| ==> out[i].id != out[j].id)
  {
    NormalizedAllIs(page.events, mapping, checks);
  }
}
