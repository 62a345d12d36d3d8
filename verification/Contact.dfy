/** Scheduling contact attempts: the daily limit, the hours, retries, and what telephony events may do. */
module Contact {
  import opened Registry
  import opened Strings

  datatype Status = Queued | Initiated | Ringing | Answered | Completed | Failed | Handoff | Blocked

  /** Hours are UTC; `daily` is shared by all channels. */
  datatype Policy = Policy(daily: int, start: int, end: int)

  predicate ValidPolicy(p: Policy) { 1 <= p.daily <= 10 && 0 <= p.start <= 23 && 1 <= p.end <= 24 && p.start < p.end }

  /** `policy` and `started` are history: what was in force when the attempt was made, and whether the
      telephone ever acted on it. */
  datatype Attempt = Attempt(
    caseId: string, activity: Option<string>, reference: string, channel: string, scheduledAt: int, requestedBy: string,
    status: Status, retryOf: Option<nat>, reason: Option<string>, cancelReason: Option<string>,
    lastEventAt: Option<int>,
    policy: Policy, started: bool)

  /** A provider numbers its events. */
  datatype EventKey = EventKey(provider: string, event: string)

  /** How an event arrives: under which key, with which body, and whether it comes from the connected
      provider, in time and rightly signed. */
  datatype Delivery = Delivery(key: EventKey, body: string, genuine: bool)

  /** Identifiers are places in `attempts`; `events` holds the body of every telephony event accepted. */
  datatype State = State(attempts: seq<Attempt>, cases: map<string, CaseRecord>, events: map<EventKey, string>)

  /** What a request finds in the environment; `policy` is absent when it does not parse. */
  datatype Gates = Gates(phoneReady: bool, sandbox: set<string>, policy: Option<Policy>)

  datatype Error =
    | CaseNotFound | CaseProtected | ContactBasisMissing | PhoneNotReady | ChannelNotReady | InvalidPolicy
    | OutsideWindow | DailyFrequencyExceeded | AttemptNotFound | AttemptTerminal | AttemptNotFailed | ScopeMismatch
    | NotGenuine | IdempotencyConflict | EventTypeDenied

  const HOUR := 3_600
  const DAY := 86_400

  function DayOf(t: int): int { t / DAY }

  function HourOf(t: int): int { t % DAY / HOUR }

  predicate Counts(a: Attempt, caseId: string, day: int) {
    a.caseId == caseId && DayOf(a.scheduledAt) == day && a.status != Blocked
  }

  function Count(attempts: seq<Attempt>, caseId: string, day: int): nat {
    if attempts == [] then 0
    else Count(attempts[..|attempts| - 1], caseId, day) + if Counts(attempts[|attempts| - 1], caseId, day) then 1 else 0
  }

  function CaseGate(s: State, caseId: string): Option<Error> {
    if caseId !in s.cases then Some(CaseNotFound)
    else
      var c := s.cases[caseId];
      if c.blocked || c.status == "已结清" || c.status == "停止联系" then Some(CaseProtected)
      else if c.contactBasis.None? || c.contactBasis.value == "" then Some(ContactBasisMissing)
      else None
  }

  function ChannelGate(channel: string, g: Gates): Option<Error> {
    if channel == "phone" then (if g.phoneReady then None else Some(PhoneNotReady))
    else if channel in g.sandbox then None else Some(ChannelNotReady)
  }

  function TimeGate(s: State, caseId: string, at: int, g: Gates): Option<Error> {
    if g.policy.None? || !ValidPolicy(g.policy.value) then Some(InvalidPolicy)
    else if !(g.policy.value.start <= HourOf(at) < g.policy.value.end) then Some(OutsideWindow)
    else if Count(s.attempts, caseId, DayOf(at)) >= g.policy.value.daily then Some(DailyFrequencyExceeded)
    else None
  }

  function Gate(s: State, caseId: string, at: int, channel: string, g: Gates): Option<Error> {
    if CaseGate(s, caseId).Some? then CaseGate(s, caseId)
    else if ChannelGate(channel, g).Some? then ChannelGate(channel, g)
    else TimeGate(s, caseId, at, g)
  }

  /** `create_contact_attempt` */
  function CreateStep(s: State, caseId: string, activity: Option<string>, reference: string, at: int, channel: string,
                      actor: string, g: Gates)
    : (State, Result<nat, Error>)
  {
    match Gate(s, caseId, at, channel, g)
    case Some(e) => (s, Err(e))
    case None =>
      if g.policy.None? then (s, Err(InvalidPolicy))
      else
        (s.(attempts := s.attempts + [Attempt(caseId, activity, reference, channel, at, actor, Queued, None, None,
                                              None, None, g.policy.value, false)]),
         Ok(|s.attempts|))
  }

  predicate Terminal(status: Status) { status == Completed || status == Failed || status == Blocked }

  function HandoffStep(s: State, id: nat, reason: string): (State, Result<nat, Error>) {
    if id >= |s.attempts| then (s, Err(AttemptNotFound))
    else if Terminal(s.attempts[id].status) then (s, Err(AttemptTerminal))
    else (s.(attempts := s.attempts[id := s.attempts[id].(status := Handoff, reason := Some(reason))]), Ok(id))
  }

  function CancelStep(s: State, id: nat, reason: string): (State, Result<nat, Error>) {
    if id >= |s.attempts| then (s, Err(AttemptNotFound))
    else if Terminal(s.attempts[id].status) then (s, Err(AttemptTerminal))
    else (s.(attempts := s.attempts[id := s.attempts[id].(status := Blocked, cancelReason := Some(reason))]), Ok(id))
  }

  /** `retry_contact_attempt`: a new attempt that points back at the failed one. */
  function RetryStep(s: State, id: nat, at: int, reason: string, actor: string, g: Gates): (State, Result<nat, Error>) {
    if id >= |s.attempts| then (s, Err(AttemptNotFound))
    else
      var p := s.attempts[id];
      if p.status != Failed then (s, Err(AttemptNotFailed))
      else
        var (n, made) := CreateStep(s, p.caseId, p.activity, p.reference, at, p.channel, actor, g);
        if made.Err? || n.attempts == [] then (s, made)
        else
          var last := |n.attempts| - 1;
          var linked := n.attempts[last].(retryOf := Some(id), reason := Some("retry_reason:" + reason));
          (n.(attempts := n.attempts[last := linked]), made)
  }

  /** How far a call has come; a call handed off or cancelled is out of the order. */
  function Rank(status: Status): Option<nat> {
    match status
    case Queued => Some(0) case Initiated => Some(1) case Ringing => Some(2) case Answered => Some(3)
    case Completed => Some(4) case Failed => Some(4)
    case Handoff => None case Blocked => None
  }

  const EVENTS := {Initiated, Ringing, Answered, Completed, Failed}

  /** `accept_telephony_webhook`: an event is stored once, and then moves the attempt it names if the
      conditional update takes it; the answer says whether it was stored before. */
  function TelephonyStep(s: State, d: Delivery, id: nat, caseId: Option<string>, activity: Option<string>,
                         event: Status, at: int)
    : (State, Result<bool, Error>)
  {
    if !d.genuine then (s, Err(NotGenuine))
    else if d.key in s.events then
      (s, if s.events[d.key] == d.body then Ok(true) else Err(IdempotencyConflict))
    else if event !in EVENTS then (s, Err(EventTypeDenied))
    else
      var stored := s.(events := s.events[d.key := d.body]);
      if id >= |s.attempts| then (stored, Ok(false))
      else
        var a := s.attempts[id];
        if caseId != Some(a.caseId) || a.activity != activity then (s, Err(ScopeMismatch))
        else if Rank(event).None? || Rank(a.status).None? || Terminal(a.status)
          || Rank(a.status).value > Rank(event).value
                || (a.lastEventAt.Some? && a.lastEventAt.value > at) then (stored, Ok(false))
        else
          var moved := a.(status := event, lastEventAt := Some(at), started := true);
          (stored.(attempts := s.attempts[id := moved]), Ok(false))
  }

  /** `Cases` is whatever else happens to the cases. */
  datatype Action =
    | Create(caseId: string, activity: Option<string>, reference: string, at: int, channel: string, actor: string,
             gates: Gates)
    | RequestHandoff(id: nat, reason: string)
    | Cancel(id: nat, reason: string)
    | Retry(id: nat, at: int, reason: string, actor: string, gates: Gates)
    | Telephony(delivery: Delivery, id: nat, subject: Option<string>, activity: Option<string>, event: Status, at: int)
    | Cases(cases: map<string, CaseRecord>)

  function Step(s: State, a: Action): State {
    match a
    case Create(caseId, activity, reference, at, channel, actor, g) =>
      CreateStep(s, caseId, activity, reference, at, channel, actor, g).0
    case RequestHandoff(id, reason) => HandoffStep(s, id, reason).0
    case Cancel(id, reason) => CancelStep(s, id, reason).0
    case Retry(id, at, reason, actor, g) => RetryStep(s, id, at, reason, actor, g).0
    case Telephony(d, id, caseId, activity, event, at) => TelephonyStep(s, d, id, caseId, activity, event, at).0
    case Cases(cases) => s.(cases := cases)
  }

  function Run(actions: seq<Action>): State {
    if actions == [] then State([], map[], map[]) else Step(Run(actions[..|actions| - 1]), actions[|actions| - 1])
  }

  // ---------------------------------------------------------------- what a step does

  /** The step made one new attempt. */
  ghost predicate Made(s: State, n: State, g: Gates) {
    && |n.attempts| == |s.attempts| + 1 && n.attempts == s.attempts + [n.attempts[|s.attempts|]]
    && var a := n.attempts[|s.attempts|];
    && a.status == Queued && !a.started && g.policy == Some(a.policy) && ValidPolicy(a.policy)
    && a.policy.start <= HourOf(a.scheduledAt) < a.policy.end
    && Count(s.attempts, a.caseId, DayOf(a.scheduledAt)) < a.policy.daily
    && (a.retryOf.Some? ==> a.retryOf.value < |s.attempts| && Follows(s.attempts[a.retryOf.value], a))
  }

  /** A retry repeats a failed attempt on the same case, channel and contact. */
  predicate Follows(p: Attempt, a: Attempt) {
    p.status == Failed && p.caseId == a.caseId && p.channel == a.channel && p.reference == a.reference
        && p.activity == a.activity
  }

  /** The step moved one attempt that was not terminal. */
  ghost predicate Moved(s: State, n: State, id: nat) {
    && id < |s.attempts|
    && |n.attempts| == |s.attempts| && n.attempts == s.attempts[id := n.attempts[id]]
    && var a, b := s.attempts[id], n.attempts[id];
    && !Terminal(a.status)
    && b == a.(status := b.status, reason := b.reason, cancelReason := b.cancelReason,
               lastEventAt := b.lastEventAt, started := b.started)
    && (a.started ==> b.started)
    && (Rank(a.status).Some? && Rank(b.status).Some? ==> Rank(a.status).value <= Rank(b.status).value)
    && (Rank(a.status).None? ==> Rank(b.status).None?)
    && (b.status in {Initiated, Ringing, Answered, Completed, Failed} ==> b.started || b.status == a.status)
  }

  lemma StepShape(s: State, a: Action)
    ensures var n := Step(s, a);
      || n.attempts == s.attempts
      || (a.Create? && Made(s, n, a.gates)) || (a.Retry? && Made(s, n, a.gates))
      || ((a.RequestHandoff? || a.Cancel? || a.Telephony?) && Moved(s, n, a.id))
  {
    match a
    case Create(caseId, activity, reference, at, channel, actor, g) =>
    case Retry(id, at, reason, actor, g) => RetryShape(s, id, at, reason, actor, g);
    case RequestHandoff(id, reason) =>
      if id < |s.attempts| && !Terminal(s.attempts[id].status) { assert Moved(s, Step(s, a), id); }
    case Cancel(id, reason) =>
      if id < |s.attempts| && !Terminal(s.attempts[id].status) { assert Moved(s, Step(s, a), id); }
    case Telephony(d, id, caseId, activity, event, at) =>
      if Step(s, a).attempts != s.attempts { assert Moved(s, Step(s, a), id); }
    case Cases(cases) =>
  }

  lemma RetryShape(s: State, id: nat, at: int, reason: string, actor: string, g: Gates)
    ensures var n := RetryStep(s, id, at, reason, actor, g).0; n.attempts == s.attempts || Made(s, n, g)
  {
    var n := RetryStep(s, id, at, reason, actor, g).0;
    if n.attempts != s.attempts {
      var p := s.attempts[id];
      var made := Attempt(p.caseId, p.activity, p.reference, p.channel, at, actor, Queued, None, None, None, None,
                          g.policy.value, false);
      assert n.attempts == s.attempts + [made.(retryOf := Some(id), reason := Some("retry_reason:" + reason))];
    }
  }

  // ---------------------------------------------------------------- invariant

  ghost predicate AttemptAt(s: State, i: nat)
    requires i < |s.attempts|
  {
    var a := s.attempts[i];
    && ValidPolicy(a.policy) && a.policy.start <= HourOf(a.scheduledAt) < a.policy.end
    && (a.retryOf.Some? ==> a.retryOf.value < i && Follows(s.attempts[a.retryOf.value], a))
  }

  ghost predicate Sound(s: State) { forall i: nat {:trigger AttemptAt(s, i)} :: i < |s.attempts| ==> AttemptAt(s, i) }

  ghost predicate Within(s: State, limit: int) {
    forall c, d {:trigger Count(s.attempts, c, d)} :: Count(s.attempts, c, d) <= limit
  }

  /** Every valid limit read along the way is at most `limit`. */
  ghost predicate LimitedBy(actions: seq<Action>, limit: int) {
    forall i :: 0 <= i < |actions| ==> AllowsUpTo(actions[i], limit)
  }

  predicate AllowsUpTo(a: Action, limit: int) {
    (a.Create? || a.Retry?) && a.gates.policy.Some? && ValidPolicy(a.gates.policy.value) ==>
        a.gates.policy.value.daily <= limit
  }

  lemma {:induction false} CountUpdate(attempts: seq<Attempt>, i: nat, a: Attempt, c: string, d: int)
    requires i < |attempts|
    ensures Count(attempts[i := a], c, d) + (if Counts(attempts[i], c, d) then 1 else 0)
      == Count(attempts, c, d) + if Counts(a, c, d) then 1 else 0
  {
    var last := |attempts| - 1;
    if i < last {
      CountUpdate(attempts[..last], i, a, c, d);
      assert attempts[i := a][..last] == attempts[..last][i := a];
    } else {
      assert attempts[i := a][..last] == attempts[..last];
    }
  }

  lemma MovedKeepsSound(s: State, n: State, id: nat)
    requires Sound(s) && Moved(s, n, id)
    ensures Sound(n)
  {
    forall i: nat | i < |n.attempts| ensures AttemptAt(n, i) { assert AttemptAt(s, i); }
  }

  lemma MovedKeepsWithin(s: State, n: State, id: nat, limit: int)
    requires Within(s, limit) && Moved(s, n, id)
    ensures Within(n, limit)
  {
    forall c, d ensures Count(n.attempts, c, d) <= limit {
      CountUpdate(s.attempts, id, n.attempts[id], c, d);
      assert Count(s.attempts, c, d) <= limit;
    }
  }

  lemma MadeKeepsSound(s: State, n: State, g: Gates)
    requires Sound(s) && Made(s, n, g)
    ensures Sound(n)
  {
    forall i: nat | i < |n.attempts| ensures AttemptAt(n, i) {
      if i < |s.attempts| { assert AttemptAt(s, i); }
    }
  }

  lemma MadeKeepsWithin(s: State, n: State, g: Gates, limit: int)
    requires Within(s, limit) && Made(s, n, g) && g.policy.value.daily <= limit
    ensures Within(n, limit)
  {
    forall c, d ensures Count(n.attempts, c, d) <= limit {
      assert n.attempts[..|n.attempts| - 1] == s.attempts;
      assert Count(s.attempts, c, d) <= limit;
    }
  }

  lemma StepKeepsSound(s: State, a: Action)
    requires Sound(s)
    ensures Sound(Step(s, a))
  {
    var n := Step(s, a);
    StepShape(s, a);
    if n.attempts == s.attempts {
      forall i: nat | i < |n.attempts| ensures AttemptAt(n, i) { assert AttemptAt(s, i); }
    } else if a.Create? || a.Retry? {
      MadeKeepsSound(s, n, a.gates);
    } else {
      MovedKeepsSound(s, n, a.id);
    }
  }

  lemma {:induction false} RunKeepsSound(actions: seq<Action>)
    ensures Sound(Run(actions))
  {
    if actions != [] {
      RunKeepsSound(actions[..|actions| - 1]);
      StepKeepsSound(Run(actions[..|actions| - 1]), actions[|actions| - 1]);
    }
  }

  lemma {:induction false} RunKeepsWithin(actions: seq<Action>, limit: int)
    requires LimitedBy(actions, limit) && limit >= 0
    ensures Within(Run(actions), limit)
  {
    if actions != [] {
      var before, a := actions[..|actions| - 1], actions[|actions| - 1];
      RunKeepsWithin(before, limit);
      var s, n := Run(before), Run(actions);
      StepShape(s, a);
      if n.attempts != s.attempts {
        if a.Create? || a.Retry? {
          MadeKeepsWithin(s, n, a.gates, limit);
        } else {
          MovedKeepsWithin(s, n, a.id, limit);
        }
      }
    }
  }

  // ---------------------------------------------------------------- results

  /** In every run, a case has at most the daily limit of attempts that are not blocked on any day, for
      any bound on the valid limits in force along the run; and never more than ten. */
  lemma DailyLimitHolds(actions: seq<Action>, limit: nat, caseId: string, day: int)
    requires LimitedBy(actions, limit)
    ensures Count(Run(actions).attempts, caseId, day) <= limit
    ensures Count(Run(actions).attempts, caseId, day) <= 10
  {
    RunKeepsWithin(actions, limit);
    RunKeepsWithin(actions, 10);
  }

  /** Every attempt lies in the hours that were allowed when it was made, under a valid policy. */
  lemma HoursHold(actions: seq<Action>, i: nat)
    requires i < |Run(actions).attempts|
    ensures var a := Run(actions).attempts[i];
      ValidPolicy(a.policy) && a.policy.start <= HourOf(a.scheduledAt) < a.policy.end
  {
    RunKeepsSound(actions);
    assert AttemptAt(Run(actions), i);
  }

  /** How an attempt may change: a terminal one, blocked ones included, not at all; any other never
      goes back in the order of a call, and one handed off or cancelled is never a call again. */
  ghost predicate Later(a: Attempt, b: Attempt) {
    && (Terminal(a.status) ==> b == a)
    && (Rank(a.status).Some? && Rank(b.status).Some? ==> Rank(a.status).value <= Rank(b.status).value)
    && (Rank(a.status).None? ==> Rank(b.status).None?)
    && a.scheduledAt == b.scheduledAt && a.caseId == b.caseId && (a.started ==> b.started)
  }

  lemma StepGoesForward(s: State, a: Action, i: nat)
    requires i < |s.attempts|
    ensures var n := Step(s, a); i < |n.attempts| && Later(s.attempts[i], n.attempts[i])
  {
    StepShape(s, a);
  }

  lemma LaterIsTransitive(a: Attempt, b: Attempt, c: Attempt)
    requires Later(a, b) && Later(b, c)
    ensures Later(a, c)
  {
  }

  lemma RunStep(actions: seq<Action>, s: State, n: State)
    requires actions != [] && s == Run(actions[..|actions| - 1]) && n == Run(actions)
    ensures n == Step(s, actions[|actions| - 1])
  {
  }

  lemma {:induction false} GoesForward(actions: seq<Action>, n: nat, i: nat, s: State, t: State)
    requires n <= |actions| && s == Run(actions[..n]) && t == Run(actions) && i < |s.attempts|
    ensures i < |t.attempts| && Later(s.attempts[i], t.attempts[i])
  {
    if n == |actions| {
      assert actions[..n] == actions;
    } else {
      var m := |actions| - 1;
      var u := Run(actions[..m]);
      assert actions[..m][..n] == actions[..n];
      GoesForward(actions[..m], n, i, s, u);
      RunStep(actions, u, t);
      StepGoesForward(u, actions[m], i);
      LaterIsTransitive(s.attempts[i], u.attempts[i], t.attempts[i]);
    }
  }

  /** Over any run every attempt changes only that way. */
  lemma TerminalIsForever(actions: seq<Action>, n: nat, i: nat)
    requires n <= |actions| && i < |Run(actions[..n]).attempts|
    ensures i < |Run(actions).attempts| && Later(Run(actions[..n]).attempts[i], Run(actions).attempts[i])
  {
    GoesForward(actions, n, i, Run(actions[..n]), Run(actions));
  }

  /** What is stored of an event stays, and such an event moves nothing when it comes again. */
  lemma StepKeepsEvents(s: State, a: Action)
    ensures forall k :: k in s.events ==> k in Step(s, a).events && Step(s, a).events[k] == s.events[k]
    ensures a.Telephony? && a.delivery.key in s.events ==> Step(s, a) == s
  {
  }

  lemma {:induction false} EventsStay(actions: seq<Action>, n: nat, k: EventKey)
    requires n <= |actions| && k in Run(actions[..n]).events
    ensures k in Run(actions).events && Run(actions).events[k] == Run(actions[..n]).events[k]
  {
    if n == |actions| {
      assert actions[..n] == actions;
    } else {
      var m := |actions| - 1;
      assert actions[..m][..n] == actions[..n];
      EventsStay(actions[..m], n, k);
      StepKeepsEvents(Run(actions[..m]), actions[m]);
    }
  }

  /** Once an event is accepted, no delivery under its key ever changes anything again, whatever its body
      says: it is answered as a duplicate exactly when genuine and with the body first accepted. */
  lemma EventsActOnce(actions: seq<Action>, n: nat, d: Delivery, id: nat, caseId: Option<string>,
                      activity: Option<string>, event: Status, at: int)
    requires n <= |actions| && d.key in Run(actions[..n]).events
    ensures var s := Run(actions); var (m, result) := TelephonyStep(s, d, id, caseId, activity, event, at);
      && m == s && result != Ok(false)
      && (result == Ok(true) <==> d.genuine && d.body == Run(actions[..n]).events[d.key])
  {
    EventsStay(actions, n, d.key);
  }

  /** The attempts a retry goes back through, itself first. */
  function Chain(attempts: seq<Attempt>, i: nat): seq<nat>
    requires i < |attempts|
    requires forall j :: 0 <= j < |attempts| && attempts[j].retryOf.Some? ==> attempts[j].retryOf.value < j
    decreases i
  {
    [i] + if attempts[i].retryOf.None? then [] else Chain(attempts, attempts[i].retryOf.value)
  }

  predicate SameTarget(a: Attempt, b: Attempt) {
    a.caseId == b.caseId && a.channel == b.channel && a.reference == b.reference
  }

  lemma {:induction false} ChainIs(s: State, i: nat)
    requires Sound(s) && i < |s.attempts|
    ensures forall j :: 0 <= j < |s.attempts| && s.attempts[j].retryOf.Some? ==> s.attempts[j].retryOf.value < j
    ensures var chain := Chain(s.attempts, i);
      && |chain| <= i + 1
      && (forall k :: 0 <= k < |chain| ==>
            chain[k] <= i && chain[k] < |s.attempts| && SameTarget(s.attempts[chain[k]], s.attempts[i]))
      && (forall k :: 0 < k < |chain| ==> s.attempts[chain[k]].status == Failed)
      && (forall k, l :: 0 <= k < l < |chain| ==> chain[l] < chain[k])
    decreases i
  {
    forall j | 0 <= j < |s.attempts| && s.attempts[j].retryOf.Some? ensures s.attempts[j].retryOf.value < j {
      assert AttemptAt(s, j);
    }
    assert AttemptAt(s, i);
    if s.attempts[i].retryOf.Some? {
      var back := s.attempts[i].retryOf.value;
      ChainIs(s, back);
      assert Chain(s.attempts, i)[1..] == Chain(s.attempts, back);
      assert Chain(s.attempts, back)[0] == back;
    }
  }

  /** Retries form finite chains of failed attempts on one case and channel, each older than the last. */
  lemma RetriesFormChains(actions: seq<Action>, i: nat)
    requires i < |Run(actions).attempts|
    ensures var s := Run(actions);
      && (forall j :: 0 <= j < |s.attempts| && s.attempts[j].retryOf.Some? ==> s.attempts[j].retryOf.value < j)
      && var chain := Chain(s.attempts, i);
      && |chain| <= i + 1 && (forall k, l :: 0 <= k < l < |chain| ==> chain[l] < chain[k])
      && (forall k :: 0 <= k < |chain| ==> chain[k] < |s.attempts| && SameTarget(s.attempts[chain[k]], s.attempts[i]))
      && (forall k :: 0 < k < |chain| ==> s.attempts[chain[k]].status == Failed)
  {
    RunKeepsSound(actions);
    ChainIs(Run(actions), i);
  }

  // ---------------------------------------------------------------- what the limit does not limit

  predicate StartedOn(a: Attempt, caseId: string, day: int) {
    a.started && a.caseId == caseId && DayOf(a.scheduledAt) == day
  }

  function StartedCount(attempts: seq<Attempt>, caseId: string, day: int): nat {
    if attempts == [] then 0
    else
      StartedCount(attempts[..|attempts| - 1], caseId, day)
      + if StartedOn(attempts[|attempts| - 1], caseId, day) then 1 else 0
  }

  /** The started calls that were cancelled afterwards. */
  function CancelledCount(attempts: seq<Attempt>, caseId: string, day: int): nat {
    if attempts == [] then 0
    else
      var a := attempts[|attempts| - 1];
      CancelledCount(attempts[..|attempts| - 1], caseId, day)
      + if StartedOn(a, caseId, day) && a.status == Blocked then 1 else 0
  }

  /** The started calls that still count against the limit. */
  function CountedStarts(attempts: seq<Attempt>, caseId: string, day: int): nat {
    if attempts == [] then 0
    else
      var a := attempts[|attempts| - 1];
      CountedStarts(attempts[..|attempts| - 1], caseId, day)
      + if StartedOn(a, caseId, day) && a.status != Blocked then 1 else 0
  }

  lemma {:induction false} StartedSplit(attempts: seq<Attempt>, caseId: string, day: int)
    ensures StartedCount(attempts, caseId, day)
      == CountedStarts(attempts, caseId, day) + CancelledCount(attempts, caseId, day)
    ensures CountedStarts(attempts, caseId, day) <= Count(attempts, caseId, day)
  {
    if attempts != [] { StartedSplit(attempts[..|attempts| - 1], caseId, day); }
  }

  /** The calls started on a day are those that still count, which the limit bounds, and those cancelled
      after they started, which it does not: the limit is exceeded exactly when more were cancelled than
      the counted ones leave room for. */
  lemma StartedCallsBounded(actions: seq<Action>, limit: nat, caseId: string, day: int)
    requires LimitedBy(actions, limit)
    ensures var attempts := Run(actions).attempts;
      var started, counted := StartedCount(attempts, caseId, day), CountedStarts(attempts, caseId, day);
      var cancelled := CancelledCount(attempts, caseId, day);
      started == counted + cancelled && counted <= limit && (started <= limit <==> cancelled <= limit - counted)
  {
    DailyLimitHolds(actions, limit, caseId, day);
    StartedSplit(Run(actions).attempts, caseId, day);
  }

  /** The request is a genuine telephony event, not stored before, that the conditional update takes, on
      an attempt of that case and day that no event has started yet. */
  predicate Starts(s: State, a: Action, caseId: string, day: int) {
    && a.Telephony? && a.delivery.genuine && a.delivery.key !in s.events
    && a.event in EVENTS && a.id < |s.attempts|
    && var t := s.attempts[a.id];
    && t.caseId == caseId && DayOf(t.scheduledAt) == day && !t.started
    && a.subject == Some(t.caseId) && a.activity == t.activity
    && t.status in {Queued, Initiated, Ringing, Answered} && Rank(t.status).value <= Rank(a.event).value
    && (t.lastEventAt.Some? ==> t.lastEventAt.value <= a.at)
  }

  lemma {:induction false} StartedUpdate(attempts: seq<Attempt>, i: nat, a: Attempt, c: string, d: int)
    requires i < |attempts|
    ensures StartedCount(attempts[i := a], c, d) + (if StartedOn(attempts[i], c, d) then 1 else 0)
      == StartedCount(attempts, c, d) + if StartedOn(a, c, d) then 1 else 0
  {
    var last := |attempts| - 1;
    if i < last {
      StartedUpdate(attempts[..last], i, a, c, d);
      assert attempts[i := a][..last] == attempts[..last][i := a];
    } else {
      assert attempts[i := a][..last] == attempts[..last];
    }
  }

  lemma TelephonyStarts(s: State, a: Action, caseId: string, day: int)
    requires a.Telephony? && a.id < |s.attempts|
    ensures var n := Step(s, a);
      && |n.attempts| == |s.attempts| && n.attempts == s.attempts[a.id := n.attempts[a.id]]
      && (StartedOn(n.attempts[a.id], caseId, day) <==>
            StartedOn(s.attempts[a.id], caseId, day) || Starts(s, a, caseId, day))
  {
  }

  lemma OthersStartNothing(s: State, a: Action, id: nat)
    requires (a.RequestHandoff? || a.Cancel?) && Moved(s, Step(s, a), id)
    ensures Step(s, a).attempts[id].started == s.attempts[id].started
  {
  }

  /** A request starts a call of a case and day exactly when it is such an event; nothing else moves the
      number of started calls. */
  lemma StartedGrowsIff(s: State, a: Action, caseId: string, day: int)
    ensures StartedCount(Step(s, a).attempts, caseId, day)
      == StartedCount(s.attempts, caseId, day) + if Starts(s, a, caseId, day) then 1 else 0
  {
    var n := Step(s, a);
    StepShape(s, a);
    if a.Telephony? && a.id < |s.attempts| {
      TelephonyStarts(s, a, caseId, day);
      StartedUpdate(s.attempts, a.id, n.attempts[a.id], caseId, day);
    } else if (a.RequestHandoff? || a.Cancel?) && n.attempts != s.attempts {
      OthersStartNothing(s, a, a.id);
      StartedUpdate(s.attempts, a.id, n.attempts[a.id], caseId, day);
    } else if n.attempts != s.attempts {
      assert n.attempts[..|n.attempts| - 1] == s.attempts;
    }
  }

  /** A request keeps the calls started on a day within a limit exactly when it does not start one while
      they are already as many. */
  lemma StartedStaysWithinIff(s: State, a: Action, caseId: string, day: int, limit: nat)
    requires StartedCount(s.attempts, caseId, day) <= limit
    ensures StartedCount(Step(s, a).attempts, caseId, day) <= limit
      <==> !(Starts(s, a, caseId, day) && StartedCount(s.attempts, caseId, day) == limit)
  {
    StartedGrowsIff(s, a, caseId, day);
  }

  lemma {:induction false} WaitingCounts(attempts: seq<Attempt>, i: nat, caseId: string, day: int)
    requires i < |attempts| && Counts(attempts[i], caseId, day) && !attempts[i].started
    ensures CountedStarts(attempts, caseId, day) < Count(attempts, caseId, day)
  {
    var last := |attempts| - 1;
    StartedSplit(attempts[..last], caseId, day);
    if i < last { WaitingCounts(attempts[..last], i, caseId, day); }
  }

  /** In every run, a request can only go past the limit on a day on which a started call was cancelled:
      as long as none was, every event that the telephone sends keeps the started calls within it. */
  lemma OnlyCancellationsExceed(actions: seq<Action>, a: Action, limit: nat, caseId: string, day: int)
    requires LimitedBy(actions, limit)
    ensures Starts(Run(actions), a, caseId, day) && StartedCount(Run(actions).attempts, caseId, day) >= limit ==>
      CancelledCount(Run(actions).attempts, caseId, day) > 0
  {
    var s := Run(actions);
    DailyLimitHolds(actions, limit, caseId, day);
    StartedSplit(s.attempts, caseId, day);
    if Starts(s, a, caseId, day) { WaitingCounts(s.attempts, a.id, caseId, day); }
  }

  predicate Spelled(s: string, least: nat, most: nat) {
    least <= |s| <= most && forall i :: 0 <= i < |s| ==> IdChar(s[i])
  }

  /** What the request schemas let through. */
  predicate Admitted(a: Action) {
    match a
    case Create(caseId, activity, reference, _, channel, _, _) =>
      && Identifier(caseId, 40) && (activity.Some? ==> Spelled(activity.value, 1, 40))
      && 8 <= |reference| <= 160 && (forall i :: 0 <= i < |reference| ==> IdChar(reference[i]) || reference[i] == '/')
      && channel in {"phone", "sms", "email"}
    case RequestHandoff(_, reason) => 8 <= |reason| <= 500
    case Cancel(_, reason) => 8 <= |reason| <= 500
    case Retry(_, _, reason, _, _) => 8 <= |reason| <= 500
    case Telephony(d, _, caseId, activity, event, _) =>
      && Spelled(d.key.event, 8, 120) && (caseId.Some? ==> Spelled(caseId.value, 1, 40))
      && (activity.Some? ==> Spelled(activity.value, 1, 40)) && event in EVENTS
    case Cases(_) => true
  }

  lemma RunPush(actions: seq<Action>, a: Action)
    ensures Run(actions + [a]) == Step(Run(actions), a)
  {
    assert (actions + [a])[..|actions|] == actions;
  }

  const REASON := "called twice"
  const DEMO_CASES := map["C001" := CaseRecord("PKG-1", "待联系", false, false, Some("BASIS-2026"))]
  const DEMO_GATES := Gates(true, {}, Some(Policy(1, 0, 24)))
  const MADE := Attempt("C001", None, "contact-1", "phone", 0, "operator", Queued, None, None, None, None,
                        Policy(1, 0, 24), false)
  const ANSWERED := MADE.(status := Answered, lastEventAt := Some(1), started := true)
  const CANCELLED := ANSWERED.(status := Blocked, cancelReason := Some(REASON))

  function Call(): Action { Create("C001", None, "contact-1", 0, "phone", "operator", DEMO_GATES) }

  function Sent(id: nat): Delivery {
    Delivery(EventKey("sandbox", if id == 0 then "event-001" else "event-002"), "answered", true)
  }

  function Answer(id: nat): Action { Telephony(Sent(id), id, Some("C001"), None, Answered, 1) }

  lemma DemoCall(s: State)
    requires s.cases == DEMO_CASES && (s.attempts == [] || s.attempts == [CANCELLED])
    ensures Step(s, Call()) == s.(attempts := s.attempts + [MADE])
  {
    if s.attempts == [CANCELLED] { assert [CANCELLED][..0] == []; }
    assert Count(s.attempts, "C001", 0) == 0;
  }

  lemma DemoAnswer(s: State, id: nat)
    requires id < |s.attempts| && s.attempts[id] == MADE && Sent(id).key !in s.events
    ensures Step(s, Answer(id))
      == s.(attempts := s.attempts[id := ANSWERED], events := s.events[Sent(id).key := Sent(id).body])
  {
  }

  lemma DemoRun(s: State, first: State)
    requires s.cases == DEMO_CASES && s.attempts == [] && s.events == map[]
    requires first == Step(Step(Step(s, Call()), Answer(0)), Cancel(0, REASON))
    ensures Step(Step(first, Call()), Answer(1)).attempts == [CANCELLED, ANSWERED]
  {
    DemoCall(s);
    DemoAnswer(Step(s, Call()), 0);
    assert first == s.(attempts := [CANCELLED], events := map[Sent(0).key := Sent(0).body]);
    assert |"event-001"| == 9 && "event-001"[8] != "event-002"[8];
    DemoCall(first);
    DemoAnswer(Step(first, Call()), 1);
  }

  /** A run continued by further requests. */
  function Continue(s: State, actions: seq<Action>): State
    decreases |actions|
  {
    if actions == [] then s else Continue(Step(s, actions[0]), actions[1..])
  }

  lemma {:induction false} RunContinues(before: seq<Action>, actions: seq<Action>)
    ensures Run(before + actions) == Continue(Run(before), actions)
    decreases |actions|
  {
    if actions == [] {
      assert before + actions == before;
    } else {
      RunPush(before, actions[0]);
      RunContinues(before + [actions[0]], actions[1..]);
      assert before + actions == before + [actions[0]] + actions[1..];
    }
  }

  lemma ContinueOne(s: State, a: Action, rest: seq<Action>)
    ensures Continue(s, [a] + rest) == Continue(Step(s, a), rest)
  {
    assert ([a] + rest)[1..] == rest;
  }

  function DemoActions(): seq<Action> {
    [Cases(DEMO_CASES)] + ([Call()] + ([Answer(0)] + ([Cancel(0, REASON)] + ([Call()] + ([Answer(1)] + [])))))
  }

  lemma DemoReaches(s: State)
    requires s == State([], map[], map[])
    ensures Continue(s, DemoActions()).attempts == [CANCELLED, ANSWERED]
  {
    var cases := Step(s, Cases(DEMO_CASES));
    var called := Step(cases, Call());
    var answered := Step(called, Answer(0));
    var cancelled := Step(answered, Cancel(0, REASON));
    var again := Step(cancelled, Call());
    var last := [Call()] + ([Answer(1)] + []);
    ContinueOne(s, Cases(DEMO_CASES), [Call()] + ([Answer(0)] + ([Cancel(0, REASON)] + last)));
    ContinueOne(cases, Call(), [Answer(0)] + ([Cancel(0, REASON)] + last));
    ContinueOne(called, Answer(0), [Cancel(0, REASON)] + last);
    ContinueOne(answered, Cancel(0, REASON), last);
    ContinueOne(cancelled, Call(), [Answer(1)] + []);
    ContinueOne(again, Answer(1), []);
    DemoRun(cases, cancelled);
  }

  lemma AnswerIsAdmitted(id: nat)
    ensures Admitted(Answer(id)) && AllowsUpTo(Answer(id), 1)
  {
  }

  lemma RequestsAreAdmitted()
    ensures Admitted(Call()) && Admitted(Cancel(0, REASON)) && Admitted(Cases(DEMO_CASES))
  {
  }

  lemma DemoIsAdmitted()
    ensures LimitedBy(DemoActions(), 1) && AllAdmitted(DemoActions())
  {
    RequestsAreAdmitted();
    AnswerIsAdmitted(0);
    AnswerIsAdmitted(1);
    assert DemoActions() == [Cases(DEMO_CASES), Call(), Answer(0), Cancel(0, REASON), Call(), Answer(1)];
  }

  ghost predicate AllAdmitted(actions: seq<Action>) { forall i :: 0 <= i < |actions| ==> Admitted(actions[i]) }

  /** A call that was answered and then cancelled frees its place: under a limit of one, two calls can
      be answered on one day, by requests the schemas let through. */
  lemma CancelledCallsFreeTheLimit()
    ensures exists actions ::
      LimitedBy(actions, 1) && AllAdmitted(actions) && StartedCount(Run(actions).attempts, "C001", 0) == 2
  {
    var actions := DemoActions();
    var reached := Continue(Run([]), actions);
    DemoReaches(Run([]));
    RunContinues([], actions);
    assert [] + actions == actions;
    TwoStarted();
    DemoIsAdmitted();
    assert StartedCount(reached.attempts, "C001", 0) == 2;
  }

  lemma TwoStarted()
    ensures StartedCount([CANCELLED, ANSWERED], "C001", 0) == 2
  {
    assert [CANCELLED, ANSWERED][..1] == [CANCELLED] && [CANCELLED][..0] == [];
    assert StartedCount([CANCELLED], "C001", 0) == 1;
  }

  // ---------------------------------------------------------------- the endpoints

  class Desk {
    var attempts: seq<Attempt>
    var cases: map<string, CaseRecord>
    var events: map<EventKey, string>

    function Now(): State
      reads this
    {
      State(attempts, cases, events)
    }

    constructor (cases: map<string, CaseRecord>)
      ensures Now() == State([], cases, map[])
    {
      attempts, this.cases, events := [], cases, map[];
    }

    method CreateAttempt(caseId: string, activity: Option<string>, reference: string, at: int, channel: string,
                         actor: string, g: Gates)
      returns (made: Result<nat, Error>)
      modifies this`attempts
      ensures (Now(), made) == CreateStep(old(Now()), caseId, activity, reference, at, channel, actor, g)
    {
      if caseId !in cases { return Err(CaseNotFound); }
      var c := cases[caseId];
      if c.blocked || c.status == "已结清" || c.status == "停止联系" { return Err(CaseProtected); }
      if c.contactBasis.None? || c.contactBasis.value == "" { return Err(ContactBasisMissing); }
      if channel == "phone" {
        if !g.phoneReady { return Err(PhoneNotReady); }
      } else if channel !in g.sandbox {
        return Err(ChannelNotReady);
      }
      if g.policy.None? || !ValidPolicy(g.policy.value) { return Err(InvalidPolicy); }
      var policy := g.policy.value;
      if !(policy.start <= HourOf(at) < policy.end) { return Err(OutsideWindow); }
      var used := Count(attempts, caseId, DayOf(at));
      if used >= policy.daily { return Err(DailyFrequencyExceeded); }
      attempts := attempts + [Attempt(caseId, activity, reference, channel, at, actor, Queued, None, None, None, None,
                                      policy, false)];
      return Ok(|attempts| - 1);
    }

    method Handoff(id: nat, reason: string) returns (result: Result<nat, Error>)
      modifies this`attempts
      ensures (Now(), result) == HandoffStep(old(Now()), id, reason)
    {
      if id >= |attempts| { return Err(AttemptNotFound); }
      if Terminal(attempts[id].status) { return Err(AttemptTerminal); }
      attempts := attempts[id := attempts[id].(status := Status.Handoff, reason := Some(reason))];
      return Ok(id);
    }

    method CancelAttempt(id: nat, reason: string) returns (result: Result<nat, Error>)
      modifies this`attempts
      ensures (Now(), result) == CancelStep(old(Now()), id, reason)
    {
      if id >= |attempts| { return Err(AttemptNotFound); }
      if Terminal(attempts[id].status) { return Err(AttemptTerminal); }
      attempts := attempts[id := attempts[id].(status := Blocked, cancelReason := Some(reason))];
      return Ok(id);
    }

    method RetryAttempt(id: nat, at: int, reason: string, actor: string, g: Gates) returns (made: Result<nat, Error>)
      modifies this`attempts
      ensures (Now(), made) == RetryStep(old(Now()), id, at, reason, actor, g)
    {
      if id >= |attempts| { return Err(AttemptNotFound); }
      var previous := attempts[id];
      if previous.status != Failed { return Err(AttemptNotFailed); }
      made := CreateAttempt(previous.caseId, previous.activity, previous.reference, at, previous.channel, actor, g);
      if made.Ok? {
        var last := |attempts| - 1;
        attempts := attempts[last := attempts[last].(retryOf := Some(id), reason := Some("retry_reason:" + reason))];
      }
    }

    method AcceptEvent(d: Delivery, id: nat, caseId: Option<string>, activity: Option<string>, event: Status, at: int)
      returns (duplicate: Result<bool, Error>)
      modifies this`attempts, this`events
      ensures (Now(), duplicate) == TelephonyStep(old(Now()), d, id, caseId, activity, event, at)
    {
      if !d.genuine { return Err(NotGenuine); }
      if d.key in events {
        if events[d.key] != d.body { return Err(IdempotencyConflict); }
        return Ok(true);
      }
      if event !in EVENTS { return Err(EventTypeDenied); }
      if id < |attempts| {
        var a := attempts[id];
        if caseId != Some(a.caseId) || activity != a.activity { return Err(ScopeMismatch); }
        var rank := Rank(event);
        var allowed := rank.Some? && !Terminal(a.status) && Rank(a.status).Some?
                       && Rank(a.status).value <= rank.value;
        if allowed && (a.lastEventAt.None? || a.lastEventAt.value <= at) {
          attempts := attempts[id := a.(status := event, lastEventAt := Some(at), started := true)];
        }
      }
      events := events[d.key := d.body];
      return Ok(false);
    }
  }
}
