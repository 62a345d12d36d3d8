/** When each contact request succeeds and what it leaves, told from the case, the environment and the attempts. */
module ContactOutcomes {
  import opened Registry
  import opened Contact

  // ---------------------------------------------------------------- who may be contacted

  /** A case may be contacted: it is there, not protected or finished, and carries a contact basis. */
  predicate Contactable(cases: map<string, CaseRecord>, caseId: string) {
    && caseId in cases
    && var c := cases[caseId];
    && !c.blocked && c.status != "已结清" && c.status != "停止联系"
    && c.contactBasis.Some? && c.contactBasis.value != ""
  }

  predicate Reachable(channel: string, g: Gates) { if channel == "phone" then g.phoneReady else channel in g.sandbox }

  /** A policy within its bounds. */
  predicate Policed(g: Gates) {
    && g.policy.Some?
    && var p := g.policy.value;
    1 <= p.daily <= 10 && 0 <= p.start < p.end <= 24
  }

  /** The hour of the UTC day lies in the window. */
  predicate InWindow(at: int, g: Gates)
    requires g.policy.Some?
  {
    g.policy.value.start * 3_600 <= at % 86_400 < g.policy.value.end * 3_600
  }

  /** The attempts on a case and UTC day that have not been cancelled. */
  ghost function Live(attempts: seq<Attempt>, caseId: string, at: int): set<int> {
    set i | 0 <= i < |attempts| && attempts[i].caseId == caseId && attempts[i].status != Blocked
            && attempts[i].scheduledAt / 86_400 == at / 86_400
  }

  lemma {:induction false} CountIsLive(attempts: seq<Attempt>, caseId: string, at: int)
    ensures Count(attempts, caseId, DayOf(at)) == |Live(attempts, caseId, at)|
  {
    if attempts != [] {
      var n := |attempts| - 1;
      CountIsLive(attempts[..n], caseId, at);
      assert Live(attempts, caseId, at)
        == Live(attempts[..n], caseId, at) + if Counts(attempts[n], caseId, DayOf(at)) then {n} else {};
    }
  }

  lemma WindowIff(at: int, g: Gates)
    requires g.policy.Some?
    ensures g.policy.value.start <= HourOf(at) < g.policy.value.end <==> InWindow(at, g)
  {
    var second := at % 86_400;
    assert second == second / 3_600 * 3_600 + second % 3_600;
  }

  ghost predicate Allowed(s: State, caseId: string, at: int, channel: string, g: Gates) {
    && Contactable(s.cases, caseId) && Reachable(channel, g) && Policed(g) && InWindow(at, g)
    && |Live(s.attempts, caseId, at)| < g.policy.value.daily
  }

  lemma GateIff(s: State, caseId: string, at: int, channel: string, g: Gates)
    ensures Gate(s, caseId, at, channel, g).None? <==> Allowed(s, caseId, at, channel, g)
  {
    CountIsLive(s.attempts, caseId, at);
    if g.policy.Some? { WindowIff(at, g); }
  }

  /** Which refusal a request meets first. */
  lemma GateIs(s: State, caseId: string, at: int, channel: string, g: Gates)
    ensures Gate(s, caseId, at, channel, g) ==
      if caseId !in s.cases then Some(CaseNotFound)
      else if !Contactable(s.cases[caseId := s.cases[caseId].(contactBasis := Some("any"))], caseId)
      then Some(CaseProtected)
      else if !Contactable(s.cases, caseId) then Some(ContactBasisMissing)
      else if !Reachable(channel, g) then Some(if channel == "phone" then PhoneNotReady else ChannelNotReady)
      else if !Policed(g) then Some(InvalidPolicy)
      else if !InWindow(at, g) then Some(OutsideWindow)
      else if |Live(s.attempts, caseId, at)| >= g.policy.value.daily then Some(DailyFrequencyExceeded)
      else None
  {
    CountIsLive(s.attempts, caseId, at);
    if g.policy.Some? { WindowIff(at, g); }
  }

  // ---------------------------------------------------------------- requests

  /** A fresh attempt, as it was asked for. */
  predicate Fresh(a: Attempt, caseId: string, activity: Option<string>, reference: string, at: int, channel: string,
                  actor: string, g: Gates) {
    && a.caseId == caseId && a.activity == activity && a.reference == reference && a.scheduledAt == at
    && a.channel == channel && a.requestedBy == actor && a.status == Queued && a.cancelReason.None?
    && a.lastEventAt.None? && g.policy == Some(a.policy) && !a.started
  }

  /** An attempt is created exactly when the case may be contacted over this channel at this time, today's attempts
      being fewer than the limit; a refusal changes nothing. */
  lemma CreationIs(s: State, caseId: string, activity: Option<string>, reference: string, at: int, channel: string,
                   actor: string, g: Gates)
    ensures var (n, made) := CreateStep(s, caseId, activity, reference, at, channel, actor, g);
      && (made.Ok? <==> Allowed(s, caseId, at, channel, g))
      && (made.Err? ==> n == s && Gate(s, caseId, at, channel, g) == Some(made.error))
      && (made.Ok? ==>
            && made.value == |s.attempts| && |n.attempts| == |s.attempts| + 1
            && n == s.(attempts := s.attempts + [n.attempts[|s.attempts|]])
            && Fresh(n.attempts[|s.attempts|], caseId, activity, reference, at, channel, actor, g)
            && n.attempts[|s.attempts|].retryOf.None? && n.attempts[|s.attempts|].reason.None?)
  {
    GateIff(s, caseId, at, channel, g);
  }

  /** A retry succeeds exactly for a failed attempt whose case may be contacted again, over the same channel, at the new
      time; it makes a fresh attempt for the same contact that points back at the failed one. */
  lemma RetryIs(s: State, id: nat, at: int, reason: string, actor: string, g: Gates)
    ensures var (n, made) := RetryStep(s, id, at, reason, actor, g);
      && (made.Ok? <==>
            id < |s.attempts| && s.attempts[id].status == Failed
            && Allowed(s, s.attempts[id].caseId, at, s.attempts[id].channel, g))
      && (made.Err? ==> n == s)
      && (made.Err? && id >= |s.attempts| ==> made.error == AttemptNotFound)
      && (made.Err? && id < |s.attempts| && s.attempts[id].status != Failed ==> made.error == AttemptNotFailed)
      && (made.Ok? ==>
            && made.value == |s.attempts| && |n.attempts| == |s.attempts| + 1
            && n == s.(attempts := s.attempts + [n.attempts[|s.attempts|]])
            && var a, p := n.attempts[|s.attempts|], s.attempts[id];
            && Fresh(a, p.caseId, p.activity, p.reference, at, p.channel, actor, g)
            && a.retryOf == Some(id) && a.reason == Some("retry_reason:" + reason))
  {
    if id < |s.attempts| {
      var p := s.attempts[id];
      CreationIs(s, p.caseId, p.activity, p.reference, at, p.channel, actor, g);
    }
  }

  /** Attempts that are over. */
  predicate Over(status: Status) {
    match status
    case Completed => true
    case Failed => true
    case Blocked => true
    case Queued => false
    case Initiated => false
    case Ringing => false
    case Answered => false
    case Handoff => false
  }

  /** An attempt can be handed to a person, or cancelled, exactly while it is not over. */
  lemma HandoffAndCancelAre(s: State, id: nat, reason: string)
    ensures var open := id < |s.attempts| && !Over(s.attempts[id].status);
      && HandoffStep(s, id, reason)
         == (if open
             then (s.(attempts := s.attempts[id := s.attempts[id].(status := Handoff, reason := Some(reason))]), Ok(id))
             else (s, Err(if id < |s.attempts| then AttemptTerminal else AttemptNotFound)))
      && CancelStep(s, id, reason)
         == if open
            then (s.(attempts := s.attempts[id := s.attempts[id].(status := Blocked, cancelReason := Some(reason))]),
                  Ok(id))
            else (s, Err(if id < |s.attempts| then AttemptTerminal else AttemptNotFound))
  {
  }

  /** A call may move from one status to another: forward, or staying, until it is completed or has failed. */
  predicate MayMove(from: Status, to: Status) {
    match from
    case Queued => to in {Initiated, Ringing, Answered, Completed, Failed}
    case Initiated => to in {Initiated, Ringing, Answered, Completed, Failed}
    case Ringing => to in {Ringing, Answered, Completed, Failed}
    case Answered => to in {Answered, Completed, Failed}
    case Completed => false
    case Failed => false
    case Handoff => false
    case Blocked => false
  }

  /** A telephony event. Unless genuine it is refused. Under a key stored before it is a duplicate or, with another
      body, a conflict, and changes nothing. A new one of a known kind is stored, unless it names another case or
      activity than its attempt; and it moves the attempt exactly when the call may move there and no later event was
      seen. */
  lemma EventIs(s: State, d: Delivery, id: nat, caseId: Option<string>, activity: Option<string>, event: Status,
                at: int)
    ensures var (n, result) := TelephonyStep(s, d, id, caseId, activity, event, at);
      if !d.genuine then result == Err(NotGenuine) && n == s
      else if d.key in s.events then
        n == s && result == if s.events[d.key] == d.body then Ok(true) else Err(IdempotencyConflict)
      else if event !in {Initiated, Ringing, Answered, Completed, Failed} then
        result == Err(EventTypeDenied) && n == s
      else if id < |s.attempts| && (caseId != Some(s.attempts[id].caseId) || activity != s.attempts[id].activity)
      then result == Err(ScopeMismatch) && n == s
      else
        && result == Ok(false) && n.events == s.events[d.key := d.body] && n.cases == s.cases
        && n.attempts
           == if id < |s.attempts| && MayMove(s.attempts[id].status, event)
                 && (s.attempts[id].lastEventAt.None? || s.attempts[id].lastEventAt.value <= at)
              then s.attempts[id := s.attempts[id].(status := event, lastEventAt := Some(at), started := true)]
              else s.attempts
  {
  }

  /** Whatever the request, a new attempt is only ever made for a case that may be contacted then. */
  lemma OnlyContactableAreContacted(s: State, a: Action)
    requires |Step(s, a).attempts| > |s.attempts|
    ensures Contactable(s.cases, Step(s, a).attempts[|s.attempts|].caseId)
  {
    match a
    case Create(caseId, activity, reference, at, channel, actor, g) =>
      CreationIs(s, caseId, activity, reference, at, channel, actor, g);
    case Retry(id, at, reason, actor, g) => RetryIs(s, id, at, reason, actor, g);
    case RequestHandoff(_, _) =>
    case Cancel(_, _) =>
    case Telephony(_, _, _, _, _, _) =>
    case Cases(_) =>
  }

  /** A request is carried out with its own fields. */
  lemma RequestIs(s: State, a: Action)
    ensures a.Create? ==>
      Step(s, a) == CreateStep(s, a.caseId, a.activity, a.reference, a.at, a.channel, a.actor, a.gates).0
    ensures a.Retry? ==> Step(s, a) == RetryStep(s, a.id, a.at, a.reason, a.actor, a.gates).0
    ensures a.RequestHandoff? ==> Step(s, a) == HandoffStep(s, a.id, a.reason).0
    ensures a.Cancel? ==> Step(s, a) == CancelStep(s, a.id, a.reason).0
    ensures a.Telephony? ==>
      Step(s, a) == TelephonyStep(s, a.delivery, a.id, a.subject, a.activity, a.event, a.at).0
    ensures a.Cases? ==> Step(s, a) == s.(cases := a.cases)
  {
  }
}
