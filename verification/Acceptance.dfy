/** Acceptances bound to evidence: who may accept what, and what an acceptance that still counts says
    about the evidence now, whatever happened to it in between. Digests are the values digested. */
module Acceptance {
  import opened Registry

  // ---------------------------------------------------------------- evidence

  /** A case report without its time of generation; `body` is everything besides the checks. */
  datatype CaseReport = CaseReport(checks: seq<bool>, body: string)

  /** `revision` and `source` are what the material's digest covers; `claims` are the compared rows. */
  datatype Material = Material(createdBy: string, csv: bool, latest: bool, revision: string, source: string,
                               claims: map<string, string>)

  /** Everything evidence is read from. */
  datatype World = World(materials: map<string, Material>, cases: map<string, CaseReport>, configuration: string)

  datatype LinkEvidence = LinkEvidence(
    material: string, caseId: string, latest: bool, revision: string, source: string, report: CaseReport,
    claim: Option<string>)

  datatype LinkStatus = LinkPending | LinkApproved | LinkRejected

  datatype Link = Link(
    material: string, caseId: string, digest: LinkEvidence, status: LinkStatus, version: nat,
    proposedBy: string, reviewedBy: Option<string>)

  datatype LinkView = Current(status: LinkStatus) | LinkStale

  datatype Evidence = Evidence(
    link: nat, linkVersion: nat, linkEvidence: LinkEvidence, linkView: LinkView, report: CaseReport,
    configuration: string, checks: seq<bool>)

  /** `acceptance_binding` */
  datatype Binding = Binding(evidence: Evidence, link: nat, reference: string, digest: string, proposedBy: string,
                             expiresAt: int)

  datatype Status = Pending | Accepted | Rejected

  datatype Request = Request(link: nat, key: string, reference: string, digest: string, days: nat, acknowledged: bool)

  datatype Row = Row(
    link: nat, request: Request, bound: Binding, reference: string, digest: string, status: Status, version: nat,
    proposedBy: string, reviewedBy: Option<string>, expiresAt: int)

  /** Identifiers are places in `links` and `rows`. */
  datatype State = State(world: World, links: seq<Link>, rows: seq<Row>)

  datatype Error =
    | NotFound | NoClaim | NotAcknowledged | RequestConflict | LinkNotApproved | NotIndependent | Changed
    | EvidenceChanged | ChecksFail | Superseded

  datatype Outcome = Done(id: nat) | Replayed(id: nat) | Denied(error: Error)

  const DAY := 86_400

  function ReadLink(w: World, material: string, caseId: string): Result<LinkEvidence, Error> {
    if material !in w.materials || caseId !in w.cases then Err(NotFound)
    else
      var m := w.materials[material];
      var claim := if caseId in m.claims then Some(m.claims[caseId]) else None;
      if m.csv && claim.None? then Err(NoClaim)
      else Ok(LinkEvidence(material, caseId, m.latest, m.revision, m.source, w.cases[caseId], claim))
  }

  function ClaimStatus(e: LinkEvidence): string {
    if !e.latest then "superseded_material" else if e.claim.Some? then e.claim.value else "attachment_only"
  }

  function View(l: Link, e: LinkEvidence): LinkView { if e == l.digest then Current(l.status) else LinkStale }

  /** `snapshot` */
  function Snapshot(s: State, link: nat): Result<Evidence, Error> {
    if link >= |s.links| then Err(NotFound)
    else
      var l := s.links[link];
      match ReadLink(s.world, l.material, l.caseId)
      case Err(e) => Err(e)
      case Ok(e) =>
        var view := View(l, e);
        Ok(Evidence(link, l.version, e, view, e.report, s.world.configuration,
                    [view == Current(LinkApproved), ClaimStatus(e) == "matched"] + e.report.checks))
  }

  predicate AllPass(checks: seq<bool>) { forall i :: 0 <= i < |checks| ==> checks[i] }

  datatype Effective = Is(status: Status) | Expired | Stale

  /** `acceptance_view`: reading the evidence can fail, and then there is no view. */
  function EffectiveStatus(s: State, row: Row, now: int): Result<Effective, Error> {
    match Snapshot(s, row.link)
    case Err(e) => Err(e)
    case Ok(current) =>
      Ok(if row.status == Rejected then Is(Rejected)
         else if row.expiresAt <= now then Expired
         else if row.bound != Binding(current, row.link, row.reference, row.digest, row.proposedBy,
                                      row.expiresAt) then Stale
         else Is(row.status))
  }

  // ---------------------------------------------------------------- steps

  function FindLink(links: seq<Link>, material: string, caseId: string): Option<nat> {
    if links == [] then None
    else if links[|links| - 1].material == material && links[|links| - 1].caseId == caseId then Some(|links| - 1)
    else FindLink(links[..|links| - 1], material, caseId)
  }

  function FindRequest(rows: seq<Row>, key: string): Option<nat> {
    if rows == [] then None
    else if rows[|rows| - 1].request.key == key then Some(|rows| - 1)
    else FindRequest(rows[..|rows| - 1], key)
  }

  /** `propose_association`: a changed or rejected link is proposed anew under the next version. */
  function ProposeLinkStep(s: State, material: string, caseId: string, actor: string): (State, Outcome) {
    if material in s.world.materials && !s.world.materials[material].latest then (s, Denied(Superseded))
    else
      match ReadLink(s.world, material, caseId)
      case Err(e) => (s, Denied(e))
      case Ok(e) =>
        match FindLink(s.links, material, caseId)
        case None => (s.(links := s.links + [Link(material, caseId, e, LinkPending, 1, actor, None)]), Done(|s.links|))
        case Some(id) =>
          if id >= |s.links| then (s, Denied(NotFound))
          else
            var l := s.links[id];
            if l.status != LinkRejected && l.digest == e then (s, Replayed(id))
            else (s.(links := s.links[id := Link(l.material, l.caseId, e, LinkPending, l.version + 1, actor, None)]),
                  Done(id))
  }

  /** `decide_association` */
  function DecideLinkStep(s: State, id: nat, approve: bool, expected: nat, actor: string): (State, Outcome) {
    if id >= |s.links| || s.links[id].material !in s.world.materials then (s, Denied(NotFound))
    else
      var l := s.links[id];
      if actor == l.proposedBy || actor == s.world.materials[l.material].createdBy then (s, Denied(NotIndependent))
      else if l.status != LinkPending || l.version != expected then (s, Denied(Changed))
      else
        match ReadLink(s.world, l.material, l.caseId)
        case Err(e) => (s, Denied(e))
        case Ok(e) =>
          if e != l.digest then (s, Denied(EvidenceChanged))
          else
            var decided := if approve then LinkApproved else LinkRejected;
            (s.(links := s.links[id := l.(status := decided, version := l.version + 1, reviewedBy := Some(actor))]),
             Done(id))
  }

  /** `propose_acceptance` */
  function ProposeStep(s: State, request: Request, actor: string, now: int): (State, Outcome) {
    if !request.acknowledged then (s, Denied(NotAcknowledged))
    else
      match FindRequest(s.rows, request.key)
      case Some(id) =>
        if id < |s.rows| && s.rows[id].request == request then (s, Replayed(id)) else (s, Denied(RequestConflict))
      case None =>
        match Snapshot(s, request.link)
        case Err(e) => (s, Denied(e))
        case Ok(current) =>
          if !current.checks[0] then (s, Denied(LinkNotApproved))
          else
            var expires := now + request.days * DAY;
            var bound := Binding(current, request.link, request.reference, request.digest, actor, expires);
            (s.(rows := s.rows + [Row(request.link, request, bound, request.reference, request.digest, Pending, 1,
                                      actor, None, expires)]),
             Done(|s.rows|))
  }

  /** `decide_acceptance` */
  function DecideStep(s: State, id: nat, accept: bool, expected: nat, acknowledged: bool, actor: string,
                      now: int): (State, Outcome) {
    if id >= |s.rows| then (s, Denied(NotFound))
    else
      var row := s.rows[id];
      if row.link >= |s.links| || s.links[row.link].material !in s.world.materials then (s, Denied(NotFound))
      else
        var l := s.links[row.link];
        if actor == row.proposedBy || actor == l.proposedBy || actor == s.world.materials[l.material].createdBy
        then (s, Denied(NotIndependent))
        else if !acknowledged || row.status != Pending || row.version != expected then (s, Denied(Changed))
        else
          match Snapshot(s, row.link)
          case Err(e) => (s, Denied(e))
          case Ok(current) =>
            if row.expiresAt <= now || row.bound != Binding(current, row.link, row.reference, row.digest,
                                                            row.proposedBy, row.expiresAt) then
              (s, Denied(EvidenceChanged))
            else if accept && !AllPass(current.checks) then (s, Denied(ChecksFail))
            else
              var decided := if accept then Accepted else Rejected;
              (s.(rows := s.rows[id := row.(status := decided, version := expected + 1, reviewedBy := Some(actor))]),
               Done(id))
  }

  /** Materials are never deleted and keep their creator; all else that evidence is read from may change. */
  ghost predicate Evolves(w: World, u: World) {
    forall m :: m in w.materials ==> m in u.materials && u.materials[m].createdBy == w.materials[m].createdBy
  }

  datatype Action =
    | ProposeLink(material: string, caseId: string, actor: string)
    | DecideLink(id: nat, approve: bool, expected: nat, actor: string)
    | Propose(request: Request, actor: string, now: int)
    | Decide(id: nat, accept: bool, expected: nat, acknowledged: bool, actor: string, now: int)
    | Change(world: World)

  ghost function Step(s: State, a: Action): State {
    match a
    case ProposeLink(material, caseId, actor) => ProposeLinkStep(s, material, caseId, actor).0
    case DecideLink(id, approve, expected, actor) => DecideLinkStep(s, id, approve, expected, actor).0
    case Propose(request, actor, now) => ProposeStep(s, request, actor, now).0
    case Decide(id, accept, expected, acknowledged, actor, now) =>
      DecideStep(s, id, accept, expected, acknowledged, actor, now).0
    case Change(world) => if Evolves(s.world, world) then s.(world := world) else s
  }

  ghost function Run(world: World, actions: seq<Action>): State {
    if actions == [] then State(world, [], []) else Step(Run(world, actions[..|actions| - 1]), actions[|actions| - 1])
  }

  // ---------------------------------------------------------------- invariant

  ghost predicate LinkAt(s: State, i: nat)
    requires i < |s.links|
  {
    var l := s.links[i];
    && l.material in s.world.materials && l.version >= 1
    && (l.status == LinkPending <==> l.reviewedBy.None?)
    && (l.reviewedBy.Some? ==>
          l.reviewedBy.value != l.proposedBy && l.reviewedBy.value != s.world.materials[l.material].createdBy)
  }

  /** What an acceptance promises: its binding names its own fields and a version the link has reached;
      once accepted, the bound checks passed and whoever decided was independent of that version. */
  ghost predicate RowAt(s: State, i: nat)
    requires i < |s.rows|
  {
    var r := s.rows[i];
    && r.link < |s.links|
    && r.bound == Binding(r.bound.evidence, r.link, r.reference, r.digest, r.proposedBy, r.expiresAt)
    && r.bound.evidence.link == r.link && r.bound.evidence.linkVersion <= s.links[r.link].version
    && r.version == (if r.status == Pending then 1 else 2)
    && (r.status == Pending <==> r.reviewedBy.None?)
    && (r.status == Accepted ==> AllPass(r.bound.evidence.checks))
    && (r.reviewedBy.Some? ==> Independent(s, r))
  }

  ghost predicate Independent(s: State, r: Row)
    requires r.link < |s.links| && r.reviewedBy.Some?
  {
    var l := s.links[r.link];
    && r.reviewedBy.value != r.proposedBy
    && (r.bound.evidence.linkVersion == l.version ==> r.reviewedBy.value != l.proposedBy)
    && l.material in s.world.materials && r.reviewedBy.value != s.world.materials[l.material].createdBy
  }

  ghost predicate Inv(s: State) {
    && (forall i: nat {:trigger LinkAt(s, i)} :: i < |s.links| ==> LinkAt(s, i))
    && (forall i: nat {:trigger RowAt(s, i)} :: i < |s.rows| ==> RowAt(s, i))
    && (forall i, j :: 0 <= i < j < |s.rows| ==> s.rows[i].request.key != s.rows[j].request.key)
  }

  /** What no step takes back: rows stay in place and keep everything but a single decision, links keep
      what they join and their versions only grow. */
  ghost predicate Grows(s: State, n: State) {
    && |s.links| <= |n.links| && |s.rows| <= |n.rows| && Evolves(s.world, n.world)
    && (forall i {:trigger n.links[i]} :: 0 <= i < |s.links| ==>
          n.links[i].material == s.links[i].material && n.links[i].caseId == s.links[i].caseId
          && s.links[i].version <= n.links[i].version
          && (n.links[i].version == s.links[i].version ==> n.links[i] == s.links[i]))
    && (forall i {:trigger n.rows[i]} :: 0 <= i < |s.rows| ==>
          n.rows[i] == s.rows[i]
          || (s.rows[i].status == Pending
              && n.rows[i] == s.rows[i].(status := n.rows[i].status, version := 2, reviewedBy := n.rows[i].reviewedBy)))
  }

  lemma {:induction false} FindRequestFinds(rows: seq<Row>, key: string)
    ensures var id := FindRequest(rows, key);
      && (id.Some? ==> id.value < |rows| && rows[id.value].request.key == key)
      && (id.None? ==> forall i :: 0 <= i < |rows| ==> rows[i].request.key != key)
  {
    if rows != [] { FindRequestFinds(rows[..|rows| - 1], key); }
  }

  lemma {:induction false} FindLinkFinds(links: seq<Link>, material: string, caseId: string)
    ensures var id := FindLink(links, material, caseId);
      && (id.Some? ==> id.value < |links| && links[id.value].material == material && links[id.value].caseId == caseId)
      && (id.None? ==> forall i :: 0 <= i < |links| ==> links[i].material != material || links[i].caseId != caseId)
  {
    if links != [] { FindLinkFinds(links[..|links| - 1], material, caseId); }
  }

  lemma LinkProposalGrows(s: State, material: string, caseId: string, actor: string)
    ensures Grows(s, ProposeLinkStep(s, material, caseId, actor).0)
  {
    FindLinkFinds(s.links, material, caseId);
  }

  lemma DecisionGrows(s: State, id: nat, accept: bool, expected: nat, acknowledged: bool, actor: string, now: int)
    requires Inv(s)
    ensures Grows(s, DecideStep(s, id, accept, expected, acknowledged, actor, now).0)
  {
    if id < |s.rows| { assert RowAt(s, id); }
  }

  lemma StepGrows(s: State, a: Action)
    requires Inv(s)
    ensures Grows(s, Step(s, a))
  {
    match a
    case ProposeLink(material, caseId, actor) => LinkProposalGrows(s, material, caseId, actor);
    case DecideLink(id, approve, expected, actor) =>
    case Propose(request, actor, now) =>
    case Decide(id, accept, expected, acknowledged, actor, now) =>
      DecisionGrows(s, id, accept, expected, acknowledged, actor, now);
    case Change(world) =>
  }

  /** A row keeps its promise while its link and world only grow. */
  lemma RowStands(s: State, n: State, i: nat)
    requires Inv(s) && Grows(s, n) && i < |s.rows| && n.rows[i] == s.rows[i]
    ensures RowAt(n, i)
  {
    assert RowAt(s, i);
    var l := s.rows[i].link;
    assert LinkAt(s, l);
    assert n.links[l].material == s.links[l].material;
  }

  lemma LinksKept(s: State, a: Action)
    requires Inv(s)
    ensures var n := Step(s, a); forall i: nat {:trigger LinkAt(n, i)} :: i < |n.links| ==> LinkAt(n, i)
  {
    var n := Step(s, a);
    if a.ProposeLink? { FindLinkFinds(s.links, a.material, a.caseId); }
    forall i: nat | i < |n.links| ensures LinkAt(n, i) {
      if i < |s.links| { assert LinkAt(s, i); }
    }
  }

  lemma DecidedRow(s: State, id: nat, accept: bool, expected: nat, acknowledged: bool, actor: string, now: int)
    requires Inv(s) && DecideStep(s, id, accept, expected, acknowledged, actor, now).1 == Done(id)
    ensures id < |s.rows| && RowAt(DecideStep(s, id, accept, expected, acknowledged, actor, now).0, id)
  {
    assert RowAt(s, id);
    assert LinkAt(s, s.rows[id].link);
  }

  lemma StepKeepsInv(s: State, a: Action)
    requires Inv(s)
    ensures Inv(Step(s, a))
  {
    LinksKept(s, a);
    RowsKept(s, a);
    KeysKept(s, a);
  }

  lemma KeysKept(s: State, a: Action)
    requires Inv(s)
    ensures var n := Step(s, a); forall i, j :: 0 <= i < j < |n.rows| ==> n.rows[i].request.key != n.rows[j].request.key
  {
    if a.Propose? { FindRequestFinds(s.rows, a.request.key); }
  }

  lemma RowsKept(s: State, a: Action)
    requires Inv(s)
    ensures var n := Step(s, a); forall i: nat {:trigger RowAt(n, i)} :: i < |n.rows| ==> RowAt(n, i)
  {
    var n := Step(s, a);
    StepGrows(s, a);
    forall i: nat | i < |n.rows| ensures RowAt(n, i) {
      if i < |s.rows| && n.rows[i] == s.rows[i] {
        RowStands(s, n, i);
      } else if i < |s.rows| {
        DecidedRow(s, a.id, a.accept, a.expected, a.acknowledged, a.actor, a.now);
      }
    }
  }

  lemma {:induction false} RunKeepsInv(world: World, actions: seq<Action>)
    ensures Inv(Run(world, actions))
  {
    if actions != [] {
      RunKeepsInv(world, actions[..|actions| - 1]);
      StepKeepsInv(Run(world, actions[..|actions| - 1]), actions[|actions| - 1]);
    }
  }

  lemma {:induction false} RunGrows(world: World, actions: seq<Action>, n: nat)
    requires n <= |actions|
    ensures Grows(Run(world, actions[..n]), Run(world, actions))
  {
    if n == |actions| {
      assert actions[..n] == actions;
    } else {
      var m := |actions| - 1;
      RunGrows(world, actions[..m], n);
      assert actions[..m][..n] == actions[..n];
      RunKeepsInv(world, actions[..m]);
      StepGrows(Run(world, actions[..m]), actions[m]);
    }
  }

  // ---------------------------------------------------------------- results

  /** The evidence of a link passes in the world as it is: the material is the latest, its claim for the case is
      matched, and every check of the case's report holds. */
  predicate PassesNow(w: World, l: Link) {
    && l.material in w.materials && l.caseId in w.cases
    && var m := w.materials[l.material];
    && m.latest && l.caseId in m.claims && m.claims[l.caseId] == "matched"
    && forall i :: 0 <= i < |w.cases[l.caseId].checks| ==> w.cases[l.caseId].checks[i]
  }

  lemma PassesIff(s: State, link: nat)
    requires Snapshot(s, link).Ok?
    ensures AllPass(Snapshot(s, link).value.checks) <==>
      PassesNow(s.world, s.links[link]) && s.links[link].status == LinkApproved
      && Snapshot(s, link).value.linkEvidence == s.links[link].digest
    ensures |Snapshot(s, link).value.checks| >= 2
  {
    var checks, own := Snapshot(s, link).value.checks, s.world.cases[s.links[link].caseId].checks;
    assert AllPass(checks) ==> checks[0] && checks[1];
    assert forall i :: 0 <= i < |own| ==> checks[i + 2] == own[i];
  }

  /** In every run, an acceptance that counts as accepted now stands on evidence that passes now, unchanged since the
      link was approved: the material is the latest, its claim matched, and every check of the case holds. It has not
      expired, and was reviewed by someone who is neither its proposer, nor the current proposer of the link, nor the
      creator of the material. */
  lemma AcceptedMeansPassingNow(world: World, actions: seq<Action>, id: nat, now: int)
    requires id < |Run(world, actions).rows|
    requires EffectiveStatus(Run(world, actions), Run(world, actions).rows[id], now) == Ok(Is(Accepted))
    ensures var s := Run(world, actions);
      var row := s.rows[id];
      && now < row.expiresAt && row.reviewedBy.Some? && row.link < |s.links|
      && Snapshot(s, row.link).Ok? && AllPass(Snapshot(s, row.link).value.checks)
      && Snapshot(s, row.link).value == row.bound.evidence
      && PassesNow(s.world, s.links[row.link])
      && var l := s.links[row.link];
      && l.status == LinkApproved && l.reviewedBy.Some? && l.material in s.world.materials
      && row.reviewedBy.value != row.proposedBy && row.reviewedBy.value != l.proposedBy
      && row.reviewedBy.value != s.world.materials[l.material].createdBy
      && l.reviewedBy.value != l.proposedBy && l.reviewedBy.value != s.world.materials[l.material].createdBy
  {
    RunKeepsInv(world, actions);
    var s := Run(world, actions);
    assert RowAt(s, id);
    assert LinkAt(s, s.rows[id].link);
    assert Snapshot(s, s.rows[id].link).value.checks[0];
    PassesIff(s, s.rows[id].link);
  }

  /** And conversely: an accepted row counts exactly while it has not expired and the evidence reads
      as it did when the acceptance was proposed. */
  lemma AcceptedCountsIff(world: World, actions: seq<Action>, id: nat, now: int)
    requires id < |Run(world, actions).rows| && Run(world, actions).rows[id].status == Accepted
    ensures var s := Run(world, actions);
      var row := s.rows[id];
      (EffectiveStatus(s, row, now) == Ok(Is(Accepted))) <==>
          now < row.expiresAt && Snapshot(s, row.link) == Ok(row.bound.evidence)
  {
    RunKeepsInv(world, actions);
    assert RowAt(Run(world, actions), id);
  }

  /** An acceptance is decided at most once: once accepted or rejected, it stays as it is for ever. */
  lemma DecidedOnce(world: World, actions: seq<Action>, n: nat, id: nat)
    requires n <= |actions| && id < |Run(world, actions[..n]).rows|
        && Run(world, actions[..n]).rows[id].status != Pending
    ensures id < |Run(world, actions).rows| && Run(world, actions).rows[id] == Run(world, actions[..n]).rows[id]
  {
    RunGrows(world, actions, n);
  }

  /** Once the link is proposed or decided again, no acceptance of its earlier version counts ever
      again, even if the evidence returns to what it was. */
  lemma NewLinkVersionEndsAcceptance(world: World, actions: seq<Action>, n: nat, id: nat, now: int)
    requires n <= |actions| && id < |Run(world, actions[..n]).rows|
    requires var s := Run(world, actions[..n]);
      s.rows[id].link < |s.links| && s.rows[id].bound.evidence.linkVersion < s.links[s.rows[id].link].version
    ensures id < |Run(world, actions).rows|
    ensures EffectiveStatus(Run(world, actions), Run(world, actions).rows[id], now) != Ok(Is(Accepted))
  {
    RunGrows(world, actions, n);
    RunKeepsInv(world, actions);
    var s := Run(world, actions);
    assert RowAt(s, id);
  }

  // ---------------------------------------------------------------- the endpoints

  class Desk {
    var world: World
    var links: seq<Link>
    var rows: seq<Row>

    function Now(): State
      reads this
    {
      State(world, links, rows)
    }

    constructor (world: World)
      ensures Now() == State(world, [], [])
    {
      this.world := world;
      links, rows := [], [];
    }

    method ProposeAcceptance(request: Request, actor: string, now: int) returns (outcome: Outcome)
      modifies this`rows
      ensures (Now(), outcome) == ProposeStep(old(Now()), request, actor, now)
    {
      if !request.acknowledged { return Denied(NotAcknowledged); }
      var previous := FindRequest(rows, request.key);
      if previous.Some? {
        FindRequestFinds(rows, request.key);
        return if rows[previous.value].request == request then Replayed(previous.value) else Denied(RequestConflict);
      }
      var current := Snapshot(Now(), request.link);
      if current.Err? { return Denied(current.error); }
      if !current.value.checks[0] { return Denied(LinkNotApproved); }
      var expires := now + request.days * DAY;
      var bound := Binding(current.value, request.link, request.reference, request.digest, actor, expires);
      rows := rows + [Row(request.link, request, bound, request.reference, request.digest, Pending, 1, actor, None,
                          expires)];
      return Done(|rows| - 1);
    }

    method DecideAcceptance(id: nat, accept: bool, expected: nat, acknowledged: bool, actor: string, now: int)
      returns (outcome: Outcome)
      modifies this`rows
      ensures (Now(), outcome) == DecideStep(old(Now()), id, accept, expected, acknowledged, actor, now)
    {
      if id >= |rows| || rows[id].link >= |links| || links[rows[id].link].material !in world.materials {
        return Denied(NotFound);
      }
      var row := rows[id];
      var link := links[row.link];
      if actor in {row.proposedBy, link.proposedBy, world.materials[link.material].createdBy} {
        return Denied(NotIndependent);
      }
      if !acknowledged || row.status != Pending || row.version != expected { return Denied(Changed); }
      var current := Snapshot(Now(), row.link);
      if current.Err? { return Denied(current.error); }
      if row.expiresAt <= now || row.bound != Binding(current.value, row.link, row.reference, row.digest,
                                                      row.proposedBy, row.expiresAt) {
        return Denied(EvidenceChanged);
      }
      if accept && !AllPass(current.value.checks) { return Denied(ChecksFail); }
      var decided := if accept then Accepted else Rejected;
      rows := rows[id := row.(status := decided, version := expected + 1, reviewedBy := Some(actor))];
      return Done(id);
    }
  }
}
