/** When each request about links and acceptances succeeds and what it leaves, told from the world, the links and
    the rows themselves. */
module AcceptanceOutcomes {
  import opened Registry
  import opened Acceptance

  // ---------------------------------------------------------------- evidence

  /** The evidence for a link can be read: its material and its case exist, and a CSV material has a claim for the
      case. */
  predicate Readable(w: World, material: string, caseId: string) {
    && material in w.materials && caseId in w.cases
    && (w.materials[material].csv ==> caseId in w.materials[material].claims)
  }

  /** What is read, field by field. */
  predicate Reads(w: World, material: string, caseId: string, e: LinkEvidence) {
    && material in w.materials && caseId in w.cases && e.material == material && e.caseId == caseId
    && var m := w.materials[material];
    && e.latest == m.latest && e.revision == m.revision && e.source == m.source && e.report == w.cases[caseId]
    && (e.claim.Some? <==> caseId in m.claims) && (e.claim.Some? ==> e.claim.value == m.claims[caseId])
  }

  lemma ReadIff(w: World, material: string, caseId: string, e: LinkEvidence)
    ensures ReadLink(w, material, caseId).Ok? <==> Readable(w, material, caseId)
    ensures ReadLink(w, material, caseId) == Ok(e) <==> Readable(w, material, caseId) && Reads(w, material, caseId, e)
    ensures ReadLink(w, material, caseId) == Err(NotFound) <==> material !in w.materials || caseId !in w.cases
  {
  }

  /** The link was approved on evidence that reads the same now. */
  predicate ApprovedNow(s: State, l: Link) {
    && l.status == LinkApproved && Readable(s.world, l.material, l.caseId)
    && Reads(s.world, l.material, l.caseId, l.digest)
  }

  /** The evidence of an acceptance, bound at `ev`, reads the same now: the link's version and standing, what it reads,
      the case's report, the configuration, and the checks, which are the link, the claim and the report's own. */
  ghost predicate Stands(s: State, link: nat, ev: Evidence) {
    && link < |s.links| && ev.link == link && ev.linkVersion == s.links[link].version
    && var l := s.links[link];
    && Readable(s.world, l.material, l.caseId) && Reads(s.world, l.material, l.caseId, ev.linkEvidence)
    && ev.linkView == (if Reads(s.world, l.material, l.caseId, l.digest) then Current(l.status) else LinkStale)
    && ev.report == s.world.cases[l.caseId] && ev.configuration == s.world.configuration
    && |ev.checks| == 2 + |ev.report.checks|
    && (ev.checks[0] <==> ApprovedNow(s, l))
    && (ev.checks[1] <==>
          var m := s.world.materials[l.material];
          m.latest && l.caseId in m.claims && m.claims[l.caseId] == "matched")
    && forall i :: 0 <= i < |ev.report.checks| ==> ev.checks[i + 2] == ev.report.checks[i]
  }

  lemma SameReading(w: World, material: string, caseId: string, e: LinkEvidence, f: LinkEvidence)
    requires Reads(w, material, caseId, e) && Reads(w, material, caseId, f)
    ensures e == f
  {
  }

  lemma SnapshotStands(s: State, link: nat)
    requires Snapshot(s, link).Ok?
    ensures Stands(s, link, Snapshot(s, link).value)
  {
    var l, ev := s.links[link], Snapshot(s, link).value;
    ReadIff(s.world, l.material, l.caseId, ev.linkEvidence);
    ReadIff(s.world, l.material, l.caseId, l.digest);
    if Reads(s.world, l.material, l.caseId, l.digest) {
      SameReading(s.world, l.material, l.caseId, l.digest, ev.linkEvidence);
    }
  }

  lemma StandsOnce(s: State, link: nat, a: Evidence, b: Evidence)
    requires Stands(s, link, a) && Stands(s, link, b)
    ensures a == b
  {
    var l := s.links[link];
    SameReading(s.world, l.material, l.caseId, a.linkEvidence, b.linkEvidence);
    forall i | 0 <= i < |a.checks| ensures a.checks[i] == b.checks[i] {
      var j := i - 2;
      if j >= 0 { assert a.checks[j + 2] == a.report.checks[j] && b.checks[j + 2] == b.report.checks[j]; }
    }
  }

  lemma SnapshotIff(s: State, link: nat, ev: Evidence)
    ensures Snapshot(s, link) == Ok(ev) <==> Stands(s, link, ev)
  {
    if link < |s.links| {
      var l := s.links[link];
      ReadIff(s.world, l.material, l.caseId, ev.linkEvidence);
      if Snapshot(s, link).Ok? {
        SnapshotStands(s, link);
        if Stands(s, link, ev) { StandsOnce(s, link, ev, Snapshot(s, link).value); }
      }
    }
  }

  // ---------------------------------------------------------------- links

  /** A link can be proposed exactly for the latest version of a material whose evidence can be read: anew, or again
      under the next version when it was rejected or its evidence changed; an unchanged one is answered as it is. */
  lemma LinkProposalIs(s: State, material: string, caseId: string, actor: string)
    ensures var (n, outcome) := ProposeLinkStep(s, material, caseId, actor);
      var open := Readable(s.world, material, caseId) && s.world.materials[material].latest;
      var known := FindLink(s.links, material, caseId);
      && (known.None? <==>
            forall i :: 0 <= i < |s.links| ==> s.links[i].material != material || s.links[i].caseId != caseId)
      && (known.Some? ==>
            known.value < |s.links| && s.links[known.value].material == material
            && s.links[known.value].caseId == caseId)
      && (!open ==> outcome.Denied? && n == s)
      && (open && known.None? ==>
            && outcome == Done(|s.links|) && n == s.(links := n.links) && |n.links| == |s.links| + 1
            && n.links[..|s.links|] == s.links && Proposed(s, n.links[|s.links|], material, caseId, actor, 1))
      && (open && known.Some? ==>
            && known.value < |s.links|
            && var l := s.links[known.value];
            if l.status != LinkRejected && Reads(s.world, material, caseId, l.digest)
            then outcome == Replayed(known.value) && n == s
            else
              && outcome == Done(known.value) && |n.links| == |s.links|
              && n == s.(links := s.links[known.value := n.links[known.value]])
              && Proposed(s, n.links[known.value], material, caseId, actor, l.version + 1))
  {
    FindLinkFinds(s.links, material, caseId);
    var read := ReadLink(s.world, material, caseId);
    ReadIff(s.world, material, caseId, if read.Ok? then read.value else LinkEvidence("", "", false, "", "",
                                                                                     CaseReport([], ""), None));
    var known := FindLink(s.links, material, caseId);
    if read.Ok? && known.Some? { ReadIff(s.world, material, caseId, s.links[known.value].digest); }
  }

  /** A pending link on the evidence of now. */
  ghost predicate Proposed(s: State, l: Link, material: string, caseId: string, actor: string, version: nat) {
    && l.material == material && l.caseId == caseId && Reads(s.world, material, caseId, l.digest)
    && l.status == LinkPending && l.version == version && l.proposedBy == actor && l.reviewedBy.None?
  }

  /** A pending link is decided exactly by someone who neither proposed it nor created its material, on the version they
      saw, while its evidence reads as it did. */
  lemma LinkDecisionIs(s: State, id: nat, approve: bool, expected: nat, actor: string)
    ensures var (n, outcome) := DecideLinkStep(s, id, approve, expected, actor);
      && (outcome == Done(id) <==>
            && id < |s.links| && s.links[id].material in s.world.materials
            && var l := s.links[id];
            && actor != l.proposedBy && actor != s.world.materials[l.material].createdBy
            && l.status == LinkPending && l.version == expected
            && Readable(s.world, l.material, l.caseId) && Reads(s.world, l.material, l.caseId, l.digest))
      && (outcome != Done(id) ==> outcome.Denied? && n == s)
      && (outcome == Done(id) ==>
            n == s.(links := s.links[id := s.links[id].(status := if approve then LinkApproved else LinkRejected,
                                                        version := expected + 1, reviewedBy := Some(actor))]))
  {
    if id < |s.links| {
      var l := s.links[id];
      ReadIff(s.world, l.material, l.caseId, l.digest);
    }
  }

  // ---------------------------------------------------------------- acceptances

  /** An acceptance can be proposed exactly by an acknowledged request under a new key for a link that is approved on
      evidence which reads the same now; it is bound to that evidence and expires after the days asked for. */
  lemma ProposalIs(s: State, request: Request, actor: string, now: int)
    ensures var (n, outcome) := ProposeStep(s, request, actor, now);
      var used := exists i :: 0 <= i < |s.rows| && s.rows[i].request.key == request.key;
      && (outcome.Done? <==>
            request.acknowledged && !used && request.link < |s.links| && ApprovedNow(s, s.links[request.link]))
      && (!outcome.Done? ==> n == s)
      && (request.acknowledged && used ==> outcome.Replayed? || outcome == Denied(RequestConflict))
      && (outcome.Replayed? ==> outcome.id < |s.rows| && s.rows[outcome.id].request == request)
      && (outcome.Done? ==>
            && outcome.id == |s.rows| && |n.rows| == |s.rows| + 1 && n.rows[..|s.rows|] == s.rows
            && n == s.(rows := n.rows)
            && var row := n.rows[|s.rows|];
            && row.link == request.link && row.request == request && row.reference == request.reference
            && row.digest == request.digest && row.status == Pending && row.version == 1 && row.proposedBy == actor
            && row.reviewedBy.None? && row.expiresAt == now + 86_400 * request.days
            && Stands(s, request.link, row.bound.evidence)
            && row.bound == Binding(row.bound.evidence, row.link, row.reference, row.digest, actor, row.expiresAt))
  {
    FindRequestFinds(s.rows, request.key);
    if request.link < |s.links| {
      var l := s.links[request.link];
      ReadIff(s.world, l.material, l.caseId, l.digest);
      if Snapshot(s, request.link).Ok? {
        SnapshotStands(s, request.link);
      }
    }
  }

  /** A pending acceptance can be decided, whatever the decision, exactly by an acknowledged request on the version
      seen, in time, by someone who proposed neither it nor its link and did not create the material, while the
      evidence reads as it was bound. It can be accepted exactly if, besides, the link is approved and the evidence
      passes now: the latest material, a matched claim, and every check of the case. */
  lemma DecisionIs(s: State, id: nat, accept: bool, expected: nat, acknowledged: bool, actor: string, now: int)
    requires Inv(s)
    ensures var (n, outcome) := DecideStep(s, id, accept, expected, acknowledged, actor, now);
      && (outcome == Done(id) <==>
            && id < |s.rows| && acknowledged && s.rows[id].status == Pending && s.rows[id].version == expected
            && now < s.rows[id].expiresAt && Stands(s, s.rows[id].link, s.rows[id].bound.evidence)
            && var l := s.links[s.rows[id].link];
            && actor != s.rows[id].proposedBy && actor != l.proposedBy
            && actor != s.world.materials[l.material].createdBy
            && (accept ==> ApprovedNow(s, l) && PassesNow(s.world, l)))
      && (outcome != Done(id) ==> outcome.Denied? && n == s)
      && (outcome == Done(id) ==>
            n == s.(rows := s.rows[id := s.rows[id].(status := if accept then Accepted else Rejected,
                                                     version := expected + 1, reviewedBy := Some(actor))]))
  {
    if id < |s.rows| {
      assert RowAt(s, id);
      var row := s.rows[id];
      SnapshotIff(s, row.link, row.bound.evidence);
      if Stands(s, row.link, row.bound.evidence) {
        PassesIff(s, row.link);
        Approved(s, row.link, row.bound.evidence);
      }
    }
  }

  lemma Approved(s: State, link: nat, ev: Evidence)
    requires Stands(s, link, ev)
    ensures ApprovedNow(s, s.links[link]) <==>
      s.links[link].status == LinkApproved && ev.linkEvidence == s.links[link].digest
  {
    var l := s.links[link];
    if Reads(s.world, l.material, l.caseId, l.digest) {
      SameReading(s.world, l.material, l.caseId, l.digest, ev.linkEvidence);
    }
  }

  /** How an acceptance shows while its evidence can be read: rejected for ever, else expired, else stale as soon as
      anything it was bound to reads differently, else as it was decided. */
  lemma EffectiveIs(s: State, row: Row, now: int)
    requires row.bound
             == Binding(row.bound.evidence, row.link, row.reference, row.digest, row.proposedBy, row.expiresAt)
    requires row.link < |s.links| && Readable(s.world, s.links[row.link].material, s.links[row.link].caseId)
    ensures EffectiveStatus(s, row, now) == Ok(
      if row.status == Rejected then Is(Rejected)
      else if row.expiresAt <= now then Expired
      else if Stands(s, row.link, row.bound.evidence) then Is(row.status)
      else Stale)
  {
    var l := s.links[row.link];
    ReadIff(s.world, l.material, l.caseId, l.digest);
    SnapshotIff(s, row.link, row.bound.evidence);
  }

  /** A request is carried out with its own fields; a change of the world is taken over whole or not at all. */
  lemma RequestIs(s: State, a: Action)
    ensures a.ProposeLink? ==> Step(s, a) == ProposeLinkStep(s, a.material, a.caseId, a.actor).0
    ensures a.DecideLink? ==> Step(s, a) == DecideLinkStep(s, a.id, a.approve, a.expected, a.actor).0
    ensures a.Propose? ==> Step(s, a) == ProposeStep(s, a.request, a.actor, a.now).0
    ensures a.Decide? ==>
      Step(s, a) == DecideStep(s, a.id, a.accept, a.expected, a.acknowledged, a.actor, a.now).0
    ensures a.Change? ==> Step(s, a) == s || Step(s, a) == s.(world := a.world)
  {
  }
}
