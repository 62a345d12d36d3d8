/** What each filter, reason and hint of the catalogue says of a case, told from the case's own rows. */
module CatalogueOutcomes {
  import opened Registry
  import opened Strings
  import opened CatalogueEligibility
  import C = CatalogueCursor
  import P = CataloguePages
  import L = CatalogueList

  // ---------------------------------------------------------------- the list

  /** A listing with one filter at most: everything a tenant has, under a view. */
  function Plain(tenant: string, view: string): L.Query { L.Query(tenant, None, None, None, view) }

  /** Filters only ever cut the list: each by its own field, and all of them together by all. */
  lemma FiltersAre(t: Tables, q: L.Query, lib: L.Lib, id: string)
    ensures id in L.Matching(t, q, lib) <==>
      && id in t.cases
      && (q.query.Some? && q.query.value != "" ==>
            lib.like(q.query.value, id) || lib.like(q.query.value, t.cases[id].packageId)
            || lib.like(q.query.value, t.cases[id].status))
      && (q.packageId.Some? && q.packageId.value != "" ==> t.cases[id].packageId == q.packageId.value)
      && (q.status.Some? && q.status.value != "" ==> t.cases[id].status == q.status.value)
      && (q.view == "signed" ==> t.cases[id].hasSignedPlan)
      && (q.view == "blocked" ==> t.cases[id].blocked)
      && (q.view == "quality" ==> DisplayedScore(t, id) < 70)
  {
    if id in t.cases { ScoresAgree(t, t.cases[id], Present(t.profiles, id)); }
  }

  /** Two listings share a scope exactly when they have one tenant, one view and the same filters, an absent one being
      an empty one; and then they list the same cases. */
  lemma ScopesAre(t: Tables, q: L.Query, r: L.Query, lib: L.Lib)
    ensures L.ScopeOf(q) == L.ScopeOf(r) <==>
      && q.tenant == r.tenant && q.view == r.view
      && (if q.query.Some? then q.query.value else "") == (if r.query.Some? then r.query.value else "")
      && (if q.packageId.Some? then q.packageId.value else "") == (if r.packageId.Some? then r.packageId.value else "")
      && (if q.status.Some? then q.status.value else "") == (if r.status.Some? then r.status.value else "")
    ensures q.packageId.Some? ==> L.ScopeOf(q).packageId == q.packageId.value
    ensures q.status.Some? ==> L.ScopeOf(q).status == q.status.value
    ensures q.query.Some? ==> L.ScopeOf(q).query == q.query.value
    ensures L.ScopeOf(q) == L.ScopeOf(r) ==> L.Matching(t, q, lib) == L.Matching(t, r, lib)
  {
    if L.ScopeOf(q) == L.ScopeOf(r) {
      forall id ensures id in L.Matching(t, q, lib) <==> id in L.Matching(t, r, lib) {
        FiltersAre(t, q, lib, id);
        FiltersAre(t, r, lib, id);
      }
    }
  }

  /** What a request answers: without a cursor the first page, with one the page after its case, and in either case the
      total of the whole listing; a cursor that is refused refuses the request. */
  lemma PageIs(t: Tables, q: L.Query, cursor: Option<string>, size: nat, lib: L.Lib)
    requires size > 0
    ensures var page, ids := L.ListPage(t, q, cursor, size, lib), L.Matching(t, q, lib);
      && (cursor.None? ==> page.Ok?)
      && (cursor.Some? ==>
            var after := C.CursorCase(cursor.value, L.ScopeOf(q), lib.cursors);
            (page.Ok? <==> after.Ok?) && (after.Err? ==> page == Err(after.error)))
      && (page.Ok? ==>
            var after := if cursor.None? then None
              else Some(C.CursorCase(cursor.value, L.ScopeOf(q), lib.cursors).value);
            && page.value.total == |ids| && |page.value.items| <= size
            && (forall i :: 0 <= i < |page.value.items| ==>
                  page.value.items[i] in ids && (after.Some? ==> StringLess(after.value, page.value.items[i])))
            && (page.value.next.Some? ==> |page.value.items| == size))
  {
    P.RequestIs(L.Matching(t, q, lib), None, size);
    if cursor.Some? {
      var after := C.CursorCase(cursor.value, L.ScopeOf(q), lib.cursors);
      if after.Ok? { P.RequestIs(L.Matching(t, q, lib), Some(after.value), size); }
    }
  }

  /** As many pages as hold the total, and no more: none for nothing. */
  lemma PagesAre(total: nat, size: nat)
    requires size > 0
    ensures total <= P.Pages(total, size) * size < total + size
  {
    var n := P.Pages(total, size);
    if total > 0 { assert n * size == total + size - 1 - (total + size - 1) % size; }
  }

  // ---------------------------------------------------------------- why a case is left out

  predicate Finished(status: string) { status == "已结清" || status == "本期已足额" }

  /** A case serves a goal: a signed plan, a first contact, or a payment to match. */
  predicate Serves(c: CaseRecord, goal: string) {
    || (goal == "已签协议履约" && c.hasSignedPlan)
    || (goal == "首次联络与意愿确认" && (c.status == "待联系" || c.status == "方案待签"))
    || (goal == "回款自动核对"
        && c.status in {"到账待匹配", "支付失败", "支付处理中", "自然回款", "已确认回款"})
  }

  predicate HasRule(t: Tables, ruleId: string) {
    exists i :: 0 <= i < |t.rules| && t.rules[i].ruleId == ruleId && t.rules[i].active
  }

  predicate HasBasis(c: CaseRecord) { c.contactBasis.Some? && c.contactBasis.value != "" }

  /** The goals and their statuses. */
  lemma ServesIff(c: CaseRecord, goal: string)
    ensures GoalMatches(c, goal) <==> Serves(c, goal)
  {
    assert SIGNED_GOAL[0] == '已' && CONTACT_GOAL[0] == '首' && PAYMENT_GOAL[0] == '回';
  }

  /** The reason given for a case, by what is first missing. */
  lemma ReasonIs(t: Tables, inFlight: set<string>, goal: string, today: int, id: string)
    requires id in t.cases
    ensures var reason, c := Reason(t, inFlight, goal, today, id), t.cases[id];
      var held := c.blocked || Finished(c.status) || id in inFlight || !Serves(c, goal);
      && (c.blocked ==> reason == Some("保护暂停"))
      && (!c.blocked && Finished(c.status) ==> reason == Some("已完成"))
      && (!c.blocked && !Finished(c.status) && id in inFlight ==> reason == Some("重复在途任务"))
      && (!c.blocked && !Finished(c.status) && id !in inFlight && !Serves(c, goal) ==> reason == Some("目标不匹配"))
      && (!held && id !in t.profiles ==> reason == Some("债权与委托资料不完整"))
      && (!held && id in t.profiles ==> reason == FinancialReason(t, id, today))
  {
    ServesIff(t.cases[id], goal);
  }

  /** What is first wrong with the claim, the mandate, the rule or the contact basis of a case with a profile. */
  function FinancialReason(t: Tables, id: string, today: int): Option<string>
    requires id in t.cases && id in t.profiles
  {
    var p := t.profiles[id];
    if p.balance < 1 then Some("债权余额无效")
    else if today < p.mandateStart then Some("委托尚未生效")
    else if today > p.mandateEnd then Some("委托已到期")
    else if !HasRule(t, p.ruleId) then Some("佣金规则未生效")
    else if !HasBasis(t.cases[id]) then Some("缺少联系依据引用")
    else None
  }

  /** A case is executable exactly when its package is published, it is neither protected nor finished, and nothing
      financial is wrong with it. */
  lemma ExecutableIff(t: Tables, id: string, today: int)
    ensures Executable(t, id, today) <==>
      && id in t.cases && id in t.profiles && t.cases[id].packageId in t.packages
      && t.packages[t.cases[id].packageId].published && !t.cases[id].blocked && !Finished(t.cases[id].status)
      && FinancialReason(t, id, today).None?
  {
    if id in t.profiles { RuleExists(t, t.profiles[id].ruleId); }
  }

  /** The next step shown for a case, by the first thing that holds it up. */
  lemma NextIs(t: Tables, id: string, protection: Option<string>, plan: Option<string>, today: int)
    requires id in t.cases
    ensures var next, c := NextAllowed(t, id, protection, plan, today), t.cases[id];
      var open := !c.blocked && !Finished(c.status);
      && (c.blocked ==> next == if protection.Some? then protection.value else "等待保护事件复核")
      && (!c.blocked && Finished(c.status) ==> next == "仅保留账务与审计记录")
      && (open && id !in t.profiles ==> next == "补齐债权与委托资料后重新预检")
      && (open && id in t.profiles ==>
            var p := t.profiles[id];
            var valid := 1 <= p.balance && p.mandateStart <= today <= p.mandateEnd;
            var unpublished := c.packageId in t.packages && !t.packages[c.packageId].published;
            && (p.balance < 1 ==> next == "核对有效债权余额后重新预检")
            && (1 <= p.balance && today < p.mandateStart ==> next == "委托尚未开始，等待生效后重新预检")
            && (1 <= p.balance && p.mandateStart <= today && p.mandateEnd < today ==> next == "委托已到期，仅核对被动到账")
            && (valid && unpublished ==> next == "资产包策略发布后重新预检")
            && (valid && !unpublished && !HasRule(t, p.ruleId) ==> next == "补齐有效佣金规则后重新预检")
            && (valid && !unpublished && HasRule(t, p.ruleId) ==>
                  next == (if plan == Some("active") || plan == Some("completed") then "按已签方案核对下一期"
                           else if !HasBasis(c) then "补齐联系依据引用后重新预检"
                           else "进入活动资格预检")))
  {
    if id in t.profiles { RuleExists(t, t.profiles[id].ruleId); }
  }

  /** The displayed score: 20 for being there, 25 for a profile and 15 more each for a claim and a coherent mandate on
      it, 10 for an active rule and 15 for a contact basis; so at most 100. */
  lemma ScoreIs(t: Tables, id: string)
    requires id in t.cases
    ensures var score := DisplayedScore(t, id);
      && (id !in t.profiles ==> score == 20 + if HasBasis(t.cases[id]) then 15 else 0)
      && (id in t.profiles ==>
            var p := t.profiles[id];
            score == 45 + (if p.balance > 0 then 15 else 0) + (if p.mandateStart <= p.mandateEnd then 15 else 0)
                     + (if HasRule(t, p.ruleId) then 10 else 0) + if HasBasis(t.cases[id]) then 15 else 0)
      && 20 <= score <= 100
  {
    if id in t.profiles { RuleExists(t, t.profiles[id].ruleId); }
  }

  // ---------------------------------------------------------------- the browser's reasons

  /** A running or paused activity works on the case. */
  predicate InActivity(activities: seq<Activity>, id: string) {
    exists i :: 0 <= i < |activities| && activities[i].status in {"running", "paused"} && id in activities[i].caseIds
  }

  /** The browser leaves out a candidate as protected, finished, in a running or paused activity, or off the goal, in
      this order; a signed goal is served by an active or completed governed plan or a signed one. */
  lemma BrowserReasonIs(item: Item, activities: seq<Activity>, goal: string)
    ensures var reason := BrowserReason(item, activities, goal);
      var busy := InActivity(activities, item.id);
      var signed := item.governedPlan == Some("active") || item.governedPlan == Some("completed")
        || item.plan == Some("SIGNED");
      var off := !Serves(CaseRecord(item.packageId, item.status, item.blocked, signed, None), goal);
      && (reason == Some(Protected) <==> item.blocked)
      && (reason == Some(Completed) <==> !item.blocked && Finished(item.status))
      && (reason == Some(InFlight) <==> !item.blocked && !Finished(item.status) && busy)
      && (reason == Some(WrongGoal) <==> !item.blocked && !Finished(item.status) && !busy && off)
  {
    assert SIGNED_GOAL[0] == '已' && CONTACT_GOAL[0] == '首' && PAYMENT_GOAL[0] == '回';
  }

  /** The candidates of a package, and those left out for a reason, are the items concerned, in their order. */
  lemma CandidatesAre(items: seq<Item>, packageId: string, item: Item, activities: seq<Activity>, goal: string,
                      reason: Option<Why>)
    ensures Candidates([], packageId) == [] && Chosen([], activities, goal, reason) == []
    ensures Candidates(items + [item], packageId)
      == Candidates(items, packageId) + if item.packageId == packageId then [item] else []
    ensures Chosen(items + [item], activities, goal, reason)
      == Chosen(items, activities, goal, reason)
         + if BrowserReason(item, activities, goal) == reason then [item] else []
  {
    assert (items + [item])[..|items|] == items;
  }

  /** Requested cases that are not found are named once each request, with that reason and no other. */
  lemma {:induction false} MissingAre(requested: seq<string>, selected: seq<string>, id: string)
    ensures Missing([], selected) == []
    ensures Missing(requested + [id], selected)
      == Missing(requested, selected)
         + if id in selected then [] else [Exclusion(id, "案件不存在或不属于当前租户资产包")]
  {
    assert (requested + [id])[..|requested|] == requested;
  }

  /** The preflight's two lists in the order of the rows, each excluded case with its own reason. */
  lemma {:induction false} SortedAre(t: Tables, inFlight: set<string>, goal: string, today: int, selected: seq<string>,
                                     id: string)
    requires id in t.cases && forall d :: d in selected ==> d in t.cases
    ensures forall d :: d in selected + [id] ==> d in t.cases
    ensures var s, n := Sort(t, inFlight, goal, today, selected), Sort(t, inFlight, goal, today, selected + [id]);
      match Reason(t, inFlight, goal, today, id)
      case None => n == s.(eligible := s.eligible + [id])
      case Some(reason) => n == s.(excluded := s.excluded + [Exclusion(id, reason)])
  {
    assert (selected + [id])[..|selected|] == selected;
  }
}
