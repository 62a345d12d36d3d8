/** The catalogue's scores, the browser's candidate list and the server's preflight: three readings
    of the same cases, and where they agree. */
module CatalogueEligibility {
  import opened Registry
  import opened Strings

  // ---------------------------------------------------------------- rules and scores

  function Present<V>(m: map<string, V>, k: string): Option<V> { if k in m then Some(m[k]) else None }

  /** The rule the catalogue shows: the newest active version of an identifier, in any package. */
  function RuleById(t: Tables, ruleId: string): Option<Rule> { Newest(t.rules, (r: Rule) => r.ruleId == ruleId) }

  function RuleOf(t: Tables, profile: Option<Profile>): Option<Rule> {
    if profile.Some? then RuleById(t, profile.value.ruleId) else None
  }

  /** `_rules_by_id`: `rows` are the active rules asked for, in the order of the query. */
  method RulesById(rows: seq<Rule>) returns (result: map<string, Rule>)
    requires forall i, j :: 0 <= i < j < |rows| && rows[i].ruleId == rows[j].ruleId ==>
      rows[j].version <= rows[i].version
    ensures forall id :: id in result <==> exists r :: r in rows && r.ruleId == id
    ensures forall id :: id in result ==> result[id] in rows && result[id].ruleId == id
    ensures forall id, r :: id in result && r in rows && r.ruleId == id ==> r.version <= result[id].version
  {
    result := map[];
    for i := 0 to |rows|
      invariant forall id :: id in result ==> result[id] in rows && result[id].ruleId == id
      invariant forall id, k :: id in result && i <= k < |rows| && rows[k].ruleId == id ==>
        rows[k].version <= result[id].version
      invariant forall j :: 0 <= j < i ==> rows[j].ruleId in result && rows[j].version <= result[rows[j].ruleId].version
    {
      if rows[i].ruleId !in result {
        result := result[rows[i].ruleId := rows[i]];
      }
    }
    forall r | r in rows ensures r.ruleId in result && r.version <= result[r.ruleId].version {
      var j :| 0 <= j < |rows| && rows[j] == r;
    }
  }

  function HasText(o: Option<string>): bool { o.Some? && o.value != "" }

  /** `_quality_score` */
  method QualityScore(c: CaseRecord, profile: Option<Profile>, rule: Option<Rule>) returns (score: int)
    ensures score == Score(c, profile, rule)
  {
    score := 20;
    if profile.Some? {
      score := score + 25;
      if profile.value.balance > 0 { score := score + 15; }
      if profile.value.mandateStart <= profile.value.mandateEnd { score := score + 15; }
    }
    if rule.Some? { score := score + 10; }
    if HasText(c.contactBasis) { score := score + 15; }
    score := if score < 100 then score else 100;
  }

  function Points(earned: bool, points: int): int { if earned then points else 0 }

  function Score(c: CaseRecord, profile: Option<Profile>, rule: Option<Rule>): int {
    20 + Points(profile.Some?, 25) + Points(profile.Some? && profile.value.balance > 0, 15)
    + Points(profile.Some? && profile.value.mandateStart <= profile.value.mandateEnd, 15)
    + Points(rule.Some?, 10) + Points(HasText(c.contactBasis), 15)
  }

  /** SQL truth: absent is NULL. */
  type Truth = Option<bool>

  function And(a: Truth, b: Truth): Truth {
    if a == Some(false) || b == Some(false) then Some(false)
    else if a == Some(true) && b == Some(true) then Some(true)
    else None
  }

  function IsNotNull<T>(o: Option<T>): Truth { Some(o.Some?) }

  function Compare(a: Option<int>, b: Option<int>, holds: (int, int) -> bool): Truth {
    if a.Some? && b.Some? then Some(holds(a.value, b.value)) else None
  }

  function NotEmpty(o: Option<string>): Truth { if o.Some? then Some(o.value != "") else None }

  /** CASE WHEN condition THEN points ELSE 0 END: NULL falls to the ELSE. */
  function When(condition: Truth, points: int): int { if condition == Some(true) then points else 0 }

  function Column<T>(p: Option<Profile>, read: Profile -> T): Option<T> {
    if p.Some? then Some(read(p.value)) else None
  }

  /** The correlated EXISTS: an equality with NULL selects nothing. */
  predicate ActiveVersionExists(t: Tables, ruleId: Option<string>) {
    exists i :: 0 <= i < |t.rules| && ruleId == Some(t.rules[i].ruleId) && t.rules[i].active
  }

  /** `_quality_expression` over the outer join of a case and its profile. */
  function SqlScore(t: Tables, c: CaseRecord, p: Option<Profile>): int {
    20 + When(IsNotNull(p), 25)
    + When(Compare(Column(p, (x: Profile) => x.balance), Some(0), (a, b) => a > b), 15)
    + When(Compare(Column(p, (x: Profile) => x.mandateStart), Column(p, (x: Profile) => x.mandateEnd),
                   (a, b) => a <= b), 15)
    + When(Some(ActiveVersionExists(t, Column(p, (x: Profile) => x.ruleId))), 10)
    + When(And(IsNotNull(c.contactBasis), NotEmpty(c.contactBasis)), 15)
  }

  /** The score the query filters on is the score the page displays. */
  lemma ScoresAgree(t: Tables, c: CaseRecord, p: Option<Profile>)
    ensures SqlScore(t, c, p) == Score(c, p, RuleOf(t, p))
  {
    if p.Some? {
      var id := p.value.ruleId;
      NewestIsNewest(t.rules, (r: Rule) => r.ruleId == id);
      assert ActiveVersionExists(t, Some(id)) <==> exists r :: r in t.rules && r.active && r.ruleId == id by {
        if ActiveVersionExists(t, Some(id)) {
          var i :| 0 <= i < |t.rules| && t.rules[i].ruleId == id && t.rules[i].active;
          assert t.rules[i] in t.rules;
        }
      }
    }
  }

  function DisplayedScore(t: Tables, id: string): int
    requires id in t.cases
  {
    Score(t.cases[id], Present(t.profiles, id), RuleOf(t, Present(t.profiles, id)))
  }

  /** What `view=quality` selects. */
  function QualityView(t: Tables): set<string> {
    set id | id in t.cases && SqlScore(t, t.cases[id], Present(t.profiles, id)) < 70
  }

  /** The quality view lists exactly the cases displayed below 70. Under the constraints on profiles
      those are the cases without a profile: no missing rule or contact reference alone puts a case there. */
  lemma QualityViewIs(t: Tables)
    ensures QualityView(t) == set id | id in t.cases && DisplayedScore(t, id) < 70
    ensures (forall id :: id in t.profiles ==>
               t.profiles[id].balance > 0 && t.profiles[id].mandateStart <= t.profiles[id].mandateEnd)
      ==> QualityView(t) == t.cases.Keys - t.profiles.Keys
  {
    forall id | id in t.cases ensures SqlScore(t, t.cases[id], Present(t.profiles, id)) == DisplayedScore(t, id) {
      ScoresAgree(t, t.cases[id], Present(t.profiles, id));
    }
  }

  /** The rule the catalogue shows for a case is the rule the ledger books it on exactly when it
      belongs to the case's own package. */
  lemma ShownRuleIsBookedIff(t: Tables, id: string)
    requires id in t.cases && id in t.profiles && RuleById(t, t.profiles[id].ruleId).Some?
    requires forall a, b :: a in t.rules && b in t.rules && a.ruleId == b.ruleId && a.version == b.version ==> a == b
    ensures var p, pkg := t.profiles[id], t.cases[id].packageId;
      (Newest(t.rules, (r: Rule) => r.ruleId == p.ruleId && r.packageId == pkg) == RuleById(t, p.ruleId)) <==>
          RuleById(t, p.ruleId).value.packageId == pkg
  {
    var p, pkg := t.profiles[id], t.cases[id].packageId;
    NewestIsNewest(t.rules, (r: Rule) => r.ruleId == p.ruleId);
    NewestIsNewest(t.rules, (r: Rule) => r.ruleId == p.ruleId && r.packageId == pkg);
  }

  // ---------------------------------------------------------------- three eligibility procedures

  const COMPLETED := ["已结清", "本期已足额"]
  const FIRST_CONTACT := ["待联系", "方案待签"]
  const PAYMENT := ["到账待匹配", "支付失败", "支付处理中", "自然回款", "已确认回款"]
  const SIGNED_GOAL := "已签协议履约"
  const CONTACT_GOAL := "首次联络与意愿确认"
  const PAYMENT_GOAL := "回款自动核对"

  /** `goal_matches` */
  predicate GoalMatches(c: CaseRecord, goal: string) {
    if goal == SIGNED_GOAL then c.hasSignedPlan
    else if goal == CONTACT_GOAL then c.status in FIRST_CONTACT
    else goal == PAYMENT_GOAL && c.status in PAYMENT
  }

  /** Why the server's preflight excludes a case it found. */
  function Reason(t: Tables, inFlight: set<string>, goal: string, today: int, id: string): Option<string>
    requires id in t.cases
  {
    var c, p := t.cases[id], Present(t.profiles, id);
    if c.blocked then Some("保护暂停")
    else if c.status in COMPLETED then Some("已完成")
    else if id in inFlight then Some("重复在途任务")
    else if !GoalMatches(c, goal) then Some("目标不匹配")
    else if p.None? then Some("债权与委托资料不完整")
    else if p.value.balance <= 0 then Some("债权余额无效")
    else if p.value.mandateStart > today then Some("委托尚未生效")
    else if p.value.mandateEnd < today then Some("委托已到期")
    else if !ActiveVersionExists(t, Some(p.value.ruleId)) then Some("佣金规则未生效")
    else if !HasText(c.contactBasis) then Some("缺少联系依据引用")
    else None
  }

  /** What `list_packages` counts as executable in a package. */
  predicate Executable(t: Tables, id: string, today: int) {
    && id in t.cases && t.cases[id].packageId in t.packages
    && !t.cases[id].blocked && t.cases[id].status !in COMPLETED
    && t.packages[t.cases[id].packageId].published
    && id in t.profiles && t.profiles[id].balance > 0
    && t.profiles[id].mandateStart <= today && t.profiles[id].mandateEnd >= today
    && RuleById(t, t.profiles[id].ruleId).Some?
    && HasText(t.cases[id].contactBasis)
  }

  function ExecutableCount(t: Tables, packageId: string, today: int): nat {
    |set id | id in t.cases && t.cases[id].packageId == packageId && Executable(t, id, today)|
  }

  const READY := "进入活动资格预检"

  /** `_next_allowed`; `protection` is the reason of an active incident, `plan` the status of the visible plan. */
  function NextAllowed(t: Tables, id: string, protection: Option<string>, plan: Option<string>, today: int): string
    requires id in t.cases
  {
    var c, p, pkg := t.cases[id], Present(t.profiles, id), Present(t.packages, t.cases[id].packageId);
    if c.blocked then (if protection.Some? then protection.value else "等待保护事件复核")
    else if c.status in COMPLETED then "仅保留账务与审计记录"
    else if p.None? then "补齐债权与委托资料后重新预检"
    else if p.value.balance <= 0 then "核对有效债权余额后重新预检"
    else if p.value.mandateStart > today then "委托尚未开始，等待生效后重新预检"
    else if p.value.mandateEnd < today then "委托已到期，仅核对被动到账"
    else if pkg.Some? && !pkg.value.published then "资产包策略发布后重新预检"
    else if RuleOf(t, p).None? then "补齐有效佣金规则后重新预检"
    else if plan == Some("active") || plan == Some("completed") then "按已签方案核对下一期"
    else if !HasText(c.contactBasis) then "补齐联系依据引用后重新预检"
    else READY
  }

  lemma RuleExists(t: Tables, ruleId: string)
    ensures RuleById(t, ruleId).Some? <==> ActiveVersionExists(t, Some(ruleId))
  {
    NewestIsNewest(t.rules, (r: Rule) => r.ruleId == ruleId);
    if ActiveVersionExists(t, Some(ruleId)) {
      var i :| 0 <= i < |t.rules| && t.rules[i].ruleId == ruleId && t.rules[i].active;
      assert t.rules[i] in t.rules;
    }
  }

  /** A listed case whose package is present shows the final step exactly when it is executable and
      has no active or completed plan. (The only other way is a protection incident whose free-text
      reason happens to be that very sentence.) */
  lemma ReadyIff(t: Tables, id: string, protection: Option<string>, plan: Option<string>, today: int)
    requires id in t.cases && t.cases[id].packageId in t.packages
    ensures NextAllowed(t, id, protection, plan, today) == READY <==>
      || (Executable(t, id, today) && plan != Some("active") && plan != Some("completed"))
      || (t.cases[id].blocked && protection == Some(READY))
  {
    assert READY[0] == '进';
  }

  /** The server excludes no case that is executable, matches the goal and is not in flight; and what
      it lets through of a published package is executable. */
  lemma EligibleIff(t: Tables, inFlight: set<string>, goal: string, today: int, id: string)
    requires id in t.cases && t.cases[id].packageId in t.packages
    ensures t.packages[t.cases[id].packageId].published ==>
      (Reason(t, inFlight, goal, today, id).None? <==>
         Executable(t, id, today) && GoalMatches(t.cases[id], goal) && id !in inFlight)
    ensures Executable(t, id, today) ==> t.packages[t.cases[id].packageId].published
  {
    if id in t.profiles { RuleExists(t, t.profiles[id].ruleId); }
  }

  // ---------------------------------------------------------------- the server's preflight

  /** The rows the query returns, in whatever order it likes. */
  ghost predicate Selected(t: Tables, packageId: string, requested: seq<string>, selected: seq<string>) {
    Distinct(selected)
    && forall id :: id in selected <==> id in requested && id in t.cases && t.cases[id].packageId == packageId
  }

  datatype Exclusion = Exclusion(id: string, reason: string)

  const NOT_FOUND := "案件不存在或不属于当前租户资产包"

  function Missing(requested: seq<string>, selected: seq<string>): seq<Exclusion> {
    if requested == [] then []
    else Missing(requested[..|requested| - 1], selected)
         + if requested[|requested| - 1] in selected then [] else [Exclusion(requested[|requested| - 1], NOT_FOUND)]
  }

  datatype Sorting = Sorting(eligible: seq<string>, excluded: seq<Exclusion>)

  function Sort(t: Tables, inFlight: set<string>, goal: string, today: int, selected: seq<string>): Sorting
    requires forall id :: id in selected ==> id in t.cases
  {
    if selected == [] then Sorting([], [])
    else
      var s, id := Sort(t, inFlight, goal, today, selected[..|selected| - 1]), selected[|selected| - 1];
      match Reason(t, inFlight, goal, today, id)
      case None => s.(eligible := s.eligible + [id])
      case Some(reason) => s.(excluded := s.excluded + [Exclusion(id, reason)])
  }

  /** `activity_preflight` */
  method Preflight(t: Tables, packageId: string, requested: seq<string>, selected: seq<string>, inFlight: set<string>,
                   goal: string, today: int)
    returns (eligible: seq<string>, excluded: seq<Exclusion>)
    requires Selected(t, packageId, requested, selected)
    ensures var s := Sort(t, inFlight, goal, today, selected);
      eligible == s.eligible && excluded == Missing(requested, selected) + s.excluded
  {
    eligible, excluded := [], [];
    for i := 0 to |requested|
      invariant excluded == Missing(requested[..i], selected)
    {
      assert requested[..i + 1][..i] == requested[..i];
      if requested[i] !in selected { excluded := excluded + [Exclusion(requested[i], NOT_FOUND)]; }
    }
    assert requested[..|requested|] == requested;
    for i := 0 to |selected|
      invariant var s := Sort(t, inFlight, goal, today, selected[..i]);
        eligible == s.eligible && excluded == Missing(requested, selected) + s.excluded
    {
      assert selected[..i + 1][..i] == selected[..i];
      var reason := Reason(t, inFlight, goal, today, selected[i]);
      if reason.Some? {
        excluded := excluded + [Exclusion(selected[i], reason.value)];
      } else {
        eligible := eligible + [selected[i]];
      }
    }
    assert selected[..|selected|] == selected;
  }

  predicate Names(es: seq<Exclusion>, id: string) { exists i :: 0 <= i < |es| && es[i].id == id }

  lemma NamesPush(es: seq<Exclusion>, e: Exclusion, id: string)
    ensures Names(es + [e], id) <==> Names(es, id) || e.id == id
  {
    assert (es + [e])[|es|] == e;
    if Names(es, id) {
      var i :| 0 <= i < |es| && es[i].id == id;
      assert (es + [e])[i].id == id;
    }
  }

  lemma {:induction false} MissingIs(requested: seq<string>, selected: seq<string>, id: string)
    ensures Names(Missing(requested, selected), id) <==> id in requested && id !in selected
  {
    if requested != [] {
      var front, last := requested[..|requested| - 1], requested[|requested| - 1];
      MissingIs(front, selected, id);
      assert requested == front + [last];
      if last !in selected { NamesPush(Missing(front, selected), Exclusion(last, NOT_FOUND), id); }
      else { assert Missing(requested, selected) == Missing(front, selected); }
    }
  }

  lemma {:induction false} SortIs(t: Tables, inFlight: set<string>, goal: string, today: int, selected: seq<string>,
                                  id: string)
    requires forall d :: d in selected ==> d in t.cases
    requires Distinct(selected)
    ensures var s := Sort(t, inFlight, goal, today, selected);
      && (id in s.eligible <==> id in selected && Reason(t, inFlight, goal, today, id).None?)
      && (Names(s.excluded, id) <==> id in selected && Reason(t, inFlight, goal, today, id).Some?)
      && |s.eligible| + |s.excluded| == |selected|
      && Distinct(s.eligible) && (forall d :: d in s.eligible ==> d in selected)
  {
    if selected != [] {
      var front, last := selected[..|selected| - 1], selected[|selected| - 1];
      var before := Sort(t, inFlight, goal, today, front);
      SortIs(t, inFlight, goal, today, front, id);
      assert selected == front + [last];
      assert last !in front;
      match Reason(t, inFlight, goal, today, last)
      case None =>
      case Some(reason) => NamesPush(before.excluded, Exclusion(last, reason), id);
    }
  }

  ghost function Found(requested: seq<string>, selected: seq<string>): set<string> {
    set id | id in requested && id in selected
  }

  lemma FoundPush(front: seq<string>, last: string, selected: seq<string>)
    requires last !in front
    ensures |Found(front + [last], selected)| == |Found(front, selected)| + if last in selected then 1 else 0
  {
    assert Found(front + [last], selected) == if last in selected then Found(front, selected) + {last}
      else Found(front, selected);
  }

  lemma {:induction false} MissingCount(requested: seq<string>, selected: seq<string>)
    requires Distinct(requested)
    ensures |Missing(requested, selected)| + |Found(requested, selected)| == |requested|
  {
    if requested != [] {
      var front, last := requested[..|requested| - 1], requested[|requested| - 1];
      MissingCount(front, selected);
      assert requested == front + [last];
      FoundPush(front, last, selected);
    }
  }

  /** For distinct requested identifiers the preflight splits them: each is eligible or excluded,
      never both, and the two lists together are as long as the request. */
  lemma PreflightPartitions(t: Tables, packageId: string, requested: seq<string>, selected: seq<string>,
                            inFlight: set<string>, goal: string, today: int, id: string)
    requires Selected(t, packageId, requested, selected) && Distinct(requested)
    ensures var s := Sort(t, inFlight, goal, today, selected);
      var excluded := Missing(requested, selected) + s.excluded;
      && (id in requested <==> id in s.eligible || Names(excluded, id))
      && !(id in s.eligible && Names(excluded, id))
      && |s.eligible| + |excluded| == |requested|
  {
    var s := Sort(t, inFlight, goal, today, selected);
    var missing := Missing(requested, selected);
    MissingIs(requested, selected, id);
    SortIs(t, inFlight, goal, today, selected, id);
    NamesJoin(missing, s.excluded, id);
    MissingCount(requested, selected);
    SetOf(selected);
    assert Found(requested, selected) == (set d | d in selected);
  }

  lemma NamesJoin(a: seq<Exclusion>, b: seq<Exclusion>, id: string)
    ensures Names(a + b, id) <==> Names(a, id) || Names(b, id)
  {
    if Names(a, id) {
      var i :| 0 <= i < |a| && a[i].id == id;
      assert (a + b)[i].id == id;
    }
    if Names(b, id) {
      var i :| 0 <= i < |b| && b[i].id == id;
      assert (a + b)[|a| + i].id == id;
    }
  }

  /** Under a published policy the catalogue's executable count covers every eligible case. */
  lemma EligibleWithinExecutable(t: Tables, packageId: string, requested: seq<string>, selected: seq<string>,
                                 inFlight: set<string>, goal: string, today: int)
    requires Selected(t, packageId, requested, selected) && packageId in t.packages && t.packages[packageId].published
    ensures |Sort(t, inFlight, goal, today, selected).eligible| <= ExecutableCount(t, packageId, today)
  {
    var eligible := Sort(t, inFlight, goal, today, selected).eligible;
    SortIs(t, inFlight, goal, today, selected, "");
    SetOf(eligible);
    var counted := set id | id in t.cases && t.cases[id].packageId == packageId && Executable(t, id, today);
    forall id | id in eligible ensures id in counted {
      SortIs(t, inFlight, goal, today, selected, id);
      EligibleIff(t, inFlight, goal, today, id);
    }
    Within((set id | id in eligible), counted);
  }

  lemma Within(a: set<string>, b: set<string>)
    requires a <= b
    ensures |a| <= |b|
  {
    assert b == a + (b - a);
  }

  // ---------------------------------------------------------------- the browser's list

  datatype Item = Item(id: string, packageId: string, status: string, blocked: bool, governedPlan: Option<string>,
                       plan: Option<string>)

  datatype Activity = Activity(status: string, caseIds: seq<string>)

  /** `matchesActivityGoal` */
  predicate BrowserGoal(item: Item, goal: string) {
    if goal == SIGNED_GOAL then item.governedPlan == Some("active") || item.governedPlan == Some("completed")
        || item.plan == Some("SIGNED")
    else if goal == CONTACT_GOAL then item.status in FIRST_CONTACT
    else goal == PAYMENT_GOAL && item.status in PAYMENT
  }

  predicate Busy(activities: seq<Activity>, id: string) {
    exists i :: 0 <= i < |activities| && (activities[i].status == "running" || activities[i].status == "paused")
        && id in activities[i].caseIds
  }

  datatype Why = Protected | Completed | InFlight | WrongGoal

  function BrowserReason(item: Item, activities: seq<Activity>, goal: string): Option<Why> {
    if item.blocked then Some(Protected)
    else if item.status in COMPLETED then Some(Completed)
    else if Busy(activities, item.id) then Some(InFlight)
    else if !BrowserGoal(item, goal) then Some(WrongGoal)
    else None
  }

  function Candidates(items: seq<Item>, packageId: string): seq<Item> {
    if items == [] then []
    else
      var last := items[|items| - 1];
      Candidates(items[..|items| - 1], packageId) + if last.packageId == packageId then [last] else []
  }

  function Chosen(items: seq<Item>, activities: seq<Activity>, goal: string, reason: Option<Why>): seq<Item> {
    if items == [] then []
    else
      Chosen(items[..|items| - 1], activities, goal, reason)
      + if BrowserReason(items[|items| - 1], activities, goal) == reason then [items[|items| - 1]] else []
  }

  /** `selectActivityCandidates`: the counters are how often each reason excluded a candidate. */
  method SelectCandidates(items: seq<Item>, activities: seq<Activity>, packageId: string, goal: string)
    returns (candidates: seq<Item>, eligible: seq<Item>, exclusions: map<Why, nat>)
    ensures candidates == Candidates(items, packageId)
    ensures eligible == Chosen(candidates, activities, goal, None)
    ensures forall r :: r in exclusions && exclusions[r] == |Chosen(candidates, activities, goal, Some(r))|
  {
    candidates := Candidates(items, packageId);
    eligible := [];
    exclusions := map[Protected := 0, Completed := 0, InFlight := 0, WrongGoal := 0];
    assert candidates[..0] == [];
    forall r: Why ensures r in exclusions && exclusions[r] == 0 {
      assert r == Protected || r == Completed || r == InFlight || r == WrongGoal;
    }
    for i := 0 to |candidates|
      invariant eligible == Chosen(candidates[..i], activities, goal, None)
      invariant forall r :: r in exclusions && exclusions[r] == |Chosen(candidates[..i], activities, goal, Some(r))|
    {
      assert candidates[..i + 1][..i] == candidates[..i];
      var reason := BrowserReason(candidates[i], activities, goal);
      if reason.Some? {
        exclusions := exclusions[reason.value := exclusions[reason.value] + 1];
      } else {
        eligible := eligible + [candidates[i]];
      }
    }
    assert candidates[..|candidates|] == candidates;
  }

  /** Every candidate is eligible or counted under exactly one reason. */
  lemma {:induction false} CountersAddUp(items: seq<Item>, activities: seq<Activity>, goal: string)
    ensures |Chosen(items, activities, goal, None)|
      + |Chosen(items, activities, goal, Some(Protected))| + |Chosen(items, activities, goal, Some(Completed))|
      + |Chosen(items, activities, goal, Some(InFlight))| + |Chosen(items, activities, goal, Some(WrongGoal))|
          == |items|
  {
    if items != [] {
      CountersAddUp(items[..|items| - 1], activities, goal);
      var why := BrowserReason(items[|items| - 1], activities, goal);
      assert why == None || why == Some(Protected) || why == Some(Completed) || why == Some(InFlight)
        || why == Some(WrongGoal);
    }
  }

  /** The browser's copy of a case: same row, same running activities, and a plan that is signed there
      exactly when the server's flag says so. */
  ghost predicate Mirrors(item: Item, t: Tables, activities: seq<Activity>, inFlight: set<string>) {
    && item.id in t.cases
    && var c := t.cases[item.id];
    && item.packageId == c.packageId && item.status == c.status && item.blocked == c.blocked
    && (c.hasSignedPlan <==> BrowserGoal(item, SIGNED_GOAL))
    && (item.id in inFlight <==> Busy(activities, item.id))
  }

  /** The financial and contact checks the browser does not make. */
  predicate Funded(t: Tables, id: string, today: int) {
    && id in t.cases && id in t.profiles && t.profiles[id].balance > 0
    && t.profiles[id].mandateStart <= today <= t.profiles[id].mandateEnd
    && ActiveVersionExists(t, Some(t.profiles[id].ruleId))
    && HasText(t.cases[id].contactBasis)
  }

  /** Server-eligible is browser-eligible cut down by the financial and contact checks. */
  lemma PreflightCutsBrowserList(item: Item, t: Tables, activities: seq<Activity>, inFlight: set<string>,
                                 goal: string, today: int)
    requires Mirrors(item, t, activities, inFlight)
    ensures Reason(t, inFlight, goal, today, item.id).None? <==>
      BrowserReason(item, activities, goal).None? && Funded(t, item.id, today)
  {
  }

  lemma {:induction false} ChosenIs(items: seq<Item>, activities: seq<Activity>, goal: string, reason: Option<Why>,
                                    item: Item)
    ensures item in Chosen(items, activities, goal, reason) <==>
      item in items && BrowserReason(item, activities, goal) == reason
  {
    if items != [] {
      ChosenIs(items[..|items| - 1], activities, goal, reason, item);
      assert items == items[..|items| - 1] + [items[|items| - 1]];
    }
  }

  /** Sending the browser's candidates to the server: a case comes back eligible exactly when the
      browser listed it as eligible and it passes the server's own checks. */
  lemma SubmittedListIsCut(items: seq<Item>, t: Tables, activities: seq<Activity>, inFlight: set<string>,
                           goal: string, today: int,
                           packageId: string, requested: seq<string>, selected: seq<string>, item: Item)
    requires forall x :: x in items ==>
      Mirrors(x, t, activities, inFlight) && x.packageId == packageId && x.id in requested
    requires Selected(t, packageId, requested, selected) && item in items
    ensures item.id in Sort(t, inFlight, goal, today, selected).eligible <==>
      item in Chosen(items, activities, goal, None) && Funded(t, item.id, today)
  {
    SortIs(t, inFlight, goal, today, selected, item.id);
    ChosenIs(items, activities, goal, None, item);
    PreflightCutsBrowserList(item, t, activities, inFlight, goal, today);
  }

  // ---------------------------------------------------------------- the catalogue and the ledger

  /** The catalogue takes a case's rule from any package, the ledger from the case's own: in arbitrary
      tables an executable case is bookable exactly when its rule has an active version in its package. */
  lemma ExecutableIsBookableIff(t: Tables, id: string, today: int)
    requires Executable(t, id, today)
    ensures Bookable(t, id) <==>
      exists i :: 0 <= i < |t.rules| && t.rules[i].active && t.rules[i].ruleId == t.profiles[id].ruleId
                  && t.rules[i].packageId == t.cases[id].packageId
  {
    if i :| 0 <= i < |t.rules| && t.rules[i].active && t.rules[i].ruleId == t.profiles[id].ruleId
            && t.rules[i].packageId == t.cases[id].packageId {
      assert t.rules[i] in t.rules;
    }
  }
}
