/** The reference tables that the ledger, the importer and the catalogue share:
    packages, commission rules, cases and financial profiles of one tenant. */
module Registry {

  datatype Option<+T> = None | Some(value: T)

  datatype Result<+T, +E> = Ok(value: T) | Err(error: E)

  /** The check constraint on a commission rule's rate. */
  type Bps = rate: int | 0 <= rate <= 10_000

  datatype Package = Package(title: string, published: bool)

  datatype Rule = Rule(ruleId: string, version: int, packageId: string, rate: Bps, active: bool)

  datatype CaseRecord = CaseRecord(
    packageId: string, status: string, blocked: bool, hasSignedPlan: bool, contactBasis: Option<string>)

  /** Dates are day numbers. */
  datatype Profile = Profile(
    ruleId: string, balance: int, principal: Option<int>, interest: Option<int>, fee: Option<int>,
    firstOverdue: Option<int>, lastContact: Option<int>, mandateStart: int, mandateEnd: int,
    signedPlanAt: Option<int>, signedPlanLastDue: Option<int>, tailEligible: bool)

  /** One tenant's tables; maps stand for the unique keys. */
  datatype Tables = Tables(
    packages: map<string, Package>, rules: seq<Rule>,
    cases: map<string, CaseRecord>, profiles: map<string, Profile>)

  /** The active version with the highest number among the rows `wanted` accepts. */
  function Newest(rules: seq<Rule>, wanted: Rule -> bool): Option<Rule> {
    if rules == [] then None
    else
      var rest := Newest(rules[1..], wanted);
      if rules[0].active && wanted(rules[0]) && (rest.None? || rest.value.version <= rules[0].version)
      then Some(rules[0])
      else rest
  }

  lemma {:induction false} NewestIsNewest(rules: seq<Rule>, wanted: Rule -> bool)
    ensures var r := Newest(rules, wanted);
      && (r.Some? <==> exists rule :: rule in rules && rule.active && wanted(rule))
      && (r.Some? ==> r.value in rules && r.value.active && wanted(r.value))
      && (r.Some? ==> forall rule :: rule in rules && rule.active && wanted(rule) ==> rule.version <= r.value.version)
  {
    if rules != [] {
      NewestIsNewest(rules[1..], wanted);
      assert forall rule :: rule in rules <==> rule == rules[0] || rule in rules[1..];
    }
  }

  /** A case the ledger can book on: it has a profile, and its profile's rule has an
      active version for the case's own package. */
  ghost predicate Bookable(t: Tables, caseId: string) {
    && caseId in t.cases
    && caseId in t.profiles
    && exists rule ::
      && rule in t.rules
      && rule.active
      && rule.ruleId == t.profiles[caseId].ruleId
      && rule.packageId == t.cases[caseId].packageId
  }
}
