/** The impact dashboard: one pass over the predictions in scope, against the per-incident listing. */
module Impact {
  import opened Domain

  // ---- The figures shown ---------------------------------------------------------------------

  datatype Group = Everyone | Men | Women | Children

  const GROUPS: set<Group> := {Everyone, Men, Women, Children}

  datatype InfraType =
    Schools | HealthCenters | WaterPoints | Markets | Maternities | Nurseries | RoadsAndBridges | ResidentialBuildings

  const INFRA_TYPES: seq<InfraType> :=
    [Schools, HealthCenters, WaterPoints, Markets, Maternities, Nurseries, RoadsAndBridges, ResidentialBuildings]

  /** The figures that appear both in the dashboard and in the records of the listing. */
  datatype Measure =
    | WithPrediction
    | Exposed(group: Group)
    | IndirectlyExposed(group: Group)
    | Protected(infra: InfraType)
    | IndirectlyProtected(infra: InfraType)
    | SquaredRadius

  // ---- Tables --------------------------------------------------------------------------------

  datatype Status = Unfinished | Completed | CompletedWithWarning

  /** The sections of the model's answer, and the keys of a section, may be missing. */
  datatype Prediction = Prediction(
    incident: Option<IncidentId>,
    status: Status,
    exposed: map<Group, int>,
    infra: map<InfraType, int>,
    indirectPeople: Option<map<Group, int>>,
    indirectInfra: Option<map<InfraType, int>>,
    radius: Option<real>)

  datatype Incident = Incident(
    id: IncidentId,
    etat: Etat,
    leader: Option<UserId>,
    leaderOrg: Option<OrgId>,
    isDeleted: bool,
    inPeriod: bool)

  predicate IsCompleted(p: Prediction) {
    p.status.Completed? || p.status.CompletedWithWarning?
  }

  // ---- The listing: one record per incident --------------------------------------------------

  function Section<K>(m: Option<map<K, int>>): map<K, int> {
    if m.Some? then m.value else map[]
  }

  function OrZero<K>(m: map<K, int>, k: K): int {
    if k in m then m[k] else 0
  }

  function Radius(p: Prediction): real {
    if p.radius.Some? then p.radius.value else 0.0
  }

  /** ImpactIncidentSerializer.get_prediction, with the square of the radius it shows. */
  function Record(p: Prediction, m: Measure): real {
    match m
    case WithPrediction => 1.0
    case Exposed(g) => OrZero(p.exposed, g) as real
    case IndirectlyExposed(g) => OrZero(Section(p.indirectPeople), g) as real
    case Protected(t) => OrZero(p.infra, t) as real
    case IndirectlyProtected(t) => OrZero(Section(p.indirectInfra), t) as real
    case SquaredRadius => Radius(p) * Radius(p)
  }

  /** The prediction of an incident, when it has one. */
  function PredictionOf(preds: seq<Prediction>, i: IncidentId): Option<Prediction> {
    if preds == [] then None
    else if preds[0].incident == Some(i) then Some(preds[0])
    else PredictionOf(preds[1..], i)
  }

  /** The figure shown for an incident: nothing without a completed prediction. */
  function Shown(preds: seq<Prediction>, i: IncidentId, m: Measure): real {
    var p := PredictionOf(preds, i);
    if p.Some? && IsCompleted(p.value) then Record(p.value, m) else 0.0
  }

  /** The sum of the records of the listing. */
  function Listed(preds: seq<Prediction>, incidents: seq<Incident>, m: Measure): real {
    if incidents == [] then 0.0
    else Shown(preds, incidents[0].id, m) + Listed(preds, incidents[1..], m)
  }

  // ---- The scope -----------------------------------------------------------------------------

  datatype Filter = All | ResolvedOnly | TakenWithAction

  predicate InBase(x: Incident, org: Option<OrgId>) {
    !x.isDeleted && x.inPeriod && (org.Some? ==> x.leaderOrg == org)
  }

  /** acted holds the incidents with at least one task done. */
  predicate InFilter(x: Incident, filter: Filter, acted: set<IncidentId>) {
    var isResolved := Closed(x.etat);
    var isTaken := !Closed(x.etat) && x.leader.Some? && x.id in acted;
    match filter
    case ResolvedOnly => isResolved
    case TakenWithAction => isTaken
    case All => isResolved || isTaken
  }

  /** impact_scope */
  function Scope(incidents: seq<Incident>, org: Option<OrgId>, filter: Filter, acted: set<IncidentId>): seq<Incident> {
    if incidents == [] then []
    else
      (if InBase(incidents[0], org) && InFilter(incidents[0], filter, acted) then [incidents[0]] else [])
      + Scope(incidents[1..], org, filter, acted)
  }

  // ---- The accumulation loop -----------------------------------------------------------------

  predicate Counted(p: Prediction, ids: set<IncidentId>) {
    p.incident.Some? && p.incident.value in ids && IsCompleted(p)
  }

  /** What the dashboard adds up: the records of the completed predictions of the incidents in ids. */
  function Accumulated(preds: seq<Prediction>, ids: set<IncidentId>, m: Measure): real {
    if preds == [] then 0.0
    else
      var n := |preds| - 1;
      Accumulated(preds[..n], ids, m) + if Counted(preds[n], ids) then Record(preds[n], m) else 0.0
  }

  datatype Totals = Totals(
    withPrediction: int,
    direct: map<Group, int>,
    indirect: map<Group, int>,
    infraDirect: map<InfraType, int>,
    infraIndirect: map<InfraType, int>,
    area: real)
  {
    function Get(m: Measure): real {
      match m
      case WithPrediction => withPrediction as real
      case Exposed(g) => OrZero(direct, g) as real
      case IndirectlyExposed(g) => OrZero(indirect, g) as real
      case Protected(t) => OrZero(infraDirect, t) as real
      case IndirectlyProtected(t) => OrZero(infraIndirect, t) as real
      case SquaredRadius => area
    }
  }

  predicate AllKeys(m: map<InfraType, int>) {
    forall t: InfraType :: t in m
  }

  /** SQL's SUM of one column over the filtered predictions. */
  function SumExposed(preds: seq<Prediction>, ids: set<IncidentId>, g: Group): (sum: int)
    ensures sum as real == Accumulated(preds, ids, Exposed(g))
  {
    if preds == [] then 0
    else
      var n := |preds| - 1;
      SumExposed(preds[..n], ids, g) + if Counted(preds[n], ids) then OrZero(preds[n].exposed, g) else 0
  }

  function Count(preds: seq<Prediction>, ids: set<IncidentId>): (count: nat)
    ensures count as real == Accumulated(preds, ids, WithPrediction)
  {
    if preds == [] then 0
    else
      var n := |preds| - 1;
      Count(preds[..n], ids) + if Counted(preds[n], ids) then 1 else 0
  }

  /** The inner loop over the infrastructure types. */
  method AddInfra(direct: map<InfraType, int>, indirect: map<InfraType, int>, p: Prediction)
    returns (d: map<InfraType, int>, i: map<InfraType, int>)
    requires AllKeys(direct) && AllKeys(indirect)
    ensures AllKeys(d) && AllKeys(i)
    ensures forall t :: d[t] == direct[t] + OrZero(p.infra, t)
    ensures forall t :: i[t] == indirect[t] + OrZero(Section(p.indirectInfra), t)
  {
    d, i := direct, indirect;
    var section := Section(p.indirectInfra);
    for k := 0 to |INFRA_TYPES|
      invariant AllKeys(d) && AllKeys(i)
      invariant forall t :: d[t] == direct[t] + if t in INFRA_TYPES[..k] then OrZero(p.infra, t) else 0
      invariant forall t :: i[t] == indirect[t] + if t in INFRA_TYPES[..k] then OrZero(section, t) else 0
    {
      var t := INFRA_TYPES[k];
      assert INFRA_TYPES[..k + 1] == INFRA_TYPES[..k] + [t];
      assert t !in INFRA_TYPES[..k];
      d := d[t := d[t] + OrZero(p.infra, t)];
      i := i[t := i[t] + OrZero(section, t)];
    }
    assert INFRA_TYPES[..|INFRA_TYPES|] == INFRA_TYPES;
    AllTypesListed();
  }

  lemma AllTypesListed()
    ensures forall t: InfraType :: t in INFRA_TYPES
  {
    forall t: InfraType
      ensures t in INFRA_TYPES
    {
      match t
      case Schools => assert INFRA_TYPES[0] == t;
      case HealthCenters => assert INFRA_TYPES[1] == t;
      case WaterPoints => assert INFRA_TYPES[2] == t;
      case Markets => assert INFRA_TYPES[3] == t;
      case Maternities => assert INFRA_TYPES[4] == t;
      case Nurseries => assert INFRA_TYPES[5] == t;
      case RoadsAndBridges => assert INFRA_TYPES[6] == t;
      case ResidentialBuildings => assert INFRA_TYPES[7] == t;
    }
  }

  /** The figures of the pass over the predictions; the others are SQL aggregates, final before it starts. */
  predicate InPass(m: Measure) {
    !m.WithPrediction? && !m.Exposed?
  }

  predicate Complete(t: Totals) {
    AllKeys(t.infraDirect) && AllKeys(t.infraIndirect) && forall g: Group :: g in t.direct && g in t.indirect
  }

  /** One turn of the loop. */
  method AddPrediction(totals: Totals, p: Prediction) returns (t: Totals)
    requires Complete(totals)
    ensures Complete(t)
    ensures forall m :: t.Get(m) == totals.Get(m) + if InPass(m) then Record(p, m) else 0.0
  {
    var ind := AddPeople(totals.indirect, p);
    var infraDirect, infraIndirect := AddInfra(totals.infraDirect, totals.infraIndirect, p);
    var area := totals.area;
    var r := Radius(p);
    if r != 0.0 {
      area := area + r * r;
    }
    t := totals.(indirect := ind, infraDirect := infraDirect, infraIndirect := infraIndirect, area := area);
    forall m
      ensures t.Get(m) == totals.Get(m) + if InPass(m) then Record(p, m) else 0.0
    {
      Grown(totals, t, p, m);
    }
  }

  lemma Grown(totals: Totals, t: Totals, p: Prediction, m: Measure)
    requires Complete(totals) && Complete(t)
    requires t == totals.(indirect := t.indirect, infraDirect := t.infraDirect, infraIndirect := t.infraIndirect,
                          area := totals.area + Radius(p) * Radius(p))
    requires forall g :: t.indirect[g] == totals.indirect[g] + OrZero(Section(p.indirectPeople), g)
    requires forall i :: t.infraDirect[i] == totals.infraDirect[i] + OrZero(p.infra, i)
    requires forall i :: t.infraIndirect[i] == totals.infraIndirect[i] + OrZero(Section(p.indirectInfra), i)
    ensures t.Get(m) == totals.Get(m) + if InPass(m) then Record(p, m) else 0.0
  {
    match m
    case WithPrediction =>
    case Exposed(g) =>
    case IndirectlyExposed(g) =>
    case Protected(i) =>
    case IndirectlyProtected(i) =>
    case SquaredRadius =>
  }

  /** The body of ImpactView.get on the incidents of impact_scope: every figure is the sum of the records. */
  method Dashboard(preds: seq<Prediction>, scope: seq<Incident>) returns (totals: Totals)
    ensures forall m :: totals.Get(m) == Accumulated(preds, Ids(scope), m)
  {
    var ids := Ids(scope);
    totals := InitialTotals(preds, ids);
    for k := 0 to |preds|
      invariant Complete(totals)
      invariant forall m :: totals.Get(m) == Accumulated(if InPass(m) then preds[..k] else preds, ids, m)
    {
      assert preds[..k + 1][..k] == preds[..k];
      if Counted(preds[k], ids) {
        totals := AddPrediction(totals, preds[k]);
      }
    }
    assert preds[..|preds|] == preds;
  }

  method InitialTotals(preds: seq<Prediction>, ids: set<IncidentId>) returns (t: Totals)
    ensures Complete(t)
    ensures forall m :: t.Get(m) == if InPass(m) then 0.0 else Accumulated(preds, ids, m)
  {
    var direct := map g: Group | g in GROUPS :: SumExposed(preds, ids, g);
    var ind := map g: Group | g in GROUPS :: 0;
    var infra := map t: InfraType | t in INFRA_TYPES :: 0;
    AllGroupsListed();
    AllTypesListed();
    t := Totals(Count(preds, ids), direct, ind, infra, infra, 0.0);
  }

  lemma AllGroupsListed()
    ensures forall g: Group :: g in GROUPS
  {
    forall g: Group
      ensures g in GROUPS
    {
      match g {
        case Everyone =>
        case Men =>
        case Women =>
        case Children =>
      }
    }
  }

  method AddPeople(ind: map<Group, int>, p: Prediction) returns (sum: map<Group, int>)
    requires forall g: Group :: g in ind
    ensures forall g :: g in sum && sum[g] == ind[g] + OrZero(Section(p.indirectPeople), g)
  {
    var ihi := Section(p.indirectPeople);
    sum := ind[Everyone := ind[Everyone] + OrZero(ihi, Everyone)];
    sum := sum[Men := sum[Men] + OrZero(ihi, Men)];
    sum := sum[Women := sum[Women] + OrZero(ihi, Women)];
    sum := sum[Children := sum[Children] + OrZero(ihi, Children)];
    forall g: Group
      ensures g in sum && sum[g] == ind[g] + OrZero(ihi, g)
    {
      match g {
        case Everyone =>
        case Men =>
        case Women =>
        case Children =>
      }
    }
  }

  function Ids(incidents: seq<Incident>): set<IncidentId> {
    set x | x in incidents :: x.id
  }

  // ---- The dashboard is the sum of the listing -----------------------------------------------

  /** An incident has at most one prediction, and identifiers are primary keys. */
  ghost predicate OnePrediction(preds: seq<Prediction>) {
    forall j, k :: 0 <= j < k < |preds| && preds[j].incident.Some? ==> preds[j].incident != preds[k].incident
  }

  ghost predicate DistinctIds(incidents: seq<Incident>) {
    forall j, k :: 0 <= j < k < |incidents| ==> incidents[j].id != incidents[k].id
  }

  lemma {:induction false} NobodyInScope(preds: seq<Prediction>, m: Measure)
    ensures Accumulated(preds, {}, m) == 0.0
  {
    if preds != [] {
      NobodyInScope(preds[..|preds| - 1], m);
    }
  }

  /** Which prediction an incident has does not depend on where it stands in the table. */
  lemma {:induction false} PredictionOfLast(preds: seq<Prediction>, i: IncidentId)
    requires OnePrediction(preds) && preds != []
    ensures var n := |preds| - 1;
            PredictionOf(preds, i)
            == if preds[n].incident == Some(i) then Some(preds[n]) else PredictionOf(preds[..n], i)
  {
    var n := |preds| - 1;
    if n > 0 {
      assert preds[1..][..n - 1] == preds[..n][1..];
      PredictionOfLast(preds[1..], i);
    }
  }

  /** One more incident in scope adds exactly its record. */
  lemma {:induction false} OneMoreInScope(preds: seq<Prediction>, ids: set<IncidentId>, i: IncidentId, m: Measure)
    requires OnePrediction(preds) && i !in ids
    ensures Accumulated(preds, ids + {i}, m) == Accumulated(preds, ids, m) + Shown(preds, i, m)
  {
    if preds != [] {
      var n := |preds| - 1;
      PredictionOfLast(preds, i);
      OneMoreInScope(preds[..n], ids, i, m);
      if preds[n].incident == Some(i) {
        NoOtherPrediction(preds[..n], i);
      }
    }
  }

  lemma {:induction false} NoOtherPrediction(preds: seq<Prediction>, i: IncidentId)
    requires forall k :: 0 <= k < |preds| ==> preds[k].incident != Some(i)
    ensures PredictionOf(preds, i).None?
  {
    if preds != [] {
      NoOtherPrediction(preds[1..], i);
    }
  }

  /** The totals of the dashboard are the totals of the records shown for the same incidents. */
  lemma {:induction false} DashboardIsSumOfListing(preds: seq<Prediction>, scope: seq<Incident>, m: Measure)
    requires OnePrediction(preds) && DistinctIds(scope)
    ensures Accumulated(preds, Ids(scope), m) == Listed(preds, scope, m)
  {
    if scope == [] {
      NobodyInScope(preds, m);
      assert Ids(scope) == {};
    } else {
      var rest := scope[1..];
      DashboardIsSumOfListing(preds, rest, m);
      assert forall x :: x in scope <==> x == scope[0] || x in rest;
      assert Ids(scope) == Ids(rest) + {scope[0].id};
      OneMoreInScope(preds, Ids(rest), scope[0].id, m);
    }
  }

  lemma {:induction false} ScopeDistinct(incidents: seq<Incident>, org: Option<OrgId>, filter: Filter,
                                         acted: set<IncidentId>)
    requires DistinctIds(incidents)
    ensures DistinctIds(Scope(incidents, org, filter, acted))
    ensures forall x :: x in Scope(incidents, org, filter, acted) <==>
              x in incidents && InBase(x, org) && InFilter(x, filter, acted)
  {
    if incidents != [] {
      var rest := Scope(incidents[1..], org, filter, acted);
      ScopeDistinct(incidents[1..], org, filter, acted);
      forall x | x in incidents[1..]
        ensures x.id != incidents[0].id
      {
        var k :| 0 <= k < |incidents[1..]| && incidents[1..][k] == x;
        assert incidents[k + 1] == x;
      }
      assert forall x :: x in incidents <==> x == incidents[0] || x in incidents[1..];
      assert forall k :: 0 <= k < |rest| ==> rest[k] in rest;
    }
  }

  // ---- Scope and records, spelled out --------------------------------------------------------

  /** Which incidents are in scope: never one in the trash, and an open one only with a leader and a task done. */
  lemma ScopeMeans(incidents: seq<Incident>, org: Option<OrgId>, acted: set<IncidentId>, x: Incident)
    requires DistinctIds(incidents)
    ensures var seen := && x in incidents && !x.isDeleted && x.inPeriod
                        && (org.Some? ==> x.leaderOrg == Some(org.value));
            var isResolved := x.etat == Resolved || x.etat == ResolvedDefinitive;
            var isTaken := !isResolved && x.leader.Some? && x.id in acted;
            && (x in Scope(incidents, org, ResolvedOnly, acted) <==> seen && isResolved)
            && (x in Scope(incidents, org, TakenWithAction, acted) <==> seen && isTaken)
            && (x in Scope(incidents, org, All, acted) <==> seen && (isResolved || isTaken))
  {
    ScopeDistinct(incidents, org, ResolvedOnly, acted);
    ScopeDistinct(incidents, org, TakenWithAction, acted);
    ScopeDistinct(incidents, org, All, acted);
  }

  lemma {:induction false} ThePrediction(preds: seq<Prediction>, p: Prediction, i: IncidentId)
    requires OnePrediction(preds) && p in preds && p.incident == Some(i)
    ensures PredictionOf(preds, i) == Some(p)
  {
    if preds[0] != p {
      var k :| 0 <= k < |preds| && preds[k] == p;
      assert preds[1..][k - 1] == p;
      ThePrediction(preds[1..], p, i);
    }
  }

  /** What is shown of an incident: nothing before its prediction is complete, then its figures, 0 where missing. */
  lemma ShownMeans(preds: seq<Prediction>, p: Prediction, i: IncidentId, m: Measure)
    requires OnePrediction(preds) && p in preds && p.incident == Some(i)
    ensures p.status == Unfinished ==> Shown(preds, i, m) == 0.0
    ensures p.status == Completed || p.status == CompletedWithWarning ==>
              Shown(preds, i, m) ==
                match m
                case WithPrediction => 1.0
                case Exposed(g) => if g in p.exposed then p.exposed[g] as real else 0.0
                case IndirectlyExposed(g) =>
                  if p.indirectPeople.Some? && g in p.indirectPeople.value
                  then p.indirectPeople.value[g] as real else 0.0
                case Protected(t) => if t in p.infra then p.infra[t] as real else 0.0
                case IndirectlyProtected(t) =>
                  if p.indirectInfra.Some? && t in p.indirectInfra.value then p.indirectInfra.value[t] as real else 0.0
                case SquaredRadius => if p.radius.Some? then p.radius.value * p.radius.value else 0.0
  {
    ThePrediction(preds, p, i);
  }

  // ---- Conservation --------------------------------------------------------------------------

  ghost function Total(preds: seq<Prediction>, incidents: seq<Incident>, org: Option<OrgId>, filter: Filter,
                       acted: set<IncidentId>, m: Measure): real {
    Accumulated(preds, Ids(Scope(incidents, org, filter, acted)), m)
  }

  lemma ListingTotals(preds: seq<Prediction>, incidents: seq<Incident>, org: Option<OrgId>, filter: Filter,
                      acted: set<IncidentId>, m: Measure)
    requires OnePrediction(preds) && DistinctIds(incidents)
    ensures Total(preds, incidents, org, filter, acted, m) == Listed(preds, Scope(incidents, org, filter, acted), m)
  {
    ScopeDistinct(incidents, org, filter, acted);
    DashboardIsSumOfListing(preds, Scope(incidents, org, filter, acted), m);
  }

  lemma ListedOneMore(preds: seq<Prediction>, x: Incident, rest: seq<Incident>, m: Measure)
    ensures Listed(preds, [x] + rest, m) == Shown(preds, x.id, m) + Listed(preds, rest, m)
  {
    assert ([x] + rest)[1..] == rest;
  }

  /** 'all' is 'resolved' plus 'taken_action': in every figure and in number of incidents, for any organisation. */
  lemma AllIsResolvedPlusTaken(preds: seq<Prediction>, incidents: seq<Incident>, org: Option<OrgId>,
                               acted: set<IncidentId>, m: Measure)
    requires OnePrediction(preds) && DistinctIds(incidents)
    ensures Total(preds, incidents, org, All, acted, m)
            == Total(preds, incidents, org, ResolvedOnly, acted, m)
             + Total(preds, incidents, org, TakenWithAction, acted, m)
    ensures |Scope(incidents, org, All, acted)|
            == |Scope(incidents, org, ResolvedOnly, acted)| + |Scope(incidents, org, TakenWithAction, acted)|
  {
    ListingTotals(preds, incidents, org, All, acted, m);
    ListingTotals(preds, incidents, org, ResolvedOnly, acted, m);
    ListingTotals(preds, incidents, org, TakenWithAction, acted, m);
    FiltersSplit(preds, incidents, org, acted, m);
  }

  lemma {:induction false} FiltersSplit(preds: seq<Prediction>, incidents: seq<Incident>, org: Option<OrgId>,
                                        acted: set<IncidentId>, m: Measure)
    ensures Listed(preds, Scope(incidents, org, All, acted), m)
            == Listed(preds, Scope(incidents, org, ResolvedOnly, acted), m)
             + Listed(preds, Scope(incidents, org, TakenWithAction, acted), m)
    ensures |Scope(incidents, org, All, acted)|
            == |Scope(incidents, org, ResolvedOnly, acted)| + |Scope(incidents, org, TakenWithAction, acted)|
  {
    if incidents != [] {
      FiltersSplit(preds, incidents[1..], org, acted, m);
      assert [incidents[0]] + incidents[1..] == incidents;
      ScopeOneMore(preds, incidents[0], incidents[1..], org, All, acted, m);
      ScopeOneMore(preds, incidents[0], incidents[1..], org, ResolvedOnly, acted, m);
      ScopeOneMore(preds, incidents[0], incidents[1..], org, TakenWithAction, acted, m);
    }
  }

  /** The incidents in scope whose leader belongs to no organisation. */
  function Unaffiliated(incidents: seq<Incident>, filter: Filter, acted: set<IncidentId>): seq<Incident> {
    if incidents == [] then []
    else
      var x := incidents[0];
      (if InBase(x, None) && InFilter(x, filter, acted) && x.leaderOrg.None? then [x] else [])
      + Unaffiliated(incidents[1..], filter, acted)
  }

  /** The sum of the listings of the organisations. */
  ghost function ByOrganisation(preds: seq<Prediction>, incidents: seq<Incident>, orgs: seq<OrgId>, filter: Filter,
                                acted: set<IncidentId>, m: Measure): real {
    if orgs == [] then 0.0
    else
      Total(preds, incidents, Some(orgs[0]), filter, acted, m)
      + ByOrganisation(preds, incidents, orgs[1..], filter, acted, m)
  }

  /** One more incident adds its record to the view of its leader's organisation and to no other. */
  lemma {:induction false} CountedByItsOrganisation(preds: seq<Prediction>, x: Incident, incidents: seq<Incident>,
                                                    orgs: seq<OrgId>, filter: Filter, acted: set<IncidentId>,
                                                    m: Measure)
    requires OnePrediction(preds) && DistinctIds([x] + incidents)
    requires forall j, k :: 0 <= j < k < |orgs| ==> orgs[j] != orgs[k]
    ensures ByOrganisation(preds, [x] + incidents, orgs, filter, acted, m)
            == ByOrganisation(preds, incidents, orgs, filter, acted, m)
             + if InBase(x, None) && InFilter(x, filter, acted) && x.leaderOrg.Some? && x.leaderOrg.value in orgs
               then Shown(preds, x.id, m) else 0.0
  {
    if orgs != [] {
      var org := Some(orgs[0]);
      CountedByItsOrganisation(preds, x, incidents, orgs[1..], filter, acted, m);
      RestDistinct(x, incidents);
      ListingTotals(preds, [x] + incidents, org, filter, acted, m);
      ListingTotals(preds, incidents, org, filter, acted, m);
      ScopeOneMore(preds, x, incidents, org, filter, acted, m);
      assert forall o :: o in orgs <==> o == orgs[0] || o in orgs[1..];
    }
  }

  lemma RestDistinct(x: Incident, incidents: seq<Incident>)
    requires DistinctIds([x] + incidents)
    ensures DistinctIds(incidents)
  {
    assert ([x] + incidents)[1..] == incidents;
    forall j, k | 0 <= j < k < |incidents|
      ensures incidents[j].id != incidents[k].id
    {
      assert ([x] + incidents)[j + 1] == incidents[j] && ([x] + incidents)[k + 1] == incidents[k];
    }
  }

  lemma ScopeOneMore(preds: seq<Prediction>, x: Incident, incidents: seq<Incident>, org: Option<OrgId>, filter: Filter,
                     acted: set<IncidentId>, m: Measure)
    ensures Listed(preds, Scope([x] + incidents, org, filter, acted), m)
            == Listed(preds, Scope(incidents, org, filter, acted), m)
             + if InBase(x, org) && InFilter(x, filter, acted) then Shown(preds, x.id, m) else 0.0
  {
    assert ([x] + incidents)[1..] == incidents;
    assert [] + Scope(incidents, org, filter, acted) == Scope(incidents, org, filter, acted);
    ListedOneMore(preds, x, Scope(incidents, org, filter, acted), m);
  }

  lemma {:induction false} NoIncidentNoFigure(preds: seq<Prediction>, orgs: seq<OrgId>, filter: Filter,
                                              acted: set<IncidentId>, m: Measure)
    ensures ByOrganisation(preds, [], orgs, filter, acted, m) == 0.0
  {
    if orgs != [] {
      assert Ids(Scope([], Some(orgs[0]), filter, acted)) == {};
      NobodyInScope(preds, m);
      NoIncidentNoFigure(preds, orgs[1..], filter, acted, m);
    }
  }

  /**
   The platform sees what the organisations see together, plus the incidents whose leader belongs to no
   organisation: nothing is counted twice, nothing is lost. orgs lists every organisation once.
   */
  lemma {:induction false} PlatformIsSumOfOrganisations(preds: seq<Prediction>, incidents: seq<Incident>,
                                                        orgs: seq<OrgId>, filter: Filter, acted: set<IncidentId>,
                                                        m: Measure)
    requires OnePrediction(preds) && DistinctIds(incidents)
    requires forall j, k :: 0 <= j < k < |orgs| ==> orgs[j] != orgs[k]
    requires forall x :: x in incidents && x.leaderOrg.Some? ==> x.leaderOrg.value in orgs
    ensures Total(preds, incidents, None, filter, acted, m)
            == ByOrganisation(preds, incidents, orgs, filter, acted, m)
             + Listed(preds, Unaffiliated(incidents, filter, acted), m)
  {
    ListingTotals(preds, incidents, None, filter, acted, m);
    if incidents == [] {
      NoIncidentNoFigure(preds, orgs, filter, acted, m);
    } else {
      var x, rest := incidents[0], incidents[1..];
      assert [x] + rest == incidents;
      RestDistinct(x, rest);
      PlatformIsSumOfOrganisations(preds, rest, orgs, filter, acted, m);
      ListingTotals(preds, rest, None, filter, acted, m);
      ScopeOneMore(preds, x, rest, None, filter, acted, m);
      CountedByItsOrganisation(preds, x, rest, orgs, filter, acted, m);
      ListedOneMore(preds, x, Unaffiliated(rest, filter, acted), m);
      assert [] + Unaffiliated(rest, filter, acted) == Unaffiliated(rest, filter, acted);
    }
  }
}
