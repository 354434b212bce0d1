/** What holds of a DHCP scope over whole runs: which scope is tracked, who owns the reservation
    list, and that a read-back reports no change the operator did not make. */
module DhcpRuns {
  import opened Text
  import opened DhcpTables
  import opened ReservedLease
  import opened DhcpScope

  /** The state names a scope that is there; no scope on the server is without a name. */
  predicate Tracked(scopes: map<string, Scope>, m: ScopeModel) {
    m.name in scopes && m.id == m.name && "" !in scopes
  }

  // ---------------------------------------------------------------- one update

  /** Scope from is now scope to, and every other scope is as it was. */
  predicate Moved(scopes: map<string, Scope>, after: map<string, Scope>, from: string, to: string) {
    && to in after && "" !in after
    && (to != from ==> from !in after && to !in scopes)
    && (forall n :: n in scopes && n != from && n != to ==> n in after && after[n] == scopes[n])
    && (forall n :: n in after && n != to ==> n in scopes)
  }

  function Target(plan: ScopeModel, state: ScopeModel): string {
    if plan.name == "" then state.name else plan.name
  }

  lemma PlaceMoves(scopes: map<string, Scope>, name: string, newName: Option<string>, scope: Scope)
    requires "" !in scopes && (newName.Some? ==> newName.value != "" && newName.value != name)
    ensures var placed, to := Place(scopes, name, newName, scope), if newName.Some? then newName.value else name;
      placed.Some? ==> Moved(scopes, placed.value, name, to) && placed.value[to] == scope
  {
  }

  /** What the set call of an update does: it moves the scope of the state to the planned name. */
  lemma SetMoves(rules: Rules, scopes: map<string, Scope>, state: ScopeModel, plan: ScopeModel, leftEnabled: bool)
    requires Tracked(scopes, state)
    ensures var req := UpdateRequest(plan, state);
      var placed := SetEffect(rules, scopes, req, leftEnabled);
      var scope := SetScope(rules, scopes[state.name], req, leftEnabled);
      placed.Some? ==>
        scope.Some? && Moved(scopes, placed.value, state.name, Target(plan, state))
        && placed.value[Target(plan, state)] == scope.value
  {
    var req := UpdateRequest(plan, state);
    assert req.name == state.name;
    assert (if req.newName.Some? then req.newName.value else req.name) == Target(plan, state);
    var scope := SetScope(rules, scopes[state.name], req, leftEnabled);
    if scope.Some? {
      PlaceMoves(scopes, req.name, req.newName, scope.value);
    }
  }

  /** Nothing but the enabled flag of the one scope has changed. */
  predicate FlagOnly(before: map<string, Scope>, after: map<string, Scope>, name: string) {
    && after.Keys == before.Keys
    && (forall n :: n in before && n != name ==> after[n] == before[n])
    && (name in before ==> after[name] == before[name].(enabled := after[name].enabled))
  }

  lemma ReconcileIsFlagOnly(scopes: map<string, Scope>, name: string, want: bool, listLost: bool, switchLost: bool)
    ensures var r := Reconcile(scopes, name, want, listLost, switchLost);
      FlagOnly(scopes, r.scopes, name) && (r.ok && name in scopes ==> r.scopes[name].enabled == want)
  {
    var r := Reconcile(scopes, name, want, listLost, switchLost);
    assert r.scopes.Keys == scopes.Keys;
  }

  /** The steps after a set call touch nothing but the enabled flag of the one scope. */
  lemma FinishTouchesTheFlag(scopes: map<string, Scope>, name: string, tracked: Option<ScopeModel>,
                             m: ScopeModel, want: bool, f: Faults)
    ensures var o := Finish(scopes, name, tracked, m, want, f);
      && FlagOnly(scopes, o.world.scopes, name)
      && (o.ok ==> name in scopes && o.world.scopes[name].enabled == want
                   && o.world.state == Some(ModelOf(name, o.world.scopes[name], want, m)))
      && (!o.ok ==> o.world.state == tracked)
  {
    ReconcileIsFlagOnly(scopes, name, want, f.list, f.switch);
  }

  lemma FlagOnlyStaysMoved(scopes: map<string, Scope>, placed: map<string, Scope>, after: map<string, Scope>,
                           from: string, to: string, name: string)
    requires Moved(scopes, placed, from, to) && FlagOnly(placed, after, name) && (name == to || name == "")
    ensures Moved(scopes, after, from, to)
  {
  }

  /** The calls after the set call, made or lost. */
  lemma FinishTracks(placed: map<string, Scope>, scopes: map<string, Scope>, state: ScopeModel,
                     plan: ScopeModel, f: Faults)
    requires Tracked(scopes, state) && Moved(scopes, placed, state.name, Target(plan, state))
    ensures var o := Finish(placed, plan.name, Some(Renamed(plan, state)), plan, plan.enabled, f);
      && o.world.state.Some? && Tracked(o.world.scopes, o.world.state.value)
      && Moved(scopes, o.world.scopes, state.name, Target(plan, state))
      && (o.ok ==>
            && o.world.state.value.name == plan.name && o.world.state.value.enabled == plan.enabled
            && o.world.scopes[plan.name].enabled == plan.enabled)
  {
    FinishTouchesTheFlag(placed, plan.name, Some(Renamed(plan, state)), plan, plan.enabled, f);
    var o := Finish(placed, plan.name, Some(Renamed(plan, state)), plan, plan.enabled, f);
    FlagOnlyStaysMoved(scopes, placed, o.world.scopes, state.name, Target(plan, state), plan.name);
    assert Renamed(plan, state).name == Renamed(plan, state).id == Target(plan, state);
  }

  lemma AfterSetTracks(placed: Option<map<string, Scope>>, scopes: map<string, Scope>, state: ScopeModel,
                       plan: ScopeModel, f: Faults)
    requires Tracked(scopes, state)
    requires placed.Some? ==> Moved(scopes, placed.value, state.name, Target(plan, state))
    ensures var o := AfterSet(placed, scopes, state, plan, f);
      && o.world.state.Some? && Tracked(o.world.scopes, o.world.state.value)
      && (o.world.scopes == scopes || Moved(scopes, o.world.scopes, state.name, Target(plan, state)))
      && (o.ok ==>
            && o.world.state.value.name == plan.name && o.world.state.value.enabled == plan.enabled
            && o.world.scopes[plan.name].enabled == plan.enabled)
  {
    if !f.setCall && placed.Some? {
      FinishTracks(placed.value, scopes, state, plan, f);
    }
  }

  /** Wherever an update stops, the state names a scope that is there and the other scopes are as
      they were; when it does not stop, the server's enabled flag is the planned one, whatever the
      set call left. */
  lemma UpdateTracksAScope(rules: Rules, scopes: map<string, Scope>, state: ScopeModel, plan: ScopeModel,
        leftEnabled: bool, f: Faults)
    requires Tracked(scopes, state)
    ensures var o := UpdateOutcome(rules, scopes, state, plan, leftEnabled, f);
      && o.world.state.Some? && Tracked(o.world.scopes, o.world.state.value)
      && (o.world.scopes == scopes || Moved(scopes, o.world.scopes, state.name, Target(plan, state)))
      && (o.ok ==>
            && o.world.state.value.name == plan.name && o.world.state.value.enabled == plan.enabled
            && o.world.scopes[plan.name].enabled == plan.enabled)
  {
    SetMoves(rules, scopes, state, plan, leftEnabled);
    AfterSetTracks(SetEffect(rules, scopes, UpdateRequest(plan, state), leftEnabled), scopes, state, plan, f);
  }

  // ---------------------------------------------------------------- what the set call carries

  /** A list the comma-separated parameter can tell from every other. */
  predicate CarriedList(xs: seq<string>) {
    xs != [""] && forall i :: 0 <= i < |xs| ==> ',' !in xs[i]
  }

  /** The list as it arrives. */
  function Arrived(xs: seq<string>): seq<string> {
    ParseList(Join(xs, ","))
  }

  /** No pipe inside a cell: what plan-time validation sees to. */
  predicate Clean(plan: ScopeModel) {
    && (forall i :: 0 <= i < |OrEmpty(plan.staticRoutes)| ==> CleanRoute(OrEmpty(plan.staticRoutes)[i]))
    && (forall i :: 0 <= i < |OrEmpty(plan.vendorInfo)| ==> CleanVendor(OrEmpty(plan.vendorInfo)[i]))
    && (forall i :: 0 <= i < |OrEmpty(plan.genericOptions)| ==> CleanOption(OrEmpty(plan.genericOptions)[i]))
    && (forall i :: 0 <= i < |OrEmpty(plan.exclusions)| ==> CleanExclusion(OrEmpty(plan.exclusions)[i]))
    && (forall i :: 0 <= i < |OrEmpty(plan.reservedLeases)| ==> CleanLease(Declared(OrEmpty(plan.reservedLeases)[i])))
  }

  /** A list arrives as it was sent exactly when no element holds a comma and it is not one empty text. */
  lemma ListArrives(xs: seq<string>)
    ensures Arrived(xs) == xs <==> CarriedList(xs)
  {
    if CarriedList(xs) && xs != [] {
      SplitJoin(xs, ',');
      assert Split("", ',') == [""];
    }
    assert forall i :: 0 <= i < |Arrived(xs)| ==> ',' !in Arrived(xs)[i];
    assert Arrived([""]) == [];
  }

  lemma TablesArrive(plan: ScopeModel, state: ScopeModel)
    requires Clean(plan)
    ensures ReadTables(UpdateRequest(plan, state)) == Some(SentTables(plan))
  {
    RoutesRoundTrip(OrEmpty(plan.staticRoutes));
    VendorInfoRoundTrip(OrEmpty(plan.vendorInfo));
    OptionsRoundTrip(OrEmpty(plan.genericOptions));
    ExclusionsRoundTrip(OrEmpty(plan.exclusions));
  }

  /** Declared: overwritten.  Declared before and no longer: cleared.  Never declared: left alone. */
  function ReservationsAfter(rules: Rules, before: seq<Lease>, plan: ScopeModel, state: ScopeModel): seq<Lease> {
    if plan.reservedLeases.Some? then StoredLeases(rules, DeclaredAll(plan.reservedLeases.value))
    else if state.reservedLeases.Some? then []
    else before
  }

  lemma ReservationsArrive(rules: Rules, before: seq<Lease>, plan: ScopeModel, state: ScopeModel)
    requires Clean(plan)
    ensures ReadLeases(rules, UpdateRequest(plan, state), before) == Some(ReservationsAfter(rules, before, plan, state))
  {
    if plan.reservedLeases.Some? {
      var declared := plan.reservedLeases.value;
      forall i | 0 <= i < |declared| ensures CleanLease(DeclaredAll(declared)[i]) {
        assert CleanLease(Declared(OrEmpty(plan.reservedLeases)[i]));
      }
      LeasesRoundTrip(DeclaredAll(declared));
    } else if state.reservedLeases.Some? {
      LeasesRoundTrip([]);
      assert StoredLeases(rules, []) == [];
    }
  }

  /** A known scalar is set, any other keeps the server's value. */
  predicate ScalarMerged(s: Scalar, before: Scope, after: Scope, plan: ScopeModel) {
    if s in plan.scalars && plan.scalars[s].Known? then s in after.scalars && after.scalars[s] == plan.scalars[s].v
    else (s in after.scalars <==> s in before.scalars)
         && (s in before.scalars ==> after.scalars[s] == before.scalars[s])
  }

  /** A list is what arrives of the planned one, and empty where the plan says nothing. */
  predicate ListReplaced(l: StringList, after: Scope, plan: ScopeModel) {
    l in after.lists &&
    after.lists[l] == if l in plan.lists && plan.lists[l].Known? then Arrived(plan.lists[l].v) else []
  }

  ghost predicate Carries(rules: Rules, before: Scope, after: Scope, plan: ScopeModel, state: ScopeModel) {
    && after.range == plan.range
    && (forall s: Scalar :: ScalarMerged(s, before, after, plan))
    && (forall l: StringList :: ListReplaced(l, after, plan))
    && after.tables.staticRoutes == OrEmpty(plan.staticRoutes)
    && after.tables.vendorInfo == StoredVendor(rules, OrEmpty(plan.vendorInfo))
    && after.tables.genericOptions == StoredOptions(rules, OrEmpty(plan.genericOptions))
    && after.tables.exclusions == OrEmpty(plan.exclusions)
    && after.reservedLeases == ReservationsAfter(rules, before.reservedLeases, plan, state)
  }

  lemma SetScopeCarries(rules: Rules, current: Scope, plan: ScopeModel, state: ScopeModel, leftEnabled: bool)
    requires Clean(plan)
    ensures var after := SetScope(rules, current, UpdateRequest(plan, state), leftEnabled);
      after.Some? && Carries(rules, current, after.value, plan, state)
  {
    TablesArrive(plan, state);
    ReservationsArrive(rules, current.reservedLeases, plan, state);
    var after := SetScope(rules, current, UpdateRequest(plan, state), leftEnabled).value;
    forall l: StringList ensures ListReplaced(l, after, plan) {
      assert Join([], ",") == "";
    }
    forall s: Scalar ensures ScalarMerged(s, current, after, plan) {
    }
  }

  /** Once the set call goes through, the scope under the planned name carries the plan, whether or
      not the calls after it are lost; the enabled flag is the subject of UpdateTracksAScope. */
  lemma UpdateCarriesThePlan(rules: Rules, scopes: map<string, Scope>, state: ScopeModel, plan: ScopeModel,
        leftEnabled: bool, f: Faults)
    requires Tracked(scopes, state) && Clean(plan) && plan.name != ""
    requires !f.setCall && (plan.name == state.name || plan.name !in scopes)
    ensures var after := UpdateOutcome(rules, scopes, state, plan, leftEnabled, f).world.scopes;
      && plan.name in after && Carries(rules, scopes[state.name], after[plan.name], plan, state)
      && (plan.name != state.name ==> state.name !in after)
  {
    SetIsPlaced(rules, scopes, state, plan, leftEnabled);
    var placed := SetEffect(rules, scopes, UpdateRequest(plan, state), leftEnabled);
    FinishCarries(rules, scopes[state.name], placed.value, state, plan, f);
  }

  /** The set call of a clean plan goes through unless the name is taken. */
  lemma SetIsPlaced(rules: Rules, scopes: map<string, Scope>, state: ScopeModel, plan: ScopeModel, leftEnabled: bool)
    requires Tracked(scopes, state) && Clean(plan) && plan.name != ""
    requires plan.name == state.name || plan.name !in scopes
    ensures var placed := SetEffect(rules, scopes, UpdateRequest(plan, state), leftEnabled);
      && placed.Some? && Moved(scopes, placed.value, state.name, plan.name)
      && Carries(rules, scopes[state.name], placed.value[plan.name], plan, state)
  {
    SetScopeCarries(rules, scopes[state.name], plan, state, leftEnabled);
    SetMoves(rules, scopes, state, plan, leftEnabled);
  }

  lemma FinishCarries(rules: Rules, before: Scope, placed: map<string, Scope>, state: ScopeModel,
                      plan: ScopeModel, f: Faults)
    requires plan.name in placed && Carries(rules, before, placed[plan.name], plan, state)
    ensures var after := Finish(placed, plan.name, Some(Renamed(plan, state)), plan, plan.enabled, f).world.scopes;
      after.Keys == placed.Keys && Carries(rules, before, after[plan.name], plan, state)
  {
    FinishTouchesTheFlag(placed, plan.name, Some(Renamed(plan, state)), plan, plan.enabled, f);
    var after := Finish(placed, plan.name, Some(Renamed(plan, state)), plan, plan.enabled, f).world.scopes;
    EnabledAside(rules, before, placed[plan.name], after[plan.name].enabled, plan, state);
  }

  lemma EnabledAside(rules: Rules, before: Scope, after: Scope, enabled: bool, plan: ScopeModel, state: ScopeModel)
    requires Carries(rules, before, after, plan, state)
    ensures Carries(rules, before, after.(enabled := enabled), plan, state)
  {
    forall s: Scalar ensures ScalarMerged(s, before, after.(enabled := enabled), plan) {
      assert ScalarMerged(s, before, after, plan);
    }
    forall l: StringList ensures ListReplaced(l, after.(enabled := enabled), plan) {
      assert ListReplaced(l, after, plan);
    }
  }

  // ---------------------------------------------------------------- runs beside standalone reservations

  datatype Op =
    | Apply(plan: ScopeModel, leftEnabled: bool, f: Faults)
    | Refresh(getLost: bool, listLost: bool)
    | AddLease(lease: Lease, lost: bool)
    | RemoveLease(mac: string, lost: bool)

  datatype Tracking = Tracking(scopes: map<string, Scope>, state: ScopeModel)

  /** What a reservation call alone does to a list. */
  function LeaseStep(rules: Rules, leases: seq<Lease>, op: Op): seq<Lease> {
    var r := match op
      case AddLease(lease, lost) => if lost then None else rules.add(leases, lease)
      case RemoveLease(mac, lost) => if lost then None else rules.remove(leases, mac)
      case _ => None;
    if r.Some? then r.value else leases
  }

  function Alone(rules: Rules, leases: seq<Lease>, ops: seq<Op>): seq<Lease>
    decreases |ops|
  {
    if ops == [] then leases else Alone(rules, LeaseStep(rules, leases, ops[0]), ops[1..])
  }

  /** Standalone reservations follow the scope to its current name. */
  function Step(rules: Rules, t: Tracking, op: Op): Tracking
    requires Tracked(t.scopes, t.state)
  {
    match op
    case Apply(plan, leftEnabled, f) =>
      var w := UpdateOutcome(rules, t.scopes, t.state, plan, leftEnabled, f).world;
      if w.state.Some? then Tracking(w.scopes, w.state.value) else t
    case Refresh(getLost, listLost) =>
      var m := ReadBackOf(t.scopes, t.state.name, t.state, getLost, listLost);
      if m.Some? then t.(state := m.value) else t
    case _ =>
      var scope := t.scopes[t.state.name];
      t.(scopes := t.scopes[t.state.name := scope.(reservedLeases := LeaseStep(rules, scope.reservedLeases, op))])
  }

  lemma StepTracks(rules: Rules, t: Tracking, op: Op)
    requires Tracked(t.scopes, t.state)
    ensures var after := Step(rules, t, op); Tracked(after.scopes, after.state)
  {
    if op.Apply? {
      UpdateTracksAScope(rules, t.scopes, t.state, op.plan, op.leftEnabled, op.f);
    }
  }

  function Run(rules: Rules, t: Tracking, ops: seq<Op>): (after: Tracking)
    requires Tracked(t.scopes, t.state)
    ensures Tracked(after.scopes, after.state)
    decreases |ops|
  {
    if ops == [] then t
    else
      StepTracks(rules, t, ops[0]);
      Run(rules, Step(rules, t, ops[0]), ops[1..])
  }

  predicate NeverDeclares(op: Op) {
    op.Apply? ==> op.plan.reservedLeases.None?
  }

  lemma StepKeepsReservations(rules: Rules, t: Tracking, op: Op)
    requires Tracked(t.scopes, t.state) && t.state.reservedLeases.None? && NeverDeclares(op)
    ensures var after := Step(rules, t, op);
      && Tracked(after.scopes, after.state) && after.state.reservedLeases.None?
      && after.scopes[after.state.name].reservedLeases == LeaseStep(rules, t.scopes[t.state.name].reservedLeases, op)
  {
    StepTracks(rules, t, op);
    if op.Apply? {
      ApplyKeepsReservations(rules, t, op.plan, op.leftEnabled, op.f);
    }
  }

  lemma ApplyKeepsReservations(rules: Rules, t: Tracking, plan: ScopeModel, leftEnabled: bool, f: Faults)
    requires Tracked(t.scopes, t.state) && t.state.reservedLeases.None? && plan.reservedLeases.None?
    ensures var w := UpdateOutcome(rules, t.scopes, t.state, plan, leftEnabled, f).world;
      && w.state.Some? && w.state.value.name in w.scopes && w.state.value.reservedLeases.None?
      && w.scopes[w.state.value.name].reservedLeases == t.scopes[t.state.name].reservedLeases
  {
    var req := UpdateRequest(plan, t.state);
    assert req.reservedLeases.None?;
    var scope := SetScope(rules, t.scopes[t.state.name], req, leftEnabled);
    assert scope.Some? ==> scope.value.reservedLeases == t.scopes[t.state.name].reservedLeases;
    SetMoves(rules, t.scopes, t.state, plan, leftEnabled);
    AfterSetKeepsReservations(SetEffect(rules, t.scopes, req, leftEnabled), t, plan, f);
  }

  lemma AfterSetKeepsReservations(placed: Option<map<string, Scope>>, t: Tracking, plan: ScopeModel, f: Faults)
    requires Tracked(t.scopes, t.state) && t.state.reservedLeases.None? && plan.reservedLeases.None?
    requires placed.Some? ==> Moved(t.scopes, placed.value, t.state.name, Target(plan, t.state))
    requires placed.Some? ==>
      placed.value[Target(plan, t.state)].reservedLeases == t.scopes[t.state.name].reservedLeases
    ensures var w := AfterSet(placed, t.scopes, t.state, plan, f).world;
      && w.state.Some? && w.state.value.name in w.scopes && w.state.value.reservedLeases.None?
      && w.scopes[w.state.value.name].reservedLeases == t.scopes[t.state.name].reservedLeases
  {
    if placed.Some? {
      FinishTouchesTheFlag(placed.value, plan.name, Some(Renamed(plan, t.state)), plan, plan.enabled, f);
    }
  }

  /** However scope updates that never declare reservations (renames included, failing anywhere),
      refreshes and standalone reservation calls are interleaved, the reservation list ends as the
      standalone calls alone would leave it. */
  lemma {:induction false} RunKeepsReservations(rules: Rules, t: Tracking, ops: seq<Op>)
    requires Tracked(t.scopes, t.state) && t.state.reservedLeases.None?
    requires forall i :: 0 <= i < |ops| ==> NeverDeclares(ops[i])
    ensures var after := Run(rules, t, ops);
      && after.state.reservedLeases.None?
      && after.scopes[after.state.name].reservedLeases == Alone(rules, t.scopes[t.state.name].reservedLeases, ops)
    decreases |ops|
  {
    if ops != [] {
      assert NeverDeclares(ops[0]);
      StepKeepsReservations(rules, t, ops[0]);
      RunKeepsReservations(rules, Step(rules, t, ops[0]), ops[1..]);
    }
  }

  // ---------------------------------------------------------------- read-back

  /** No two declared reservations give one MAC in two spellings. */
  predicate OneSpelling(xs: seq<InlineLease>) {
    forall i, j :: 0 <= i < j < |xs| && MacEqual(xs[i].hardwareAddress, xs[j].hardwareAddress) ==>
      xs[i].hardwareAddress == xs[j].hardwareAddress
  }

  predicate AllTelling(xs: seq<InlineLease>) {
    forall i :: 0 <= i < |xs| ==> Telling(xs[i].hostName) && Telling(xs[i].comments)
  }

  predicate EchoesLeases(declared: seq<InlineLease>, served: seq<Lease>) {
    |served| == |declared| && forall i :: 0 <= i < |declared| ==> StoredAs(Declared(declared[i]), served[i])
  }

  /** The first declared reservation of that MAC gives the spelling. */
  lemma {:induction false} KeptMacIsFirst(prior: seq<InlineLease>, mac: string, k: nat) returns (first: nat)
    requires k < |prior| && MacEqual(prior[k].hardwareAddress, mac)
    ensures first <= k && MacEqual(prior[first].hardwareAddress, mac)
    ensures KeptMac(prior, mac) == prior[first].hardwareAddress
  {
    if MacEqual(prior[0].hardwareAddress, mac) {
      first := 0;
    } else {
      first := KeptMacIsFirst(prior[1..], mac, k - 1);
      first := first + 1;
    }
  }

  /** A list the server echoes in order, MACs respelled, reads back as declared exactly when every
      optional text is absent or says something and no MAC is declared in two spellings. */
  lemma LeasesReadBack(declared: seq<InlineLease>, served: seq<Lease>)
    requires EchoesLeases(declared, served)
    ensures KeptLeases(declared, served) == declared <==> (AllTelling(declared) && OneSpelling(declared))
  {
    var kept := KeptLeases(declared, served);
    forall i | 0 <= i < |declared|
      ensures kept[i].hostName == declared[i].hostName <==> Telling(declared[i].hostName)
      ensures kept[i].comments == declared[i].comments <==> Telling(declared[i].comments)
      ensures kept[i].address == declared[i].address
      ensures OneSpelling(declared) ==> kept[i].hardwareAddress == declared[i].hardwareAddress
    {
      assert StoredAs(Declared(declared[i]), served[i]);
      var first := KeptMacIsFirst(declared, served[i].hardwareAddress, i);
    }
    if kept == declared {
      forall i, j | 0 <= i < j < |declared| && MacEqual(declared[i].hardwareAddress, declared[j].hardwareAddress)
        ensures declared[i].hardwareAddress == declared[j].hardwareAddress
      {
        SpellingsAgree(declared, served, i, j);
      }
    }
  }

  lemma SpellingsAgree(declared: seq<InlineLease>, served: seq<Lease>, i: nat, j: nat)
    requires EchoesLeases(declared, served) && KeptLeases(declared, served) == declared
    requires i < j < |declared| && MacEqual(declared[i].hardwareAddress, declared[j].hardwareAddress)
    ensures declared[i].hardwareAddress == declared[j].hardwareAddress
  {
    assert StoredAs(Declared(declared[i]), served[i]) && StoredAs(Declared(declared[j]), served[j]);
    SameKeptMac(declared, served[i].hardwareAddress, served[j].hardwareAddress, i);
    assert KeptLeases(declared, served)[i].hardwareAddress == KeptLeases(declared, served)[j].hardwareAddress;
  }

  lemma {:induction false} SameKeptMac(prior: seq<InlineLease>, a: string, b: string, k: nat)
    requires MacEqual(a, b) && k < |prior| && MacEqual(prior[k].hardwareAddress, a)
    ensures KeptMac(prior, a) == KeptMac(prior, b)
  {
    if !MacEqual(prior[0].hardwareAddress, a) {
      SameKeptMac(prior[1..], a, b, k - 1);
    }
  }

  lemma VendorReadsBack(rules: Rules, declared: seq<VendorInfo>)
    requires OnlyRespells(rules)
    ensures KeptVendor(declared, StoredVendor(rules, declared)) == declared
  {
    forall i | 0 <= i < |declared|
      ensures HexEqual(declared[i].information, StoredVendor(rules, declared)[i].information)
    {
    }
  }

  lemma OptionsReadBack(rules: Rules, declared: seq<GenericOption>)
    requires OnlyRespells(rules)
    ensures KeptOptions(declared, StoredOptions(rules, declared)) == declared
  {
    forall i | 0 <= i < |declared| ensures HexEqual(declared[i].value, StoredOptions(rules, declared)[i].value) {
    }
  }

  /** What the operator wrote, as far as the plan says anything; the string lists and the reservations
      are spoken of apart. */
  predicate AsPlanned(m: ScopeModel, plan: ScopeModel) {
    && m.range == plan.range
    && (forall s :: s in plan.scalars && plan.scalars[s].Known? ==> s in m.scalars && m.scalars[s] == plan.scalars[s])
    && m.staticRoutes == plan.staticRoutes && m.vendorInfo == plan.vendorInfo
    && m.genericOptions == plan.genericOptions && m.exclusions == plan.exclusions
  }

  /** A scalar as it is read, one the server does not report being 0, false or the empty text. */
  function ReportedScalar(scope: Scope, s: Scalar): (v: Value)
    ensures s in scope.scalars ==> v == scope.scalars[s]
    ensures s !in scope.scalars ==> v in {Whole(0), Flag(false), Words("")}
  {
    if s in scope.scalars then scope.scalars[s] else Zero(s)
  }

  /** The server's vendor info is the declared one, up to the spelling of the bytes. */
  predicate SameVendor(declared: seq<VendorInfo>, served: seq<VendorInfo>) {
    && |served| == |declared|
    && forall i :: 0 <= i < |declared| ==>
         && served[i].identifier == declared[i].identifier
         && HexEqual(declared[i].information, served[i].information)
  }

  predicate SameOptions(declared: seq<GenericOption>, served: seq<GenericOption>) {
    && |served| == |declared|
    && forall i :: 0 <= i < |declared| ==>
         served[i].code == declared[i].code && HexEqual(declared[i].value, served[i].value)
  }

  /** The scope on the server is the planned one, reservations and string lists apart. */
  predicate ScopeIsPlanned(scope: Scope, plan: ScopeModel) {
    && scope.range == plan.range
    && (forall s :: s in plan.scalars && plan.scalars[s].Known? ==> ReportedScalar(scope, s) == plan.scalars[s].v)
    && (plan.staticRoutes.Some? ==> scope.tables.staticRoutes == plan.staticRoutes.value)
    && (plan.exclusions.Some? ==> scope.tables.exclusions == plan.exclusions.value)
    && (plan.vendorInfo.Some? ==> SameVendor(plan.vendorInfo.value, scope.tables.vendorInfo))
    && (plan.genericOptions.Some? ==> SameOptions(plan.genericOptions.value, scope.tables.genericOptions))
  }

  lemma VendorShowsDrift(declared: seq<VendorInfo>, served: seq<VendorInfo>)
    ensures KeptVendor(declared, served) == declared <==> SameVendor(declared, served)
  {
    var kept := KeptVendor(declared, served);
    if kept == declared {
      forall i | 0 <= i < |declared|
        ensures served[i].identifier == declared[i].identifier
        ensures HexEqual(declared[i].information, served[i].information)
      {
        assert kept[i] == declared[i];
      }
    }
    if SameVendor(declared, served) {
      forall i | 0 <= i < |declared| ensures kept[i] == declared[i] {
      }
    }
  }

  lemma OptionsShowDrift(declared: seq<GenericOption>, served: seq<GenericOption>)
    ensures KeptOptions(declared, served) == declared <==> SameOptions(declared, served)
  {
    var kept := KeptOptions(declared, served);
    if kept == declared {
      forall i | 0 <= i < |declared|
        ensures served[i].code == declared[i].code && HexEqual(declared[i].value, served[i].value)
      {
        assert kept[i] == declared[i];
      }
    }
    if SameOptions(declared, served) {
      forall i | 0 <= i < |declared| ensures kept[i] == declared[i] {
      }
    }
  }

  /** A refresh reads name and flag as reported, and shows a difference exactly when the scope, whatever it
      holds, is not the planned one. */
  lemma DriftShows(scope: Scope, enabled: bool, plan: ScopeModel)
    ensures var m := ModelOf(plan.name, scope, enabled, plan);
      && m.id == m.name == plan.name && m.enabled == enabled
      && (AsPlanned(m, plan) <==> ScopeIsPlanned(scope, plan))
  {
    var m := ModelOf(plan.name, scope, enabled, plan);
    VendorShowsDrift(OrEmpty(plan.vendorInfo), scope.tables.vendorInfo);
    OptionsShowDrift(OrEmpty(plan.genericOptions), scope.tables.genericOptions);
    forall s: Scalar ensures s in m.scalars && m.scalars[s] == Known(ReportedScalar(scope, s)) {
    }
  }

  lemma ModelOfIsAsPlanned(rules: Rules, before: Scope, after: Scope, plan: ScopeModel, state: ScopeModel)
    requires OnlyRespells(rules) && Carries(rules, before, after, plan, state)
    ensures AsPlanned(ModelOf(plan.name, after, after.enabled, plan), plan)
  {
    var m := ModelOf(plan.name, after, after.enabled, plan);
    VendorReadsBack(rules, OrEmpty(plan.vendorInfo));
    OptionsReadBack(rules, OrEmpty(plan.genericOptions));
    forall s | s in plan.scalars && plan.scalars[s].Known? ensures m.scalars[s] == plan.scalars[s] {
      assert ScalarMerged(s, before, after, plan);
    }
  }

  predicate ListsAsPlanned(m: ScopeModel, plan: ScopeModel) {
    forall l :: l in plan.lists && !plan.lists[l].Unknown? ==> l in m.lists && m.lists[l] == plan.lists[l]
  }

  /** Each declared string list is the server's, one it does not report being empty. */
  predicate ListsArePlanned(scope: Scope, plan: ScopeModel) {
    forall l :: l in plan.lists && plan.lists[l].Known? ==>
      plan.lists[l].v == if l in scope.lists then scope.lists[l] else []
  }

  /** The string lists show a difference exactly when a declared one is not the server's. */
  lemma ListDriftShows(name: string, scope: Scope, enabled: bool, plan: ScopeModel)
    ensures ListsAsPlanned(ModelOf(name, scope, enabled, plan), plan) <==> ListsArePlanned(scope, plan)
  {
    var m := ModelOf(name, scope, enabled, plan);
    forall l | l in plan.lists && !plan.lists[l].Unknown?
      ensures m.lists[l] == plan.lists[l] <==>
        (plan.lists[l].Known? ==> plan.lists[l].v == if l in scope.lists then scope.lists[l] else [])
    {
    }
  }

  /** The server's reservation is the declared one, the spelling of the MAC aside. */
  predicate SameLease(x: InlineLease, served: Lease) {
    && MacEqual(x.hardwareAddress, served.hardwareAddress) && x.address == served.address
    && x.hostName == StringOrNull(served.hostName) && x.comments == StringOrNull(served.comments)
  }

  predicate SameLeases(declared: seq<InlineLease>, served: seq<Lease>) {
    |served| == |declared| && forall i :: 0 <= i < |declared| ==> SameLease(declared[i], served[i])
  }

  /** Whatever reservations the server has, they show no difference exactly when they are the declared ones
      in order and no MAC is declared in two spellings. */
  lemma LeaseDriftShows(declared: seq<InlineLease>, served: seq<Lease>)
    ensures KeptLeases(declared, served) == declared <==> (SameLeases(declared, served) && OneSpelling(declared))
  {
    var kept := KeptLeases(declared, served);
    if SameLeases(declared, served) && OneSpelling(declared) {
      forall i | 0 <= i < |declared| ensures kept[i] == declared[i] {
        assert SameLease(declared[i], served[i]);
        var first := KeptMacIsFirst(declared, served[i].hardwareAddress, i);
      }
    }
    if kept == declared {
      forall i | 0 <= i < |declared| ensures SameLease(declared[i], served[i]) {
        assert kept[i] == declared[i] && kept[i] == KeptLease(declared, served[i]);
        KeptMacIsEqual(declared, served[i].hardwareAddress);
      }
      forall i, j | 0 <= i < j < |declared| && MacEqual(declared[i].hardwareAddress, declared[j].hardwareAddress)
        ensures declared[i].hardwareAddress == declared[j].hardwareAddress
      {
        assert SameLease(declared[i], served[i]) && SameLease(declared[j], served[j]);
        SameKeptMac(declared, served[i].hardwareAddress, served[j].hardwareAddress, i);
        assert kept[i] == declared[i] && kept[j] == declared[j];
      }
    }
  }

  lemma {:induction false} KeptMacIsEqual(prior: seq<InlineLease>, mac: string)
    ensures MacEqual(KeptMac(prior, mac), mac)
  {
    if prior != [] {
      KeptMacIsEqual(prior[1..], mac);
    }
  }

  predicate ListsCarried(plan: ScopeModel) {
    forall l :: l in plan.lists && plan.lists[l].Known? ==> CarriedList(plan.lists[l].v)
  }

  predicate LeasesCarried(plan: ScopeModel) {
    plan.reservedLeases.Some? ==> AllTelling(plan.reservedLeases.value) && OneSpelling(plan.reservedLeases.value)
  }

  lemma ListsReadBack(rules: Rules, before: Scope, after: Scope, plan: ScopeModel, state: ScopeModel, name: string)
    requires Carries(rules, before, after, plan, state)
    ensures ListsAsPlanned(ModelOf(name, after, after.enabled, plan), plan) <==> ListsCarried(plan)
  {
    var m := ModelOf(name, after, after.enabled, plan);
    forall l | l in plan.lists && !plan.lists[l].Unknown?
      ensures m.lists[l] == plan.lists[l] <==> (plan.lists[l].Known? ==> CarriedList(plan.lists[l].v))
    {
      assert ListReplaced(l, after, plan);
      if plan.lists[l].Known? {
        ListArrives(plan.lists[l].v);
      }
    }
  }

  /** The state is the plan: everything but string lists and reservations always, the string lists
      exactly when the comma carries them, the reservations exactly when their optional texts say
      something and no MAC comes in two spellings. */
  predicate ReadsBack(m: ScopeModel, plan: ScopeModel) {
    && AsPlanned(m, plan)
    && (ListsAsPlanned(m, plan) <==> ListsCarried(plan))
    && (m.reservedLeases == plan.reservedLeases <==> LeasesCarried(plan))
  }

  lemma EchoOfCarried(rules: Rules, before: Scope, after: Scope, plan: ScopeModel, state: ScopeModel)
    requires OnlyRespells(rules) && Carries(rules, before, after, plan, state) && plan.reservedLeases.Some?
    ensures EchoesLeases(plan.reservedLeases.value, after.reservedLeases)
  {
  }

  /** The scope that a set call left reads back. */
  lemma CarriedReadsBack(rules: Rules, before: Scope, after: Scope, plan: ScopeModel, state: ScopeModel)
    requires OnlyRespells(rules) && Carries(rules, before, after, plan, state)
    ensures ReadsBack(ModelOf(plan.name, after, after.enabled, plan), plan)
  {
    ModelOfIsAsPlanned(rules, before, after, plan, state);
    ListsReadBack(rules, before, after, plan, state, plan.name);
    if plan.reservedLeases.Some? {
      EchoOfCarried(rules, before, after, plan, state);
      LeasesReadBack(plan.reservedLeases.value, after.reservedLeases);
    }
  }

  /** After an update in which nothing fails, on a server that only respells, the plan reads back. */
  lemma UpdateHasNoDrift(rules: Rules, scopes: map<string, Scope>, state: ScopeModel, plan: ScopeModel,
                         leftEnabled: bool, f: Faults)
    requires OnlyRespells(rules) && Tracked(scopes, state) && Clean(plan)
    requires UpdateOutcome(rules, scopes, state, plan, leftEnabled, f).ok
    ensures ReadsBack(UpdateOutcome(rules, scopes, state, plan, leftEnabled, f).world.state.value, plan)
  {
    SetMoves(rules, scopes, state, plan, leftEnabled);
    SetScopeCarries(rules, scopes[state.name], plan, state, leftEnabled);
    var placed := SetEffect(rules, scopes, UpdateRequest(plan, state), leftEnabled);
    FinishTouchesTheFlag(placed.value, plan.name, Some(Renamed(plan, state)), plan, plan.enabled, f);
    assert plan.name == Target(plan, state);
    var after := UpdateOutcome(rules, scopes, state, plan, leftEnabled, f).world.scopes[plan.name];
    EnabledAside(rules, scopes[state.name], placed.value[plan.name], after.enabled, plan, state);
    CarriedReadsBack(rules, scopes[state.name], after, plan, state);
  }

  const NO_FAULTS := Faults(false, false, false, false, false, false, false, false)

  lemma UpdateSucceeds(rules: Rules, scopes: map<string, Scope>, state: ScopeModel, plan: ScopeModel, leftEnabled: bool)
    requires Tracked(scopes, state) && Clean(plan) && plan.name == state.name
    ensures UpdateOutcome(rules, scopes, state, plan, leftEnabled, NO_FAULTS).ok
  {
    assert plan.name != "";
    SetIsPlaced(rules, scopes, state, plan, leftEnabled);
    ReconcileIsFlagOnly(SetEffect(rules, scopes, UpdateRequest(plan, state), leftEnabled).value, plan.name,
                        plan.enabled, false, false);
  }

  /** A search list of one empty text is accepted, and reads back as an empty list. */
  lemma EmptySearchDomainDrifts(rules: Rules, scopes: map<string, Scope>, state: ScopeModel, plan: ScopeModel,
                                leftEnabled: bool)
    requires OnlyRespells(rules) && Tracked(scopes, state) && Clean(plan) && plan.name == state.name
    requires plan.lists == map[DomainSearchList := Known([""])]
    ensures var o := UpdateOutcome(rules, scopes, state, plan, leftEnabled, NO_FAULTS);
      o.ok && !ListsAsPlanned(o.world.state.value, plan)
  {
    UpdateSucceeds(rules, scopes, state, plan, leftEnabled);
    UpdateHasNoDrift(rules, scopes, state, plan, leftEnabled, NO_FAULTS);
    assert !CarriedList(plan.lists[DomainSearchList].v);
  }

  // ---------------------------------------------------------------- reading back twice

  lemma KeptTablesAgain(vendor: seq<VendorInfo>, servedVendor: seq<VendorInfo>,
                        options: seq<GenericOption>, servedOptions: seq<GenericOption>)
    ensures KeptVendor(KeptVendor(vendor, servedVendor), servedVendor) == KeptVendor(vendor, servedVendor)
    ensures KeptOptions(KeptOptions(options, servedOptions), servedOptions) == KeptOptions(options, servedOptions)
  {
  }

  lemma KeptLeasesAgain(declared: seq<InlineLease>, served: seq<Lease>)
    requires EchoesLeases(declared, served)
    ensures KeptLeases(KeptLeases(declared, served), served) == KeptLeases(declared, served)
  {
    var kept := KeptLeases(declared, served);
    forall i | 0 <= i < |served| ensures MacEqual(kept[i].hardwareAddress, served[i].hardwareAddress) {
      assert StoredAs(Declared(declared[i]), served[i]);
      var first := KeptMacIsFirst(declared, served[i].hardwareAddress, i);
    }
    forall i | 0 <= i < |served| ensures KeptLease(kept, served[i]) == kept[i] {
      var f := KeptMacIsFirst(kept, served[i].hardwareAddress, i);
      assert StoredAs(Declared(declared[f]), served[f]);
      SameKeptMac(declared, served[f].hardwareAddress, served[i].hardwareAddress, f);
    }
  }

  /** Reading back what has been read back changes nothing more. */
  lemma ModelOfAgain(name: string, scope: Scope, enabled: bool, again: bool, plan: ScopeModel)
    requires plan.reservedLeases.Some? ==> EchoesLeases(plan.reservedLeases.value, scope.reservedLeases)
    ensures ModelOf(name, scope, again, ModelOf(name, scope, enabled, plan)) == ModelOf(name, scope, again, plan)
  {
    var m := ModelOf(name, scope, enabled, plan);
    assert ServedLists(scope, m) == ServedLists(scope, plan);
    KeptTablesAgain(OrEmpty(plan.vendorInfo), scope.tables.vendorInfo,
                    OrEmpty(plan.genericOptions), scope.tables.genericOptions);
    if plan.reservedLeases.Some? {
      KeptLeasesAgain(plan.reservedLeases.value, scope.reservedLeases);
    }
  }

  // ---------------------------------------------------------------- create

  lemma AfterFirstSetAdoptsNothing(placed: Option<map<string, Scope>>, scopes: map<string, Scope>,
        plan: ScopeModel, f: Faults)
    requires plan.name !in scopes && placed.Some? ==> Moved(scopes, placed.value, plan.name, plan.name)
    requires "" !in scopes
    ensures var o := AfterFirstSet(placed, scopes, plan, f);
      && (plan.name in scopes ==> o == Outcome(World(scopes, None), false))
      && (o.ok ==> o.world.state.Some? && Tracked(o.world.scopes, o.world.state.value)
                   && o.world.state.value.name == plan.name && o.world.scopes[plan.name].enabled == plan.enabled)
      && (forall n :: n in scopes ==> n in o.world.scopes && o.world.scopes[n] == scopes[n])
      && (plan.name !in scopes && !f.check && !f.setCall && placed.Some? ==>
            plan.name in o.world.scopes && (o.world.state.None? <==> f.firstGet || f.firstList))
  {
    if placed.Some? && plan.name !in scopes {
      var m := ReadBackOf(placed.value, plan.name, plan, f.firstGet, f.firstList);
      if m.Some? {
        FinishTouchesTheFlag(placed.value, plan.name, m, m.value, plan.enabled, f);
      }
    }
  }

  lemma FirstSetMoves(rules: Rules, scopes: map<string, Scope>, plan: ScopeModel, leftEnabled: bool)
    requires "" !in scopes
    ensures var req := RequestOf(PayloadOf(plan), "");
      var placed := SetEffect(rules, scopes, req, leftEnabled);
      && req.name == plan.name && (placed.Some? ==> Moved(scopes, placed.value, plan.name, plan.name))
  {
    var req := RequestOf(PayloadOf(plan), "");
    var scope := SetScope(rules, if req.name in scopes then scopes[req.name] else rules.defaults, req, leftEnabled);
    if scope.Some? {
      PlaceMoves(scopes, req.name, req.newName, scope.value);
    }
  }

  /** A name that is taken is refused untouched, every other scope is left alone, and success means
      a tracked scope with the planned flag. */
  lemma CreateAdoptsNothing(rules: Rules, scopes: map<string, Scope>, plan: ScopeModel, leftEnabled: bool, f: Faults)
    requires "" !in scopes
    ensures var o := CreateOutcome(rules, scopes, plan, leftEnabled, f);
      && (plan.name in scopes ==> o == Outcome(World(scopes, None), false))
      && (o.ok ==> o.world.state.Some? && Tracked(o.world.scopes, o.world.state.value)
                   && o.world.state.value.name == plan.name && o.world.scopes[plan.name].enabled == plan.enabled)
      && (forall n :: n in scopes ==> n in o.world.scopes && o.world.scopes[n] == scopes[n])
  {
    FirstSetMoves(rules, scopes, plan, leftEnabled);
    AfterFirstSetAdoptsNothing(SetEffect(rules, scopes, RequestOf(PayloadOf(plan), ""), leftEnabled), scopes, plan, f);
  }

  /** Once its set call has gone through, a create leaves a live scope nobody tracks exactly when one
      of the two reads right after that call is lost; every later create of the name is then refused. */
  lemma CreateOrphans(rules: Rules, scopes: map<string, Scope>, plan: ScopeModel, leftEnabled: bool, f: Faults,
                      again: ScopeModel, leftAgain: bool, g: Faults)
    requires "" !in scopes && plan.name !in scopes && !f.check && !f.setCall
    requires SetEffect(rules, scopes, RequestOf(PayloadOf(plan), ""), leftEnabled).Some?
    requires again.name == plan.name
    ensures var o := CreateOutcome(rules, scopes, plan, leftEnabled, f);
      && plan.name in o.world.scopes
      && (o.world.state.None? <==> f.firstGet || f.firstList)
      && CreateOutcome(rules, o.world.scopes, again, leftAgain, g) == Outcome(World(o.world.scopes, None), false)
  {
    FirstSetMoves(rules, scopes, plan, leftEnabled);
    AfterFirstSetAdoptsNothing(SetEffect(rules, scopes, RequestOf(PayloadOf(plan), ""), leftEnabled), scopes, plan, f);
  }

  lemma FirstSetCarries(rules: Rules, scopes: map<string, Scope>, plan: ScopeModel, leftEnabled: bool)
    requires Clean(plan) && plan.name != "" && plan.name !in scopes
    ensures var placed := SetEffect(rules, scopes, RequestOf(PayloadOf(plan), ""), leftEnabled);
      && placed.Some? && plan.name in placed.value
      && Carries(rules, rules.defaults, placed.value[plan.name], plan, plan)
  {
    SetScopeCarries(rules, rules.defaults, plan, plan, leftEnabled);
    assert UpdateRequest(plan, plan) == RequestOf(PayloadOf(plan), "");
  }

  lemma AfterFirstSetReadsBack(rules: Rules, placed: map<string, Scope>, scopes: map<string, Scope>,
                               plan: ScopeModel, f: Faults)
    requires OnlyRespells(rules) && plan.name in placed
    requires Carries(rules, rules.defaults, placed[plan.name], plan, plan)
    requires AfterFirstSet(Some(placed), scopes, plan, f).ok
    ensures ReadsBack(AfterFirstSet(Some(placed), scopes, plan, f).world.state.value, plan)
  {
    var first := ModelOf(plan.name, placed[plan.name], placed[plan.name].enabled, plan);
    FinishTouchesTheFlag(placed, plan.name, Some(first), first, plan.enabled, f);
    var after := AfterFirstSet(Some(placed), scopes, plan, f).world.scopes[plan.name];
    EnabledAside(rules, rules.defaults, placed[plan.name], after.enabled, plan, plan);
    if plan.reservedLeases.Some? {
      EchoOfCarried(rules, rules.defaults, after, plan, plan);
    }
    ModelOfAgain(plan.name, after, placed[plan.name].enabled, plan.enabled, plan);
    assert first == ModelOf(plan.name, after, placed[plan.name].enabled, plan);
    CarriedReadsBack(rules, rules.defaults, after, plan, plan);
  }

  /** After a create in which nothing fails, on a server that only respells, the plan reads back, though
      the second read-back starts from the model of the first. */
  lemma CreateHasNoDrift(rules: Rules, scopes: map<string, Scope>, plan: ScopeModel, leftEnabled: bool, f: Faults)
    requires OnlyRespells(rules) && "" !in scopes && Clean(plan)
    requires CreateOutcome(rules, scopes, plan, leftEnabled, f).ok
    ensures ReadsBack(CreateOutcome(rules, scopes, plan, leftEnabled, f).world.state.value, plan)
  {
    FirstSetMoves(rules, scopes, plan, leftEnabled);
    assert plan.name != "";
    FirstSetCarries(rules, scopes, plan, leftEnabled);
    var placed := SetEffect(rules, scopes, RequestOf(PayloadOf(plan), ""), leftEnabled);
    AfterFirstSetReadsBack(rules, placed.value, scopes, plan, f);
  }
}
