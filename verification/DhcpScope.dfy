/** DHCP scopes: what a set call carries, what the server makes of it, and what the scope resource
    keeps of the server's answer.
    internal/provider/dhcp_scope_resource.go, internal/client/dhcp.go */
module DhcpScope {
  import opened Text
  import opened WireTable
  import opened DhcpTables
  import opened ReservedLease

  // ---------------------------------------------------------------- scopes, models, requests

  datatype Scalar =
    | LeaseTimeDays | LeaseTimeHours | LeaseTimeMinutes | OfferDelayTime
    | PingCheckEnabled | PingCheckTimeout | PingCheckRetries
    | DomainName | DnsUpdates | DnsOverwriteForDynamicLease | DnsTtl
    | ServerAddress | ServerHostName | BootFileName | RouterAddress | UseThisDnsServer
    | AllowOnlyReservedLeases | BlockLocallyAdministeredMacAddresses | IgnoreClientIdentifierOption

  datatype Value = Whole(n: Int64) | Flag(b: bool) | Words(s: string)

  /** What deref gives for a scalar the server does not report. */
  function Zero(s: Scalar): Value {
    match s
    case PingCheckEnabled | DnsUpdates | DnsOverwriteForDynamicLease | UseThisDnsServer => Flag(false)
    case AllowOnlyReservedLeases | BlockLocallyAdministeredMacAddresses | IgnoreClientIdentifierOption => Flag(false)
    case DomainName | ServerAddress | ServerHostName | BootFileName | RouterAddress => Words("")
    case _ => Whole(0)
  }

  datatype StringList =
    | DomainSearchList | DnsServers | WinsServers | NtpServers | NtpServerDomainNames
    | CapwapAcIpAddresses | TftpServerAddresses

  datatype Range = Range(startingAddress: string, endingAddress: string, subnetMask: string)

  datatype Tables = Tables(
    staticRoutes: seq<StaticRoute>, vendorInfo: seq<VendorInfo>,
    genericOptions: seq<GenericOption>, exclusions: seq<Exclusion>)

  /** A scope on the server. */
  datatype Scope = Scope(
    enabled: bool, range: Range, scalars: map<Scalar, Value>, lists: map<StringList, seq<string>>,
    tables: Tables, reservedLeases: seq<Lease>)

  datatype InlineLease = InlineLease(
    hostName: Tf<string>, hardwareAddress: string, address: string, comments: Tf<string>)

  /** The resource model; a nested list that is not declared is None. */
  datatype ScopeModel = ScopeModel(
    id: string, name: string, enabled: bool, range: Range,
    scalars: map<Scalar, Tf<Value>>, lists: map<StringList, Tf<seq<string>>>,
    staticRoutes: Option<seq<StaticRoute>>, vendorInfo: Option<seq<VendorInfo>>,
    genericOptions: Option<seq<GenericOption>>, exclusions: Option<seq<Exclusion>>,
    reservedLeases: Option<seq<InlineLease>>)

  /** The argument of the set call: a scalar that is not in the map is not sent. */
  datatype Payload = Payload(
    name: string, range: Range, scalars: map<Scalar, Value>, lists: map<StringList, seq<string>>,
    tables: Tables, reservedLeases: Option<seq<Lease>>)

  datatype Request = Request(
    name: string, newName: Option<string>, range: Range, scalars: map<Scalar, Value>, lists: map<StringList, string>,
    staticRoutes: string, vendorInfo: string, genericOptions: string, exclusions: string,
    reservedLeases: Option<string>)

  // ---------------------------------------------------------------- model to request

  function OrEmpty<T>(xs: Option<seq<T>>): seq<T> {
    if xs.Some? then xs.value else []
  }

  function Declared(x: InlineLease): Lease {
    Lease(Str(x.hostName), x.hardwareAddress, x.address, Str(x.comments))
  }

  function DeclaredAll(xs: seq<InlineLease>): (r: seq<Lease>)
    ensures |r| == |xs|
    ensures forall i :: 0 <= i < |xs| ==> r[i] == Declared(xs[i])
  {
    seq(|xs|, i requires 0 <= i < |xs| => Declared(xs[i]))
  }

  function SentScalars(m: ScopeModel): map<Scalar, Value> {
    map s | s in m.scalars && m.scalars[s].Known? :: m.scalars[s].v
  }

  function SentLists(m: ScopeModel): map<StringList, seq<string>> {
    map l: StringList | true :: if l in m.lists && m.lists[l].Known? then m.lists[l].v else []
  }

  function SentTables(m: ScopeModel): Tables {
    Tables(OrEmpty(m.staticRoutes), OrEmpty(m.vendorInfo), OrEmpty(m.genericOptions), OrEmpty(m.exclusions))
  }

  function PayloadOf(m: ScopeModel): Payload {
    Payload(m.name, m.range, SentScalars(m), SentLists(m), SentTables(m),
            if m.reservedLeases.Some? then Some(DeclaredAll(m.reservedLeases.value)) else None)
  }

  method ScopeFromModel(m: ScopeModel) returns (scope: Payload)
    ensures scope == PayloadOf(m)
  {
    scope := Payload(m.name, m.range, SentScalars(m), SentLists(m), SentTables(m), None);
    if m.reservedLeases.Some? {
      var declared := m.reservedLeases.value;
      var leases: seq<Lease> := [];
      for i := 0 to |declared|
        invariant |leases| == i && forall j :: 0 <= j < i ==> leases[j] == Declared(declared[j])
      {
        leases := leases + [Lease(Str(declared[i].hostName), declared[i].hardwareAddress,
                                  declared[i].address, Str(declared[i].comments))];
      }
      assert leases == DeclaredAll(declared);
      scope := scope.(reservedLeases := Some(leases));
    }
  }

  function RequestOf(p: Payload, newName: string): Request {
    Request(
      p.name, if newName != "" && newName != p.name then Some(newName) else None, p.range, p.scalars,
      map l: StringList | true :: if l in p.lists then Join(p.lists[l], ",") else "",
      EncodeTable(p.tables.staticRoutes, RouteRow()), EncodeTable(p.tables.vendorInfo, VendorRow()),
      EncodeTable(p.tables.genericOptions, OptionRow()), EncodeTable(p.tables.exclusions, ExclusionRow()),
      if p.reservedLeases.Some? then Some(EncodeTable(p.reservedLeases.value, LeaseRow())) else None)
  }

  // ---------------------------------------------------------------- server

  /** What is the server's own affair: the defaults of a new scope, how it respells MAC addresses
      and hex values, and what its reservation endpoints do to the list. */
  datatype Rules = Rules(
    defaults: Scope,
    storeLease: Lease -> Lease, storeHex: string -> string,
    add: (seq<Lease>, Lease) -> Option<seq<Lease>>, remove: (seq<Lease>, string) -> Option<seq<Lease>>)

  /** The server respells, and does nothing more. */
  ghost predicate OnlyRespells(rules: Rules) {
    && (forall l :: StoredAs(l, rules.storeLease(l)))
    && (forall s :: HexEqual(s, rules.storeHex(s)))
  }

  function ParseList(s: string): seq<string> {
    if s == "" then [] else Split(s, ',')
  }

  function StoredVendor(rules: Rules, xs: seq<VendorInfo>): (r: seq<VendorInfo>)
    ensures |r| == |xs|
    ensures forall i :: 0 <= i < |xs| ==> r[i] == xs[i].(information := rules.storeHex(xs[i].information))
  {
    seq(|xs|, i requires 0 <= i < |xs| => xs[i].(information := rules.storeHex(xs[i].information)))
  }

  function StoredOptions(rules: Rules, xs: seq<GenericOption>): (r: seq<GenericOption>)
    ensures |r| == |xs|
    ensures forall i :: 0 <= i < |xs| ==> r[i] == xs[i].(value := rules.storeHex(xs[i].value))
  {
    seq(|xs|, i requires 0 <= i < |xs| => xs[i].(value := rules.storeHex(xs[i].value)))
  }

  function StoredLeases(rules: Rules, xs: seq<Lease>): (r: seq<Lease>)
    ensures |r| == |xs|
    ensures forall i :: 0 <= i < |xs| ==> r[i] == rules.storeLease(xs[i])
  {
    seq(|xs|, i requires 0 <= i < |xs| => rules.storeLease(xs[i]))
  }

  function ReadTables(req: Request): Option<Tables> {
    match (DecodeTable(req.staticRoutes, 3, RouteOf()), DecodeTable(req.vendorInfo, 2, VendorOf()),
           DecodeTable(req.genericOptions, 2, OptionOf()), DecodeTable(req.exclusions, 2, ExclusionOf()))
    case (Some(routes), Some(vendor), Some(options), Some(exclusions)) =>
      Some(Tables(routes, vendor, options, exclusions))
    case _ => None
  }

  /** The reservation list after the call: kept when the parameter is missing. */
  function ReadLeases(rules: Rules, req: Request, current: seq<Lease>): Option<seq<Lease>> {
    match req.reservedLeases
    case None => Some(current)
    case Some(text) =>
      match DecodeTable(text, 4, LeaseOf())
      case None => None
      case Some(leases) => Some(StoredLeases(rules, leases))
  }

  /** The scope a set call leaves: scalars that were sent win, every list is replaced, and the
      enabled flag is left as the server likes. */
  function SetScope(rules: Rules, current: Scope, req: Request, leftEnabled: bool): Option<Scope> {
    match (ReadTables(req), ReadLeases(rules, req, current.reservedLeases))
    case (Some(t), Some(leases)) =>
      Some(Scope(
        leftEnabled, req.range, current.scalars + req.scalars,
        map l: StringList | true :: if l in req.lists then ParseList(req.lists[l]) else [],
        t.(vendorInfo := StoredVendor(rules, t.vendorInfo), genericOptions := StoredOptions(rules, t.genericOptions)),
        leases))
    case _ => None
  }

  /** Where the scope goes: a rename onto a taken name or of a missing scope is refused, and no
      scope is without a name. */
  function Place(scopes: map<string, Scope>, name: string, newName: Option<string>,
        scope: Scope): Option<map<string, Scope>> {
    if name == "" then None
    else match newName
      case None => Some(scopes[name := scope])
      case Some(n) => if name !in scopes || n in scopes then None else Some((scopes - {name})[n := scope])
  }

  /** Create, update, or rename. */
  function SetEffect(rules: Rules, scopes: map<string, Scope>, req: Request,
        leftEnabled: bool): Option<map<string, Scope>> {
    var current := if req.name in scopes then scopes[req.name] else rules.defaults;
    match SetScope(rules, current, req, leftEnabled)
    case None => None
    case Some(scope) => Place(scopes, req.name, req.newName, scope)
  }

  datatype Summary = Summary(name: string, enabled: bool)

  predicate Lists(summaries: seq<Summary>, scopes: map<string, Scope>) {
    && (forall i :: 0 <= i < |summaries| ==>
          summaries[i].name in scopes && summaries[i].enabled == scopes[summaries[i].name].enabled)
    && (forall n :: n in scopes ==> exists i :: 0 <= i < |summaries| && summaries[i].name == n)
  }

  datatype Got = Lost | NotFound | Found(scope: Scope)

  class DhcpServer {
    const rules: Rules
    var scopes: map<string, Scope>

    constructor (rules: Rules, scopes: map<string, Scope>)
      ensures this.rules == rules && this.scopes == scopes
    {
      this.rules, this.scopes := rules, scopes;
    }

    method ScopeGet(name: string, lost: bool) returns (r: Got)
      ensures r == if lost then Lost else if name in scopes then Found(scopes[name]) else NotFound
    {
      if lost {
        return Lost;
      }
      return if name in scopes then Found(scopes[name]) else NotFound;
    }

    /** All scopes, in any order. */
    method ScopeList(lost: bool) returns (ok: bool, summaries: seq<Summary>)
      ensures ok <==> !lost
      ensures ok ==> Lists(summaries, scopes)
    {
      ok, summaries := !lost, [];
      var todo := scopes.Keys;
      while todo != {}
        invariant todo <= scopes.Keys
        invariant forall i :: 0 <= i < |summaries| ==>
          summaries[i].name in scopes && summaries[i].enabled == scopes[summaries[i].name].enabled
        invariant forall n :: n in scopes && n !in todo ==> exists i :: 0 <= i < |summaries| && summaries[i].name == n
        decreases |todo|
      {
        var n :| n in todo;
        var s := Summary(n, scopes[n].enabled);
        ghost var before := summaries;
        summaries := summaries + [s];
        todo := todo - {n};
        assert summaries[|before|].name == n;
        assert forall i :: 0 <= i < |before| ==> summaries[i] == before[i];
      }
    }

    method ScopeSet(req: Request, leftEnabled: bool, lost: bool) returns (ok: bool)
      modifies this`scopes
      ensures var e := SetEffect(rules, old(scopes), req, leftEnabled);
        ok == (!lost && e.Some?) && scopes == if ok then e.value else old(scopes)
    {
      var e := SetEffect(rules, scopes, req, leftEnabled);
      ok := !lost && e.Some?;
      if ok {
        scopes := e.value;
      }
    }

    /** scopes/enable and scopes/disable */
    method Switch(name: string, on: bool, lost: bool) returns (ok: bool)
      modifies this`scopes
      ensures ok == (!lost && name in old(scopes))
      ensures scopes == if ok then old(scopes)[name := old(scopes)[name].(enabled := on)] else old(scopes)
    {
      ok := !lost && name in scopes;
      if ok {
        scopes := scopes[name := scopes[name].(enabled := on)];
      }
    }
  }

  // ---------------------------------------------------------------- server to model

  /** The configured spelling stays where it encodes the bytes the server reports. */
  function KeptVendor(prior: seq<VendorInfo>, served: seq<VendorInfo>): (r: seq<VendorInfo>)
    ensures |r| == |served|
  {
    seq(|served|, i requires 0 <= i < |served| =>
      if i < |prior| && HexEqual(prior[i].information, served[i].information)
      then served[i].(information := prior[i].information) else served[i])
  }

  function KeptOptions(prior: seq<GenericOption>, served: seq<GenericOption>): (r: seq<GenericOption>)
    ensures |r| == |served|
  {
    seq(|served|, i requires 0 <= i < |served| =>
      if i < |prior| && prior[i].code == served[i].code && HexEqual(prior[i].value, served[i].value)
      then served[i].(value := prior[i].value) else served[i])
  }

  /** The spelling of the first declared reservation with an equal MAC. */
  function KeptMac(prior: seq<InlineLease>, mac: string): string {
    if prior == [] then mac
    else if MacEqual(prior[0].hardwareAddress, mac) then prior[0].hardwareAddress
    else KeptMac(prior[1..], mac)
  }

  function KeptLease(prior: seq<InlineLease>, l: Lease): InlineLease {
    InlineLease(StringOrNull(l.hostName), KeptMac(prior, l.hardwareAddress), l.address, StringOrNull(l.comments))
  }

  function KeptLeases(prior: seq<InlineLease>, served: seq<Lease>): (r: seq<InlineLease>)
    ensures |r| == |served|
    ensures forall i :: 0 <= i < |served| ==> r[i] == KeptLease(prior, served[i])
  {
    seq(|served|, i requires 0 <= i < |served| => KeptLease(prior, served[i]))
  }

  function ServedScalars(scope: Scope): map<Scalar, Tf<Value>> {
    map s: Scalar | true :: Known(if s in scope.scalars then scope.scalars[s] else Zero(s))
  }

  /** A list the configuration leaves out stays out. */
  function ServedLists(scope: Scope, m: ScopeModel): map<StringList, Tf<seq<string>>> {
    map l: StringList | true ::
      if l !in m.lists || m.lists[l].Null? then Null
      else Known(if l in scope.lists then scope.lists[l] else [])
  }

  function ModelOf(name: string, scope: Scope, enabled: bool, m: ScopeModel): ScopeModel {
    ScopeModel(
      name, name, enabled, scope.range, ServedScalars(scope), ServedLists(scope, m),
      if m.staticRoutes.Some? then Some(scope.tables.staticRoutes) else None,
      if m.vendorInfo.Some? then Some(KeptVendor(m.vendorInfo.value, scope.tables.vendorInfo)) else None,
      if m.genericOptions.Some? then Some(KeptOptions(m.genericOptions.value, scope.tables.genericOptions)) else None,
      if m.exclusions.Some? then Some(scope.tables.exclusions) else None,
      if m.reservedLeases.Some? then Some(KeptLeases(m.reservedLeases.value, scope.reservedLeases)) else None)
  }

  lemma {:induction false} KeptMacAt(prior: seq<InlineLease>, mac: string, k: nat)
    requires k < |prior| && MacEqual(prior[k].hardwareAddress, mac)
    requires forall j :: 0 <= j < k ==> !MacEqual(prior[j].hardwareAddress, mac)
    ensures KeptMac(prior, mac) == prior[k].hardwareAddress
  {
    if k > 0 {
      KeptMacAt(prior[1..], mac, k - 1);
    }
  }

  lemma {:induction false} KeptMacNone(prior: seq<InlineLease>, mac: string)
    requires forall j :: 0 <= j < |prior| ==> !MacEqual(prior[j].hardwareAddress, mac)
    ensures KeptMac(prior, mac) == mac
  {
    if prior != [] {
      KeptMacNone(prior[1..], mac);
    }
  }

  method KeepMac(prior: seq<InlineLease>, mac: string) returns (kept: string)
    ensures kept == KeptMac(prior, mac)
  {
    for i := 0 to |prior|
      invariant forall j :: 0 <= j < i ==> !MacEqual(prior[j].hardwareAddress, mac)
    {
      if MacEqual(prior[i].hardwareAddress, mac) {
        KeptMacAt(prior, mac, i);
        return prior[i].hardwareAddress;
      }
    }
    KeptMacNone(prior, mac);
    return mac;
  }

  method KeepVendor(prior: seq<VendorInfo>, served: seq<VendorInfo>) returns (entries: seq<VendorInfo>)
    ensures entries == KeptVendor(prior, served)
  {
    entries := [];
    for i := 0 to |served|
      invariant |entries| == i && forall j :: 0 <= j < i ==> entries[j] == KeptVendor(prior, served)[j]
    {
      var entry := served[i];
      if i < |prior| && HexEqual(prior[i].information, served[i].information) {
        entry := entry.(information := prior[i].information);
      }
      entries := entries + [entry];
    }
  }

  method KeepOptions(prior: seq<GenericOption>, served: seq<GenericOption>) returns (opts: seq<GenericOption>)
    ensures opts == KeptOptions(prior, served)
  {
    opts := [];
    for i := 0 to |served|
      invariant |opts| == i && forall j :: 0 <= j < i ==> opts[j] == KeptOptions(prior, served)[j]
    {
      var model := served[i];
      if i < |prior| && prior[i].code == served[i].code && HexEqual(prior[i].value, served[i].value) {
        model := model.(value := prior[i].value);
      }
      opts := opts + [model];
    }
  }

  method KeepLeases(prior: seq<InlineLease>, served: seq<Lease>) returns (leases: seq<InlineLease>)
    ensures leases == KeptLeases(prior, served)
  {
    leases := [];
    for i := 0 to |served|
      invariant |leases| == i && forall j :: 0 <= j < i ==> leases[j] == KeptLease(prior, served[j])
    {
      var mac := KeepMac(prior, served[i].hardwareAddress);
      leases := leases + [InlineLease(StringOrNull(served[i].hostName), mac, served[i].address,
                                      StringOrNull(served[i].comments))];
    }
  }

  method ModelFromScope(name: string, scope: Scope, enabled: bool, prior: ScopeModel) returns (m: ScopeModel)
    ensures m == ModelOf(name, scope, enabled, prior)
  {
    m := ScopeModel(name, name, enabled, scope.range, ServedScalars(scope), ServedLists(scope, prior),
                    None, None, None, None, None);
    if prior.staticRoutes.Some? {
      m := m.(staticRoutes := Some(scope.tables.staticRoutes));
    }
    if prior.vendorInfo.Some? {
      var entries := KeepVendor(prior.vendorInfo.value, scope.tables.vendorInfo);
      m := m.(vendorInfo := Some(entries));
    }
    if prior.genericOptions.Some? {
      var opts := KeepOptions(prior.genericOptions.value, scope.tables.genericOptions);
      m := m.(genericOptions := Some(opts));
    }
    if prior.exclusions.Some? {
      m := m.(exclusions := Some(scope.tables.exclusions));
    }
    if prior.reservedLeases.Some? {
      var leases := KeepLeases(prior.reservedLeases.value, scope.reservedLeases);
      m := m.(reservedLeases := Some(leases));
    }
  }

  // ---------------------------------------------------------------- resource

  function EnabledOf(scopes: map<string, Scope>, name: string): bool {
    name in scopes && scopes[name].enabled
  }

  datatype Reconciled = Reconciled(scopes: map<string, Scope>, ok: bool)

  function Reconcile(scopes: map<string, Scope>, name: string, want: bool, listLost: bool,
        switchLost: bool): Reconciled {
    if listLost then Reconciled(scopes, false)
    else if EnabledOf(scopes, name) == want then Reconciled(scopes, true)
    else if switchLost || name !in scopes then Reconciled(scopes, false)
    else Reconciled(scopes[name := scopes[name].(enabled := want)], true)
  }

  function ReadBackOf(scopes: map<string, Scope>, name: string, m: ScopeModel, getLost: bool,
        listLost: bool): Option<ScopeModel> {
    if getLost || name !in scopes || listLost then None
    else Some(ModelOf(name, scopes[name], EnabledOf(scopes, name), m))
  }

  /** Which calls are lost, in the order they are made; the first two pairs are used by create. */
  datatype Faults = Faults(
    check: bool, setCall: bool, firstGet: bool, firstList: bool,
    list: bool, switch: bool, lastGet: bool, lastList: bool)

  datatype World = World(scopes: map<string, Scope>, state: Option<ScopeModel>)

  datatype Outcome = Outcome(world: World, ok: bool)

  /** reconcile the enabled flag, read back, and persist. */
  function Finish(scopes: map<string, Scope>, name: string, tracked: Option<ScopeModel>, m: ScopeModel,
        want: bool, f: Faults): Outcome {
    var r := Reconcile(scopes, name, want, f.list, f.switch);
    if !r.ok then Outcome(World(r.scopes, tracked), false)
    else match ReadBackOf(r.scopes, name, m, f.lastGet, f.lastList)
      case None => Outcome(World(r.scopes, tracked), false)
      case Some(state) => Outcome(World(r.scopes, Some(state)), true)
  }

  function UpdatePayload(plan: ScopeModel, state: ScopeModel): Payload {
    var p := PayloadOf(plan).(name := state.name);
    if plan.reservedLeases.None? && state.reservedLeases.Some? then p.(reservedLeases := Some([])) else p
  }

  function UpdateRequest(plan: ScopeModel, state: ScopeModel): Request {
    RequestOf(UpdatePayload(plan, state), if plan.name != state.name then plan.name else "")
  }

  /** The state to keep when a call after the set fails: a rename is recorded at once. */
  function Renamed(plan: ScopeModel, state: ScopeModel): ScopeModel {
    if plan.name != state.name && plan.name != "" then state.(id := plan.name, name := plan.name) else state
  }

  /** The rest of an update, given what its set call did. */
  function AfterSet(placed: Option<map<string, Scope>>, scopes: map<string, Scope>, state: ScopeModel,
        plan: ScopeModel, f: Faults): Outcome {
    if f.setCall || placed.None? then Outcome(World(scopes, Some(state)), false)
    else Finish(placed.value, plan.name, Some(Renamed(plan, state)), plan, plan.enabled, f)
  }

  function UpdateOutcome(rules: Rules, scopes: map<string, Scope>, state: ScopeModel, plan: ScopeModel,
        leftEnabled: bool, f: Faults): Outcome {
    AfterSet(SetEffect(rules, scopes, UpdateRequest(plan, state), leftEnabled), scopes, state, plan, f)
  }

  /** The rest of a create. */
  function AfterFirstSet(placed: Option<map<string, Scope>>, scopes: map<string, Scope>, plan: ScopeModel,
        f: Faults): Outcome {
    if f.check || plan.name in scopes || f.setCall || placed.None? then Outcome(World(scopes, None), false)
    else match ReadBackOf(placed.value, plan.name, plan, f.firstGet, f.firstList)
      case None => Outcome(World(placed.value, None), false)
      case Some(state) => Finish(placed.value, plan.name, Some(state), state, plan.enabled, f)
  }

  function CreateOutcome(rules: Rules, scopes: map<string, Scope>, plan: ScopeModel, leftEnabled: bool,
        f: Faults): Outcome {
    AfterFirstSet(SetEffect(rules, scopes, RequestOf(PayloadOf(plan), ""), leftEnabled), scopes, plan, f)
  }

  class ScopeResource {
    const server: DhcpServer
    var state: Option<ScopeModel>

    constructor (server: DhcpServer, state: Option<ScopeModel>)
      ensures this.server == server && this.state == state
    {
      this.server, this.state := server, state;
    }

    /** The client's set call: parameters built, then sent. */
    method DHCPScopeSet(p: Payload, newName: string, leftEnabled: bool, lost: bool) returns (ok: bool)
      modifies server`scopes
      ensures var e := SetEffect(server.rules, old(server.scopes), RequestOf(p, newName), leftEnabled);
        ok == (!lost && e.Some?) && server.scopes == if ok then e.value else old(server.scopes)
    {
      var renamed: Option<string> := None;
      if newName != "" && newName != p.name {
        renamed := Some(newName);
      }
      var routes := Flatten(p.tables.staticRoutes, RouteRow());
      var vendor := Flatten(p.tables.vendorInfo, VendorRow());
      var options := Flatten(p.tables.genericOptions, OptionRow());
      var exclusions := Flatten(p.tables.exclusions, ExclusionRow());
      var leases: Option<string> := None;
      if p.reservedLeases.Some? {
        var text := Flatten(p.reservedLeases.value, LeaseRow());
        leases := Some(text);
      }
      var lists := map l: StringList | true :: if l in p.lists then Join(p.lists[l], ",") else "";
      ok := server.ScopeSet(
        Request(p.name, renamed, p.range, p.scalars, lists, routes, vendor, options, exclusions, leases),
        leftEnabled, lost);
    }

    /** The flag comes from the list of scopes; a scope that is not listed reads as disabled. */
    method ScopeEnabled(name: string, lost: bool) returns (ok: bool, enabled: bool)
      ensures ok <==> !lost
      ensures ok ==> enabled == EnabledOf(server.scopes, name)
    {
      var summaries;
      ok, summaries := server.ScopeList(lost);
      enabled := false;
      if !ok {
        return;
      }
      for i := 0 to |summaries|
        invariant forall j :: 0 <= j < i ==> summaries[j].name != name
      {
        if summaries[i].name == name {
          return ok, summaries[i].enabled;
        }
      }
    }

    method ReconcileEnabled(name: string, want: bool, listLost: bool, switchLost: bool) returns (ok: bool)
      modifies server`scopes
      ensures Reconciled(server.scopes, ok) == Reconcile(old(server.scopes), name, want, listLost, switchLost)
    {
      var listed, current := ScopeEnabled(name, listLost);
      if !listed {
        return false;
      }
      if current == want {
        return true;
      }
      ok := server.Switch(name, want, switchLost);
    }

    method ReadBack(name: string, model: ScopeModel, getLost: bool, listLost: bool) returns (r: Option<ScopeModel>)
      ensures r == ReadBackOf(server.scopes, name, model, getLost, listLost)
    {
      var got := server.ScopeGet(name, getLost);
      if !got.Found? {
        return None;
      }
      var ok, enabled := ScopeEnabled(name, listLost);
      if !ok {
        return None;
      }
      var m := ModelFromScope(name, got.scope, enabled, model);
      return Some(m);
    }

    /** The end of create and update alike: enabled flag, read-back, state. */
    method Settle(name: string, model: ScopeModel, want: bool, f: Faults) returns (ok: bool)
      modifies this`state, server`scopes
      ensures Outcome(World(server.scopes, state), ok) == Finish(old(server.scopes), name, old(state), model, want, f)
    {
      ok := ReconcileEnabled(name, want, f.list, f.switch);
      if !ok {
        return;
      }
      var m := ReadBack(name, model, f.lastGet, f.lastList);
      if m.None? {
        return false;
      }
      state := m;
    }

    method Create(plan: ScopeModel, leftEnabled: bool, f: Faults) returns (ok: bool)
      requires state.None?
      modifies this`state, server`scopes
      ensures Outcome(World(server.scopes, state), ok) ==
        CreateOutcome(server.rules, old(server.scopes), plan, leftEnabled, f)
    {
      var got := server.ScopeGet(plan.name, f.check);
      if !got.NotFound? {
        return false;
      }
      var scope := ScopeFromModel(plan);
      ok := DHCPScopeSet(scope, "", leftEnabled, f.setCall);
      if !ok {
        return;
      }
      var first := ReadBack(plan.name, plan, f.firstGet, f.firstList);
      if first.None? {
        return false;
      }
      state := first;
      ok := Settle(plan.name, first.value, plan.enabled, f);
    }

    /** The set call of an update: addressed by the name in state, a declared list that is gone is cleared. */
    method SendUpdate(plan: ScopeModel, prior: ScopeModel, leftEnabled: bool, lost: bool) returns (ok: bool)
      modifies server`scopes
      ensures var e := SetEffect(server.rules, old(server.scopes), UpdateRequest(plan, prior), leftEnabled);
        ok == (!lost && e.Some?) && server.scopes == if ok then e.value else old(server.scopes)
    {
      var scope := ScopeFromModel(plan);
      if plan.reservedLeases.None? && prior.reservedLeases.Some? {
        scope := scope.(reservedLeases := Some([]));
      }
      var newName := "";
      if plan.name != prior.name {
        newName := plan.name;
      }
      scope := scope.(name := prior.name);
      ok := DHCPScopeSet(scope, newName, leftEnabled, lost);
    }

    method Update(plan: ScopeModel, leftEnabled: bool, f: Faults) returns (ok: bool)
      requires state.Some?
      modifies this`state, server`scopes
      ensures Outcome(World(server.scopes, state), ok) ==
        UpdateOutcome(server.rules, old(server.scopes), old(state).value, plan, leftEnabled, f)
    {
      ok := SendUpdate(plan, state.value, leftEnabled, f.setCall);
      if !ok {
        return;
      }
      if plan.name != state.value.name && plan.name != "" {
        state := Some(state.value.(name := plan.name, id := plan.name));
      }
      ok := Settle(plan.name, plan, plan.enabled, f);
    }
  }
}
