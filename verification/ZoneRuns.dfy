/** Refresh, plan and apply cycles of a zone: what authorizes an unsign, what keeps the keys,
    and how a fixed configuration converges. */
module ZoneRuns {
  import opened Text
  import opened DnssecGate
  import opened ZoneDnssec

  // ---------------------------------------------------------------- safety

  function BlockOf(m: ZoneModel): DnssecBlock {
    if m.dnssec.Some? then m.dnssec.value else EMPTY_BLOCK
  }

  function Enabled(m: ZoneModel): bool {
    Bool(BlockOf(m).enabled)
  }

  function Identity(m: ZoneModel): string {
    DnssecTargetIdentity(Str(BlockOf(m).algorithm), Str(BlockOf(m).curve))
  }

  predicate ValidPair(m: ZoneModel) {
    DnssecIdentityValid(Str(BlockOf(m).algorithm), Str(BlockOf(m).curve))
  }

  function Acknowledgment(m: ZoneModel): string {
    Str(BlockOf(m).acknowledgment)
  }

  /** The configuration itself authorizes taking the signatures away: it disables DNSSEC (and
      under strict says "unsigned"), or acknowledges exactly its own valid identity. */
  predicate Authorizes(config: ZoneModel, posture: string) {
    config.zoneType == "Primary" &&
    if Enabled(config) then ValidPair(config) && Acknowledgment(config) == Identity(config)
    else posture == "strict" ==> Acknowledgment(config) == "unsigned"
  }

  /** Whatever the state, the server and the lost calls, an apply unsigns only with the
      configuration's authority, and re-signs only to an identity that is new to the state. */
  lemma UnsignIsAuthorized(rsa: string, w: World, state: ZoneModel, plan: ZoneModel, posture: string, f: Faults)
    ensures var a := Apply(rsa, w, state, plan, posture, f);
      DidUnsign in a.events ==> Authorizes(plan, posture) && (Enabled(plan) ==> Identity(plan) != Identity(state))
  {
  }

  /** A signed zone stops being signed, or changes keys or algorithm, only by an unsign call. */
  lemma KeysOutliveOtherCalls(rsa: string, w: World, state: ZoneModel, plan: ZoneModel, posture: string, f: Faults)
    requires w.zone.Signed?
    ensures var a := Apply(rsa, w, state, plan, posture, f);
      DidUnsign !in a.events ==>
        a.world.zone.Signed? && a.world.zone.keys == w.zone.keys && a.world.zone.iana == w.zone.iana
  {
  }

  /** A refused plan reaches the server with nothing. */
  lemma RefusedPlanDoesNothing(rsa: string, w: World, state: ZoneModel, plan: ZoneModel, posture: string, f: Faults)
    requires plan.zoneType == "Primary" && Gate(GateInputFromModels(plan, state, posture)).errors != []
    ensures Apply(rsa, w, state, plan, posture, f) == Applied(w, None, [], false)
  {
  }

  predicate Unsettled(b: DnssecBlock) {
    b.enabled.Unknown? || b.algorithm.Unknown? || b.curve.Unknown? || b.nxProof.Unknown? || b.acknowledgment.Unknown?
  }

  /** Of a zone that is renamed, letter case aside, or of another type, or not Primary, or whose DNSSEC
      values are not all known, an update leaves the signing alone. */
  lemma UndecidedIsLeftAlone(rsa: string, w: World, state: ZoneModel, plan: ZoneModel, posture: string, f: Faults)
    requires || !EqualFold(plan.name, state.name) || plan.zoneType != state.zoneType || plan.zoneType != "Primary"
             || (plan.dnssec.Some? && Unsettled(plan.dnssec.value))
    ensures var a := Apply(rsa, w, state, plan, posture, f);
      a.world == w && a.events == [] && (a.ok <==> !f.tsigCheck && !f.options && !f.soa && !f.readBack)
  {
    if plan.zoneType == "Primary" {
      UndecidedDoesNothing(GateInputFromModels(plan, state, posture));
    }
  }

  /** How the refresh of a cycle goes: skipped on request, lost, or done. */
  datatype Refresh = Skipped | Lost | Refreshed

  /** One cycle.  planned is the plan as first evaluated, unknown values included; resolved is
      the plan as applied.  outside is what others did to the server before the cycle. */
  datatype Cycle = Cycle(outside: Option<World>, refresh: Refresh, planned: ZoneModel, resolved: ZoneModel, f: Faults)

  /** before is the server as the cycle finds it, read the state the plan is made from. */
  datatype Outcome = Outcome(before: World, read: ZoneModel, applied: Applied)

  function Found(w: World, c: Cycle): World {
    if c.outside.Some? then c.outside.value else w
  }

  function Read(w: World, state: ZoneModel, c: Cycle): ZoneModel {
    if c.refresh.Refreshed? then ReadZoneState(w.zone, state) else state
  }

  function RunCycle(rsa: string, w: World, state: ZoneModel, posture: string, c: Cycle): Outcome {
    var w := Found(w, c);
    var state := Read(w, state, c);
    if c.refresh.Lost? then Outcome(w, state, Applied(w, None, [], false))
    else if c.planned.zoneType == "Primary" && Gate(GateInputFromModels(c.planned, state, posture)).errors != [] then
      Outcome(w, state, Applied(w, Some(state), [], false))
    else
      var a := Apply(rsa, w, state, c.resolved, posture, c.f);
      Outcome(w, state, a.(saved := Some(if a.saved.Some? then a.saved.value else state)))
  }

  /** The state after a cycle: what it saved, else what was there. */
  function NextState(o: Outcome, state: ZoneModel): ZoneModel {
    if o.applied.saved.Some? then o.applied.saved.value else state
  }

  function RunCycles(rsa: string, w: World, state: ZoneModel, posture: string, cs: seq<Cycle>): (os: seq<Outcome>)
    ensures |os| == |cs|
    decreases |cs|
  {
    if cs == [] then []
    else
      var o := RunCycle(rsa, w, state, posture, cs[0]);
      [o] + RunCycles(rsa, o.applied.world, NextState(o, state), posture, cs[1..])
  }

  /** A cycle took the signature, the keys or the algorithm of the zone it found. */
  predicate KeysFell(o: Outcome) {
    o.before.zone.Signed? &&
    !(o.applied.world.zone.Signed? && o.applied.world.zone.keys == o.before.zone.keys
      && o.applied.world.zone.iana == o.before.zone.iana)
  }

  /** The configuration authorizes it, and an acknowledged identity is new: to the state that was
      read, and with a refresh to the server itself. */
  predicate RightlyFell(o: Outcome, c: Cycle, posture: string)
    requires o.before.zone.Signed?
  {
    && Authorizes(c.resolved, posture) && !c.refresh.Lost?
    && (Enabled(c.resolved) ==>
          && Identity(c.resolved) != Identity(o.read)
          && (c.refresh.Refreshed? ==> Identity(c.resolved) != ServerIdentity(o.before.zone)))
  }

  lemma ReadIdentity(z: Zone, m: ZoneModel)
    requires z.Signed?
    ensures Identity(ReadZoneState(z, m)) == ServerIdentity(z)
  {
  }

  lemma CycleFallsOnlyByAuthority(rsa: string, w: World, state: ZoneModel, posture: string, c: Cycle)
    ensures var o := RunCycle(rsa, w, state, posture, c);
      KeysFell(o) ==> RightlyFell(o, c, posture)
  {
    var o := RunCycle(rsa, w, state, posture, c);
    if o.before.zone.Signed? {
      ReadIdentity(o.before.zone, state);
      UnsignIsAuthorized(rsa, o.before, o.read, c.resolved, posture, c.f);
      KeysOutliveOtherCalls(rsa, o.before, o.read, c.resolved, posture, c.f);
    }
  }

  /** Over every sequence of cycles, with any configurations, lost calls and outside changes: a
      cycle takes the server from signed to unsigned, or replaces its keys, only if that cycle's own
      configuration disables DNSSEC or acknowledges exactly its own valid identity, and that is a
      new one. */
  lemma {:induction false} KeysFallOnlyByAuthority(rsa: string, w: World, state: ZoneModel, posture: string,
                                                   cs: seq<Cycle>, i: nat)
    requires i < |cs|
    ensures var o := RunCycles(rsa, w, state, posture, cs)[i];
      KeysFell(o) ==> RightlyFell(o, cs[i], posture)
    decreases i
  {
    var o := RunCycle(rsa, w, state, posture, cs[0]);
    if i == 0 {
      CycleFallsOnlyByAuthority(rsa, w, state, posture, cs[0]);
    } else {
      KeysFallOnlyByAuthority(rsa, o.applied.world, NextState(o, state), posture, cs[1..], i - 1);
    }
  }

  /** Nothing stops the cycle before its first DNSSEC call has an effect. */
  predicate Reaches(read: ZoneModel, c: Cycle, posture: string) {
    && !c.refresh.Lost? && c.resolved.zoneType == "Primary"
    && (c.planned.zoneType == "Primary" ==> Gate(GateInputFromModels(c.planned, read, posture)).errors == [])
    && !c.f.tsigCheck && !c.f.options && !c.f.first
  }

  /** Against the state that was read, the configuration takes the signature away and is allowed to. */
  predicate Takes(read: ZoneModel, config: ZoneModel, posture: string) {
    var x := GateInputFromModels(config, read, posture);
    Decides(x) && x.stateSigned && Consents(x) && (x.planEnabled ==> PlanValid(x) && IdentityChanges(x))
  }

  /** Keys are numbered as they are made. */
  predicate KeysNumbered(w: World) {
    w.zone.Signed? ==> w.zone.keys < w.nextKeys
  }

  lemma TakingIsUnsigning(read: ZoneModel, config: ZoneModel, posture: string)
    ensures var g := Gate(GateInputFromModels(config, read, posture));
      Takes(read, config, posture) <==> g.errors == [] && (g.action.Unsign? || g.action.Resign?)
  {
  }

  /** Of a signed zone, an apply takes the keys exactly when it gets to its first call and that is an
      unsign. */
  lemma ApplyTakesKeys(rsa: string, w: World, read: ZoneModel, plan: ZoneModel, posture: string, f: Faults)
    requires w.zone.Signed? && KeysNumbered(w)
    ensures var after := Apply(rsa, w, read, plan, posture, f).world.zone;
      !(after.Signed? && after.keys == w.zone.keys && after.iana == w.zone.iana) <==>
        plan.zoneType == "Primary" && !f.tsigCheck && !f.options && !f.first && Takes(read, plan, posture)
  {
    TakingIsUnsigning(read, plan, posture);
  }

  /** A cycle takes signature, keys or algorithm of the zone it finds exactly when nothing stops it in
      time and its configuration takes them, with authority, from the state that was read. */
  lemma KeysFallExactly(rsa: string, w: World, state: ZoneModel, posture: string, c: Cycle)
    requires var found := Found(w, c); found.zone.Signed? && KeysNumbered(found)
    ensures var o := RunCycle(rsa, w, state, posture, c);
      KeysFell(o) <==> Reaches(o.read, c, posture) && Takes(o.read, c.resolved, posture)
  {
    var o := RunCycle(rsa, w, state, posture, c);
    ApplyTakesKeys(rsa, o.before, o.read, c.resolved, posture, c.f);
  }

  /** A zone that is as the configuration declares it loses its keys exactly when the refresh was
      skipped and the configuration takes them from the stale state. */
  lemma DeclaredZoneFallsExactly(rsa: string, w: World, state: ZoneModel, posture: string, c: Cycle)
    requires var found := Found(w, c); found.zone.Signed? && KeysNumbered(found) && WellFormed(found.zone)
    requires Enabled(c.resolved) && Declared(Found(w, c).zone, c.resolved)
    ensures KeysFell(RunCycle(rsa, w, state, posture, c)) <==>
      c.refresh.Skipped? && Reaches(state, c, posture) && Takes(state, c.resolved, posture)
  {
    KeysFallExactly(rsa, w, state, posture, c);
    RefreshMirrors(Found(w, c).zone, state);
  }

  lemma NumberingStays(rsa: string, w: World, state: ZoneModel, posture: string, c: Cycle)
    requires KeysNumbered(Found(w, c))
    ensures KeysNumbered(RunCycle(rsa, w, state, posture, c).applied.world)
  {
  }

  predicate FallsExactly(o: Outcome, c: Cycle, posture: string) {
    o.before.zone.Signed? ==>
      (KeysFell(o) <==> Reaches(o.read, c, posture) && Takes(o.read, c.resolved, posture))
  }

  lemma CycleFallsExactly(rsa: string, w: World, state: ZoneModel, posture: string, c: Cycle)
    requires KeysNumbered(Found(w, c))
    ensures FallsExactly(RunCycle(rsa, w, state, posture, c), c, posture)
  {
    if Found(w, c).zone.Signed? {
      KeysFallExactly(rsa, w, state, posture, c);
    }
  }

  /** Others do not undo the numbering. */
  predicate OutsideNumbered(cs: seq<Cycle>) {
    forall j :: 0 <= j < |cs| && cs[j].outside.Some? ==> KeysNumbered(cs[j].outside.value)
  }

  /** Over every sequence of cycles: in each that finds the zone signed the keys fall exactly then. */
  lemma {:induction false} KeysFallExactlyInRuns(rsa: string, w: World, state: ZoneModel, posture: string,
                                                 cs: seq<Cycle>, i: nat)
    requires i < |cs| && KeysNumbered(w) && OutsideNumbered(cs)
    ensures FallsExactly(RunCycles(rsa, w, state, posture, cs)[i], cs[i], posture)
    decreases i
  {
    if i == 0 {
      CycleFallsExactly(rsa, w, state, posture, cs[0]);
    } else {
      var o := RunCycle(rsa, w, state, posture, cs[0]);
      NumberingStays(rsa, w, state, posture, cs[0]);
      KeysFallExactlyInRuns(rsa, o.applied.world, NextState(o, state), posture, cs[1..], i - 1);
    }
  }

  /** What a refreshed cycle reads is what the server says. */
  lemma RefreshedCycleReadsTheServer(rsa: string, w: World, state: ZoneModel, posture: string, c: Cycle)
    requires c.refresh.Refreshed?
    ensures var o := RunCycle(rsa, w, state, posture, c);
      o.read == ReadZoneState(o.before.zone, state) && (c.outside.None? ==> o.before == w)
  {
  }

  const P384_BLOCK :=
    DnssecBlock(Known(true), Known("ECDSA"), Known("P384"), Known("NSEC"), Known("ECDSA/P384"))

  /** Without a refresh new means new to the state: a zone that is already as declared is signed
      anew, with other keys, when the state still has its former identity. */
  lemma StaleStateRekeysADeclaredZone(rsa: string, keys: nat)
    ensures var config := ZoneModel("example", "Primary", "SignedWithNSEC", Some(P384_BLOCK));
      var state := config.(dnssec := Some(P384_BLOCK.(curve := Known("P256"))));
      var w := World(Signed("ECDSAP384SHA384", "NSEC", keys), keys + 1);
      var o := RunCycle(rsa, w, state, "strict", Cycle(None, Skipped, config, config, NO_FAULTS));
      && Declared(w.zone, config)
      && o.applied.events == [DidUnsign, DidSign]
      && o.applied.world.zone == Signed("ECDSAP384SHA384", "NSEC", keys + 1)
  {
    var config := ZoneModel("example", "Primary", "SignedWithNSEC", Some(P384_BLOCK));
    var state := config.(dnssec := Some(P384_BLOCK.(curve := Known("P256"))));
    var w := World(Signed("ECDSAP384SHA384", "NSEC", keys), keys + 1);
    var x := GateInputFromModels(config, state, "strict");
    assert "ECDSA" + "/" + "P384" == "ECDSA/P384";
    assert Identity(config)[8] != Identity(state)[8];
    assert x.stateSigned && IdentityChanges(x) && PlanValid(x) && Consents(x);
    assert Gate(x) == GateResult(Resign, [], [KeysRegenerated]);
    var a := Apply(rsa, w, state, config, "strict", NO_FAULTS);
    assert a.events == [DidUnsign] + [DidSign];
  }

  /** "unsigned" authorizes no re-sign: with it, an enabled configuration unsigns nothing. */
  lemma UnsignedAuthorizesNoResign(config: ZoneModel, posture: string)
    requires Enabled(config) && Acknowledgment(config) == "unsigned"
    ensures !Authorizes(config, posture)
  {
    NoIdentityIsUnsigned(Str(BlockOf(config).algorithm), Str(BlockOf(config).curve));
  }

  // ---------------------------------------------------------------- refresh mirrors the server

  lemma StatusTellsNxProof(z: Zone)
    requires z.Signed? && NxProofKnown(z.nxProof)
    ensures DnssecStatus(z) != "" && DnssecStatus(z) != "Unsigned"
    ensures (Index(DnssecStatus(z), "NSEC3") >= 0) == (z.nxProof == "NSEC3")
  {
    var s := DnssecStatus(z);
    assert s[0] == 'S';
    if z.nxProof == "NSEC3" {
      assert At(s, "NSEC3", 10);
    } else {
      assert s == "SignedWithNSEC" && "NSEC3"[4] == '3';
      assert forall i :: 0 <= i < |s| ==> s[i] != '3';
      forall i ensures !At(s, "NSEC3", i) {
        NoThree(s, i);
      }
    }
  }

  lemma NoThree(s: string, i: int)
    requires forall j :: 0 <= j < |s| ==> s[j] != '3'
    ensures !At(s, "NSEC3", i)
  {
    if 0 <= i <= |s| - 5 {
      assert s[i..i + 5][4] == s[i + 4];
    }
  }

  /** After a refresh the state says what the server is: signed or not, with which identity and
      proof.  RSA reads back without a curve and still has its own identity. */
  lemma RefreshMirrors(z: Zone, m: ZoneModel)
    requires WellFormed(z)
    ensures var r := ReadZoneState(z, m);
      && r.name == m.name && r.zoneType == m.zoneType
      && ((r.dnssecStatus != "" && r.dnssecStatus != "Unsigned") <==> z.Signed?)
      && (z.Signed? ==> r.dnssec.Some? && Str(r.dnssec.value.nxProof) == z.nxProof
                        && Identity(r) == ServerIdentity(z))
      && (r.dnssec.Some? <==> z.Signed? || m.dnssec.Some?)
      && (r.dnssec.Some? ==> r.dnssec.value.enabled == Known(z.Signed?)
                             && r.dnssec.value.acknowledgment == BlockOf(m).acknowledgment)
      && (z.Unsigned? && m.dnssec.Some? ==> r.dnssec.value == m.dnssec.value.(enabled := Known(false)))
  {
    if z.Signed? {
      StatusTellsNxProof(z);
    }
  }

  function ServerIdentity(z: Zone): string
    requires z.Signed?
  {
    var (algorithm, curve) := MapIANAAlgorithmToAPI(z.iana);
    DnssecTargetIdentity(algorithm, curve)
  }

  /** What the server calls the algorithm it was asked for maps back to what was asked. */
  lemma IanaRoundTrip(rsa: string, algorithm: string, curve: string)
    requires RsaName(rsa) && DnssecIdentityValid(algorithm, curve)
    ensures MapIANAAlgorithmToAPI(IanaName(rsa, algorithm, curve))
         == (algorithm, if algorithm == "RSA" then "" else curve)
  {
    if algorithm == "RSA" {
      assert rsa[0] == 'R';
    }
  }

  // ---------------------------------------------------------------- convergence

  /** A configuration an operator can apply: all values known, the proof and an enabled pair
      valid, on the Primary zone in state. */
  predicate Applicable(config: ZoneModel, state: ZoneModel) {
    var b := BlockOf(config);
    && config.zoneType == "Primary" == state.zoneType && EqualFold(config.name, state.name)
    && !b.enabled.Unknown? && !b.algorithm.Unknown? && !b.curve.Unknown?
    && !b.nxProof.Unknown? && !b.acknowledgment.Unknown?
    && (Enabled(config) ==> ValidPair(config) && NxProofKnown(Str(b.nxProof)))
  }

  /** The server is as declared. */
  predicate Declared(z: Zone, config: ZoneModel) {
    if Enabled(config) then
      z.Signed? && ServerIdentity(z) == Identity(config) && z.nxProof == Str(BlockOf(config).nxProof)
    else z.Unsigned?
  }

  /** How many DNSSEC calls lie between the server and the configuration. */
  function Distance(z: Zone, config: ZoneModel): nat {
    if !Enabled(config) then (if z.Signed? then 1 else 0)
    else if z.Unsigned? then 1
    else if ServerIdentity(z) != Identity(config) then 2
    else if z.nxProof != Str(BlockOf(config).nxProof) then 1
    else 0
  }

  lemma DistanceZeroIsDeclared(z: Zone, config: ZoneModel)
    ensures Distance(z, config) == 0 <==> Declared(z, config)
  {
  }

  function NextCall(z: Zone, config: ZoneModel): Action {
    if Declared(z, config) then NoAction
    else if !Enabled(config) then Unsign
    else if z.Unsigned? then Sign
    else if ServerIdentity(z) != Identity(config) then Resign
    else ConvertNxProof
  }

  /** What one apply on refreshed state does is what the gate chooses from the server itself. */
  lemma GateOnRefreshed(z: Zone, state: ZoneModel, config: ZoneModel, posture: string)
    requires WellFormed(z) && Applicable(config, state)
    ensures var x := GateInputFromModels(config, ReadZoneState(z, state), posture);
      && Decides(x) && (Enabled(config) ==> PlanValid(x))
      && (Gate(x).errors == [] ==> Gate(x).action == NextCall(z, config))
      && (Distance(z, config) == 0 || (Enabled(config) && Distance(z, config) == 1) ==> Gate(x).errors == [])
  {
    RefreshMirrors(z, state);
  }

  /** With a refresh, every DNSSEC call that gets through brings the server one step nearer,
      whatever else is lost: the distance falls by exactly the number of calls. */
  lemma EveryCallIsProgress(rsa: string, w: World, state: ZoneModel, config: ZoneModel, posture: string, f: Faults)
    requires RsaName(rsa) && WellFormed(w.zone) && Applicable(config, state)
    ensures var a := Apply(rsa, w, ReadZoneState(w.zone, state), config, posture, f);
      && WellFormed(a.world.zone)
      && Distance(a.world.zone, config) + |a.events| == Distance(w.zone, config)
  {
    GateOnRefreshed(w.zone, state, config, posture);
    if Enabled(config) {
      IanaRoundTrip(rsa, Str(BlockOf(config).algorithm), Str(BlockOf(config).curve));
    }
  }

  /** One refresh and failure-free apply of a configuration that is not refused reaches what is
      declared, and the next plan has nothing to do. */
  lemma OneApplyConverges(rsa: string, w: World, state: ZoneModel, config: ZoneModel, posture: string)
    requires RsaName(rsa) && WellFormed(w.zone) && Applicable(config, state)
    requires Gate(GateInputFromModels(config, ReadZoneState(w.zone, state), posture)).errors == []
    ensures var a := Apply(rsa, w, ReadZoneState(w.zone, state), config, posture, NO_FAULTS);
      && a.ok && a.saved.Some? && Declared(a.world.zone, config)
      && Applicable(config, a.saved.value)
      && var next := Gate(GateInputFromModels(config, a.saved.value, posture));
         next.action == NoAction && next.errors == []
  {
    EveryCallIsProgress(rsa, w, state, config, posture, NO_FAULTS);
    GateOnRefreshed(w.zone, state, config, posture);
    if Enabled(config) {
      IanaRoundTrip(rsa, Str(BlockOf(config).algorithm), Str(BlockOf(config).curve));
    }
    var a := Apply(rsa, w, ReadZoneState(w.zone, state), config, posture, NO_FAULTS);
    assert Declared(a.world.zone, config);
    RefreshMirrors(a.world.zone, config);
  }

  /** Cycles of one configuration, each refreshed, with any calls lost. */
  function Retry(rsa: string, w: World, state: ZoneModel, config: ZoneModel, posture: string, fs: seq<Faults>)
    : (r: (World, ZoneModel, nat))
    decreases |fs|
  {
    if fs == [] then (w, state, 0)
    else
      var refreshed := ReadZoneState(w.zone, state);
      var a := Apply(rsa, w, refreshed, config, posture, fs[0]);
      var saved := if a.saved.Some? then a.saved.value else refreshed;
      var (w', state', n) := Retry(rsa, a.world, saved, config, posture, fs[1..]);
      (w', state', |a.events| + n)
  }

  lemma SavedStateStaysApplicable(rsa: string, w: World, state: ZoneModel, config: ZoneModel, posture: string,
        f: Faults)
    requires WellFormed(w.zone) && Applicable(config, state)
    ensures var refreshed := ReadZoneState(w.zone, state);
      var a := Apply(rsa, w, refreshed, config, posture, f);
      Applicable(config, if a.saved.Some? then a.saved.value else refreshed)
  {
  }

  /** However the cycles of one configuration fail, they make at most two DNSSEC calls in all,
      and those made are exactly the distance covered. */
  lemma {:induction false} RetriesAreBounded(rsa: string, w: World, state: ZoneModel, config: ZoneModel,
        posture: string, fs: seq<Faults>)
    requires RsaName(rsa) && WellFormed(w.zone) && Applicable(config, state)
    ensures var (w', state', n) := Retry(rsa, w, state, config, posture, fs);
      && WellFormed(w'.zone) && Applicable(config, state')
      && Distance(w'.zone, config) + n == Distance(w.zone, config) <= 2
    decreases |fs|
  {
    if fs != [] {
      var refreshed := ReadZoneState(w.zone, state);
      var a := Apply(rsa, w, refreshed, config, posture, fs[0]);
      EveryCallIsProgress(rsa, w, state, config, posture, fs[0]);
      SavedStateStaysApplicable(rsa, w, state, config, posture, fs[0]);
      RetriesAreBounded(rsa, a.world, if a.saved.Some? then a.saved.value else refreshed, config, posture, fs[1..]);
    }
  }

  // ---------------------------------------------------------------- a re-sign that breaks half-way

  predicate Breaks(rsa: string, w: World, state: ZoneModel, config: ZoneModel, posture: string, f: Faults) {
    && config.zoneType == "Primary" && w.zone.Signed?
    && Gate(GateInputFromModels(config, state, posture)).action == Resign
    && !f.tsigCheck && !f.options && !f.first && f.second
  }

  /** After it the zone is unsigned, and the next cycle with a refresh selects "sign" whatever
      was saved.  Without a refresh it does so exactly when the recovery read got through;
      otherwise the stale state asks for the same re-sign and the server refuses it. */
  lemma BrokenResignRecovers(rsa: string, w: World, state: ZoneModel, config: ZoneModel, posture: string, f: Faults)
    requires WellFormed(w.zone) && Applicable(config, state)
    requires Breaks(rsa, w, state, config, posture, f)
    ensures var a := Apply(rsa, w, state, config, posture, f);
      var stored := if a.saved.Some? then a.saved.value else state;
      && a.world.zone.Unsigned? && !a.ok
      && Gate(GateInputFromModels(config, ReadZoneState(a.world.zone, stored), posture)).action == Sign
      && (Gate(GateInputFromModels(config, stored, posture)).action == Sign <==> !f.recover)
      && (f.recover ==> Apply(rsa, a.world, stored, config, posture, NO_FAULTS) == Applied(a.world, None, [], false))
  {
    var a := Apply(rsa, w, state, config, posture, f);
    RefreshMirrors(a.world.zone, config);
  }

  // ---------------------------------------------------------------- what the state then holds

  /** The state saved by a converged apply repeats the declared block, except that the curve of
      an RSA zone reads back empty: exactly then it differs from a configuration that has one. */
  lemma SavedBlockIsDeclared(rsa: string, z: Zone, config: ZoneModel)
    requires config.dnssec.Some? && WellFormed(z) && Declared(z, config) && Enabled(config)
    requires ValidPair(config)
    requires var b := config.dnssec.value; b.algorithm.Known? && b.curve.Known? && b.nxProof.Known?
    ensures ReadZoneState(z, config).dnssec == config.dnssec
      <==> config.dnssec.value.algorithm.v != "RSA" || config.dnssec.value.curve.v == ""
  {
    RefreshMirrors(z, config);
    StatusTellsNxProof(z);
    var (a, c) := MapIANAAlgorithmToAPI(z.iana);
    var b := config.dnssec.value;
    ServerPairIsDeclared(a, c, b.algorithm.v, b.curve.v, z.iana);
  }

  /** A pair read back from the server with the identity of a valid pair is that pair. */
  lemma ServerPairIsDeclared(a: string, c: string, algorithm: string, curve: string, iana: string)
    requires (a, c) == MapIANAAlgorithmToAPI(iana)
    requires DnssecIdentityValid(algorithm, curve)
    requires DnssecTargetIdentity(a, c) == DnssecTargetIdentity(algorithm, curve)
    ensures a == algorithm && c == if algorithm == "RSA" then "" else curve
  {
    var t := DnssecTargetIdentity(algorithm, curve);
    assert t[|t| - 1] != '/';
    assert c == "" && a != "RSA" ==> DnssecTargetIdentity(a, c) == a + "/";
    IdentityDeterminesPair(a, c, algorithm, curve);
  }
}
