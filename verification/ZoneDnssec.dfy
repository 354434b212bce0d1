/** DNSSEC of a Primary zone: the server's signing steps, the gate-driven update of the zone
    resource, and its read-back through IANA algorithm names.
    internal/provider/zone_resource.go, internal/client/zones.go */
module ZoneDnssec {
  import opened Text
  import opened DnssecGate

  // ---------------------------------------------------------------- server

  /** keys names the generation of signing keys; the algorithm is kept by its IANA name. */
  datatype Zone = Unsigned | Signed(iana: string, nxProof: string, keys: nat)

  datatype World = World(zone: Zone, nextKeys: nat)

  predicate NxProofKnown(nxProof: string) {
    nxProof == "NSEC" || nxProof == "NSEC3"
  }

  predicate WellFormed(z: Zone) {
    z.Signed? ==> NxProofKnown(z.nxProof)
  }

  /** rsa is the name the server gives to the RSA algorithm it picks. */
  predicate RsaName(rsa: string) {
    "RSA" <= rsa
  }

  function IanaName(rsa: string, algorithm: string, curve: string): string {
    if algorithm == "RSA" then rsa
    else match curve
      case "P256" => "ECDSAP256SHA256"
      case "P384" => "ECDSAP384SHA384"
      case _ => curve
  }

  /** Signs an unsigned zone with new keys; a pair it cannot honour is refused. */
  function SignStep(w: World, rsa: string, algorithm: string, curve: string, nxProof: string): Option<World> {
    if w.zone.Signed? || !DnssecIdentityValid(algorithm, curve) || !NxProofKnown(nxProof) then None
    else Some(World(Signed(IanaName(rsa, algorithm, curve), nxProof, w.nextKeys), w.nextKeys + 1))
  }

  function UnsignStep(w: World): Option<World> {
    if w.zone.Unsigned? then None else Some(w.(zone := Unsigned))
  }

  /** Converts in place: the keys stay. */
  function ConvertStep(w: World, nxProof: string): Option<World> {
    if w.zone.Unsigned? || !NxProofKnown(nxProof) then None else Some(w.(zone := w.zone.(nxProof := nxProof)))
  }

  function DnssecStatus(z: Zone): string {
    if z.Unsigned? then "Unsigned" else "SignedWith" + z.nxProof
  }

  // ---------------------------------------------------------------- models

  datatype DnssecBlock = DnssecBlock(
    enabled: Tf<bool>, algorithm: Tf<string>, curve: Tf<string>, nxProof: Tf<string>, acknowledgment: Tf<string>)

  /** The parts of the zone resource that DNSSEC depends on. */
  datatype ZoneModel = ZoneModel(name: string, zoneType: string, dnssecStatus: string, dnssec: Option<DnssecBlock>)

  function MapIANAAlgorithmToAPI(iana: string): (string, string) {
    match iana
    case "ECDSAP256SHA256" => ("ECDSA", "P256")
    case "ECDSAP384SHA384" => ("ECDSA", "P384")
    case "ED25519" => ("EDDSA", "ED25519")
    case "ED448" => ("EDDSA", "ED448")
    case _ => (if "RSA" <= iana then "RSA" else iana, "")
  }

  const EMPTY_BLOCK := DnssecBlock(Null, Null, Null, Null, Null)

  /** readZoneState: a signed zone overwrites all but the acknowledgment; an unsigned one only
      clears the enabled flag of a block that is there. */
  function ReadZoneState(z: Zone, m: ZoneModel): ZoneModel {
    var status := DnssecStatus(z);
    var block := if m.dnssec.Some? then m.dnssec.value else EMPTY_BLOCK;
    if z.Signed? then
      var (algorithm, curve) := MapIANAAlgorithmToAPI(z.iana);
      m.(dnssecStatus := status,
         dnssec := Some(block.(enabled := Known(true), algorithm := Known(algorithm), curve := Known(curve),
                               nxProof := Known(if Index(status, "NSEC3") >= 0 then "NSEC3" else "NSEC"))))
    else
      m.(dnssecStatus := status,
         dnssec := if m.dnssec.Some? then Some(block.(enabled := Known(false))) else None)
  }

  function GateInputFromModels(plan: ZoneModel, state: ZoneModel, posture: string): GateInput {
    var s := if state.dnssec.Some? then state.dnssec.value else EMPTY_BLOCK;
    var p := if plan.dnssec.Some? then plan.dnssec.value else EMPTY_BLOCK;
    GateInput(
      state.dnssecStatus != "" && state.dnssecStatus != "Unsigned",
      Str(s.algorithm), Str(s.curve), Str(s.nxProof),
      Bool(p.enabled), Str(p.algorithm), Str(p.curve), Str(p.nxProof), Str(p.acknowledgment), posture,
      !EqualFold(plan.name, state.name) || plan.zoneType != state.zoneType,
      p.enabled.Unknown? || p.algorithm.Unknown? || p.curve.Unknown? || p.nxProof.Unknown? || p.acknowledgment.Unknown?)
  }

  // ---------------------------------------------------------------- update

  datatype Event = DidSign | DidUnsign | DidConvert

  /** Which calls of an update are lost.  first and second are the DNSSEC calls, recover the
      read after a re-sign that broke half-way. */
  datatype Faults = Faults(
    tsigCheck: bool, options: bool, first: bool, second: bool, recover: bool, soa: bool, readBack: bool)

  const NO_FAULTS := Faults(false, false, false, false, false, false, false)

  /** saved is the state to persist, None when the prior state stays; ok means no error. */
  datatype Applied = Applied(world: World, saved: Option<ZoneModel>, events: seq<Event>, ok: bool)

  datatype Dispatched = Dispatched(world: World, events: seq<Event>, outcome: Outcome)

  datatype Outcome = Fine | Stopped | Broken

  function Attempt(w: World, lost: bool, step: Option<World>, e: Event): Dispatched {
    if lost || step.None? then Dispatched(w, [], Stopped) else Dispatched(step.value, [e], Fine)
  }

  function SignPlan(w: World, rsa: string, p: DnssecBlock): Option<World> {
    SignStep(w, rsa, Str(p.algorithm), Str(p.curve), Str(p.nxProof))
  }

  function Dispatch(rsa: string, w: World, p: DnssecBlock, action: Action, f: Faults): Dispatched {
    match action
    case NoAction => Dispatched(w, [], Fine)
    case Sign => Attempt(w, f.first, SignPlan(w, rsa, p), DidSign)
    case Unsign => Attempt(w, f.first, UnsignStep(w), DidUnsign)
    case ConvertNxProof => Attempt(w, f.first, ConvertStep(w, Str(p.nxProof)), DidConvert)
    case Resign =>
      var d := Attempt(w, f.first, UnsignStep(w), DidUnsign);
      if !d.outcome.Fine? then d
      else
        var e := Attempt(d.world, f.second, SignPlan(d.world, rsa, p), DidSign);
        Dispatched(e.world, d.events + e.events, if e.outcome.Fine? then Fine else Broken)
  }

  /** The update of the zone resource. */
  function Apply(rsa: string, w: World, state: ZoneModel, plan: ZoneModel, posture: string, f: Faults): Applied {
    var g := Gate(GateInputFromModels(plan, state, posture));
    var primary := plan.zoneType == "Primary";
    if f.tsigCheck || (primary && g.errors != []) || f.options then Applied(w, None, [], false)
    else
      var p := if plan.dnssec.Some? then plan.dnssec.value else EMPTY_BLOCK;
      var d := if primary then Dispatch(rsa, w, p, g.action, f) else Dispatched(w, [], Fine);
      match d.outcome
      case Stopped => Applied(d.world, None, d.events, false)
      case Broken =>
        Applied(d.world, if f.recover then None else Some(ReadZoneState(d.world.zone, plan)), d.events, false)
      case Fine =>
        if f.soa || f.readBack then Applied(d.world, None, d.events, false)
        else Applied(d.world, Some(ReadZoneState(d.world.zone, plan)), d.events, true)
  }

  class ZoneServer {
    const rsa: string
    var world: World
    var events: seq<Event>

    constructor (rsa: string, world: World)
      ensures this.rsa == rsa && this.world == world && events == []
    {
      this.rsa, this.world, this.events := rsa, world, [];
    }

    /** One DNSSEC call: an error has had no effect. */
    method Call(step: Option<World>, e: Event, lost: bool) returns (ok: bool)
      modifies this`world, this`events
      ensures var d := Attempt(old(world), lost, step, e);
        world == d.world && events == old(events) + d.events && ok == d.outcome.Fine?
    {
      ok := !lost && step.Some?;
      if ok {
        world, events := step.value, events + [e];
      }
    }
  }

  class ZoneResource {
    const server: ZoneServer
    const posture: string

    constructor (server: ZoneServer, posture: string)
      ensures this.server == server && this.posture == posture
    {
      this.server, this.posture := server, posture;
    }

    /** The DNSSEC calls of one update. */
    method DispatchAction(action: Action, p: DnssecBlock, f: Faults) returns (outcome: Outcome)
      modifies server`world, server`events
      ensures var d := Dispatch(server.rsa, old(server.world), p, action, f);
        server.world == d.world && server.events == old(server.events) + d.events && outcome == d.outcome
    {
      var done := true;
      match action {
        case NoAction =>
        case Sign =>
          done := server.Call(SignPlan(server.world, server.rsa, p), DidSign, f.first);
        case Unsign =>
          done := server.Call(UnsignStep(server.world), DidUnsign, f.first);
        case ConvertNxProof =>
          done := server.Call(ConvertStep(server.world, Str(p.nxProof)), DidConvert, f.first);
        case Resign =>
          done := server.Call(UnsignStep(server.world), DidUnsign, f.first);
          if done {
            var signed := server.Call(SignPlan(server.world, server.rsa, p), DidSign, f.second);
            if !signed {
              return Broken;
            }
          }
      }
      return if done then Fine else Stopped;
    }

    /** Gate first, then options, then the action the gate chose, then the read-back. */
    method Update(plan: ZoneModel, state: ZoneModel, f: Faults) returns (saved: Option<ZoneModel>, ok: bool)
      modifies server`world, server`events
      ensures var a := Apply(server.rsa, old(server.world), state, plan, posture, f);
        && server.world == a.world
        && server.events == old(server.events) + a.events
        && saved == a.saved && ok == a.ok
    {
      saved, ok := None, false;
      if f.tsigCheck {
        return;
      }
      var gateRes := EvaluateDNSSECGate(GateInputFromModels(plan, state, posture));
      var primary := plan.zoneType == "Primary";
      if primary && |gateRes.errors| > 0 {
        return;
      }
      if f.options {
        return;
      }
      if primary {
        var p := if plan.dnssec.Some? then plan.dnssec.value else EMPTY_BLOCK;
        var outcome := DispatchAction(gateRes.action, p, f);
        if outcome.Broken? && !f.recover {
          saved := Some(ReadZoneState(server.world.zone, plan));
        }
        if !outcome.Fine? {
          return;
        }
      }
      if f.soa || f.readBack {
        return;
      }
      return Some(ReadZoneState(server.world.zone, plan)), true;
    }
  }
}
