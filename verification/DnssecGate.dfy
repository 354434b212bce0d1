/** The change gate in front of every DNSSEC transition of a zone.
    internal/provider/zone_dnssec_gate.go */
module DnssecGate {
  import opened Text

  datatype GateInput = GateInput(
    stateSigned: bool, stateAlgorithm: string, stateCurve: string, stateNxProof: string,
    planEnabled: bool, planAlgorithm: string, planCurve: string, planNxProof: string,
    acknowledgment: string, posture: string, isReplace: bool, hasUnknown: bool)

  datatype Action = NoAction | Sign | Unsign | Resign | ConvertNxProof

  datatype GateError = InvalidPair | UnsignNeedsAcknowledgment | ChangeNeedsAcknowledgment

  datatype GateWarning = ChecksDeferred | GoingInsecure | KeysRegenerated | StaleAcknowledgment

  datatype GateResult = GateResult(action: Action, errors: seq<GateError>, warnings: seq<GateWarning>)

  /** The algorithm and curve pairs the server can honour. */
  predicate DnssecIdentityValid(algorithm: string, curve: string) {
    match algorithm
    case "ECDSA" => curve == "P256" || curve == "P384"
    case "EDDSA" => curve == "ED25519" || curve == "ED448"
    case "RSA" => true
    case _ => false
  }

  function DnssecTargetIdentity(algorithm: string, curve: string): string {
    if algorithm == "RSA" then "RSA" else algorithm + "/" + curve
  }

  predicate IdentityChanges(x: GateInput) {
    DnssecTargetIdentity(x.planAlgorithm, x.planCurve) != DnssecTargetIdentity(x.stateAlgorithm, x.stateCurve)
  }

  predicate PlanValid(x: GateInput) {
    DnssecIdentityValid(x.planAlgorithm, x.planCurve)
  }

  /** The operator consents to the transition the plan asks of a signed zone. */
  predicate Consents(x: GateInput) {
    if x.planEnabled then x.acknowledgment == DnssecTargetIdentity(x.planAlgorithm, x.planCurve)
    else x.posture == "strict" ==> x.acknowledgment == "unsigned"
  }

  predicate Decides(x: GateInput) {
    !x.isReplace && !x.hasUnknown
  }

  /** Why a plan is refused. */
  function Refusal(x: GateInput): Option<GateError> {
    if !Decides(x) then None
    else if x.planEnabled && (!x.stateSigned || IdentityChanges(x)) && !PlanValid(x) then Some(InvalidPair)
    else if x.stateSigned && x.planEnabled && IdentityChanges(x) && !Consents(x) then Some(ChangeNeedsAcknowledgment)
    else if x.stateSigned && !x.planEnabled && !Consents(x) then Some(UnsignNeedsAcknowledgment)
    else None
  }

  /** The one action a plan that is not refused leads to. */
  function Chosen(x: GateInput): Action {
    if !Decides(x) || Refusal(x).Some? || (!x.stateSigned && !x.planEnabled) then NoAction
    else if !x.stateSigned then Sign
    else if !x.planEnabled then Unsign
    else if IdentityChanges(x) then Resign
    else if x.planNxProof != x.stateNxProof then ConvertNxProof
    else NoAction
  }

  function Announced(x: GateInput): seq<GateWarning> {
    if x.isReplace then []
    else if x.hasUnknown then (if x.stateSigned then [ChecksDeferred] else [])
    else
      (match Chosen(x)
       case Unsign => [GoingInsecure]
       case Resign => [KeysRegenerated]
       case _ => [])
      + (if x.acknowledgment == "unsigned" && Chosen(x) != Unsign && x.posture != "silent" then [StaleAcknowledgment]
         else [])
  }

  function Gate(x: GateInput): GateResult {
    GateResult(Chosen(x), match Refusal(x) case Some(e) => [e] case None => [], Announced(x))
  }

  /** The gate as it is evaluated, rule by rule. */
  method EvaluateDNSSECGate(x: GateInput) returns (res: GateResult)
    ensures res == Gate(x)
  {
    res := GateResult(NoAction, [], []);
    if x.isReplace {
      return;
    }
    if x.hasUnknown {
      if x.stateSigned {
        res := res.(warnings := res.warnings + [ChecksDeferred]);
      }
      return;
    }
    if !x.stateSigned && x.planEnabled {
      if !DnssecIdentityValid(x.planAlgorithm, x.planCurve) {
        res := res.(errors := res.errors + [InvalidPair]);
      } else {
        res := res.(action := Sign);
      }
    } else if !x.stateSigned && !x.planEnabled {
      res := res.(action := NoAction);
    } else if x.stateSigned && !x.planEnabled {
      if x.posture == "strict" && x.acknowledgment != "unsigned" {
        res := res.(errors := res.errors + [UnsignNeedsAcknowledgment]);
      } else {
        res := res.(action := Unsign, warnings := res.warnings + [GoingInsecure]);
      }
    } else {
      var target := DnssecTargetIdentity(x.planAlgorithm, x.planCurve);
      var algoChanged := target != DnssecTargetIdentity(x.stateAlgorithm, x.stateCurve);
      var nxChanged := x.planNxProof != x.stateNxProof;
      if algoChanged {
        if !DnssecIdentityValid(x.planAlgorithm, x.planCurve) {
          res := res.(errors := res.errors + [InvalidPair]);
        } else if x.acknowledgment == target {
          res := res.(action := Resign, warnings := res.warnings + [KeysRegenerated]);
        } else {
          res := res.(errors := res.errors + [ChangeNeedsAcknowledgment]);
        }
      } else if nxChanged {
        res := res.(action := ConvertNxProof);
      } else {
        res := res.(action := NoAction);
      }
    }
    if x.acknowledgment == "unsigned" && res.action != Unsign && x.posture != "silent" {
      res := res.(warnings := res.warnings + [StaleAcknowledgment]);
    }
  }

  // ---------------------------------------------------------------- what the gate guarantees

  /** No identity, valid or not, reads "unsigned". */
  lemma NoIdentityIsUnsigned(algorithm: string, curve: string)
    ensures DnssecTargetIdentity(algorithm, curve) != "unsigned"
  {
    var t := DnssecTargetIdentity(algorithm, curve);
    if algorithm == "RSA" {
      assert t[0] == 'R';
    } else {
      assert t[|algorithm|] == '/';
    }
  }

  /** A zone is signed, first or again, only with a pair the server can honour. */
  lemma SignsOnlyValidPairs(x: GateInput)
    ensures Gate(x).action.Sign? || Gate(x).action.Resign? ==> DnssecIdentityValid(x.planAlgorithm, x.planCurve)
  {
  }

  /** A plan that replaces the zone, or has a value that is not known yet, leads to no action and no
      error; only the latter is announced, and only for a signed zone. */
  lemma UndecidedDoesNothing(x: GateInput)
    requires x.isReplace || x.hasUnknown
    ensures Gate(x) == GateResult(NoAction, [], if !x.isReplace && x.stateSigned then [ChecksDeferred] else [])
  {
  }

  /** The errors of a decided plan, for each state, plan and identity: none to stay unsigned or to keep
      the identity, whatever the rest; an unsign needs "unsigned" under strict; a new identity needs a
      valid pair and, on a signed zone, its own name as the acknowledgment. */
  lemma RefusesExactly(x: GateInput)
    requires !x.isReplace && !x.hasUnknown
    ensures var valid := DnssecIdentityValid(x.planAlgorithm, x.planCurve);
      var target := DnssecTargetIdentity(x.planAlgorithm, x.planCurve);
      var same := target == DnssecTargetIdentity(x.stateAlgorithm, x.stateCurve);
      Gate(x).errors ==
        match (x.stateSigned, x.planEnabled)
        case (false, false) => []
        case (false, true) => if valid then [] else [InvalidPair]
        case (true, false) =>
          if x.posture != "strict" || x.acknowledgment == "unsigned" then [] else [UnsignNeedsAcknowledgment]
        case (true, true) =>
          if same then [] else if !valid then [InvalidPair]
          else if x.acknowledgment == target then [] else [ChangeNeedsAcknowledgment]
  {
  }

  /** A zone as far as the gate looks at it; an unsigned one has no identity and no proof. */
  datatype Signing = Plain | SignedAs(identity: string, nxProof: string)

  function SigningOf(signed: bool, algorithm: string, curve: string, nxProof: string): Signing {
    if signed then SignedAs(DnssecTargetIdentity(algorithm, curve), nxProof) else Plain
  }

  /** What an action makes of a zone, given what is planned. */
  function Afterwards(zone: Signing, action: Action, planned: Signing): Signing {
    match action
    case NoAction => zone
    case Unsign => Plain
    case ConvertNxProof => if zone.SignedAs? && planned.SignedAs? then zone.(nxProof := planned.nxProof) else zone
    case Sign | Resign => planned
  }

  /** An action that costs the zone its keys. */
  predicate TakesKeys(action: Action) {
    action.Unsign? || action.Resign?
  }

  /** The action of a decided plan that is not refused takes the zone of the state to the planned one; it
      is an action only if the two differ, and takes keys only if the plan is unsigned or of another
      identity. */
  lemma ActionReachesThePlan(x: GateInput)
    requires !x.isReplace && !x.hasUnknown && Gate(x).errors == []
    ensures var zone := SigningOf(x.stateSigned, x.stateAlgorithm, x.stateCurve, x.stateNxProof);
      var planned := SigningOf(x.planEnabled, x.planAlgorithm, x.planCurve, x.planNxProof);
      && Afterwards(zone, Gate(x).action, planned) == planned
      && (Gate(x).action.NoAction? <==> zone == planned)
      && (TakesKeys(Gate(x).action) <==>
            zone.SignedAs? && (planned.Plain? || planned.identity != zone.identity))
  {
  }

  /** The warnings of a decided plan: each action that takes keys has its own, and an "unsigned" that
      unsigns nothing is called stale unless the posture is silent. */
  lemma WarnsExactly(x: GateInput)
    requires !x.isReplace && !x.hasUnknown
    ensures var g := Gate(x);
      && (GoingInsecure in g.warnings <==> g.errors == [] && x.stateSigned && !x.planEnabled)
      && (KeysRegenerated in g.warnings <==> g.errors == [] && x.stateSigned && x.planEnabled && IdentityChanges(x))
      && (StaleAcknowledgment in g.warnings <==>
            && x.acknowledgment == "unsigned" && x.posture != "silent"
            && !(x.stateSigned && !x.planEnabled))
      && ChecksDeferred !in g.warnings && |g.warnings| <= 2
  {
  }

  /** "unsigned" is never consent to a re-sign, and a refused plan does nothing. */
  lemma UnsignedNeverResigns(x: GateInput)
    ensures x.acknowledgment == "unsigned" ==> Gate(x).action != Resign
    ensures Gate(x).errors != [] ==> Gate(x).action == NoAction
  {
    NoIdentityIsUnsigned(x.planAlgorithm, x.planCurve);
  }

  /** A valid pair is determined by its identity, the vestigial RSA curve apart, so consent to
      one identity is never consent to another. */
  lemma IdentityDeterminesPair(a: string, c: string, a': string, c': string)
    requires DnssecIdentityValid(a, c) && DnssecIdentityValid(a', c')
    requires DnssecTargetIdentity(a, c) == DnssecTargetIdentity(a', c')
    ensures a == a' && (a == "RSA" || c == c')
  {
    var t := DnssecTargetIdentity(a, c);
    assert t[0] == a[0] && t[1] == a[1] && t[0] == a'[0] && t[1] == a'[1];
    if a != "RSA" {
      assert c == t[6..] && c' == t[6..];
    }
  }
}
