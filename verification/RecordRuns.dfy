/** What the guarded record operations keep, alone and over whole runs, and why the guard
    has to be there. */
module RecordRuns {
  import opened Text
  import opened RecordServer
  import opened RecordResource

  // ---------------------------------------------------------------- one record at a time

  /** A sent update changes the record in state and no other: nothing moves, nothing else
      takes a new value. */
  lemma UpdateTouchesOneRecord(rules: Rules, zone: bool, recs: seq<Record>,
                               state: RecordModel, plan: RecordModel, f: Faults)
    ensures var after := UpdateEffect(rules, zone, recs, state, plan, f);
      && |after| == |recs|
      && (forall i :: 0 <= i < |recs| && !Matches(recs[i], ModelKey(state)) ==> after[i] == recs[i])
      && (forall i, j :: 0 <= i < j < |recs| && after[i] != recs[i] ==> after[j] == recs[j])
  {
    var after := UpdateEffect(rules, zone, recs, state, plan, f);
    forall i, j | 0 <= i < j < |recs| && after[i] != recs[i] ensures after[j] == recs[j] {
      AtMostOneMatch(recs, ModelKey(state), i, j);
    }
  }

  lemma AtMostOneMatch(recs: seq<Record>, k: Key, i: nat, j: nat)
    requires i < j < |recs| && Count(recs, k) <= 1 && Matches(recs[i], k)
    ensures !Matches(recs[j], k)
  {
    var f := FirstMatch(recs, k);
    CountAround(recs, k);
    CountZero(recs[f + 1..], k);
    assert recs[j] == recs[f + 1..][j - f - 1];
    if i > f {
      assert recs[i] == recs[f + 1..][i - f - 1];
    }
  }

  /** A delete cuts out the record in state, if there is one, and leaves the others in order. */
  lemma DeleteCutsOneRecord(zone: bool, recs: seq<Record>, state: RecordModel, f: Faults)
    ensures var after := DeleteEffect(zone, recs, state, f);
      var i := FirstMatch(recs, ModelKey(state));
      if zone && !f.write && DeleteSends(zone, recs, state, f) && i < |recs|
      then after == recs[..i] + recs[i + 1..] else after == recs
  {
    if zone && DeleteSends(zone, recs, state, f) {
      WithoutAtMostOne(recs, ModelKey(state));
    }
  }

  /** When two records match, neither an update nor a delete reaches a live server. */
  lemma AmbiguousIsNeverSent(recs: seq<Record>, state: RecordModel, plan: RecordModel, f: Faults, i: nat, j: nat)
    requires i < j < |recs| && Matches(recs[i], ModelKey(state)) && Matches(recs[j], ModelKey(state))
    ensures !UpdateSends(true, recs, state, plan, f) && !DeleteSends(true, recs, state, f)
  {
    if Count(recs, ModelKey(state)) <= 1 {
      AtMostOneMatch(recs, ModelKey(state), i, j);
    }
  }

  /** The guard lets an update pass exactly when the record in state is the only one of its key and, to a
      new key, no record but that one goes by it. */
  lemma GuardPassesExactly(recs: seq<Record>, state: RecordModel, plan: RecordModel)
    ensures var k := ModelKey(state);
      GuardPasses(recs, state, plan) <==>
        && (forall i, j :: 0 <= i < j < |recs| && Matches(recs[i], k) ==> !Matches(recs[j], k))
        && (forall j :: 0 <= j < |recs| && Matches(recs[j], ModelKey(plan)) ==> Matches(recs[j], k))
  {
    var k := ModelKey(state);
    CountZero(recs, ModelKey(plan));
    if Count(recs, k) <= 1 {
      forall i, j | 0 <= i < j < |recs| && Matches(recs[i], k) ensures !Matches(recs[j], k) {
        AtMostOneMatch(recs, k, i, j);
      }
    } else {
      var f := FirstMatch(recs, k);
      CountAround(recs, k);
      CountZero(recs[f + 1..], k);
      var j :| 0 <= j < |recs[f + 1..]| && Matches(recs[f + 1..][j], k);
      assert Matches(recs[f], k) && Matches(recs[f + 1 + j], k);
    }
  }

  // ---------------------------------------------------------------- values an update must not lose

  /** An in-place update (dnssec_validation cannot change in place) of the record the server takes
      for the one in state keeps its validation flag exactly when it is the flag in state, an
      untracked flag being false. */
  lemma ValidationKept(rules: Rules, recs: seq<Record>, state: RecordModel, plan: RecordModel, f: Faults, i: nat)
    requires i < |recs| && Matches(recs[i], ModelKey(state))
    requires plan.dnssecValidation == state.dnssecValidation
    requires UpdateSends(true, recs, state, plan, f) && !f.write
    ensures UpdateEffect(rules, true, recs, state, plan, f)[i].dnssec == recs[i].dnssec
      <==> Bool(state.dnssecValidation) == recs[i].dnssec
  {
  }

  /** recs[i] is the record in state, and the guard lets an update of it pass. */
  predicate Updatable(recs: seq<Record>, state: RecordModel, plan: RecordModel, i: nat) {
    && i < |recs| && Matches(recs[i], ModelKey(state)) && RecordMatchesState(recs[i], state)
    && GuardPasses(recs, state, plan)
  }

  ghost predicate ValidationSafe(rules: Rules, state: RecordModel, plan: RecordModel, comments: string) {
    forall recs: seq<Record>, i: nat :: Unique(recs) && Updatable(recs, state, plan, i) ==>
      Replaced(rules, recs, state, plan, comments)[i].dnssec == recs[i].dnssec
  }

  /** A record with everything the state says of it. */
  function Witness(state: RecordModel, dnssec: bool, protocol: string, comments: string): Record {
    Record("FWD", state.value, if state.protocol.Null? then protocol else Str(state.protocol),
           Int(state.forwarderPriority), if state.dnssecValidation.Null? then dnssec else Bool(state.dnssecValidation),
           comments)
  }

  lemma OneRecord(rec: Record)
    ensures Unique([rec])
    ensures forall k: Key :: Count([rec], k) == if Matches(rec, k) then 1 else 0
  {
    assert [rec][1..] == [];
  }

  /** Of records that still are as the state says, no update that leaves the flag alone loses it,
      exactly when the state tracks the flag. */
  lemma TrackingKeepsValidation(rules: Rules, state: RecordModel, plan: RecordModel, comments: string)
    requires plan.dnssecValidation == state.dnssecValidation
    ensures ValidationSafe(rules, state, plan, comments) <==> !state.dnssecValidation.Null?
  {
    if state.dnssecValidation.Null? {
      var recs := [Witness(state, true, "Udp", "")];
      assert Lower("Udp") == "udp";
      OneRecord(recs[0]);
      assert Updatable(recs, state, plan, 0);
      assert Replaced(rules, recs, state, plan, comments)[0].dnssec != recs[0].dnssec;
    }
  }

  /** A flag changed behind the state's back is set back to the state's. */
  lemma StaleValidationIsReset(rules: Rules)
    ensures var rec := Record("FWD", "9.9.9.9", "Udp", 0, true, "");
      var state := RecordModel("9.9.9.9", Known("Udp"), Known(0), Known(false), false, Known(""));
      var f := Faults(false, false, false, false);
      && UpdateSends(true, [rec], state, state, f)
      && !UpdateEffect(rules, true, [rec], state, state, f)[0].dnssec
  {
    var rec := Record("FWD", "9.9.9.9", "Udp", 0, true, "");
    var state := RecordModel("9.9.9.9", Known("Udp"), Known(0), Known(false), false, Known(""));
    OneRecord(rec);
    assert Matches(rec, ModelKey(state));
    assert Replaced(rules, [rec], state, state, "")[0] == ReplacedRecord(rules, rec, state, state, "");
  }

  /** With the protocol in state, the lookup by state finds the record the server finds by key, or,
      if that is no longer as the state says, none. */
  lemma TrackedLookup(recs: seq<Record>, state: RecordModel, i: nat)
    requires i < |recs| && Matches(recs[i], ModelKey(state)) && Count(recs, ModelKey(state)) <= 1
    requires !state.protocol.Null?
    ensures FirstMatch(recs, ModelKey(state)) == i
    ensures FirstStateMatch(recs, state) == if RecordMatchesState(recs[i], state) then i else |recs|
  {
    var s, f := FirstStateMatch(recs, state), FirstMatch(recs, ModelKey(state));
    if f < i { AtMostOneMatch(recs, ModelKey(state), f, i); }
    if s < i { AtMostOneMatch(recs, ModelKey(state), s, i); }
    if i < s < |recs| { AtMostOneMatch(recs, ModelKey(state), i, s); }
  }

  /** With the protocol in state, an update whose plan leaves the comment out keeps the one on the
      server exactly when the record still is as the state says, or there is none to lose. */
  lemma CommentKept(rules: Rules, recs: seq<Record>, state: RecordModel, plan: RecordModel, f: Faults, i: nat)
    requires i < |recs| && Matches(recs[i], ModelKey(state)) && !state.protocol.Null?
    requires !plan.comments.Known?
    requires UpdateSends(true, recs, state, plan, f) && !f.write
    ensures UpdateEffect(rules, true, recs, state, plan, f)[i].comments == recs[i].comments
      <==> RecordMatchesState(recs[i], state) || recs[i].comments == ""
  {
    TrackedLookup(recs, state, i);
  }

  /** The state has an older priority than the server and, like one written before comments were
      kept, no comment; the plan has it unknown.  The record is found by key and updated, but not
      found by state, so that its comment is erased. */
  lemma StaleStateErasesTheComment(rules: Rules)
    ensures var rec := Record("FWD", "9.9.9.9", "Udp", 2, false, "note");
      var state := RecordModel("9.9.9.9", Known("Udp"), Known(1), Null, false, Null);
      var plan := state.(comments := Unknown);
      var f := Faults(false, false, false, false);
      && UpdateSends(true, [rec], state, plan, f)
      && UpdateEffect(rules, true, [rec], state, plan, f)[0].comments == ""
  {
    var rec := Record("FWD", "9.9.9.9", "Udp", 2, false, "note");
    var state := RecordModel("9.9.9.9", Known("Udp"), Known(1), Null, false, Null);
    var plan := state.(comments := Unknown);
    OneRecord(rec);
    assert Matches(rec, ModelKey(state));
    TrackedLookup([rec], state, 0);
    assert Replaced(rules, [rec], state, plan, "")[0] == ReplacedRecord(rules, rec, state, plan, "");
  }

  ghost predicate CommentSafe(rules: Rules, state: RecordModel, plan: RecordModel) {
    forall recs: seq<Record>, i: nat :: Unique(recs) && Updatable(recs, state, plan, i) ==>
      Replaced(rules, recs, state, plan, StateComments(recs, state))[i].comments == recs[i].comments
  }

  /** Of records that still are as the state says, no update loses the comment, exactly when the
      protocol is in state: the key reads a null protocol as Udp, but the lookup by state reads it
      as any protocol, and so finds another record's comment. */
  lemma TrackingKeepsTheComment(rules: Rules, state: RecordModel, plan: RecordModel)
    ensures CommentSafe(rules, state, plan) <==> !state.protocol.Null?
  {
    if state.protocol.Null? {
      UntrackedProtocolTakesAnothersComment(rules, state, plan);
    } else {
      forall recs: seq<Record>, i: nat | Unique(recs) && Updatable(recs, state, plan, i)
        ensures Replaced(rules, recs, state, plan, StateComments(recs, state))[i].comments == recs[i].comments
      {
        TrackedLookup(recs, state, i);
      }
    }
  }

  /** A protocol that neither an untracked state nor the plan goes by. */
  function OtherProtocol(state: RecordModel, plan: RecordModel): (p: string)
    ensures p != "" && Lower(p) != "udp" && FwdKey(state.value, p) != ModelKey(plan)
  {
    assert Lower("Tcp")[1] == 'c' && Lower("Tls")[1] == 'l' && "udp"[1] == 'd';
    if FwdKey(state.value, "Tcp") != ModelKey(plan) then "Tcp" else "Tls"
  }

  /** Two records as the state says: the comment of the first is written onto the second. */
  lemma UntrackedProtocolTakesAnothersComment(rules: Rules, state: RecordModel, plan: RecordModel)
    requires state.protocol.Null?
    ensures var recs := [Witness(state, false, OtherProtocol(state, plan), "of the other record"),
                         Witness(state, false, "Udp", "")];
      && Unique(recs) && Updatable(recs, state, plan, 1)
      && Replaced(rules, recs, state, plan, StateComments(recs, state))[1].comments == "of the other record"
  {
    var a := Witness(state, false, OtherProtocol(state, plan), "of the other record");
    var b := Witness(state, false, "Udp", "");
    var recs := [a, b];
    assert Lower("Udp") == "udp";
    TwoRecords(a, b);
    assert KeyOf(a) != KeyOf(b) == ModelKey(state);
    assert FirstStateMatch(recs, state) == 0;
  }

  lemma TwoRecords(a: Record, b: Record)
    requires KeyOf(a) != KeyOf(b)
    ensures Unique([a, b])
    ensures forall k: Key :: Count([a, b], k) == Hit(a, k) + Hit(b, k)
  {
    OneRecord(b);
    assert [a, b][1..] == [b];
  }

  // ---------------------------------------------------------------- runs

  /** One provider operation, with any plan, any state and any calls lost. */
  datatype Op =
    | Create(plan: RecordModel, f: Faults)
    | Update(state: RecordModel, plan: RecordModel, f: Faults)
    | Delete(state: RecordModel, f: Faults)

  function Step(rules: Rules, zone: bool, recs: seq<Record>, op: Op): seq<Record> {
    match op
    case Create(plan, f) => CreateEffect(zone, recs, plan, f)
    case Update(state, plan, f) => UpdateEffect(rules, zone, recs, state, plan, f)
    case Delete(state, f) => DeleteEffect(zone, recs, state, f)
  }

  function Run(rules: Rules, zone: bool, recs: seq<Record>, ops: seq<Op>): seq<Record>
    decreases |ops|
  {
    if ops == [] then recs else Run(rules, zone, Step(rules, zone, recs, ops[0]), ops[1..])
  }

  /** The key an update gives to the records with the key in state. */
  function TargetKey(rules: Rules, state: RecordModel, plan: RecordModel): Key {
    if plan.protocol.Null? && rules.keepsOmittedProtocol then FwdKey(plan.value, Str(state.protocol))
    else ModelKey(plan)
  }

  lemma PlannedKey(rules: Rules, prior: Record, state: RecordModel, plan: RecordModel, comments: string)
    requires Matches(prior, ModelKey(state))
    ensures KeyOf(Planned(rules, prior, state, plan, comments)) == TargetKey(rules, state, plan)
  {
    assert Lower("Udp") == "udp";
  }

  /** Replacing moves the matches from the key in state to the planned key. */
  lemma {:induction false} CountReplaced(rules: Rules, recs: seq<Record>, state: RecordModel, plan: RecordModel,
                                         comments: string, k: Key)
    ensures Count(Replaced(rules, recs, state, plan, comments), k) ==
      (if k == ModelKey(state) then 0 else Count(recs, k)) +
      (if k == TargetKey(rules, state, plan) then Count(recs, ModelKey(state)) else 0)
  {
    if recs != [] {
      CountReplaced(rules, recs[1..], state, plan, comments, k);
      if Matches(recs[0], ModelKey(state)) {
        PlannedKey(rules, recs[0], state, plan, comments);
      }
      var head := ReplacedRecord(rules, recs[0], state, plan, comments);
      var rest := Replaced(rules, recs[1..], state, plan, comments);
      assert ([head] + rest)[1..] == rest;
    }
  }

  /** The guard is enough when the planned key is the one it looked for, or the key in state. */
  lemma UpdateKeepsUnique(rules: Rules, recs: seq<Record>, state: RecordModel, plan: RecordModel, comments: string)
    requires TargetKey(rules, state, plan) == ModelKey(plan) || TargetKey(rules, state, plan) == ModelKey(state)
    requires Unique(recs) && GuardPasses(recs, state, plan)
    ensures Unique(Replaced(rules, recs, state, plan, comments))
  {
    forall k: Key ensures Count(Replaced(rules, recs, state, plan, comments), k) <= 1 {
      CountReplaced(rules, recs, state, plan, comments, k);
    }
  }

  lemma {:induction false} CountWithout(recs: seq<Record>, k: Key, other: Key)
    ensures Count(Without(recs, k), other) == if other == k then 0 else Count(recs, other)
  {
    if recs != [] {
      CountWithout(recs[1..], k, other);
      CountConcat(if Matches(recs[0], k) then [] else [recs[0]], Without(recs[1..], k), other);
    }
  }

  lemma CreateKeepsUnique(zone: bool, recs: seq<Record>, plan: RecordModel, f: Faults)
    requires Unique(recs)
    ensures Unique(CreateEffect(zone, recs, plan, f))
  {
    FreshKey(plan);
    forall k: Key ensures Count(CreateEffect(zone, recs, plan, f), k) <= 1 {
      OtherTypesCount(recs, k);
      CountConcat(OtherTypes(recs), [Fresh(plan)], k);
      CountConcat(recs, [Fresh(plan)], k);
    }
  }

  lemma StepKeepsUnique(rules: Rules, zone: bool, recs: seq<Record>, op: Op)
    requires !rules.keepsOmittedProtocol && Unique(recs)
    ensures Unique(Step(rules, zone, recs, op))
  {
    match op
    case Create(plan, f) => CreateKeepsUnique(zone, recs, plan, f);
    case Update(state, plan, f) =>
      if UpdateSends(zone, recs, state, plan, f) {
        UpdateKeepsUnique(rules, recs, state, plan, SentComments(recs, state, plan));
      }
    case Delete(state, f) =>
      forall k: Key { CountWithout(recs, ModelKey(state), k); }
  }

  /** Over every run of creates (with and without overwrite), updates and deletes, with any
      calls lost, a name whose FWD records are distinct to the server keeps them distinct. */
  lemma {:induction false} RunKeepsUnique(rules: Rules, zone: bool, recs: seq<Record>, ops: seq<Op>)
    requires !rules.keepsOmittedProtocol && Unique(recs)
    ensures Unique(Run(rules, zone, recs, ops))
    decreases |ops|
  {
    if ops != [] {
      StepKeepsUnique(rules, zone, recs, ops[0]);
      RunKeepsUnique(rules, zone, Step(rules, zone, recs, ops[0]), ops[1..]);
    }
  }

  /** In such a run a delete of a record the server holds is never refused as ambiguous. */
  lemma RunNeverBlocksDelete(rules: Rules, recs: seq<Record>, ops: seq<Op>, state: RecordModel, f: Faults)
    requires !rules.keepsOmittedProtocol && Unique(recs) && !f.check
    ensures DeleteSends(true, Run(rules, true, recs, ops), state, f)
  {
    RunKeepsUnique(rules, true, recs, ops);
  }

  // ---------------------------------------------------------------- the reading of newProtocol

  ghost predicate GuardSuffices(rules: Rules, state: RecordModel, plan: RecordModel, comments: string) {
    forall recs: seq<Record> :: Unique(recs) && GuardPasses(recs, state, plan) ==>
      Unique(Replaced(rules, recs, state, plan, comments))
  }

  /** Were an omitted newProtocol to keep the stored protocol, the guard would still suffice
      exactly when the plan names a protocol, the state's is Udp, or the forwarder stays. */
  lemma GuardUnderOtherReading(rules: Rules, state: RecordModel, plan: RecordModel, comments: string)
    requires rules.keepsOmittedProtocol
    ensures GuardSuffices(rules, state, plan, comments) <==>
      !plan.protocol.Null? || FwdProtocol(Str(state.protocol)) == "udp" || Lower(plan.value) == Lower(state.value)
  {
    if !plan.protocol.Null? || FwdProtocol(Str(state.protocol)) == "udp" || Lower(plan.value) == Lower(state.value) {
      forall recs: seq<Record> | Unique(recs) && GuardPasses(recs, state, plan)
        ensures Unique(Replaced(rules, recs, state, plan, comments))
      {
        UpdateKeepsUnique(rules, recs, state, plan, comments);
      }
    } else {
      OtherReadingCollides(rules, state, plan, comments);
    }
  }

  lemma OtherReadingCollides(rules: Rules, state: RecordModel, plan: RecordModel, comments: string)
    requires rules.keepsOmittedProtocol && plan.protocol.Null?
    requires FwdProtocol(Str(state.protocol)) != "udp" && Lower(plan.value) != Lower(state.value)
    ensures !GuardSuffices(rules, state, plan, comments)
  {
    var a := Record("FWD", state.value, Str(state.protocol), 0, false, "");
    var b := Record("FWD", plan.value, Str(state.protocol), 0, false, "");
    TwoRecords(a, b);
    assert Unique([a, b]) && GuardPasses([a, b], state, plan);
    CountReplaced(rules, [a, b], state, plan, comments, KeyOf(b));
    assert Count(Replaced(rules, [a, b], state, plan, comments), KeyOf(b)) == 2;
  }

  // ---------------------------------------------------------------- why the guard is there

  /** Sent to the server unguarded, a delete aimed at the second of two matching records
      removes the first and leaves the second. */
  lemma UnguardedDeleteTakesTheFirst(recs: seq<Record>, params: Params, j: nat)
    requires j < |recs| && Matches(recs[j], Target(params)) && FirstMatch(recs, Target(params)) < j
    ensures var r := DeleteFirst(recs, params);
      r.Done? && |r.value| == |recs| - 1 && r.value[j - 1] == recs[j]
  {
  }

  /** Sent unguarded, an update that keeps the key merges every matching record into one. */
  lemma UnguardedUpdateMerges(rules: Rules, recs: seq<Record>, params: Params, i: nat, k: Key, rec: Record)
    requires k == Target(params) && i == FirstMatch(recs, k) && i < |recs|
    requires rec == UpdatedRecord(rules, recs[i], params) && KeyOf(rec) == k
    ensures var r := UpdateFirst(rules, recs, params);
      r.Done? && Count(r.value, k) == 1
  {
    MergedAtCount(recs, i, k, rec);
  }

  lemma MergedAtCount(recs: seq<Record>, i: nat, k: Key, rec: Record)
    requires i < |recs| && i == FirstMatch(recs, k) && Matches(rec, k)
    ensures Count(MergedAt(recs, i, k, rec), k) == 1
  {
    var front, back := recs[..i], recs[i + 1..];
    CountZero(front, k);
    CountWithout(back, k, k);
    CountConcat(front + [rec], Without(back, k), k);
    CountConcat(front, [rec], k);
  }

  // ---------------------------------------------------------------- refresh after create

  ghost predicate StoresProtocols(recs: seq<Record>) {
    forall i :: 0 <= i < |recs| ==> recs[i].protocol != ""
  }

  predicate Applied(m: RecordModel) {
    !m.protocol.Unknown? && !m.forwarderPriority.Unknown? && !m.dnssecValidation.Unknown?
  }

  lemma NoEarlierMatch(recs: seq<Record>, plan: RecordModel, saved: RecordModel, f: Faults, j: nat)
    requires CreateSends(true, recs, plan, f)
    requires plan.protocol.Known? && saved.value == plan.value && saved.protocol == plan.protocol
    requires j < |if plan.overwrite then OtherTypes(recs) else recs|
    ensures !RecordMatchesState((if plan.overwrite then OtherTypes(recs) else recs)[j], saved)
  {
    if !plan.overwrite {
      CountZero(recs, ModelKey(plan));
      assert !Matches(recs[j], ModelKey(plan));
    }
  }

  lemma NewRecordIsFound(recs: seq<Record>, plan: RecordModel, saved: RecordModel, f: Faults)
    requires CreateSends(true, recs, plan, f) && !f.write && saved == plan.(comments := Known(Str(plan.comments)))
    requires Applied(plan) && plan.protocol.Known? && plan.protocol.v != "" && plan.forwarderPriority.Known?
    ensures Refreshed(CreateEffect(true, recs, plan, f), saved) == Some(saved)
  {
    var before := if plan.overwrite then OtherTypes(recs) else recs;
    var after := before + [Fresh(plan)];
    assert CreateEffect(true, recs, plan, f) == after;
    forall j | 0 <= j < |before| ensures !RecordMatchesState(after[j], saved) {
      NoEarlierMatch(recs, plan, saved, f, j);
    }
    assert RecordMatchesState(after[|before|], saved);
    assert FirstStateMatch(after, saved) == |before|;
  }

  /** The refresh that follows a create finds the new record and changes nothing in state
      exactly when the configuration states both the protocol and the priority. */
  lemma CreateThenRefresh(recs: seq<Record>, plan: RecordModel, f: Faults)
    requires Applied(plan) && StoresProtocols(recs)
    requires CreateSends(true, recs, plan, f) && !f.write
    ensures var saved := plan.(comments := Known(Str(plan.comments)));
      Refreshed(CreateEffect(true, recs, plan, f), saved) == Some(saved)
      <==> plan.protocol.Known? && plan.protocol.v != "" && plan.forwarderPriority.Known?
  {
    if plan.protocol.Known? && plan.protocol.v != "" && plan.forwarderPriority.Known? {
      NewRecordIsFound(recs, plan, plan.(comments := Known(Str(plan.comments))), f);
    } else {
      AfterStoresProtocols(recs, plan);
    }
  }

  lemma {:induction false} AfterStoresProtocols(recs: seq<Record>, plan: RecordModel)
    requires StoresProtocols(recs)
    ensures StoresProtocols(recs + [Fresh(plan)]) && StoresProtocols(OtherTypes(recs) + [Fresh(plan)])
  {
    if recs != [] {
      assert forall i :: 0 <= i < |recs[1..]| ==> recs[1..][i] == recs[i + 1];
      AfterStoresProtocols(recs[1..], plan);
      var o := OtherTypes(recs[1..]) + [Fresh(plan)];
      assert OtherTypes(recs) + [Fresh(plan)] == (if recs[0].rtype == "FWD" then [] else [recs[0]]) + o;
    }
  }

  // ---------------------------------------------------------------- what a refresh tells

  /** The state says what the record is, in everything it tracks. */
  predicate Describes(state: RecordModel, rec: Record) {
    && rec.rtype == "FWD" && state.value == rec.value
    && state.protocol == Known(rec.protocol) && state.forwarderPriority == Known(rec.priority)
    && (state.dnssecValidation.Null? || state.dnssecValidation == Known(rec.dnssec))
    && state.comments == Known(rec.comments)
  }

  lemma DescribedIsFirst(recs: seq<Record>, state: RecordModel, i: nat)
    requires Unique(recs) && i < |recs| && Describes(state, recs[i])
    ensures FirstStateMatch(recs, state) == i
  {
    assert RecordMatchesState(recs[i], state);
    var f := FirstStateMatch(recs, state);
    if f < i {
      assert KeyOf(recs[f]) == KeyOf(recs[i]);
      AtMostOneMatch(recs, KeyOf(recs[f]), f, i);
    }
  }

  /** Among records the server can tell apart, a refresh changes nothing in state exactly when the
      server has a record that is, comment included, what the state says. */
  lemma RefreshIsQuiet(recs: seq<Record>, state: RecordModel)
    requires Unique(recs)
    ensures Refreshed(recs, state) == Some(state) <==> exists i :: 0 <= i < |recs| && Describes(state, recs[i])
  {
    if i :| 0 <= i < |recs| && Describes(state, recs[i]) {
      DescribedIsFirst(recs, state, i);
    }
  }

  /** A refresh drops the record exactly when none is as the state says; else it describes one that is,
      and tracks the flag if the state did. */
  lemma RefreshDescribes(recs: seq<Record>, state: RecordModel)
    ensures match Refreshed(recs, state)
      case None => forall i :: 0 <= i < |recs| ==> !RecordMatchesState(recs[i], state)
      case Some(m) =>
        && (exists i :: 0 <= i < |recs| && RecordMatchesState(recs[i], state) && Describes(m, recs[i]))
        && (m.dnssecValidation.Null? <==> state.dnssecValidation.Null?) && m.overwrite == state.overwrite
  {
    var i := FirstStateMatch(recs, state);
    assert i < |recs| ==> Describes(Refreshed(recs, state).value, recs[i]);
  }

  // ---------------------------------------------------------------- what an update saves

  /** The one record an update has changed is the one the plan's key leads to. */
  lemma OnlyTheUpdatedMatches(rules: Rules, recs: seq<Record>, state: RecordModel, plan: RecordModel,
                              comments: string, i: nat, j: nat)
    requires i < |recs| && Matches(recs[i], ModelKey(state)) && GuardPasses(recs, state, plan)
    requires !plan.protocol.Null? && j < |recs| && j != i
    ensures !RecordMatchesState(Replaced(rules, recs, state, plan, comments)[j], plan)
  {
    if Matches(recs[j], ModelKey(state)) {
      AtMostOneMatch(recs, ModelKey(state), if i < j then i else j, if i < j then j else i);
    }
    CountZero(recs, ModelKey(plan));
  }

  /** With a protocol in the plan, the lookup after an update finds the updated record, unless that
      protocol is the empty text, which no record has. */
  lemma UpdatedIsFound(rules: Rules, recs: seq<Record>, state: RecordModel, plan: RecordModel,
                       comments: string, i: nat)
    requires i < |recs| && Matches(recs[i], ModelKey(state)) && GuardPasses(recs, state, plan)
    requires !plan.protocol.Null?
    ensures FirstStateMatch(Replaced(rules, recs, state, plan, comments), plan)
         == if Str(plan.protocol) != "" then i else |recs|
  {
    var after := Replaced(rules, recs, state, plan, comments);
    forall j | 0 <= j < |recs| && j != i ensures !RecordMatchesState(after[j], plan) {
      OnlyTheUpdatedMatches(rules, recs, state, plan, comments, i, j);
    }
    assert after[i] == Planned(rules, recs[i], state, plan, comments);
    assert RecordMatchesState(after[i], plan) <==> Str(plan.protocol) != "";
  }

  /** With a protocol in the plan, the comment an update saves is the comment of the updated record. */
  lemma SavedCommentIsTheRecords(rules: Rules, recs: seq<Record>, state: RecordModel, plan: RecordModel,
                                 f: Faults, i: nat)
    requires i < |recs| && Matches(recs[i], ModelKey(state)) && !plan.protocol.Null?
    requires UpdateSends(true, recs, state, plan, f) && !f.write
    ensures var after := UpdateEffect(rules, true, recs, state, plan, f);
      SavedAfter(after, plan, SentComments(recs, state, plan)).comments == Known(after[i].comments)
  {
    UpdatedIsFound(rules, recs, state, plan, SentComments(recs, state, plan), i);
  }

  /** State and plan are looked up alike. */
  predicate LookedUpAlike(state: RecordModel, plan: RecordModel) {
    && state.value == plan.value && state.protocol.Null? && plan.protocol.Null?
    && (state.forwarderPriority.Null? <==> plan.forwarderPriority.Null?)
    && Int(state.forwarderPriority) == Int(plan.forwarderPriority)
    && (state.dnssecValidation.Null? <==> plan.dnssecValidation.Null?)
    && Bool(state.dnssecValidation) == Bool(plan.dnssecValidation)
  }

  /** The comment saved is the comment of the updated record. */
  predicate SavesItsComment(rules: Rules, recs: seq<Record>, state: RecordModel, plan: RecordModel, i: nat)
    requires i < |recs|
  {
    var sent := SentComments(recs, state, plan);
    var after := Replaced(rules, recs, state, plan, sent);
    SavedAfter(after, plan, sent).comments == Known(after[i].comments)
  }

  ghost predicate SavedCommentSafe(rules: Rules, state: RecordModel, plan: RecordModel) {
    forall recs: seq<Record>, i: nat :: Unique(recs) && Updatable(recs, state, plan, i) ==>
      SavesItsComment(rules, recs, state, plan, i)
  }

  /** A record that matches m, and not other if that can be. */
  function Stray(m: RecordModel, other: RecordModel, protocol: string, comments: string): Record {
    Record("FWD", m.value, protocol,
           if !m.forwarderPriority.Null? then Int(m.forwarderPriority)
           else if Int(other.forwarderPriority) == 0 then 1 else 0,
           if m.dnssecValidation.Null? then !Bool(other.dnssecValidation) else Bool(m.dnssecValidation), comments)
  }

  /** Two protocols that neither an untracked plan nor the state goes by. */
  function ForeignProtocols(state: RecordModel): (p: (string, string))
    ensures p.0 != "" && p.1 != "" && Lower(p.0) != Lower(p.1)
    ensures Lower(p.0) != "udp" && Lower(p.1) != "udp"
    ensures Lower(p.0) != FwdProtocol(Str(state.protocol)) && Lower(p.1) != FwdProtocol(Str(state.protocol))
  {
    assert Lower("Tcp")[1] == 'c' && Lower("Tls")[1] == 'l' && Lower("Quic")[0] == 'q';
    assert Lower("Tcp")[0] == 't' && Lower("Tls")[0] == 't' && "udp"[0] == 'u';
    var used := FwdProtocol(Str(state.protocol));
    if used == Lower("Tcp") then ("Tls", "Quic") else if used == Lower("Tls") then ("Tcp", "Quic") else ("Tcp", "Tls")
  }

  lemma StrayIsSaved(rules: Rules, state: RecordModel, plan: RecordModel)
    requires plan.protocol.Null? && !plan.comments.Known?
    requires var (p, _) := ForeignProtocols(state); !RecordMatchesState(Stray(plan, state, p, "of another"), state)
    ensures !SavedCommentSafe(rules, state, plan)
  {
    var a := Stray(plan, state, ForeignProtocols(state).0, "of another");
    var b := Witness(state, false, "Udp", "");
    var recs := [a, b];
    assert Lower("Udp") == "udp";
    assert KeyOf(b) == ModelKey(state) && KeyOf(a) != ModelKey(state) && KeyOf(a) != ModelKey(plan);
    TwoRecords(a, b);
    assert Updatable(recs, state, plan, 1);
    assert FirstStateMatch(recs, state) == 1;
    var after := Replaced(rules, recs, state, plan, "");
    assert after[0] == a && after[1].comments == "";
    assert FirstStateMatch(after, plan) == 0;
    assert !SavesItsComment(rules, recs, state, plan, 1);
  }

  function Hit(rec: Record, k: Key): nat {
    if Matches(rec, k) then 1 else 0
  }

  lemma ThreeRecords(a: Record, b: Record, c: Record)
    requires KeyOf(a) != KeyOf(b) && KeyOf(b) != KeyOf(c) && KeyOf(a) != KeyOf(c)
    ensures Unique([a, b, c])
    ensures forall k: Key :: Count([a, b, c], k) == Hit(a, k) + Hit(b, k) + Hit(c, k)
  {
    TwoRecords(b, c);
    assert [a, b, c][1..] == [b, c];
  }

  /** Two strays of other protocols, and the record in state. */
  lemma StraysAreApart(state: RecordModel, plan: RecordModel, c: Record, a: Record, b: Record)
    requires plan.protocol.Null? && state.protocol.Null? && state.value == plan.value
    requires c.rtype == "FWD" && c.value == state.value && c.protocol == ForeignProtocols(state).1
    requires a.rtype == "FWD" && a.value == state.value && a.protocol == ForeignProtocols(state).0
    requires b == Witness(state, false, "Udp", "")
    ensures Unique([c, a, b]) && Updatable([c, a, b], state, plan, 2)
    ensures !Matches(c, ModelKey(state)) && !Matches(a, ModelKey(state)) && Matches(b, ModelKey(state))
  {
    assert Lower("Udp") == "udp";
    assert KeyOf(b) == ModelKey(state) == ModelKey(plan);
    ThreeRecords(c, a, b);
  }

  lemma LooserStateIsSaved(rules: Rules, state: RecordModel, plan: RecordModel)
    requires plan.protocol.Null? && state.protocol.Null? && state.value == plan.value && !plan.comments.Known?
    requires var (p, q) := ForeignProtocols(state);
      && RecordMatchesState(Stray(plan, state, p, "of another"), state)
      && !RecordMatchesState(Stray(state, plan, q, "of the third"), plan)
    ensures !SavedCommentSafe(rules, state, plan)
  {
    var (p, q) := ForeignProtocols(state);
    var a, c := Stray(plan, state, p, "of another"), Stray(state, plan, q, "of the third");
    var b := Witness(state, false, "Udp", "");
    StraysAreApart(state, plan, c, a, b);
    StrayIsReadBack(rules, [c, a, b], state, plan);
    assert |a.comments| == 10 && |c.comments| == 12;
    assert !SavesItsComment(rules, [c, a, b], state, plan, 2);
  }

  /** The comment sent is the first stray's, the one read back the second's. */
  lemma StrayIsReadBack(rules: Rules, recs: seq<Record>, state: RecordModel, plan: RecordModel)
    requires |recs| == 3 && !plan.comments.Known?
    requires RecordMatchesState(recs[0], state) && !RecordMatchesState(recs[0], plan)
    requires RecordMatchesState(recs[1], plan) && Matches(recs[2], ModelKey(state))
    requires !Matches(recs[0], ModelKey(state)) && !Matches(recs[1], ModelKey(state))
    ensures SavesItsComment(rules, recs, state, plan, 2) ==> recs[1].comments == recs[0].comments
  {
    var after := Replaced(rules, recs, state, plan, SentComments(recs, state, plan));
    assert after[0] == recs[0] && after[1] == recs[1];
    LookupSkips(after, plan);
  }

  lemma LookupSkips(recs: seq<Record>, m: RecordModel)
    requires |recs| >= 2 && !RecordMatchesState(recs[0], m) && RecordMatchesState(recs[1], m)
    ensures FirstStateMatch(recs, m) == 1
  {
  }

  /** Over all lists in which the record still is as the state says, an update saves the comment of the
      record it updates exactly when the plan has a comment or a protocol, or is looked up like the
      state; otherwise the read-back can find a record of another protocol. */
  lemma SavedCommentSafeExactly(rules: Rules, state: RecordModel, plan: RecordModel)
    ensures SavedCommentSafe(rules, state, plan) <==>
      plan.comments.Known? || !plan.protocol.Null? || LookedUpAlike(state, plan)
  {
    if plan.comments.Known? || !plan.protocol.Null? || LookedUpAlike(state, plan) {
      forall recs: seq<Record>, i: nat | Unique(recs) && Updatable(recs, state, plan, i)
        ensures SavesItsComment(rules, recs, state, plan, i)
      {
        SavedIsUpdated(rules, recs, state, plan, i);
      }
    } else {
      var (p, q) := ForeignProtocols(state);
      if RecordMatchesState(Stray(plan, state, p, "of another"), state) {
        LooserStateIsSaved(rules, state, plan);
      } else {
        StrayIsSaved(rules, state, plan);
      }
    }
  }

  lemma SavedIsUpdated(rules: Rules, recs: seq<Record>, state: RecordModel, plan: RecordModel, i: nat)
    requires Unique(recs) && Updatable(recs, state, plan, i)
    requires plan.comments.Known? || !plan.protocol.Null? || LookedUpAlike(state, plan)
    ensures SavesItsComment(rules, recs, state, plan, i)
  {
    var sent := SentComments(recs, state, plan);
    if !plan.protocol.Null? {
      UpdatedIsFound(rules, recs, state, plan, sent, i);
    } else if !plan.comments.Known? {
      AlikeFindsTheSame(rules, recs, state, plan, sent, i);
    }
  }

  lemma AlikeFindsTheSame(rules: Rules, recs: seq<Record>, state: RecordModel, plan: RecordModel,
                          comments: string, i: nat)
    requires Updatable(recs, state, plan, i) && LookedUpAlike(state, plan)
    ensures FirstStateMatch(Replaced(rules, recs, state, plan, comments), plan) == FirstStateMatch(recs, state)
    ensures var s := FirstStateMatch(recs, state);
      s < |recs| && (s != i ==> Replaced(rules, recs, state, plan, comments)[s] == recs[s])
  {
    var after := Replaced(rules, recs, state, plan, comments);
    forall j | 0 <= j < |recs|
      ensures RecordMatchesState(after[j], plan) <==> RecordMatchesState(recs[j], state)
      ensures j != i ==> after[j] == recs[j]
    {
      AlikeMatch(rules, recs, state, plan, comments, i, j);
    }
  }

  lemma AlikeMatch(rules: Rules, recs: seq<Record>, state: RecordModel, plan: RecordModel,
                   comments: string, i: nat, j: nat)
    requires Updatable(recs, state, plan, i) && LookedUpAlike(state, plan) && j < |recs|
    ensures var rec := Replaced(rules, recs, state, plan, comments)[j];
      && (RecordMatchesState(rec, plan) <==> RecordMatchesState(recs[j], state))
      && (j != i ==> rec == recs[j])
  {
    if j != i && Matches(recs[j], ModelKey(state)) {
      AtMostOneMatch(recs, ModelKey(state), if i < j then i else j, if i < j then j else i);
    }
  }

  /** The refresh that follows an update changes nothing in state exactly when the configuration states
      both the protocol and the priority. */
  lemma UpdateThenRefresh(rules: Rules, recs: seq<Record>, state: RecordModel, plan: RecordModel, f: Faults)
    requires Applied(plan) && StoresProtocols(recs) && Count(recs, ModelKey(state)) == 1
    requires UpdateSends(true, recs, state, plan, f) && !f.write
    ensures var after := UpdateEffect(rules, true, recs, state, plan, f);
      var saved := SavedAfter(after, plan, SentComments(recs, state, plan));
      Refreshed(after, saved) == Some(saved)
      <==> plan.protocol.Known? && plan.protocol.v != "" && plan.forwarderPriority.Known?
  {
    var sent := SentComments(recs, state, plan);
    var after := Replaced(rules, recs, state, plan, sent);
    var saved := SavedAfter(after, plan, sent);
    SameLookup(after, plan, saved);
    var i := FirstMatch(recs, ModelKey(state));
    CountAround(recs, ModelKey(state));
    if !plan.protocol.Null? {
      UpdatedIsFound(rules, recs, state, plan, sent, i);
      UpdatedIsDescribed(rules, recs, state, plan, sent, i);
    }
  }

  /** The state saved with the comment sent describes the updated record exactly when it has a protocol
      and a priority. */
  lemma UpdatedIsDescribed(rules: Rules, recs: seq<Record>, state: RecordModel, plan: RecordModel,
                           comments: string, i: nat)
    requires Applied(plan) && plan.protocol.Known? && i < |recs| && Matches(recs[i], ModelKey(state))
    ensures Describes(plan.(comments := Known(comments)), Replaced(rules, recs, state, plan, comments)[i])
      <==> plan.protocol.v != "" && plan.forwarderPriority.Known?
  {
    assert Replaced(rules, recs, state, plan, comments)[i] == Planned(rules, recs[i], state, plan, comments);
  }

  /** The lookup does not ask for the comment. */
  lemma {:induction false} SameLookup(recs: seq<Record>, a: RecordModel, b: RecordModel)
    requires b == a.(comments := b.comments)
    ensures FirstStateMatch(recs, a) == FirstStateMatch(recs, b)
  {
    if recs != [] {
      SameLookup(recs[1..], a, b);
    }
  }
}
