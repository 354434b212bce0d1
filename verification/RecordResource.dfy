/** The provider's operations on FWD records: count, then act, so that the server's
    first match can only ever be the record in state.
    internal/provider/record_resource.go, internal/provider/record_fwd_guard.go */
module RecordResource {
  import opened Text
  import opened RecordServer

  /** The FWD attributes of a record resource; the zone and the name are the server's. */
  datatype RecordModel = RecordModel(
    value: string, protocol: Tf<string>, forwarderPriority: Tf<Int64>, dnssecValidation: Tf<bool>,
    overwrite: bool, comments: Tf<string>)

  function ModelKey(m: RecordModel): Key {
    FwdKey(m.value, Str(m.protocol))
  }

  /** recordMatchesState: null attributes are not compared. */
  predicate RecordMatchesState(rec: Record, m: RecordModel) {
    && rec.rtype == "FWD"
    && rec.value == m.value
    && (m.protocol.Null? || rec.protocol == Str(m.protocol))
    && (m.forwarderPriority.Null? || rec.priority == Int(m.forwarderPriority))
    && (m.dnssecValidation.Null? || rec.dnssec == Bool(m.dnssecValidation))
  }

  function FirstStateMatch(recs: seq<Record>, m: RecordModel): (i: nat)
    ensures i <= |recs|
    ensures i < |recs| ==> RecordMatchesState(recs[i], m)
    ensures forall j :: 0 <= j < i ==> !RecordMatchesState(recs[j], m)
  {
    if recs == [] || RecordMatchesState(recs[0], m) then 0 else 1 + FirstStateMatch(recs[1..], m)
  }

  function StateComments(recs: seq<Record>, m: RecordModel): string {
    var i := FirstStateMatch(recs, m);
    if i < |recs| then recs[i].comments else ""
  }

  // ---------------------------------------------------------------- the records an operation means

  /** The record a create asks for. */
  function Fresh(plan: RecordModel): Record {
    Record("FWD", plan.value, ProtocolOr(Str(plan.protocol), "Udp"), Int(plan.forwarderPriority),
           Bool(plan.dnssecValidation), Str(plan.comments))
  }

  /** The validation flag of the state stands in for one the plan omits. */
  function PlannedValidation(state: RecordModel, plan: RecordModel): bool {
    if plan.dnssecValidation.Null? then Bool(state.dnssecValidation) else Bool(plan.dnssecValidation)
  }

  /** What the record in state becomes under plan, its comment being given. */
  function Planned(rules: Rules, prior: Record, state: RecordModel, plan: RecordModel, comments: string): Record {
    Record("FWD", plan.value,
           if plan.protocol.Null? && rules.keepsOmittedProtocol then prior.protocol
           else ProtocolOr(Str(plan.protocol), "Udp"),
           if plan.forwarderPriority.Null? then prior.priority else Int(plan.forwarderPriority),
           PlannedValidation(state, plan),
           comments)
  }

  function ReplacedRecord(rules: Rules, rec: Record, state: RecordModel, plan: RecordModel, comments: string): Record {
    if Matches(rec, ModelKey(state)) then Planned(rules, rec, state, plan, comments) else rec
  }

  /** The simple update: every record with the key in state becomes the planned one, and no
      other record is touched. */
  function Replaced(rules: Rules, recs: seq<Record>, state: RecordModel, plan: RecordModel, comments: string)
    : (r: seq<Record>)
    ensures |r| == |recs|
    ensures forall i :: 0 <= i < |recs| ==> r[i] == ReplacedRecord(rules, recs[i], state, plan, comments)
  {
    if recs == [] then []
    else [ReplacedRecord(rules, recs[0], state, plan, comments)] + Replaced(rules, recs[1..], state, plan, comments)
  }

  // ---------------------------------------------------------------- operations, as one step each

  /** Which of an operation's calls are lost: the reads before it, the write, the read-back. */
  datatype Faults = Faults(check: bool, comments: bool, write: bool, readBack: bool)

  predicate GuardPasses(recs: seq<Record>, state: RecordModel, plan: RecordModel) {
    && Count(recs, ModelKey(state)) <= 1
    && (ModelKey(plan) == ModelKey(state) || Count(recs, ModelKey(plan)) == 0)
  }

  predicate CreateSends(zone: bool, recs: seq<Record>, plan: RecordModel, f: Faults) {
    plan.overwrite || (!f.check && (zone ==> Count(recs, ModelKey(plan)) == 0))
  }

  predicate UpdateSends(zone: bool, recs: seq<Record>, state: RecordModel, plan: RecordModel, f: Faults) {
    zone && !f.check && GuardPasses(recs, state, plan) && (plan.comments.Known? || !f.comments)
  }

  predicate DeleteSends(zone: bool, recs: seq<Record>, state: RecordModel, f: Faults) {
    !f.check && (zone ==> Count(recs, ModelKey(state)) <= 1)
  }

  function CreateEffect(zone: bool, recs: seq<Record>, plan: RecordModel, f: Faults): seq<Record> {
    if !zone || f.write || !CreateSends(zone, recs, plan, f) then recs
    else (if plan.overwrite then OtherTypes(recs) else recs) + [Fresh(plan)]
  }

  function UpdateEffect(rules: Rules, zone: bool, recs: seq<Record>, state: RecordModel, plan: RecordModel, f: Faults)
    : seq<Record>
  {
    if f.write || !UpdateSends(zone, recs, state, plan, f) then recs
    else Replaced(rules, recs, state, plan, SentComments(recs, state, plan))
  }

  /** The comment an update sends: the planned one, else the one on the server. */
  function SentComments(recs: seq<Record>, state: RecordModel, plan: RecordModel): string {
    if plan.comments.Known? then plan.comments.v else StateComments(recs, state)
  }

  /** The state an update saves: the plan, a comment it left open read back or taken as sent. */
  function SavedAfter(recs: seq<Record>, plan: RecordModel, sent: string): RecordModel {
    if plan.comments.Known? then plan
    else
      var i := FirstStateMatch(recs, plan);
      plan.(comments := Known(if i < |recs| then recs[i].comments else sent))
  }

  function DeleteEffect(zone: bool, recs: seq<Record>, state: RecordModel, f: Faults): seq<Record> {
    if !zone || f.write || !DeleteSends(zone, recs, state, f) then recs
    else Without(recs, ModelKey(state))
  }

  /** Read: the state refreshed from the first record that matches it, or None when none does. */
  function Refreshed(recs: seq<Record>, state: RecordModel): Option<RecordModel> {
    var i := FirstStateMatch(recs, state);
    if i == |recs| then None
    else
      var rec := recs[i];
      Some(state.(value := rec.value, protocol := Known(rec.protocol), forwarderPriority := Known(rec.priority),
                  dnssecValidation := if state.dnssecValidation.Null? then Null else Known(rec.dnssec),
                  comments := Known(rec.comments)))
  }

  // ---------------------------------------------------------------- the update request

  predicate Sends(params: Params, name: ParamName, present: bool, value: string) {
    (name in params <==> present) && (present ==> params[name] == value)
  }

  /** The record is identified by the forwarder and protocol in state. */
  predicate Identifies(params: Params, state: RecordModel) {
    && Sends(params, Forwarder, true, state.value)
    && Sends(params, Protocol, !state.protocol.Null?, Str(state.protocol))
  }

  predicate SendsNewValues(params: Params, state: RecordModel, plan: RecordModel) {
    && Sends(params, NewForwarder, state.value != plan.value, plan.value)
    && Sends(params, NewProtocol, !plan.protocol.Null?, Str(plan.protocol))
    && Sends(params, NewForwarderPriority, !plan.forwarderPriority.Null?, Itoa(Int(plan.forwarderPriority)))
  }

  predicate IsUpdateRequest(params: Params, state: RecordModel, plan: RecordModel) {
    && Identifies(params, state)
    && SendsNewValues(params, state, plan)
    && Sends(params, DnssecValidation, !plan.dnssecValidation.Null? || !state.dnssecValidation.Null?,
             FormatBool(PlannedValidation(state, plan)))
  }

  /** The server reads an update request as meant: it looks for the key in state and makes
      the planned record of what it finds. */
  lemma RequestMeans(rules: Rules, params: Params, prior: Record, state: RecordModel, plan: RecordModel,
        comments: string)
    requires IsUpdateRequest(params, state, plan)
    requires Sends(params, Comments, true, comments)
    ensures Target(params) == ModelKey(state)
    ensures UpdatedRecord(rules, prior, params) == Planned(rules, prior, state, plan, comments)
  {
    ParseItoa(Int(plan.forwarderPriority));
  }

  lemma FreshKey(plan: RecordModel)
    ensures KeyOf(Fresh(plan)) == ModelKey(plan)
  {
    assert Lower("Udp") == "udp";
  }

  // ---------------------------------------------------------------- the resource

  class Resource {
    const server: Server

    constructor (server: Server)
      ensures this.server == server
    {
      this.server := server;
    }

    static method CountFWDMatches(records: seq<Record>, k: Key) returns (n: nat)
      ensures n == Count(records, k)
    {
      n := 0;
      for i := 0 to |records|
        invariant n == Count(records[..i], k)
      {
        assert records[..i + 1] == records[..i] + [records[i]];
        CountConcat(records[..i], [records[i]], k);
        if records[i].rtype == "FWD" && KeyOf(records[i]) == k {
          n := n + 1;
        }
      }
      assert records[..|records|] == records;
    }

    /** An error that says the zone is gone counts as no match. */
    method FwdMatchCount(m: RecordModel, fault: bool) returns (n: Reply<nat>)
      ensures n == if fault then Failed else Done(if server.zone then Count(server.records, ModelKey(m)) else 0)
    {
      var records := server.RecordGet(fault);
      match records {
        case Gone => n := Done(0);
        case Failed => n := Failed;
        case Done(recs) =>
          var c := CountFWDMatches(recs, ModelKey(m));
          n := Done(c);
      }
    }

    method GuardFWDUpdate(state: RecordModel, plan: RecordModel, fault: bool) returns (ok: bool)
      ensures ok == (server.zone && !fault && GuardPasses(server.records, state, plan))
    {
      var records := server.RecordGet(fault);
      if !records.Done? {
        return false;
      }
      var n := CountFWDMatches(records.value, ModelKey(state));
      if n > 1 {
        return false;
      }
      if ModelKey(plan) != ModelKey(state) {
        n := CountFWDMatches(records.value, ModelKey(plan));
        return n == 0;
      }
      return true;
    }

    method CurrentComments(state: RecordModel, fault: bool) returns (r: Reply<string>)
      ensures r == if fault || !server.zone then Failed else Done(StateComments(server.records, state))
    {
      var records := server.RecordGet(fault);
      if !records.Done? {
        return Failed;
      }
      var i := 0;
      while i < |records.value|
        invariant 0 <= i <= |records.value|
        invariant forall j :: 0 <= j < i ==> !RecordMatchesState(records.value[j], state)
      {
        if RecordMatchesState(records.value[i], state) {
          return Done(records.value[i].comments);
        }
        i := i + 1;
      }
      return Done("");
    }

    static method BuildAddParams(plan: RecordModel) returns (params: Params)
      ensures AddedRecord(params) == Fresh(plan)
    {
      params := map[Forwarder := plan.value];
      if !plan.protocol.Null? && Str(plan.protocol) != "" {
        params := params[Protocol := Str(plan.protocol)];
      }
      if !plan.forwarderPriority.Null? {
        ParseItoa(Int(plan.forwarderPriority));
        params := params[ForwarderPriority := Itoa(Int(plan.forwarderPriority))];
      }
      if !plan.dnssecValidation.Null? {
        params := params[DnssecValidation := FormatBool(Bool(plan.dnssecValidation))];
      }
      if plan.comments.Known? {
        params := params[Comments := plan.comments.v];
      }
    }

    /** Sends newForwarder only when the value changes, newProtocol only when the plan has
        one, and the validation flag of the state when the plan omits it. */
    static method BuildUpdateParams(state: RecordModel, plan: RecordModel) returns (params: Params)
      ensures IsUpdateRequest(params, state, plan)
      ensures Sends(params, Comments, plan.comments.Known?, Str(plan.comments))
    {
      params := map[Forwarder := state.value];
      if !state.protocol.Null? {
        params := params[Protocol := Str(state.protocol)];
      }
      if !state.forwarderPriority.Null? {
        params := params[ForwarderPriority := Itoa(Int(state.forwarderPriority))];
      }
      params := AddNewValues(params, state, plan);
      params := AddSettableValues(params, state, plan);
    }

    static method AddNewValues(request: Params, state: RecordModel, plan: RecordModel) returns (params: Params)
      requires Identifies(request, state)
      requires request.Keys <= {Forwarder, Protocol, ForwarderPriority}
      ensures Identifies(params, state) && SendsNewValues(params, state, plan)
      ensures DnssecValidation !in params && Comments !in params
    {
      params := request;
      if state.value != plan.value {
        params := params[NewForwarder := plan.value];
      }
      if !plan.protocol.Null? {
        params := params[NewProtocol := Str(plan.protocol)];
      }
      if !plan.forwarderPriority.Null? {
        params := params[NewForwarderPriority := Itoa(Int(plan.forwarderPriority))];
      }
    }

    /** The values with no "new" counterpart: the server resets the ones it is not sent. */
    static method AddSettableValues(request: Params, state: RecordModel, plan: RecordModel) returns (params: Params)
      requires Identifies(request, state) && SendsNewValues(request, state, plan)
      requires DnssecValidation !in request && Comments !in request
      ensures IsUpdateRequest(params, state, plan)
      ensures Sends(params, Comments, plan.comments.Known?, Str(plan.comments))
    {
      params := request;
      if !plan.dnssecValidation.Null? {
        params := params[DnssecValidation := FormatBool(Bool(plan.dnssecValidation))];
      } else if !state.dnssecValidation.Null? {
        params := params[DnssecValidation := FormatBool(Bool(state.dnssecValidation))];
      }
      if plan.comments.Known? {
        params := params[Comments := plan.comments.v];
      }
    }

    static method BuildDeleteParams(state: RecordModel) returns (params: Params)
      ensures Target(params) == ModelKey(state)
    {
      params := map[Forwarder := state.value];
      if !state.protocol.Null? && Str(state.protocol) != "" {
        params := params[Protocol := Str(state.protocol)];
      }
      if !state.forwarderPriority.Null? {
        params := params[ForwarderPriority := Itoa(Int(state.forwarderPriority))];
      }
      if !state.dnssecValidation.Null? {
        params := params[DnssecValidation := FormatBool(Bool(state.dnssecValidation))];
      }
    }

    /** Returns the state to save, or None when the operation ends in an error. */
    method Create(plan: RecordModel, f: Faults) returns (saved: Option<RecordModel>)
      modifies server`records, server`mutations
      ensures server.records == CreateEffect(server.zone, old(server.records), plan, f)
      ensures server.mutations == old(server.mutations)
                + if CreateSends(server.zone, old(server.records), plan, f) then 1 else 0
      ensures saved.Some? <==> server.zone && !f.write && CreateSends(server.zone, old(server.records), plan, f)
      ensures saved.Some? ==> saved.value == plan.(comments := Known(Str(plan.comments)))
    {
      if !plan.overwrite {
        var n := FwdMatchCount(plan, f.check);
        if !n.Done? || n.value > 0 {
          return None;
        }
      }
      var params := BuildAddParams(plan);
      FreshKey(plan);
      var added := server.RecordAdd(params, plan.overwrite, f.write);
      if !added.Done? {
        return None;
      }
      var record := Fresh(plan);
      if !plan.comments.Known? {
        return Some(plan.(comments := Known(record.comments)));
      }
      return Some(plan);
    }

    /** The state to keep, None when the record or its zone is gone. */
    method Read(state: RecordModel, fault: bool) returns (r: Reply<Option<RecordModel>>)
      ensures r == if fault then Failed else Done(if server.zone then Refreshed(server.records, state) else None)
    {
      var records := server.RecordGet(fault);
      match records {
        case Gone => r := Done(None);
        case Failed => r := Failed;
        case Done(recs) =>
          for i := 0 to |recs|
            invariant forall j :: 0 <= j < i ==> !RecordMatchesState(recs[j], state)
          {
            if RecordMatchesState(recs[i], state) {
              var found := state.(value := recs[i].value, comments := Known(recs[i].comments));
              found := found.(protocol := Known(recs[i].protocol), forwarderPriority := Known(recs[i].priority));
              if !state.dnssecValidation.Null? {
                found := found.(dnssecValidation := Known(recs[i].dnssec));
              }
              return Done(Some(found));
            }
          }
          r := Done(None);
      }
    }

    /** The read-back of an update, for what the plan left open. */
    method ReadBack(plan: RecordModel, sent: string, fault: bool) returns (saved: Option<RecordModel>)
      ensures saved == if fault || !server.zone then None else Some(SavedAfter(server.records, plan, sent))
    {
      var records := server.RecordGet(fault);
      if !records.Done? {
        return None;
      }
      var result := plan;
      var i := FirstStateMatch(records.value, plan);
      if i < |records.value| && !result.comments.Known? {
        result := result.(comments := Known(records.value[i].comments));
      }
      if !result.comments.Known? {
        result := result.(comments := Known(sent));
      }
      return Some(result);
    }

    /** The request of an update, the comment read from the server where the plan has none. */
    method UpdateParams(state: RecordModel, plan: RecordModel, fault: bool) returns (request: Option<Params>)
      ensures request.Some? <==> plan.comments.Known? || (server.zone && !fault)
      ensures request.Some? ==> IsUpdateRequest(request.value, state, plan)
      ensures request.Some? ==> Sends(request.value, Comments, true, SentComments(server.records, state, plan))
    {
      var params := BuildUpdateParams(state, plan);
      if !plan.comments.Known? {
        var current := CurrentComments(state, fault);
        if !current.Done? {
          return None;
        }
        params := params[Comments := current.value];
      }
      return Some(params);
    }

    /** Sends an update that has passed the guard; gives the comment it sent. */
    method SendUpdate(state: RecordModel, plan: RecordModel, f: Faults) returns (sent: Option<string>)
      requires server.zone && GuardPasses(server.records, state, plan)
      modifies server`records, server`mutations
      ensures var sends := plan.comments.Known? || !f.comments;
        && server.records ==
           (if sends && !f.write
            then Replaced(server.rules, old(server.records), state, plan,
                          SentComments(old(server.records), state, plan))
            else old(server.records))
        && server.mutations == old(server.mutations) + (if sends then 1 else 0)
        && sent == (if sends && !f.write && Count(old(server.records), ModelKey(state)) == 1
                    then Some(SentComments(old(server.records), state, plan)) else None)
    {
      var request := UpdateParams(state, plan, f.comments);
      if request.None? {
        return None;
      }
      UpdateFirstIsReplaced(server.rules, server.records, request.value, state, plan, request.value[Comments]);
      var updated := server.RecordUpdate(request.value, f.write);
      return if updated.Done? then Some(request.value[Comments]) else None;
    }

    /** On the first-match server, a guarded update is the simple update. */
    method Update(state: RecordModel, plan: RecordModel, f: Faults) returns (saved: Option<RecordModel>)
      modifies server`records, server`mutations
      ensures server.records == UpdateEffect(server.rules, server.zone, old(server.records), state, plan, f)
      ensures server.mutations == old(server.mutations)
                + if UpdateSends(server.zone, old(server.records), state, plan, f) then 1 else 0
      ensures saved ==
        if UpdateSends(server.zone, old(server.records), state, plan, f)
           && Count(old(server.records), ModelKey(state)) == 1 && !f.write && !f.readBack
        then Some(SavedAfter(server.records, plan, SentComments(old(server.records), state, plan))) else None
    {
      var ok := GuardFWDUpdate(state, plan, f.check);
      if !ok {
        return None;
      }
      var sent := SendUpdate(state, plan, f);
      if sent.None? {
        return None;
      }
      saved := ReadBack(plan, sent.value, f.readBack);
    }

    /** On the first-match server, a guarded delete removes the record in state and nothing
        else; true means the record is gone as far as the provider is concerned. */
    method Delete(state: RecordModel, f: Faults) returns (ok: bool)
      modifies server`records, server`mutations
      ensures server.records == DeleteEffect(server.zone, old(server.records), state, f)
      ensures server.mutations == old(server.mutations)
                + if DeleteSends(server.zone, old(server.records), state, f) then 1 else 0
      ensures ok <==> !f.write && DeleteSends(server.zone, old(server.records), state, f)
    {
      var n := FwdMatchCount(state, f.check);
      if !n.Done? || n.value > 1 {
        return false;
      }
      var params := BuildDeleteParams(state);
      if server.zone {
        DeleteFirstIsWithout(server.records, params, ModelKey(state));
      }
      var deleted := server.RecordDelete(params, f.write);
      return !deleted.Failed?;
    }
  }

  // ---------------------------------------------------------------- refinement

  /** With at most one match, the server's first-match update is the simple one. */
  lemma UpdateFirstIsReplaced(rules: Rules, recs: seq<Record>, params: Params,
                              state: RecordModel, plan: RecordModel, comments: string)
    requires IsUpdateRequest(params, state, plan) && Sends(params, Comments, true, comments)
    requires Count(recs, ModelKey(state)) <= 1
    ensures match UpdateFirst(rules, recs, params)
      case Done(r) => Count(recs, ModelKey(state)) == 1 && r == Replaced(rules, recs, state, plan, comments)
      case _ => Count(recs, ModelKey(state)) == 0 && recs == Replaced(rules, recs, state, plan, comments)
  {
    var i := FirstMatch(recs, ModelKey(state));
    CountAround(recs, ModelKey(state));
    if i < |recs| {
      RequestMeans(rules, params, recs[i], state, plan, comments);
      MergedAtIsReplaced(rules, recs, state, plan, comments, i);
    } else {
      ReplacedNone(rules, recs, state, plan, comments);
      RequestMeans(rules, params, Fresh(plan), state, plan, comments);
    }
  }

  lemma MergedAtIsReplaced(rules: Rules, recs: seq<Record>, state: RecordModel, plan: RecordModel,
        comments: string, i: nat)
    requires i < |recs| && i == FirstMatch(recs, ModelKey(state)) && Count(recs[i + 1..], ModelKey(state)) == 0
    ensures MergedAt(recs, i, ModelKey(state), Planned(rules, recs[i], state, plan, comments))
         == Replaced(rules, recs, state, plan, comments)
  {
    MergedAlone(recs, i, ModelKey(state), Planned(rules, recs[i], state, plan, comments));
    ReplacedOne(rules, recs, state, plan, comments, i);
  }

  lemma MergedAlone(recs: seq<Record>, i: nat, k: Key, rec: Record)
    requires i < |recs| && Count(recs[i + 1..], k) == 0
    ensures MergedAt(recs, i, k, rec) == recs[..i] + [rec] + recs[i + 1..]
  {
    WithoutNone(recs[i + 1..], k);
  }

  lemma NoneButFirst(recs: seq<Record>, k: Key, j: nat)
    requires j < |recs| && FirstMatch(recs, k) < |recs| && j != FirstMatch(recs, k)
    requires Count(recs[FirstMatch(recs, k) + 1..], k) == 0
    ensures !Matches(recs[j], k)
  {
    var i := FirstMatch(recs, k);
    CountZero(recs[i + 1..], k);
    if j > i {
      assert recs[j] == recs[i + 1..][j - i - 1];
    }
  }

  lemma ReplacedOne(rules: Rules, recs: seq<Record>, state: RecordModel, plan: RecordModel, comments: string, i: nat)
    requires i < |recs| && i == FirstMatch(recs, ModelKey(state)) && Count(recs[i + 1..], ModelKey(state)) == 0
    ensures Replaced(rules, recs, state, plan, comments)
         == recs[..i] + [Planned(rules, recs[i], state, plan, comments)] + recs[i + 1..]
  {
    var r, planned := Replaced(rules, recs, state, plan, comments), Planned(rules, recs[i], state, plan, comments);
    assert r[i] == planned;
    forall j | 0 <= j < |recs| && j != i ensures r[j] == recs[j] {
      NoneButFirst(recs, ModelKey(state), j);
    }
    assert r == recs[..i] + [planned] + recs[i + 1..];
  }

  lemma ReplacedNone(rules: Rules, recs: seq<Record>, state: RecordModel, plan: RecordModel, comments: string)
    requires Count(recs, ModelKey(state)) == 0
    ensures Replaced(rules, recs, state, plan, comments) == recs
  {
    CountZero(recs, ModelKey(state));
  }

  /** With at most one match, the server's first-match delete removes the key altogether. */
  lemma DeleteFirstIsWithout(recs: seq<Record>, params: Params, k: Key)
    requires Target(params) == k && Count(recs, k) <= 1
    ensures match DeleteFirst(recs, params)
      case Done(r) => r == Without(recs, k)
      case _ => recs == Without(recs, k)
  {
    WithoutAtMostOne(recs, k);
  }

  lemma WithoutAtMostOne(recs: seq<Record>, k: Key)
    requires Count(recs, k) <= 1
    ensures var i := FirstMatch(recs, k);
      Without(recs, k) == if i < |recs| then recs[..i] + recs[i + 1..] else recs
  {
    CountAround(recs, k);
    if FirstMatch(recs, k) < |recs| {
      WithoutOne(recs, k, FirstMatch(recs, k));
    } else {
      WithoutNone(recs, k);
    }
  }

  lemma WithoutOne(recs: seq<Record>, k: Key, i: nat)
    requires i < |recs| && i == FirstMatch(recs, k) && Count(recs[i + 1..], k) == 0
    ensures Without(recs, k) == recs[..i] + recs[i + 1..]
  {
    CountZero(recs[..i], k);
    assert recs == recs[..i] + ([recs[i]] + recs[i + 1..]);
    WithoutMiddle(recs[..i], recs[i], recs[i + 1..], k);
  }

  lemma WithoutMiddle(front: seq<Record>, rec: Record, back: seq<Record>, k: Key)
    requires Count(front, k) == 0 && Matches(rec, k) && Count(back, k) == 0
    ensures Without(front + ([rec] + back), k) == front + back
  {
    WithoutConcat(front, [rec] + back, k);
    WithoutNone(front, k);
    WithoutHead(rec, back, k);
  }

  lemma WithoutHead(rec: Record, back: seq<Record>, k: Key)
    requires Matches(rec, k) && Count(back, k) == 0
    ensures Without([rec] + back, k) == back
  {
    assert ([rec] + back)[1..] == back;
    WithoutNone(back, k);
  }
}
