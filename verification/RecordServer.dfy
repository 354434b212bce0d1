/** The DNS server's records of one name, and its documented rules for finding, adding,
    updating and deleting a forwarder (FWD) record.
    internal/client/records.go, internal/provider/record_fwd_guard.go:15-35 */
module RecordServer {
  import opened Text

  datatype Record = Record(
    rtype: string, value: string, protocol: string, priority: Int64, dnssec: bool, comments: string)

  /** All the server looks at when it has to find an FWD record. */
  datatype Key = Key(forwarder: string, protocol: string)

  /** The parameters of the record endpoints, by the names they go under on the wire. */
  datatype ParamName =
    Forwarder | NewForwarder | Protocol | NewProtocol | ForwarderPriority | NewForwarderPriority |
    DnssecValidation | Comments

  type Params = map<ParamName, string>

  /** Points on which server versions, or readings of an omitted parameter, differ.
      refusesDuplicateAdd: 15.5 refuses an add whose key is taken, 15.4 accepts it.
      keepsOmittedProtocol: an update without newProtocol keeps the stored protocol;
      when false it means Udp, as an omitted protocol does everywhere else. */
  datatype Rules = Rules(refusesDuplicateAdd: bool, keepsOmittedProtocol: bool)

  /** An API answer: a value, "no such zone or record", or any other failure. */
  datatype Reply<+T> = Done(value: T) | Gone | Failed

  function FwdProtocol(p: string): string {
    if p == "" then "udp" else Lower(p)
  }

  function FwdKey(forwarder: string, protocol: string): Key {
    Key(Lower(forwarder), FwdProtocol(protocol))
  }

  function KeyOf(rec: Record): Key {
    FwdKey(rec.value, rec.protocol)
  }

  predicate Matches(rec: Record, k: Key) {
    rec.rtype == "FWD" && KeyOf(rec) == k
  }

  function Count(recs: seq<Record>, k: Key): nat {
    if recs == [] then 0 else (if Matches(recs[0], k) then 1 else 0) + Count(recs[1..], k)
  }

  /** The position of the first-created match, or |recs|. */
  function FirstMatch(recs: seq<Record>, k: Key): (i: nat)
    ensures i <= |recs|
    ensures i < |recs| ==> Matches(recs[i], k)
    ensures forall j :: 0 <= j < i ==> !Matches(recs[j], k)
  {
    if recs == [] || Matches(recs[0], k) then 0 else 1 + FirstMatch(recs[1..], k)
  }

  function OtherTypes(recs: seq<Record>): (r: seq<Record>)
    ensures forall i :: 0 <= i < |r| ==> r[i].rtype != "FWD"
  {
    if recs == [] then []
    else (if recs[0].rtype == "FWD" then [] else [recs[0]]) + OtherTypes(recs[1..])
  }

  /** recs without the records the server takes for k. */
  function Without(recs: seq<Record>, k: Key): seq<Record> {
    if recs == [] then []
    else (if Matches(recs[0], k) then [] else [recs[0]]) + Without(recs[1..], k)
  }

  // ---------------------------------------------------------------- requests, as the server reads them

  function Param(params: Params, name: ParamName, default: string): string {
    if name in params then params[name] else default
  }

  function IntParam(params: Params, name: ParamName, default: Int64): Int64 {
    if name !in params then default
    else match ParseInt64(params[name]) case Some(n) => n case None => default
  }

  function ProtocolOr(p: string, default: string): string {
    if p == "" then default else p
  }

  function AddedRecord(params: Params): Record {
    Record("FWD", Param(params, Forwarder, ""), ProtocolOr(Param(params, Protocol, ""), "Udp"),
           IntParam(params, ForwarderPriority, 0), Param(params, DnssecValidation, "false") == "true",
           Param(params, Comments, ""))
  }

  function Target(params: Params): Key {
    FwdKey(Param(params, Forwarder, ""), Param(params, Protocol, ""))
  }

  /** An update leaves nothing to chance: an omitted dnssecValidation becomes false and an
      omitted comment is cleared. */
  function UpdatedRecord(rules: Rules, prior: Record, params: Params): Record {
    Record("FWD", Param(params, NewForwarder, Param(params, Forwarder, "")),
           if NewProtocol in params then ProtocolOr(params[NewProtocol], "Udp")
           else if rules.keepsOmittedProtocol then prior.protocol else "Udp",
           IntParam(params, NewForwarderPriority, prior.priority),
           Param(params, DnssecValidation, "false") == "true",
           Param(params, Comments, ""))
  }

  // ---------------------------------------------------------------- server steps

  function AddRecord(rules: Rules, recs: seq<Record>, rec: Record, overwrite: bool): Reply<seq<Record>> {
    if overwrite then Done(OtherTypes(recs) + [rec])
    else if rules.refusesDuplicateAdd && Count(recs, KeyOf(rec)) > 0 then Failed
    else Done(recs + [rec])
  }

  /** The match at i becomes rec.  When the key does not change, every later record of that
      key collapses into it. */
  function MergedAt(recs: seq<Record>, i: nat, k: Key, rec: Record): seq<Record>
    requires i < |recs|
  {
    recs[..i] + [rec] + (if KeyOf(rec) == k then Without(recs[i + 1..], k) else recs[i + 1..])
  }

  function UpdateFirst(rules: Rules, recs: seq<Record>, params: Params): Reply<seq<Record>> {
    var k := Target(params);
    var i := FirstMatch(recs, k);
    if i == |recs| then Failed
    else Done(MergedAt(recs, i, k, UpdatedRecord(rules, recs[i], params)))
  }

  function DeleteFirst(recs: seq<Record>, params: Params): Reply<seq<Record>> {
    var i := FirstMatch(recs, Target(params));
    if i == |recs| then Gone else Done(recs[..i] + recs[i + 1..])
  }

  /** What a call answers, given what it would do: a lost call has had no effect. */
  function Answer<T>(zone: bool, fault: bool, r: Reply<T>): Reply<T> {
    if fault then Failed else if !zone then Gone else r
  }

  class Server {
    const rules: Rules
    var zone: bool            // the zone still exists
    var records: seq<Record>  // all records of the name, oldest first
    var mutations: nat        // add, update and delete requests received

    constructor (rules: Rules, records: seq<Record>)
      ensures this.rules == rules && zone && this.records == records && mutations == 0
    {
      this.rules, this.zone, this.records, this.mutations := rules, true, records, 0;
    }

    method RecordGet(fault: bool) returns (r: Reply<seq<Record>>)
      ensures r == Answer(zone, fault, Done(records))
    {
      r := Answer(zone, fault, Done(records));
    }

    method RecordAdd(params: Params, overwrite: bool, fault: bool) returns (r: Reply<seq<Record>>)
      modifies this`records, this`mutations
      ensures mutations == old(mutations) + 1
      ensures r == Answer(zone, fault, AddRecord(rules, old(records), AddedRecord(params), overwrite))
      ensures records == if r.Done? then r.value else old(records)
    {
      mutations := mutations + 1;
      r := Answer(zone, fault, AddRecord(rules, records, AddedRecord(params), overwrite));
      if r.Done? { records := r.value; }
    }

    method RecordUpdate(params: Params, fault: bool) returns (r: Reply<seq<Record>>)
      modifies this`records, this`mutations
      ensures mutations == old(mutations) + 1
      ensures r == Answer(zone, fault, UpdateFirst(rules, old(records), params))
      ensures records == if r.Done? then r.value else old(records)
    {
      mutations := mutations + 1;
      r := Answer(zone, fault, UpdateFirst(rules, records, params));
      if r.Done? { records := r.value; }
    }

    method RecordDelete(params: Params, fault: bool) returns (r: Reply<seq<Record>>)
      modifies this`records, this`mutations
      ensures mutations == old(mutations) + 1
      ensures r == Answer(zone, fault, DeleteFirst(old(records), params))
      ensures records == if r.Done? then r.value else old(records)
    {
      mutations := mutations + 1;
      r := Answer(zone, fault, DeleteFirst(records, params));
      if r.Done? { records := r.value; }
    }
  }

  // ---------------------------------------------------------------- laws of the steps

  /** No two records the server would take for one another. */
  ghost predicate Unique(recs: seq<Record>) {
    forall k: Key :: Count(recs, k) <= 1
  }

  lemma {:induction false} CountConcat(a: seq<Record>, b: seq<Record>, k: Key)
    ensures Count(a + b, k) == Count(a, k) + Count(b, k)
  {
    if a == [] {
      assert a + b == b;
    } else {
      assert (a + b)[1..] == a[1..] + b;
      CountConcat(a[1..], b, k);
    }
  }

  lemma {:induction false} CountZero(recs: seq<Record>, k: Key)
    ensures Count(recs, k) == 0 <==> forall i :: 0 <= i < |recs| ==> !Matches(recs[i], k)
  {
    if recs != [] {
      CountZero(recs[1..], k);
      if Count(recs, k) == 0 {
        forall i | 0 <= i < |recs| ensures !Matches(recs[i], k) {
          assert i > 0 ==> recs[i] == recs[1..][i - 1];
        }
      } else if !Matches(recs[0], k) {
        var i :| 0 <= i < |recs[1..]| && Matches(recs[1..][i], k);
        assert Matches(recs[i + 1], k);
      }
    }
  }

  /** Around the first match: none before it, and one fewer after it. */
  lemma CountAround(recs: seq<Record>, k: Key)
    ensures var i := FirstMatch(recs, k);
      if i == |recs| then Count(recs, k) == 0
      else Count(recs[i + 1..], k) + 1 == Count(recs, k)
  {
    var i := FirstMatch(recs, k);
    CountZero(recs[..i], k);
    if i == |recs| {
      assert recs[..i] == recs;
    } else {
      assert recs == recs[..i] + [recs[i]] + recs[i + 1..];
      CountConcat(recs[..i] + [recs[i]], recs[i + 1..], k);
      CountConcat(recs[..i], [recs[i]], k);
    }
  }

  lemma {:induction false} WithoutNone(recs: seq<Record>, k: Key)
    requires Count(recs, k) == 0
    ensures Without(recs, k) == recs
  {
    if recs != [] {
      WithoutNone(recs[1..], k);
      assert recs == [recs[0]] + recs[1..];
    }
  }

  lemma {:induction false} WithoutConcat(a: seq<Record>, b: seq<Record>, k: Key)
    ensures Without(a + b, k) == Without(a, k) + Without(b, k)
  {
    if a == [] {
      assert a + b == b;
    } else {
      assert (a + b)[1..] == a[1..] + b;
      WithoutConcat(a[1..], b, k);
    }
  }

  /** Every record of another type stays, in its place among them, and no other. */
  lemma {:induction false} OtherTypesKeeps(front: seq<Record>, rec: Record, back: seq<Record>)
    ensures OtherTypes(front + ([rec] + back)) ==
      OtherTypes(front) + (if rec.rtype == "FWD" then [] else [rec]) + OtherTypes(back)
  {
    var all := front + ([rec] + back);
    if front == [] {
      assert all == [rec] + back && all[0] == rec && all[1..] == back;
    } else {
      assert all[0] == front[0] && all[1..] == front[1..] + ([rec] + back);
      OtherTypesKeeps(front[1..], rec, back);
    }
  }

  lemma {:induction false} OtherTypesCount(recs: seq<Record>, k: Key)
    ensures Count(OtherTypes(recs), k) == 0
  {
    CountZero(OtherTypes(recs), k);
  }
}
