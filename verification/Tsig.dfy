/** TSIG keys: a list in the server settings, rewritten as a whole through one parameter.
    internal/client/tsig.go; the redaction list of internal/client/client.go */
module Tsig {
  import opened Text
  import opened WireTable

  datatype Key = Key(keyName: string, sharedSecret: string, algorithmName: string)

  function KeyRow(): Key -> Row {
    (k: Key) => [k.keyName, k.sharedSecret, k.algorithmName]
  }

  function KeyOf(): Row -> Option<Key> {
    (c: Row) => if |c| == 3 then Some(Key(c[0], c[1], c[2])) else None
  }

  predicate PipeFree(k: Key) {
    '|' !in k.keyName && '|' !in k.sharedSecret && '|' !in k.algorithmName
  }

  predicate AllPipeFree(keys: seq<Key>) {
    forall i :: 0 <= i < |keys| ==> PipeFree(keys[i])
  }

  const CLEARED := "false"

  function EncodeKeys(keys: seq<Key>): string {
    if keys == [] then CLEARED else EncodeTable(keys, KeyRow())
  }

  /** How the server reads the parameter. */
  function DecodeKeys(value: string): Option<seq<Key>> {
    if value == CLEARED then Some([]) else DecodeTable(value, 3, KeyOf())
  }

  /** The wire form carries a pipe-free list unchanged, and "false" is the empty list alone. */
  lemma KeysRoundTrip(keys: seq<Key>)
    requires AllPipeFree(keys)
    ensures DecodeKeys(EncodeKeys(keys)) == Some(keys)
    ensures EncodeKeys(keys) == CLEARED <==> keys == []
  {
    forall i | 0 <= i < |keys| ensures Readable(keys[i], KeyRow(), KeyOf(), 3) { assert PipeFree(keys[i]); }
    TableRoundTrip(keys, KeyRow(), KeyOf(), 3);
    assert '|' !in CLEARED;
  }

  // ---------------------------------------------------------------- the list and its operations

  predicate Named(k: Key, name: string) {
    EqualFold(k.keyName, name)
  }

  /** The position of the first key of that name, letter case aside, or |keys|. */
  function Find(keys: seq<Key>, name: string): (i: nat)
    ensures i <= |keys|
    ensures i < |keys| ==> Named(keys[i], name)
    ensures forall j :: 0 <= j < i ==> !Named(keys[j], name)
  {
    if keys == [] || Named(keys[0], name) then 0 else 1 + Find(keys[1..], name)
  }

  /** The key a lookup finds, if any. */
  function Lookup(keys: seq<Key>, n: string): Option<Key> {
    var i := Find(keys, n);
    if i < |keys| then Some(keys[i]) else None
  }

  /** The keys of every other name, in order. */
  function Others(keys: seq<Key>, name: string): (r: seq<Key>)
    ensures forall k :: k in r ==> k in keys && !Named(k, name)
  {
    if keys == [] then [] else (if Named(keys[0], name) then [] else [keys[0]]) + Others(keys[1..], name)
  }

  function CreateEffect(keys: seq<Key>, key: Key): Option<seq<Key>> {
    if !PipeFree(key) || Find(keys, key.keyName) < |keys| then None else Some(keys + [key])
  }

  function UpdateEffect(keys: seq<Key>, key: Key): Option<seq<Key>> {
    var i := Find(keys, key.keyName);
    if !PipeFree(key) || i == |keys| then None else Some(keys[i := key])
  }

  function DeleteEffect(keys: seq<Key>, name: string): seq<Key> {
    Others(keys, name)
  }

  /** What the server holds after a list has been written: what it reads out of the parameter. */
  function Written(keys: seq<Key>): Option<seq<Key>> {
    DecodeKeys(EncodeKeys(keys))
  }

  function Rewritten(effect: Option<seq<Key>>): Option<seq<Key>> {
    if effect.Some? then Written(effect.value) else None
  }

  class SettingsServer {
    var tsigKeys: seq<Key>

    constructor (keys: seq<Key>)
      ensures tsigKeys == keys
    {
      tsigKeys := keys;
    }

    method SettingsSet(value: string, fault: bool) returns (ok: bool)
      modifies this
      ensures ok <==> !fault && DecodeKeys(value).Some?
      ensures tsigKeys == if ok then DecodeKeys(value).value else old(tsigKeys)
    {
      var decoded := DecodeKeys(value);
      ok := !fault && decoded.Some?;
      if ok {
        tsigKeys := decoded.value;
      }
    }
  }

  class Client {
    const server: SettingsServer

    constructor (server: SettingsServer)
      ensures this.server == server
    {
      this.server := server;
    }

    method TSIGKeyGet(keyName: string, listFault: bool) returns (ok: bool, r: Option<Key>)
      ensures ok == !listFault
      ensures ok ==> r == Lookup(server.tsigKeys, keyName)
    {
      if listFault {
        return false, None;
      }
      var keys := server.tsigKeys;
      for i := 0 to |keys|
        invariant forall j :: 0 <= j < i ==> !Named(keys[j], keyName)
      {
        if Named(keys[i], keyName) {
          return true, Some(keys[i]);
        }
      }
      return true, None;
    }

    /** Sends the whole list; a list without pipes arrives as it is, by KeysRoundTrip. */
    method WriteTSIGKeys(keys: seq<Key>, fault: bool) returns (ok: bool)
      modifies server
      ensures ok == (!fault && Written(keys).Some?)
      ensures server.tsigKeys == if ok then Written(keys).value else old(server.tsigKeys)
    {
      var value := CLEARED;
      if |keys| > 0 {
        value := Flatten(keys, KeyRow());
      }
      ok := server.SettingsSet(value, fault);
    }

    method TSIGKeyCreate(key: Key, listFault: bool, writeFault: bool) returns (ok: bool)
      modifies server
      ensures ok <==> !listFault && !writeFault && Rewritten(CreateEffect(old(server.tsigKeys), key)).Some?
      ensures server.tsigKeys ==
        if ok then Rewritten(CreateEffect(old(server.tsigKeys), key)).value else old(server.tsigKeys)
    {
      if !PipeFree(key) {
        return false;
      }
      var keys := server.tsigKeys;
      var listed, existing := TSIGKeyGet(key.keyName, listFault);
      if !listed || existing.Some? {
        return false;
      }
      ok := WriteTSIGKeys(keys + [key], writeFault);
    }

    method TSIGKeyUpdate(key: Key, listFault: bool, writeFault: bool) returns (ok: bool)
      modifies server
      ensures ok <==> !listFault && !writeFault && Rewritten(UpdateEffect(old(server.tsigKeys), key)).Some?
      ensures server.tsigKeys ==
        if ok then Rewritten(UpdateEffect(old(server.tsigKeys), key)).value else old(server.tsigKeys)
    {
      if !PipeFree(key) || listFault {
        return false;
      }
      var keys := server.tsigKeys;
      var found := false;
      var i := 0;
      while i < |keys| && !found
        invariant 0 <= i <= |keys| == |server.tsigKeys|
        invariant !found ==> keys == server.tsigKeys && i <= Find(server.tsigKeys, key.keyName)
        invariant found ==> UpdateEffect(server.tsigKeys, key) == Some(keys)
        decreases |keys| - i, !found
      {
        if Named(keys[i], key.keyName) {
          keys := keys[i := key];
          found := true;
        } else {
          i := i + 1;
        }
      }
      if !found {
        return false;
      }
      ok := WriteTSIGKeys(keys, writeFault);
    }

    /** Deleting a key that is not there succeeds without a write. */
    method TSIGKeyDelete(keyName: string, listFault: bool, writeFault: bool) returns (ok: bool)
      modifies server
      ensures var missing := Find(old(server.tsigKeys), keyName) == |old(server.tsigKeys)|;
        var written := Written(DeleteEffect(old(server.tsigKeys), keyName));
        && (ok <==> !listFault && (missing || (!writeFault && written.Some?)))
        && server.tsigKeys == if ok && !missing then written.value else old(server.tsigKeys)
    {
      if listFault {
        return false;
      }
      var keys := server.tsigKeys;
      var filtered: seq<Key> := [];
      for i := 0 to |keys|
        invariant server.tsigKeys == keys
        invariant filtered == Others(keys[..i], keyName)
      {
        OthersConcat(keys[..i], [keys[i]], keyName);
        assert keys[..i + 1] == keys[..i] + [keys[i]];
        if !Named(keys[i], keyName) {
          filtered := filtered + [keys[i]];
        }
      }
      assert keys[..|keys|] == keys;
      assert filtered == Others(keys, keyName);
      OthersFacts(keys, keyName);
      if |filtered| == |keys| {
        return true;
      }
      ok := WriteTSIGKeys(filtered, writeFault);
    }
  }

  lemma {:induction false} OthersConcat(a: seq<Key>, b: seq<Key>, name: string)
    ensures Others(a + b, name) == Others(a, name) + Others(b, name)
  {
    if a == [] {
      assert a + b == b;
    } else {
      assert (a + b)[1..] == a[1..] + b;
      OthersConcat(a[1..], b, name);
    }
  }

  lemma {:induction false} OthersFacts(keys: seq<Key>, name: string)
    ensures |Others(keys, name)| <= |keys|
    ensures |Others(keys, name)| == |keys| <==> Find(keys, name) == |keys|
    ensures Find(keys, name) == |keys| ==> Others(keys, name) == keys
  {
    if keys != [] {
      OthersFacts(keys[1..], name);
    }
  }

  lemma OthersPipeFree(keys: seq<Key>, name: string)
    requires AllPipeFree(keys)
    ensures AllPipeFree(Others(keys, name))
  {
    var r := Others(keys, name);
    forall i | 0 <= i < |r| ensures PipeFree(r[i]) {
      assert r[i] in r;
    }
  }

  // ---------------------------------------------------------------- a case-insensitive map

  /** No two keys share a name, letter case aside. */
  predicate UniqueNames(keys: seq<Key>) {
    forall i, j :: 0 <= i < j < |keys| ==> !EqualFold(keys[i].keyName, keys[j].keyName)
  }

  function AsMap(keys: seq<Key>): map<string, Key> {
    if keys == [] then map[] else AsMap(keys[1..])[Lower(keys[0].keyName) := keys[0]]
  }

  lemma {:induction false} AsMapAt(keys: seq<Key>, name: string)
    ensures Lower(name) in AsMap(keys) <==> Find(keys, name) < |keys|
    ensures Find(keys, name) < |keys| ==> AsMap(keys)[Lower(name)] == keys[Find(keys, name)]
  {
    if keys != [] {
      AsMapAt(keys[1..], name);
    }
  }

  lemma {:induction false} LowerIdempotent(s: string)
    ensures Lower(Lower(s)) == Lower(s)
  {
    var l := Lower(s);
    assert forall i :: 0 <= i < |s| ==> LowerChar(l[i]) == l[i];
  }

  /** Every key of the map is a lower-cased name. */
  lemma {:induction false} AsMapKeys(keys: seq<Key>, m: string)
    requires m in AsMap(keys)
    ensures Lower(m) == m
  {
    LowerIdempotent(keys[0].keyName);
    if m != Lower(keys[0].keyName) {
      AsMapKeys(keys[1..], m);
    }
  }

  /** m answers as the list does. */
  ghost predicate AnswersAs(m: map<string, Key>, keys: seq<Key>, name: string) {
    && (Lower(name) in m <==> Find(keys, name) < |keys|)
    && (Find(keys, name) < |keys| ==> Lower(name) in m && m[Lower(name)] == keys[Find(keys, name)])
  }

  lemma SameLookup(m: map<string, Key>, keys: seq<Key>, n: string)
    requires n in m ==> Lower(n) == n
    requires AnswersAs(m, keys, n)
    ensures n in m <==> n in AsMap(keys)
    ensures n in m ==> m[n] == AsMap(keys)[n]
  {
    AsMapAt(keys, n);
    if n in AsMap(keys) { AsMapKeys(keys, n); }
  }

  lemma SameLookups(m: map<string, Key>, keys: seq<Key>)
    requires forall n :: n in m ==> Lower(n) == n
    requires forall n: string :: AnswersAs(m, keys, n)
    ensures AsMap(keys) == m
  {
    forall n ensures (n in m <==> n in AsMap(keys)) && (n in m ==> m[n] == AsMap(keys)[n]) {
      assert AnswersAs(m, keys, n);
      SameLookup(m, keys, n);
    }
  }

  lemma FindAppended(keys: seq<Key>, key: Key, n: string)
    ensures var i := Find(keys, n);
      Find(keys + [key], n) == if i < |keys| then i else if Named(key, n) then |keys| else |keys| + 1
  {
    var both, i := keys + [key], Find(keys, n);
    var j := Find(both, n);
    assert forall k :: 0 <= k < |keys| ==> both[k] == keys[k];
    assert both[|keys|] == key;
    if i < |keys| { assert Named(both[i], n); }
  }

  lemma FindReplaced(keys: seq<Key>, i: nat, key: Key, n: string)
    requires i < |keys| && EqualFold(keys[i].keyName, key.keyName)
    ensures Find(keys[i := key], n) == Find(keys, n)
  {
    var after := keys[i := key];
    assert forall k :: 0 <= k < |keys| ==> (Named(after[k], n) <==> Named(keys[k], n));
    var a, b := Find(after, n), Find(keys, n);
    if a < |keys| { assert Named(keys[a], n); }
    if b < |keys| { assert Named(after[b], n); }
  }

  /** A create adds one name to the map, an update rewrites one, and a delete removes one; each
      leaves every other key, and their order, alone. */
  lemma CreateRefinesMap(keys: seq<Key>, key: Key)
    ensures match CreateEffect(keys, key)
      case None => !PipeFree(key) || Lower(key.keyName) in AsMap(keys)
      case Some(after) =>
        && Lower(key.keyName) !in AsMap(keys)
        && AsMap(after) == AsMap(keys)[Lower(key.keyName) := key]
        && Others(after, key.keyName) == Others(keys, key.keyName)
  {
    AsMapAt(keys, key.keyName);
    if CreateEffect(keys, key).Some? {
      var m := AsMap(keys)[Lower(key.keyName) := key];
      LowerIdempotent(key.keyName);
      forall n | n in m ensures Lower(n) == n { if n in AsMap(keys) { AsMapKeys(keys, n); } }
      forall n: string ensures AnswersAs(m, keys + [key], n) {
        FindAppended(keys, key, n);
        AsMapAt(keys, n);
      }
      SameLookups(m, keys + [key]);
      OthersConcat(keys, [key], key.keyName);
    }
  }

  lemma UpdateRefinesMap(keys: seq<Key>, key: Key)
    ensures match UpdateEffect(keys, key)
      case None => !PipeFree(key) || Lower(key.keyName) !in AsMap(keys)
      case Some(after) =>
        && Lower(key.keyName) in AsMap(keys)
        && AsMap(after) == AsMap(keys)[Lower(key.keyName) := key]
        && |after| == |keys|
        && forall i :: 0 <= i < |keys| && i != Find(keys, key.keyName) ==> after[i] == keys[i]
  {
    AsMapAt(keys, key.keyName);
    if UpdateEffect(keys, key).Some? {
      var i := Find(keys, key.keyName);
      var after := keys[i := key];
      var m := AsMap(keys)[Lower(key.keyName) := key];
      forall n | n in m ensures Lower(n) == n {
        LowerIdempotent(key.keyName);
        if n in AsMap(keys) { AsMapKeys(keys, n); }
      }
      forall n: string ensures AnswersAs(m, after, n) {
        FindReplaced(keys, i, key, n);
        AsMapAt(keys, n);
        if Lower(n) == Lower(key.keyName) { SameNameSameFind(keys, n, key.keyName); }
      }
      SameLookups(m, after);
    }
  }

  lemma SameNameSameFind(keys: seq<Key>, a: string, b: string)
    requires EqualFold(a, b)
    ensures Find(keys, a) == Find(keys, b)
  {
    var i, j := Find(keys, a), Find(keys, b);
    if i < |keys| { assert Named(keys[i], b); }
    if j < |keys| { assert Named(keys[j], a); }
  }

  lemma LookupStep(k: Key, rest: seq<Key>, n: string)
    ensures Lookup([k] + rest, n) == if Named(k, n) then Some(k) else Lookup(rest, n)
  {
    assert ([k] + rest)[1..] == rest;
  }

  lemma {:induction false} LookupAmongOthers(keys: seq<Key>, name: string, n: string)
    ensures Lookup(Others(keys, name), n) == if EqualFold(n, name) then None else Lookup(keys, n)
  {
    if keys != [] {
      LookupAmongOthers(keys[1..], name, n);
      assert keys == [keys[0]] + keys[1..];
      LookupStep(keys[0], keys[1..], n);
      if Named(keys[0], name) {
        assert Others(keys, name) == Others(keys[1..], name);
      } else {
        assert Others(keys, name) == [keys[0]] + Others(keys[1..], name);
        LookupStep(keys[0], Others(keys[1..], name), n);
      }
    }
  }

  lemma DeleteRefinesMap(keys: seq<Key>, name: string)
    ensures AsMap(DeleteEffect(keys, name)) == AsMap(keys) - {Lower(name)}
  {
    var after, m := Others(keys, name), AsMap(keys) - {Lower(name)};
    forall n | n in m ensures Lower(n) == n { AsMapKeys(keys, n); }
    forall n: string ensures AnswersAs(m, after, n) {
      LookupAmongOthers(keys, name, n);
      AsMapAt(keys, n);
    }
    SameLookups(m, after);
  }

  // ---------------------------------------------------------------- runs

  datatype Op = CreateKey(key: Key, lost: bool) | UpdateKey(key: Key, lost: bool) | DeleteKey(name: string, lost: bool)

  /** The list an operation is to write, None when it writes nothing. */
  function Effect(keys: seq<Key>, op: Op): Option<seq<Key>> {
    match op
    case CreateKey(key, _) => CreateEffect(keys, key)
    case UpdateKey(key, _) => UpdateEffect(keys, key)
    case DeleteKey(name, _) => if Find(keys, name) == |keys| then None else Some(DeleteEffect(keys, name))
  }

  function Or(effect: Option<seq<Key>>, keys: seq<Key>): seq<Key> {
    if effect.Some? then effect.value else keys
  }

  function Step(keys: seq<Key>, op: Op): seq<Key> {
    if op.lost then keys else Or(Rewritten(Effect(keys, op)), keys)
  }

  function Run(keys: seq<Key>, ops: seq<Op>): seq<Key>
    decreases |ops|
  {
    if ops == [] then keys else Run(Step(keys, ops[0]), ops[1..])
  }

  lemma {:induction false} OthersUnique(keys: seq<Key>, name: string)
    requires UniqueNames(keys)
    ensures UniqueNames(Others(keys, name))
  {
    if keys != [] {
      assert forall i, j :: 0 <= i < j < |keys[1..]| ==> keys[1..][i] == keys[i + 1] && keys[1..][j] == keys[j + 1];
      OthersUnique(keys[1..], name);
      var rest := Others(keys[1..], name);
      forall i | 0 <= i < |rest| ensures !EqualFold(keys[0].keyName, rest[i].keyName) {
        assert rest[i] in rest;
        var j :| 0 <= j < |keys[1..]| && keys[1..][j] == rest[i];
        assert keys[1..][j] == keys[j + 1];
      }
    }
  }

  lemma EffectIsClean(keys: seq<Key>, op: Op)
    requires UniqueNames(keys) && AllPipeFree(keys) && Effect(keys, op).Some?
    ensures UniqueNames(Effect(keys, op).value) && AllPipeFree(Effect(keys, op).value)
  {
    if op.DeleteKey? {
      OthersUnique(keys, op.name);
      OthersPipeFree(keys, op.name);
    }
  }

  /** From a list without pipes and with unique names every step, through the wire, writes exactly
      what it means to write, and keeps the list so. */
  lemma StepIsExact(keys: seq<Key>, op: Op)
    requires UniqueNames(keys) && AllPipeFree(keys)
    ensures Step(keys, op) == if op.lost then keys else Or(Effect(keys, op), keys)
    ensures UniqueNames(Step(keys, op)) && AllPipeFree(Step(keys, op))
  {
    if Effect(keys, op).Some? {
      EffectIsClean(keys, op);
      KeysRoundTrip(Effect(keys, op).value);
    }
  }

  /** Over every run of creates, updates and deletes the names stay unique and pipe-free, so
      that every write arrives as it was meant. */
  lemma {:induction false} RunKeepsNames(keys: seq<Key>, ops: seq<Op>)
    requires UniqueNames(keys) && AllPipeFree(keys)
    ensures UniqueNames(Run(keys, ops)) && AllPipeFree(Run(keys, ops))
    ensures Written(Run(keys, ops)) == Some(Run(keys, ops))
    decreases |ops|
  {
    if ops == [] {
      KeysRoundTrip(keys);
    } else {
      StepIsExact(keys, ops[0]);
      RunKeepsNames(Step(keys, ops[0]), ops[1..]);
    }
  }

  /** What an operation means to a map from lower-cased names to keys. */
  function MapStep(m: map<string, Key>, op: Op): map<string, Key> {
    if op.lost then m
    else match op
      case CreateKey(key, _) => if PipeFree(key) && Lower(key.keyName) !in m then m[Lower(key.keyName) := key] else m
      case UpdateKey(key, _) => if PipeFree(key) && Lower(key.keyName) in m then m[Lower(key.keyName) := key] else m
      case DeleteKey(name, _) => m - {Lower(name)}
  }

  function MapRun(m: map<string, Key>, ops: seq<Op>): map<string, Key>
    decreases |ops|
  {
    if ops == [] then m else MapRun(MapStep(m, ops[0]), ops[1..])
  }

  lemma EffectRefinesMap(keys: seq<Key>, op: Op)
    requires !op.lost
    ensures AsMap(Or(Effect(keys, op), keys)) == MapStep(AsMap(keys), op)
  {
    match op {
      case CreateKey(key, _) => CreateRefinesMap(keys, key);
      case UpdateKey(key, _) => UpdateRefinesMap(keys, key);
      case DeleteKey(name, _) =>
        AsMapAt(keys, name);
        DeleteRefinesMap(keys, name);
        if Find(keys, name) == |keys| {
          assert AsMap(keys) - {Lower(name)} == AsMap(keys);
        }
    }
  }

  /** Over every run the list, rewritten through the wire, is the map. */
  lemma {:induction false} RunRefinesMap(keys: seq<Key>, ops: seq<Op>)
    requires UniqueNames(keys) && AllPipeFree(keys)
    ensures AsMap(Run(keys, ops)) == MapRun(AsMap(keys), ops)
    decreases |ops|
  {
    if ops != [] {
      StepIsExact(keys, ops[0]);
      if !ops[0].lost {
        EffectRefinesMap(keys, ops[0]);
      }
      RunRefinesMap(Step(keys, ops[0]), ops[1..]);
    }
  }

  // ---------------------------------------------------------------- secrets to redact

  /** Every third cell from position i on. */
  function EveryThird(parts: seq<string>, i: nat): seq<string>
    decreases |parts| - i
  {
    if i >= |parts| then [] else [parts[i]] + EveryThird(parts, i + 3)
  }

  function AllSecrets(values: seq<string>): seq<string> {
    if values == [] then [] else EveryThird(Split(values[0], '|'), 1) + AllSecrets(values[1..])
  }

  function Values(params: map<string, seq<string>>, names: seq<string>): seq<string> {
    if names == [] then []
    else (if names[0] in params then params[names[0]] else []) + Values(params, names[1..])
  }

  const SECRET_PARAMS := ["pass", "newPass", "proxyPassword", "primaryNodePassword", "primaryNodeTotp",
                          "ssoClientSecret", "webServiceTlsCertificatePassword"]

  function Redacted(params: map<string, seq<string>>): seq<string> {
    Values(params, SECRET_PARAMS) + AllSecrets(Values(params, ["tsigKeys"]))
  }

  method CollectValues(params: map<string, seq<string>>, names: seq<string>) returns (out: seq<string>)
    ensures out == Values(params, names)
  {
    out := [];
    for k := 0 to |names|
      invariant out + Values(params, names[k..]) == Values(params, names)
    {
      assert names[k..][1..] == names[k + 1..];
      if names[k] in params {
        out := out + params[names[k]];
      }
    }
  }

  /** All the values of the secret parameters, then the secret cells of the key table. */
  method RequestSecrets(params: map<string, seq<string>>) returns (out: seq<string>)
    ensures out == Redacted(params)
  {
    out := CollectValues(params, SECRET_PARAMS);
    var values := CollectValues(params, ["tsigKeys"]);
    ghost var first := out;
    for v := 0 to |values|
      invariant out + AllSecrets(values[v..]) == first + AllSecrets(values)
    {
      assert values[v..][1..] == values[v + 1..];
      ghost var before := out;
      out := AppendSecrets(out, Split(values[v], '|'));
      assert before + AllSecrets(values[v..]) == out + AllSecrets(values[v + 1..]);
    }
  }

  method AppendSecrets(before: seq<string>, parts: seq<string>) returns (out: seq<string>)
    ensures out == before + EveryThird(parts, 1)
  {
    out := before;
    var i := 1;
    while i < |parts|
      invariant i >= 1
      invariant out + EveryThird(parts, i) == before + EveryThird(parts, 1)
      decreases |parts| - i
    {
      out := out + [parts[i]];
      i := i + 3;
    }
  }

  lemma {:induction false} EveryThirdOfCells(front: seq<string>, keys: seq<Key>)
    ensures EveryThird(front + Cells(Rows(keys, KeyRow())), |front| + 1)
         == seq(|keys|, i requires 0 <= i < |keys| => keys[i].sharedSecret)
    decreases |keys|
  {
    var parts := front + Cells(Rows(keys, KeyRow()));
    if keys != [] {
      assert Rows(keys, KeyRow())[1..] == Rows(keys[1..], KeyRow());
      var next := front + KeyRow()(keys[0]);
      assert parts == next + Cells(Rows(keys[1..], KeyRow()));
      EveryThirdOfCells(next, keys[1..]);
      assert parts[|front| + 1] == keys[0].sharedSecret;
    }
  }

  lemma SecretsOfCells(keys: seq<Key>, cells: seq<string>)
    requires cells == Cells(Rows(keys, KeyRow()))
    ensures EveryThird(cells, 1) == seq(|keys|, i requires 0 <= i < |keys| => keys[i].sharedSecret)
  {
    var none: seq<string> := [];
    assert none + cells == cells;
    EveryThirdOfCells(none, keys);
  }

  lemma KeysComeApart(keys: seq<Key>)
    requires keys != [] && AllPipeFree(keys)
    ensures Split(EncodeKeys(keys), '|') == Cells(Rows(keys, KeyRow()))
  {
    var rows := Rows(keys, KeyRow());
    forall i | 0 <= i < |rows| ensures CleanRow(rows[i], 3) { assert PipeFree(keys[i]); }
    CellsAreClean(rows, 3);
    SplitJoin(Cells(rows), '|');
  }

  lemma {:induction false} ValuesOf(params: map<string, seq<string>>, names: seq<string>, s: string)
    ensures s in Values(params, names) <==> exists i :: 0 <= i < |names| && names[i] in params && s in params[names[i]]
  {
    if names != [] {
      ValuesOf(params, names[1..], s);
      assert forall i :: 1 <= i < |names| ==> names[i] == names[1..][i - 1];
      if i :| 0 <= i < |names[1..]| && names[1..][i] in params && s in params[names[1..][i]] {
        assert names[i + 1] in params;
      }
    }
  }

  lemma OneValue(params: map<string, seq<string>>, name: string)
    requires name in params
    ensures Values(params, [name]) == params[name]
  {
    assert [name][1..] == [] && Values(params, []) == [];
  }

  /** What is redacted from the request that writes a list of keys is every value of a secret parameter,
      every secret of the list, and nothing else. */
  lemma RedactedFromWrite(params: map<string, seq<string>>, keys: seq<Key>, s: string)
    requires AllPipeFree(keys) && "tsigKeys" in params && params["tsigKeys"] == [EncodeKeys(keys)]
    ensures s in Redacted(params) <==>
      || (exists i :: 0 <= i < |SECRET_PARAMS| && SECRET_PARAMS[i] in params && s in params[SECRET_PARAMS[i]])
      || (exists i :: 0 <= i < |keys| && keys[i].sharedSecret == s)
  {
    var values, secrets := params["tsigKeys"], EveryThird(Split(EncodeKeys(keys), '|'), 1);
    ValuesOf(params, SECRET_PARAMS, s);
    OneValue(params, "tsigKeys");
    assert values[1..] == [] && AllSecrets(values) == secrets + AllSecrets([]) == secrets;
    SecretsOfWrite(keys);
    assert forall i :: 0 <= i < |keys| ==> secrets[i] == keys[i].sharedSecret;
  }

  /** The secret cells of a list as it is written are exactly its secrets. */
  lemma SecretsOfWrite(keys: seq<Key>)
    requires AllPipeFree(keys)
    ensures EveryThird(Split(EncodeKeys(keys), '|'), 1)
         == seq(|keys|, i requires 0 <= i < |keys| => keys[i].sharedSecret)
  {
    if keys == [] {
      SplitNone(CLEARED, '|');
    } else {
      KeysComeApart(keys);
      SecretsOfCells(keys, Cells(Rows(keys, KeyRow())));
    }
  }
}
