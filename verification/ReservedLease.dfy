/** Standalone DHCP reservations: composite ids and MAC addresses in any spelling.
    internal/provider/dhcp_reserved_lease_resource.go */
module ReservedLease {
  import opened Text
  import opened DhcpTables

  // ---------------------------------------------------------------- ids

  function BuildID(scope: string, mac: string): string {
    scope + "::" + mac
  }

  /** Split at the last "::". */
  function ParseID(id: string): Option<(string, string)> {
    var idx := LastIndex(id, "::");
    if idx < 1 || idx + 2 >= |id| then None else Some((id[..idx], id[idx + 2..]))
  }

  lemma LastSeparator(scope: string, mac: string, j: int)
    requires |scope| < j && mac != "" && mac[0] != ':' && Index(mac, "::") < 0
    ensures !At(BuildID(scope, mac), "::", j)
  {
    var id := BuildID(scope, mac);
    if At(id, "::", j) {
      assert id[j] == id[j..j + 2][0] && id[j + 1] == id[j..j + 2][1];
      if j > |scope| + 1 {
        assert id[j..j + 2] == mac[j - |scope| - 2..j - |scope|];
        assert At(mac, "::", j - |scope| - 2);
      }
    }
  }

  /** Reading an id undoes writing it exactly for a scope that is not empty, whatever colons it
      holds, and a MAC text that is not empty, starts with no colon and holds no "::". */
  lemma IDRoundTrip(scope: string, mac: string)
    ensures ParseID(BuildID(scope, mac)) == Some((scope, mac)) <==>
      (scope != "" && mac != "" && mac[0] != ':' && Index(mac, "::") < 0)
  {
    var id := BuildID(scope, mac);
    var n := |scope|;
    assert id[n..n + 2] == "::" && At(id, "::", n);
    assert id[..n] == scope && id[n + 2..] == mac;
    if scope != "" && mac != "" && mac[0] != ':' && Index(mac, "::") < 0 {
      forall j | j > n ensures !At(id, "::", j) { LastSeparator(scope, mac, j); }
      assert LastIndex(id, "::") == n;
    }
    if mac != "" && mac[0] == ':' {
      assert id[n + 1..n + 3] == "::" && At(id, "::", n + 1);
    }
    var k := Index(mac, "::");
    if k >= 0 {
      assert id[n + 2 + k..n + 4 + k] == mac[k..k + 2] && At(id, "::", n + 2 + k);
    }
    assert ParseID(id) == Some((scope, mac)) ==> |id[..LastIndex(id, "::")]| == n;
  }

  // ---------------------------------------------------------------- spellings

  function MacChar(c: char): char {
    var u := UpperChar(c);
    if u == ':' then '-' else u
  }

  /** normalizeMAC: upper case, and every colon a dash. */
  function NormalizeMAC(mac: string): (r: string)
    ensures |r| == |mac|
  {
    seq(|mac|, i requires 0 <= i < |mac| => MacChar(mac[i]))
  }

  predicate MacEqual(a: string, b: string) {
    NormalizeMAC(a) == NormalizeMAC(b)
  }

  /** The server's normalized spelling is one of the equal ones, and it is its own. */
  lemma NormalFormIsEqual(mac: string)
    ensures MacEqual(NormalizeMAC(mac), mac)
    ensures NormalizeMAC(NormalizeMAC(mac)) == NormalizeMAC(mac)
  {
    assert forall i :: 0 <= i < |mac| ==> MacChar(MacChar(mac[i])) == MacChar(mac[i]);
  }

  /** The same letter or digit in any case, or both a separator. */
  predicate SameMacChar(a: char, b: char) {
    LowerChar(a) == LowerChar(b) || (a in {':', '-'} && b in {':', '-'})
  }

  /** Two spellings are equal exactly when they have the same characters in the same places, letter case
      and the kind of separator aside. */
  lemma MacEqualExactly(a: string, b: string)
    ensures MacEqual(a, b) <==> |a| == |b| && forall i :: 0 <= i < |a| ==> SameMacChar(a[i], b[i])
  {
    if |a| == |b| {
      forall i | 0 <= i < |a| ensures NormalizeMAC(a)[i] == NormalizeMAC(b)[i] <==> SameMacChar(a[i], b[i]) {
      }
    }
  }

  function Without(s: string, c: char): (r: string)
    ensures c !in r
    ensures forall d :: d in r ==> d in s
  {
    if s == "" then "" else (if s[0] == c then "" else [s[0]]) + Without(s[1..], c)
  }

  /** normalizeHexValue: upper case, separators dropped. */
  function NormalizeHexValue(s: string): string {
    Without(Without(Upper(s), ':'), '-')
  }

  predicate HexEqual(a: string, b: string) {
    NormalizeHexValue(a) == NormalizeHexValue(b)
  }

  lemma {:induction false} WithoutNone(s: string, c: char)
    requires c !in s
    ensures Without(s, c) == s
  {
    if s != "" {
      WithoutNone(s[1..], c);
      assert s == [s[0]] + s[1..];
    }
  }

  lemma {:induction false} WithoutKeepsUpper(s: string, c: char)
    requires forall d :: d in s ==> UpperChar(d) == d
    ensures Upper(Without(s, c)) == Without(s, c)
  {
    var r := Without(s, c);
    assert forall i :: 0 <= i < |r| ==> r[i] in r;
  }

  lemma NormalHexIsEqual(s: string)
    ensures NormalizeHexValue(NormalizeHexValue(s)) == NormalizeHexValue(s)
  {
    var inner := Without(Upper(s), ':');
    assert forall d :: d in Upper(s) ==> UpperChar(d) == d;
    WithoutKeepsUpper(inner, '-');
    WithoutNone(NormalizeHexValue(s), ':');
    WithoutNone(NormalizeHexValue(s), '-');
  }

  /** The digits of a hex value, in lower case. */
  function HexDigits(s: string): string {
    if s == "" then ""
    else (if s[0] == ':' || s[0] == '-' then "" else [LowerChar(s[0])]) + HexDigits(s[1..])
  }

  lemma UpperOfLower(c: char)
    ensures UpperChar(LowerChar(c)) == UpperChar(c) && LowerChar(UpperChar(c)) == LowerChar(c)
  {
  }

  lemma {:induction false} NormalHexIsTheDigits(s: string)
    ensures NormalizeHexValue(s) == Upper(HexDigits(s)) && Lower(NormalizeHexValue(s)) == HexDigits(s)
  {
    if s != "" {
      NormalHexIsTheDigits(s[1..]);
      UpperOfLower(s[0]);
      NormalHexHead(s);
    }
  }

  lemma NormalHexHead(s: string)
    requires s != ""
    ensures NormalizeHexValue(s) ==
      (if s[0] == ':' || s[0] == '-' then "" else [UpperChar(s[0])]) + NormalizeHexValue(s[1..])
  {
    var u, rest := UpperChar(s[0]), Without(Upper(s[1..]), ':');
    assert Upper(s) == [u] + Upper(s[1..]);
    WithoutHead(u, Upper(s[1..]), ':');
    if s[0] == ':' {
      assert Without(Upper(s), ':') == rest;
    } else {
      WithoutHead(u, rest, '-');
    }
  }

  lemma WithoutHead(d: char, s: string, c: char)
    ensures Without([d] + s, c) == (if d == c then "" else [d]) + Without(s, c)
  {
    assert ([d] + s)[1..] == s;
  }

  /** Two hex values are equal exactly when they have the same digits, letter case and separators aside. */
  lemma HexEqualExactly(a: string, b: string)
    ensures HexEqual(a, b) <==> HexDigits(a) == HexDigits(b)
  {
    NormalHexIsTheDigits(a);
    NormalHexIsTheDigits(b);
  }

  // ---------------------------------------------------------------- lookup

  /** The first reservation whose MAC is equal. */
  function FindLease(leases: seq<Lease>, mac: string): (r: Option<Lease>)
    ensures r.None? <==> forall l :: l in leases ==> !MacEqual(l.hardwareAddress, mac)
    ensures r.Some? ==> r.value in leases && MacEqual(r.value.hardwareAddress, mac)
  {
    if leases == [] then None
    else if MacEqual(leases[0].hardwareAddress, mac) then Some(leases[0])
    else FindLease(leases[1..], mac)
  }

  lemma {:induction false} FindLeaseAt(leases: seq<Lease>, mac: string, k: nat)
    requires k < |leases| && MacEqual(leases[k].hardwareAddress, mac)
    requires forall j :: 0 <= j < k ==> !MacEqual(leases[j].hardwareAddress, mac)
    ensures FindLease(leases, mac) == Some(leases[k])
  {
    if k > 0 {
      FindLeaseAt(leases[1..], mac, k - 1);
    }
  }

  method FindReservedLease(leases: seq<Lease>, mac: string) returns (lease: Lease, found: bool)
    ensures found <==> FindLease(leases, mac).Some?
    ensures found ==> FindLease(leases, mac) == Some(lease)
  {
    for i := 0 to |leases|
      invariant forall j :: 0 <= j < i ==> !MacEqual(leases[j].hardwareAddress, mac)
    {
      if MacEqual(leases[i].hardwareAddress, mac) {
        FindLeaseAt(leases, mac, i);
        return leases[i], true;
      }
    }
    return Lease("", "", "", ""), false;
  }

  /** Either spelling of a MAC finds the same reservation. */
  lemma {:induction false} SpellingFindsTheSame(leases: seq<Lease>, a: string, b: string)
    requires MacEqual(a, b)
    ensures FindLease(leases, a) == FindLease(leases, b)
  {
    if leases != [] {
      SpellingFindsTheSame(leases[1..], a, b);
    }
  }

  // ---------------------------------------------------------------- the resource

  datatype LeaseModel = LeaseModel(
    id: string, scope: string, hardwareAddress: string, ipAddress: string, hostName: Tf<string>, comments: Tf<string>)

  function StringOrNull(s: string): Tf<string> {
    if s == "" then Null else Known(s)
  }

  /** An optional text that is absent or says something. */
  predicate Telling(x: Tf<string>) {
    x.Null? || (x.Known? && x.v != "")
  }

  function LeaseFrom(plan: LeaseModel): Lease {
    Lease(Str(plan.hostName), plan.hardwareAddress, plan.ipAddress, Str(plan.comments))
  }

  function Created(plan: LeaseModel): LeaseModel {
    plan.(id := BuildID(plan.scope, plan.hardwareAddress))
  }

  datatype Lookup = Failed | Missing | Served(reservedLeases: seq<Lease>)

  /** What a read leaves: an error, nothing tracked, or a refreshed state. */
  datatype Refreshed = Error | Removed | State(state: LeaseModel)

  function ReadEffect(state: LeaseModel, lookup: Lookup): Refreshed {
    match lookup
    case Failed => Error
    case Missing => Removed
    case Served(leases) =>
      match FindLease(leases, state.hardwareAddress)
      case None => Removed
      case Some(l) =>
        State(LeaseModel(BuildID(state.scope, state.hardwareAddress), state.scope, state.hardwareAddress,
                         l.address, StringOrNull(l.hostName), StringOrNull(l.comments)))
  }

  method Read(state: LeaseModel, lookup: Lookup) returns (r: Refreshed)
    ensures r == ReadEffect(state, lookup)
  {
    match lookup
    case Failed => r := Error;
    case Missing => r := Removed;
    case Served(leases) =>
      var lease, found := FindReservedLease(leases, state.hardwareAddress);
      if !found {
        return Removed;
      }
      var id := BuildID(state.scope, state.hardwareAddress);
      var hardwareAddress := state.hardwareAddress;
      if !MacEqual(state.hardwareAddress, lease.hardwareAddress) {
        hardwareAddress := lease.hardwareAddress;
      }
      r := State(LeaseModel(id, state.scope, hardwareAddress, lease.address,
                            StringOrNull(lease.hostName), StringOrNull(lease.comments)));
  }

  predicate Lacks(leases: seq<Lease>, mac: string) {
    forall l :: l in leases ==> !MacEqual(l.hardwareAddress, mac)
  }

  /** A failed read is an error; a scope that is gone, or has no reservation of that MAC, drops the state;
      otherwise its id, scope and spelling stay, and the rest is what the first such reservation says. */
  lemma ReadTells(state: LeaseModel, before: seq<Lease>, l: Lease, after: seq<Lease>)
    requires Lacks(before, state.hardwareAddress) && MacEqual(l.hardwareAddress, state.hardwareAddress)
    ensures ReadEffect(state, Failed) == Error && ReadEffect(state, Missing) == Removed
    ensures ReadEffect(state, Served(before)) == Removed
    ensures var r := ReadEffect(state, Served(before + [l] + after));
      && r.State?
      && r.state.id == BuildID(state.scope, state.hardwareAddress) && r.state.scope == state.scope
      && r.state.hardwareAddress == state.hardwareAddress && r.state.ipAddress == l.address
      && Str(r.state.hostName) == l.hostName && Telling(r.state.hostName)
      && Str(r.state.comments) == l.comments && Telling(r.state.comments)
  {
    var leases := before + [l] + after;
    forall j | 0 <= j < |before| ensures !MacEqual(leases[j].hardwareAddress, state.hardwareAddress) {
      assert leases[j] == before[j] && before[j] in before;
    }
    FindLeaseAt(leases, state.hardwareAddress, |before|);
  }

  /** A reservation as the server may store it: only the spelling of the MAC is its own. */
  predicate StoredAs(sent: Lease, stored: Lease) {
    && stored.hostName == sent.hostName && stored.address == sent.address && stored.comments == sent.comments
    && MacEqual(stored.hardwareAddress, sent.hardwareAddress)
  }

  /** A created reservation reads back as it was declared, however the server respells the MAC,
      exactly when neither optional text is the empty text. */
  lemma CreateThenRead(plan: LeaseModel, before: seq<Lease>, stored: Lease, after: seq<Lease>)
    requires StoredAs(LeaseFrom(plan), stored)
    requires FindLease(before, plan.hardwareAddress).None?
    ensures ReadEffect(Created(plan), Served(before + [stored] + after)) == State(Created(plan)) <==>
      (Telling(plan.hostName) && Telling(plan.comments))
  {
    var leases := before + [stored] + after;
    forall j | 0 <= j < |before| ensures !MacEqual(leases[j].hardwareAddress, plan.hardwareAddress) {
      assert leases[j] == before[j] && before[j] in before;
    }
    FindLeaseAt(leases, plan.hardwareAddress, |before|);
  }

  /** ImportState: the three attributes an id gives. */
  function Import(id: string): Option<LeaseModel> {
    match ParseID(id)
    case None => None
    case Some((scope, mac)) => Some(LeaseModel(id, scope, mac, "", Null, Null))
  }

  /** Importing the id of a tracked reservation and reading gives what reading the tracked one gives. */
  lemma ImportThenRead(state: LeaseModel, lookup: Lookup)
    requires state.scope != "" && state.hardwareAddress != ""
    requires state.hardwareAddress[0] != ':' && Index(state.hardwareAddress, "::") < 0
    ensures Import(BuildID(state.scope, state.hardwareAddress)).Some?
    ensures ReadEffect(Import(BuildID(state.scope, state.hardwareAddress)).value, lookup) == ReadEffect(state, lookup)
  {
    IDRoundTrip(state.scope, state.hardwareAddress);
  }

  /** macRespellingKeepsState, ahead of the comparison that forces a replacement: the reservation
      is replaced exactly when the configured MAC is another address, not another spelling. */
  function PlannedMac(state: Tf<string>, plan: Tf<string>): (r: Tf<string>)
    ensures state.Known? && plan.Known? ==> (r != state <==> !MacEqual(state.v, plan.v))
    ensures state.Known? && plan.Known? ==> r.Known? && MacEqual(r.v, plan.v)
  {
    if state.Null? || plan.Null? || plan.Unknown? then plan
    else if MacEqual(Str(state), Str(plan)) then state
    else plan
  }
}
