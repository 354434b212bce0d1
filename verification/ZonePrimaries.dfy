/** Primary name server addresses of a secondary zone, compared through the server's normalization.
    internal/provider/zone_primaries.go */
module ZonePrimaries {
  import opened Text

  // ---------------------------------------------------------------- the comparison

  function TrimColon(s: string): string {
    if ":" <= s then s[1..] else s
  }

  function DefaultPort(protocol: string): string {
    if protocol == "Tls" || protocol == "Quic" then "853" else "53"
  }

  datatype HostPort = HostPort(host: string, port: string)

  function TakeApart(addr: string): HostPort {
    if "[" <= addr then
      var end := Index(addr, "]");
      if end > 0 then HostPort(addr[1..end], TrimColon(addr[end + 1..])) else HostPort(addr, "")
    else if CountChar(addr, ':') == 1 then
      var colon := Index(addr, ":");
      if colon < 0 then HostPort(addr, "") else HostPort(addr[..colon], addr[colon + 1..])
    else HostPort(addr, "")
  }

  function CanonicalPrimaryAddress(addr: string, protocol: string): string {
    var hp := TakeApart(TrimSpace(addr));
    Lower(hp.host) + "|" + (if hp.port == "" then DefaultPort(protocol) else hp.port)
  }

  predicate SameAddress(a: string, b: string, protocol: string) {
    CanonicalPrimaryAddress(a, protocol) == CanonicalPrimaryAddress(b, protocol)
  }

  predicate SameUnder(canonical: string -> string, a: seq<string>, b: seq<string>) {
    |a| == |b| && forall i :: 0 <= i < |a| ==> canonical(a[i]) == canonical(b[i])
  }

  function Canonical(protocol: string): string -> string {
    (addr: string) => CanonicalPrimaryAddress(addr, protocol)
  }

  predicate SameAddresses(a: seq<string>, b: seq<string>, protocol: string) {
    SameUnder(Canonical(protocol), a, b)
  }

  /** The comparison of samePrimaryAddresses, with canonical for canonicalPrimaryAddress under the
      zone's protocol. */
  method SamePrimaryAddresses(canonical: string -> string, a: seq<string>, b: seq<string>) returns (same: bool)
    ensures same == SameUnder(canonical, a, b)
  {
    if |a| != |b| {
      return false;
    }
    for i := 0 to |a|
      invariant forall j :: 0 <= j < i ==> canonical(a[j]) == canonical(b[j])
    {
      if canonical(a[i]) != canonical(b[i]) {
        return false;
      }
    }
    return true;
  }

  // ---------------------------------------------------------------- what it means

  /** An address as it is meant: a name, an IPv4 or an IPv6 address, perhaps with a port. */
  datatype Address = Address(host: string, port: Option<string>)

  predicate Plain(s: string) {
    s != "" && !IsSpace(s[0]) && !IsSpace(s[|s| - 1])
  }

  /** A host holds no bracket and not just one colon; a port holds no colon. */
  predicate WellFormed(a: Address) {
    && Plain(a.host) && '[' !in a.host && ']' !in a.host && CountChar(a.host, ':') != 1
    && (a.port.Some? ==> Plain(a.port.value) && ':' !in a.port.value)
  }

  /** The texts that mean an address: brackets are needed for an IPv6 address with a port. */
  predicate Spells(a: Address, bracketed: bool) {
    bracketed || ':' !in a.host || a.port.None?
  }

  function Spelling(a: Address, bracketed: bool): string {
    (if bracketed then "[" + a.host + "]" else a.host) + (if a.port.Some? then ":" + a.port.value else "")
  }

  function EffectivePort(a: Address, protocol: string): string {
    if a.port.Some? then a.port.value else DefaultPort(protocol)
  }

  lemma BracketedTakenApart(a: Address)
    requires WellFormed(a)
    ensures TakeApart(Spelling(a, true)) == HostPort(a.host, if a.port.Some? then a.port.value else "")
  {
    var s := Spelling(a, true);
    var n := |a.host|;
    assert s[..n + 1] == "[" + a.host && s[n + 1] == ']' && s[1..n + 1] == a.host;
    IndexAt(s, ']', n + 1);
    if a.port.Some? {
      assert s[n + 2..] == ":" + a.port.value;
      assert (":" + a.port.value)[1..] == a.port.value;
    } else {
      assert s[n + 2..] == "";
    }
  }

  lemma CutAtColon(host: string, port: string)
    requires host != "" && host[0] != '[' && ':' !in host && ':' !in port
    ensures TakeApart(host + ":" + port) == HostPort(host, port)
  {
    OneColon(host, port);
    assert (host + ":" + port)[0] == host[0];
  }

  lemma BareTakenApart(a: Address)
    requires WellFormed(a) && Spells(a, false)
    ensures TakeApart(Spelling(a, false)) == HostPort(a.host, if a.port.Some? then a.port.value else "")
  {
    assert a.host[0] in a.host;
    if a.port.Some? {
      CutAtColon(a.host, a.port.value);
      assert a.host + (":" + a.port.value) == a.host + ":" + a.port.value;
    } else {
      assert Spelling(a, false) == a.host;
    }
  }

  lemma SpellingIsTrimmed(a: Address, bracketed: bool)
    requires WellFormed(a)
    ensures TrimSpace(Spelling(a, bracketed)) == Spelling(a, bracketed)
  {
    var s := Spelling(a, bracketed);
    assert s[0] == if bracketed then '[' else a.host[0];
    assert s[|s| - 1] ==
      if a.port.Some? then a.port.value[|a.port.value| - 1] else if bracketed then ']' else a.host[|a.host| - 1];
    TrimSpaceNoop(s);
  }

  /** However an address is spelled, the canonical text is its host in lower case and its port, the
      protocol's own where none is given. */
  lemma CanonicalOfSpelling(a: Address, bracketed: bool, protocol: string)
    requires WellFormed(a) && Spells(a, bracketed)
    ensures CanonicalPrimaryAddress(Spelling(a, bracketed), protocol)
         == Lower(a.host) + "|" + EffectivePort(a, protocol)
  {
    SpellingIsTrimmed(a, bracketed);
    if bracketed {
      BracketedTakenApart(a);
    } else {
      BareTakenApart(a);
    }
  }

  /** A pipe inside x stands for the one behind y, and a pipe inside q for the one behind x. */
  predicate Imitates(x: string, p: string, y: string, q: string) {
    |y| < |x| && x[..|y| + 1] == y + "|" && q == x[|y| + 1..] + "|" + p
  }

  lemma ImitationNeedsPipes(x: string, p: string, y: string, q: string)
    requires Imitates(x, p, y, q)
    ensures '|' in x && '|' in q
  {
    assert x[|y|] == x[..|y| + 1][|y|] == '|';
    assert q[|x| - |y| - 1] == '|';
  }

  lemma LongerImitates(x: string, p: string, y: string, q: string)
    requires x + "|" + p == y + "|" + q && |y| < |x|
    ensures Imitates(x, p, y, q)
  {
    var s, t := x + "|" + p, y + "|" + q;
    assert x[..|y| + 1] == s[..|y| + 1] == t[..|y| + 1] == y + "|";
    assert q == t[|y| + 1..] == s[|y| + 1..] == x[|y| + 1..] + "|" + p;
  }

  lemma ImitationIsEqual(x: string, p: string, y: string, q: string)
    requires Imitates(x, p, y, q)
    ensures x + "|" + p == y + "|" + q
  {
    assert x == y + "|" + x[|y| + 1..];
  }

  /** Two texts cut at different pipes, or at the same. */
  lemma ApartAtPipe(x: string, p: string, y: string, q: string)
    ensures x + "|" + p == y + "|" + q <==> (x == y && p == q) || Imitates(x, p, y, q) || Imitates(y, q, x, p)
  {
    var s, t := x + "|" + p, y + "|" + q;
    if s == t {
      if |y| < |x| {
        LongerImitates(x, p, y, q);
      } else if |x| < |y| {
        LongerImitates(y, q, x, p);
      } else {
        assert x == s[..|x|] == t[..|y|] == y;
        assert p == s[|x| + 1..] == t[|y| + 1..] == q;
      }
    }
    if Imitates(x, p, y, q) {
      ImitationIsEqual(x, p, y, q);
    }
    if Imitates(y, q, x, p) {
      ImitationIsEqual(y, q, x, p);
    }
  }

  predicate SameMeaning(a: Address, b: Address, protocol: string) {
    EqualFold(a.host, b.host) && EffectivePort(a, protocol) == EffectivePort(b, protocol)
  }

  /** The host of a takes the port of b for its own end. */
  predicate HostImitates(a: Address, b: Address, protocol: string) {
    Imitates(Lower(a.host), EffectivePort(a, protocol), Lower(b.host), EffectivePort(b, protocol))
  }

  lemma LowerKeepsPipes(s: string)
    ensures '|' in s <==> '|' in Lower(s)
  {
    forall i | 0 <= i < |s| ensures s[i] == '|' <==> Lower(s)[i] == '|' {
    }
    if '|' in s {
      var i :| 0 <= i < |s| && s[i] == '|';
      assert Lower(s)[i] == '|';
    }
  }

  /** Two spellings compare equal exactly when they mean the same host, letter case aside, and the
      same port under the zone's transfer protocol, or when one host imitates; and a host can imitate
      only with a pipe of its own and one in the other's port. */
  lemma SameMeansTheSame(a: Address, x: bool, b: Address, y: bool, protocol: string)
    requires WellFormed(a) && WellFormed(b) && Spells(a, x) && Spells(b, y)
    ensures SameAddress(Spelling(a, x), Spelling(b, y), protocol) <==>
      SameMeaning(a, b, protocol) || HostImitates(a, b, protocol) || HostImitates(b, a, protocol)
    ensures HostImitates(a, b, protocol) ==> '|' in a.host && b.port.Some? && '|' in b.port.value
    ensures HostImitates(b, a, protocol) ==> '|' in b.host && a.port.Some? && '|' in a.port.value
  {
    CanonicalOfSpelling(a, x, protocol);
    CanonicalOfSpelling(b, y, protocol);
    ApartAtPipe(Lower(a.host), EffectivePort(a, protocol), Lower(b.host), EffectivePort(b, protocol));
    LowerKeepsPipes(a.host);
    LowerKeepsPipes(b.host);
    assert '|' !in "53" && '|' !in "853";
    if HostImitates(a, b, protocol) {
      ImitationNeedsPipes(Lower(a.host), EffectivePort(a, protocol), Lower(b.host), EffectivePort(b, protocol));
    }
    if HostImitates(b, a, protocol) {
      ImitationNeedsPipes(Lower(b.host), EffectivePort(b, protocol), Lower(a.host), EffectivePort(a, protocol));
    }
  }

  /** It happens, as with "a|b:c" and "a:b|c". */
  lemma PipesConfuse(protocol: string)
    ensures var a, b := Address("a|b", Some("c")), Address("a", Some("b|c"));
      && WellFormed(a) && WellFormed(b) && HostImitates(a, b, protocol)
      && SameAddress(Spelling(a, false), Spelling(b, false), protocol) && !SameMeaning(a, b, protocol)
  {
    CountCharZero("a|b", ':');
    CountCharZero("a", ':');
    assert Lower("a|b") == "a|b" && Lower("a") == "a";
    assert "a|b"[..2] == "a" + "|" && "a|b"[2..] + "|" + "c" == "b|c";
    SameMeansTheSame(Address("a|b", Some("c")), false, Address("a", Some("b|c")), false, protocol);
  }

  // ---------------------------------------------------------------- reading

  /** The server's form: IPv6 in brackets, the port spelled out under Tls and Quic. */
  function ServerForm(a: Address, protocol: string): string {
    Spelling(if a.port.None? && DefaultPort(protocol) == "853" then a.(port := Some("853")) else a, ':' in a.host)
  }

  /** Zone transfers over TLS and over QUIC have a port of their own. */
  lemma DefaultPortExactly(protocol: string)
    ensures DefaultPort(protocol) == "853" <==> protocol in {"Tls", "Quic"}
    ensures DefaultPort(protocol) == "53" <==> protocol !in {"Tls", "Quic"}
  {
  }

  lemma ServerFormIsSame(a: Address, x: bool, protocol: string)
    requires WellFormed(a) && Spells(a, x)
    ensures SameAddress(Spelling(a, x), ServerForm(a, protocol), protocol)
  {
    CanonicalOfSpelling(a, x, protocol);
    var b := if a.port.None? && DefaultPort(protocol) == "853" then a.(port := Some("853")) else a;
    CanonicalOfSpelling(b, ':' in a.host, protocol);
  }

  /** resolvePrimaryAddresses */
  function Resolved(prior: Tf<seq<string>>, server: seq<string>, protocol: string): Tf<seq<string>> {
    if server == [] then Null
    else if prior.Known? && SameAddresses(prior.v, server, protocol) then prior
    else Known(server)
  }

  method ResolvePrimaryAddresses(prior: Tf<seq<string>>, server: seq<string>,
        protocol: string) returns (r: Tf<seq<string>>)
    ensures r == Resolved(prior, server, protocol)
  {
    if |server| == 0 {
      return Null;
    }
    if prior.Known? {
      var same := SamePrimaryAddresses(Canonical(protocol), prior.v, server);
      if same {
        return prior;
      }
    }
    return Known(server);
  }

  /** A server that only normalizes leaves the configured list as it was written. */
  lemma NormalizationIsNoDrift(addresses: seq<Address>, bracketed: seq<bool>, configured: seq<string>,
        server: seq<string>, protocol: string)
    requires |addresses| == |bracketed| == |configured| == |server| > 0
    requires forall i :: 0 <= i < |addresses| ==> WellFormed(addresses[i]) && Spells(addresses[i], bracketed[i])
    requires forall i :: 0 <= i < |addresses| ==> configured[i] == Spelling(addresses[i], bracketed[i])
    requires forall i :: 0 <= i < |addresses| ==> server[i] == ServerForm(addresses[i], protocol)
    ensures Resolved(Known(configured), server, protocol) == Known(configured)
  {
    forall i | 0 <= i < |configured| ensures SameAddress(configured[i], server[i], protocol) {
      ServerFormIsSame(addresses[i], bracketed[i], protocol);
    }
  }

  /** The resolved list always says what the server says, it is the server's own whenever the prior
      one says anything else, and reading again changes nothing. */
  lemma ResolvedAgain(prior: Tf<seq<string>>, server: seq<string>, protocol: string)
    ensures var r := Resolved(prior, server, protocol);
      && Resolved(r, server, protocol) == r
      && (server == [] <==> r.Null?)
      && (server != [] ==> r.Known? && |r.v| == |server|)
      && (forall i :: 0 <= i < |server| ==> SameAddress(r.v[i], server[i], protocol))
      && (r != Known(server) && server != [] ==> r == prior)
      && (prior.Known? && server != [] && !SameAddresses(prior.v, server, protocol) ==> r == Known(server))
  {
  }
}
