/** The canonical form of a forwarder address under each transport protocol.
    internal/provider/forwarder_canonical.go */
module ForwarderCanonical {
  import opened Text

  datatype Protocol = Udp | Tcp | Tls | Https | Quic

  datatype Addr = Addr(is6: bool, bits: nat, zone: string)

  /** The library calls the canonical form depends on: netip.ParseAddr, Addr.String, and
      whether url.Parse accepts a URL and finds a host in it. */
  datatype Netip = Netip(parse: string -> Option<Addr>, text: Addr -> string, validUrl: string -> bool)

  predicate DigitsAndDots(s: string) {
    s != "" && forall i :: 0 <= i < |s| ==> IsDigit(s[i]) || s[i] == '.'
  }

  predicate IsHexDigit(c: char) {
    IsDigit(c) || 'a' <= c <= 'f' || 'A' <= c <= 'F'
  }

  predicate AddrText(s: string) {
    s != "" && forall i :: 0 <= i < |s| ==> IsHexDigit(s[i]) || s[i] == '.' || s[i] == ':'
  }

  /** What is taken from the address library: parsing undoes printing, and the texts it accepts
      have the letters and colons that IPv4 and IPv6 addresses have. */
  ghost predicate Lawful(n: Netip) {
    forall s: string :: LawfulAt(n, s)
  }

  predicate LawfulAt(n: Netip, s: string) {
    n.parse(s).Some? ==> LawfulText(n, s, n.parse(s).value)
  }

  predicate LawfulText(n: Netip, s: string, a: Addr) {
    && (a.zone == "" <==> '%' !in s)
    && (a.is6 ==> CountChar(s, ':') >= 2 && s != "" && s[0] != '[')
    && (!a.is6 ==> DigitsAndDots(s))
    && (a.zone == "" ==> AddrText(s) && n.parse(n.text(a)) == Some(a))
  }

  // ---------------------------------------------------------------- the function

  /** The protocol names are looked up in lower case. */
  function ParseProtocol(protocol: string): Option<Protocol> {
    match Lower(protocol)
    case "udp" => Some(Udp)
    case "tcp" => Some(Tcp)
    case "tls" => Some(Tls)
    case "https" => Some(Https)
    case "quic" => Some(Quic)
    case _ => None
  }

  datatype Pair = Pair(0: string, 1: string)

  /** Cuts off an address in parentheses, itself made canonical unless the protocol is Udp. */
  function CutParenthesized(n: Netip, s: string, p: Protocol): Option<Pair> {
    var i := LastIndex(s, " (");
    if i <= 0 || !HasSuffix(s, ")") then Some(Pair(s, ""))
    else
      assert s[i + 1] == s[i..i + 2][1] == '(';
      match n.parse(Unbracketed(s[i + 2..|s| - 1]))
      case None => None
      case Some(a) =>
        if a.zone != "" then None
        else Some(Pair(s[..i], if p.Udp? then s[i..] else Parenthesized(n, a)))
  }

  function Unbracketed(inner: string): string {
    if "[" <= inner && HasSuffix(inner, "]") && |inner| >= 2 then inner[1..|inner| - 1] else inner
  }

  function Parenthesized(n: Netip, a: Addr): string {
    if a.is6 then " ([" + n.text(a) + "])" else " (" + n.text(a) + ")"
  }

  function StripScheme(s: string): string {
    var l := Lower(s);
    if "udp://" <= l || "tcp://" <= l || "tls://" <= l then s[6..]
    else if "quic://" <= l then s[7..]
    else s
  }

  predicate IsHttpsUrl(s: string) {
    "https://" <= Lower(s)
  }

  function SplitForwarderHostPort(n: Netip, s: string): Option<Pair> {
    if "[" <= s then
      var end := Index(s, "]");
      if end < 0 then None
      else
        assert end > 0 by { assert s[0] == '['; assert s[end..end + 1][0] == s[end]; }
        var host, rest := s[1..end], s[end + 1..];
        if n.parse(host).None? || !n.parse(host).value.is6 then None
        else if rest == "" then Some(Pair(host, ""))
        else if rest[0] != ':' then None
        else Some(Pair(host, rest[1..]))
    else if CountChar(s, ':') > 1 then Some(Pair(s, ""))
    else
      var colon := Index(s, ":");
      if colon < 0 then Some(Pair(s, ""))
      else if colon == 0 then None
      else Some(Pair(s[..colon], s[colon + 1..]))
  }

  predicate PortValid(p: Protocol, port: string) {
    match ParseInt64(port)
    case None => false
    case Some(v) => 1 <= v <= 65535 && (p.Udp? || ('1' <= port[0] <= '9' && AllDigits(port)))
  }

  /** The port to print: None refuses it, "" is the protocol's own. */
  function EffectivePort(p: Protocol, port: string): Option<string> {
    if port != "" && !PortValid(p, port) then None
    else if port == "53" && !p.Udp? && !p.Tcp? then None
    else if port == "853" && !p.Tls? && !p.Quic? then None
    else if port == "53" || port == "853" || (p.Https? && port == "443") then Some("")
    else Some(port)
  }

  function CanonicalHost(n: Netip, host: string, p: Protocol): Option<string> {
    if p.Udp? then Some(host)
    else if '%' in host then None
    else match n.parse(host)
      case Some(a) => Some(n.text(a))
      case None => if DigitsAndDots(host) then None else Some(TrimSuffix(host, "."))
  }

  function Bracketed(host: string): string {
    if ':' in host then "[" + host + "]" else host
  }

  function WithPort(host: string, port: string): string {
    if port == "" then host else host + ":" + port
  }

  function Format(p: Protocol, host: string, port: string): string {
    match p
    case Udp => if port == "" then host else WithPort(Bracketed(host), port)
    case Tcp => WithPort(Bracketed(host), port)
    case Https => "https://" + WithPort(Lower(Bracketed(host)), port) + "/dns-query"
    case _ => WithPort(Bracketed(host), if port == "" then "853" else port)
  }

  function CanonicalBase(n: Netip, b: string, p: Protocol): Option<string> {
    if IsHttpsUrl(b) then (if p.Https? && n.validUrl(b) then Some(b) else None)
    else match SplitForwarderHostPort(n, b)
      case None => None
      case Some(hp) =>
        match (EffectivePort(p, hp.1), CanonicalHost(n, hp.0, p))
        case (Some(port), Some(host)) => Some(Format(p, host, port))
        case _ => None
  }

  /** The base a suffix has been cut from, without trailing blanks and without a scheme. */
  function Core(base: string, p: Protocol): string {
    StripScheme(if p.Udp? then base else TrimRightBlank(base))
  }

  function CanonicalTrimmed(n: Netip, s: string, p: Protocol): Option<string> {
    if s == "" || ',' in s then None
    else match CutParenthesized(n, s, p)
      case None => None
      case Some(bs) =>
        match CanonicalBase(n, Core(bs.0, p), p)
        case None => None
        case Some(o) => Some(o + bs.1)
  }

  /** canonicalForwarder, the protocol being looked up by ParseProtocol; None is an error. */
  function CanonicalForwarder(n: Netip, input: string, protocol: Option<Protocol>): Option<string> {
    match protocol
    case None => None
    case Some(p) => CanonicalTrimmed(n, TrimSpace(input), p)
  }

  // ---------------------------------------------------------------- well-formed input

  /** A host without white space or "/" that does not end in two dots. */
  predicate WellFormedHost(h: string) {
    && h != "" && '/' !in h && !HasSuffix(h, "..")
    && forall i :: 0 <= i < |h| ==> !IsSpace(h[i])
  }

  /** The host of a trimmed input, None when it has no host of its own (a URL, or an error). */
  function HostIn(n: Netip, s: string, p: Protocol): Option<string> {
    match CutParenthesized(n, s, p)
    case None => None
    case Some(bs) =>
      var b := Core(bs.0, p);
      if IsHttpsUrl(b) then None
      else match SplitForwarderHostPort(n, b)
        case None => None
        case Some(hp) => Some(hp.0)
  }

  predicate WellFormedInput(n: Netip, s: string, p: Protocol) {
    !p.Https? && HostIn(n, s, p).Some? ==> WellFormedHost(HostIn(n, s, p).value)
  }

  /** Behind its final dot the host is an IPv6 address spelled otherwise than it is printed. */
  predicate RespelledBehindDot(n: Netip, host: string) {
    && HasSuffix(host, ".") && n.parse(TrimSuffix(host, ".")).Some?
    && !EqualFold(TrimSuffix(host, "."), n.text(n.parse(TrimSuffix(host, ".")).value))
  }

  // ---------------------------------------------------------------- ports and splitting, again

  lemma PortHasOnlyDigits(p: Protocol, port: string)
    ensures PortValid(p, port) ==>
      port != "" && forall i :: 0 <= i < |port| ==> IsDigit(port[i]) || port[i] == '+' || port[i] == '-'
  {
    if port != "" && (port[0] == '+' || port[0] == '-') {
      assert forall i :: 1 <= i < |port| ==> port[i] == port[1..][i - 1];
    }
  }

  /** The port of the protocol: DNS, DNS over TLS and over QUIC, DNS over HTTPS. */
  function OwnPort(p: Protocol): int {
    match p
    case Udp | Tcp => 53
    case Tls | Quic => 853
    case Https => 443
  }

  function DialledPort(p: Protocol, port: string): Option<int> {
    if port == "" then Some(OwnPort(p))
    else match ParseInt64(port)
      case Some(v) => Some(v)
      case None => None
  }

  lemma PortNumbers()
    ensures ParseInt64("53") == Some(53) && ParseInt64("853") == Some(853) && ParseInt64("443") == Some(443)
  {
    assert "53"[..1] == "5" && DigitsValue("5") == 5;
    assert DigitsValue("8") == 8 && "85"[..1] == "8" && "853"[..2] == "85";
    assert DigitsValue("85") == 85 && DigitsValue("853") == 853;
    assert DigitsValue("4") == 4 && "44"[..1] == "4" && "443"[..2] == "44";
    assert DigitsValue("44") == 44 && DigitsValue("443") == 443;
  }

  /** The port that is printed dials what the given one dials, and is accepted again as it is; 53 is
      accepted under Udp and Tcp alone, 853 under Tls and Quic alone. */
  lemma EffectivePortAgain(p: Protocol, port: string)
    requires EffectivePort(p, port).Some?
    ensures var e := EffectivePort(p, port).value;
      && DialledPort(p, port).Some? && DialledPort(p, e) == DialledPort(p, port)
      && EffectivePort(p, e) == Some(e)
      && (e != "" ==> PortValid(p, e))
      && (p.Tls? || p.Quic? ==> EffectivePort(p, if e == "" then "853" else e) == Some(e))
    ensures (port == "53" ==> p.Udp? || p.Tcp?) && (port == "853" ==> p.Tls? || p.Quic?)
  {
    PortNumbers();
  }

  lemma IndexNone(s: string, c: char)
    requires c !in s
    ensures Index(s, [c]) == -1
  {
    forall j | 0 <= j < |s| ensures !At(s, [c], j) {
      assert s[j..j + 1][0] == s[j];
    }
  }

  /** A host without colons, alone or with a port, splits as it was joined. */
  lemma SplitPlain(n: Netip, h: string, t: string)
    requires h != "" && h[0] != '[' && ':' !in h && ':' !in t
    ensures SplitForwarderHostPort(n, WithPort(h, t)) == Some(Pair(h, t))
  {
    if t == "" {
      CountCharZero(h, ':');
      IndexNone(h, ':');
    } else {
      OneColon(h, t);
    }
  }

  /** A bracketed text splits as it was joined exactly when it is an IPv6 address. */
  lemma SplitBracketed(n: Netip, h: string, t: string)
    requires ']' !in h
    ensures SplitForwarderHostPort(n, WithPort("[" + h + "]", t))
         == if n.parse(h).Some? && n.parse(h).value.is6 then Some(Pair(h, t)) else None
  {
    var s := WithPort("[" + h + "]", t);
    assert s[..|h| + 1] == "[" + h;
    assert s[|h| + 1] == ']';
    IndexAt(s, ']', |h| + 1);
    assert s[1..|h| + 1] == h;
    if t == "" {
      assert s[|h| + 2..] == "";
    } else {
      assert s[|h| + 2..] == ":" + t;
      assert (":" + t)[1..] == t;
    }
  }

  lemma BracketInPort(p: Protocol, port: string)
    requires ']' in port
    ensures EffectivePort(p, port) == None
  {
    PortHasOnlyDigits(p, port);
  }

  /** The first closing bracket cuts the text, and another is left in what follows. */
  lemma FirstBracket(h: string, t: string) returns (rest: string)
    requires ']' in h
    ensures var s := WithPort("[" + h + "]", t);
      && 0 <= Index(s, "]") < |s| && rest == s[Index(s, "]") + 1..] && ']' in rest
  {
    var s := WithPort("[" + h + "]", t);
    var j :| 0 <= j < |h| && h[j] == ']';
    assert h[j..j + 1] == "]" && At(h, "]", j);
    var k := Index(h, "]");
    assert h[k..k + 1][0] == h[k];
    forall i | 0 <= i < k ensures h[i] != ']' {
      assert h[i..i + 1] == [h[i]] && !At(h, "]", i);
    }
    assert s[..k + 1] == "[" + h[..k] && s[k + 1] == ']';
    IndexAt(s, ']', k + 1);
    rest := s[k + 2..];
    assert rest[|h| - k - 1] == ']';
  }

  lemma BracketBehindBracket(n: Netip, p: Protocol, s: string, rest: string)
    requires "[" <= s && 0 <= Index(s, "]") < |s| && rest == s[Index(s, "]") + 1..] && ']' in rest
    ensures var hp := SplitForwarderHostPort(n, s); hp.Some? ==> EffectivePort(p, hp.value.1) == None
  {
    if rest[0] == ':' {
      assert rest == [rest[0]] + rest[1..];
      BracketInPort(p, rest[1..]);
    }
  }

  /** A bracketed text that holds a bracket of its own is refused, at the latest by its port. */
  lemma SplitBrokenBracket(n: Netip, p: Protocol, h: string, t: string)
    requires ']' in h
    ensures CanonicalBase(n, WithPort("[" + h + "]", t), p) == None
  {
    var s := WithPort("[" + h + "]", t);
    var rest := FirstBracket(h, t);
    assert s[0] == '[' && Lower(s)[0] == '[';
    BracketBehindBracket(n, p, s, rest);
  }
}
