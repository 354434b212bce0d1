/** What a forwarder means: the host and the port that are dialled, for the text as it is configured and
    for its canonical form, and which texts are refused. */
module ForwarderMeaning {
  import opened Text
  import opened ForwarderCanonical
  import opened ForwarderDrift

  // ---------------------------------------------------------------- what is dialled

  datatype Host = ByAddress(a: Addr) | ByName(name: string)

  datatype Endpoint = Endpoint(host: Host, port: int)

  function TrimDots(h: string): string {
    if h != "" && h[|h| - 1] == '.' then TrimDots(h[..|h| - 1]) else h
  }

  /** An address in any spelling, with or without a final dot, or a name in any letter case, with or
      without final dots; anything else with a colon is no host. */
  function HostMeant(n: Netip, h: string): Option<Host> {
    if n.parse(h).Some? then Some(ByAddress(n.parse(h).value))
    else if n.parse(TrimSuffix(h, ".")).Some? then Some(ByAddress(n.parse(TrimSuffix(h, ".")).value))
    else if ':' in h || TrimDots(h) == "" then None
    else Some(ByName(Lower(TrimDots(h))))
  }

  function Dials(n: Netip, p: Protocol, text: string): Option<Endpoint> {
    match SplitForwarderHostPort(n, text)
    case None => None
    case Some(hp) => EndpointOf(n, p, hp.0, hp.1)
  }

  function EndpointOf(n: Netip, p: Protocol, h: string, port: string): Option<Endpoint> {
    match (HostMeant(n, h), DialledPort(p, port))
    case (Some(host), Some(v)) => Some(Endpoint(host, v))
    case _ => None
  }

  /** The host and port in the canonical form: under Https between the scheme and the path. */
  function Authority(p: Protocol, o: string): string {
    if p.Https? && "https://" <= o && HasSuffix(o, "/dns-query") && |o| >= 18 then o[8..|o| - 10] else o
  }

  /** Parsing an address without a zone does not depend on letter case. */
  ghost predicate CaseBlind(n: Netip) {
    forall s: string :: '%' !in s ==> n.parse(Lower(s)) == n.parse(s)
  }

  // ---------------------------------------------------------------- ports

  /** The port behind the host in the canonical form dials what the given one dials. */
  lemma PortDialsTheSame(p: Protocol, port: string)
    requires EffectivePort(p, port).Some?
    ensures var e := EffectivePort(p, port).value;
      && DialledPort(p, PrintedPort(p, e)) == DialledPort(p, port)
      && ':' !in PrintedPort(p, e) && ':' !in e
      && (port == "" ==> e == "")
  {
    EffectivePortAgain(p, port);
    PortNumbers();
    PortHasOnlyDigits(p, EffectivePort(p, port).value);
  }

  // ---------------------------------------------------------------- hosts

  lemma {:induction false} TrimDotsLower(h: string)
    ensures TrimDots(Lower(h)) == Lower(TrimDots(h))
  {
    if h != "" && h[|h| - 1] == '.' {
      TrimDotsLower(h[..|h| - 1]);
      assert Lower(h)[..|h| - 1] == Lower(h[..|h| - 1]);
    }
  }

  lemma LowerTwice(h: string)
    ensures Lower(Lower(h)) == Lower(h)
  {
  }

  lemma TrimSuffixLower(h: string)
    ensures TrimSuffix(Lower(h), ".") == Lower(TrimSuffix(h, "."))
  {
    if h != "" {
      assert h[|h| - 1..] == [h[|h| - 1]] && Lower(h)[|h| - 1..] == [LowerChar(h[|h| - 1])];
    }
  }

  lemma LowerHas(h: string, c: char)
    requires !('a' <= c <= 'z') && !('A' <= c <= 'Z')
    ensures c in Lower(h) <==> c in h
  {
    if c in h {
      var i :| 0 <= i < |h| && h[i] == c;
      assert Lower(h)[i] == c;
    }
  }

  /** Letter case does not matter to what a host means. */
  lemma HostLower(n: Netip, h: string)
    requires CaseBlind(n) && '%' !in h
    ensures HostMeant(n, Lower(h)) == HostMeant(n, h)
  {
    assert n.parse(Lower(h)) == n.parse(h);
    assert '%' !in TrimSuffix(h, ".");
    assert n.parse(Lower(TrimSuffix(h, "."))) == n.parse(TrimSuffix(h, "."));
    TrimSuffixLower(h);
    TrimDotsLower(h);
    LowerTwice(TrimDots(h));
    LowerHas(h, ':');
  }

  lemma DigitsBehindDot(h: string)
    requires h != ""
    ensures DigitsAndDots(TrimSuffix(h, ".")) ==> DigitsAndDots(h)
  {
    if HasSuffix(h, ".") {
      var t := TrimSuffix(h, ".");
      assert h == t + "." && forall i :: 0 <= i < |t| ==> h[i] == t[i];
      assert h[|t|] == '.';
    }
  }

  lemma NoAddressWithoutColon(n: Netip, h: string)
    requires Lawful(n) && ':' !in h && !DigitsAndDots(h)
    ensures n.parse(h).None?
  {
    assert LawfulAt(n, h);
    CountCharZero(h, ':');
  }

  lemma TrimmedDots(h: string)
    ensures TrimDots(TrimSuffix(h, ".")) == TrimDots(h)
  {
    if HasSuffix(h, ".") {
      assert h[|h| - 1..] == [h[|h| - 1]];
    }
  }

  /** A name and its canonical form, which lacks a final dot, are one host. */
  lemma NameMeansTheSame(n: Netip, h: string)
    requires Lawful(n) && ':' !in h && h != "" && !DigitsAndDots(h)
    ensures HostMeant(n, TrimSuffix(h, ".")) == HostMeant(n, h)
  {
    var t := TrimSuffix(h, ".");
    NoAddressWithoutColon(n, h);
    DigitsBehindDot(h);
    NoAddressWithoutColon(n, t);
    if t != "" { DigitsBehindDot(t); }
    NoAddressWithoutColon(n, TrimSuffix(t, "."));
    TrimmedDots(h);
  }

  /** The canonical host means what the given one means, or is the colon text that neither means. */
  lemma HostMeansTheSame(n: Netip, p: Protocol, h: string, c: string)
    requires Lawful(n) && !p.Udp? && HostShape(h) && CanonicalHost(n, h, p) == Some(c)
    ensures '%' !in c && (c != "" ==> c[0] != '[')
    ensures if ':' in c && n.parse(c).None? then HostMeant(n, h).None? else HostMeant(n, c) == HostMeant(n, h)
    ensures c == "" ==> HostMeant(n, h).None?
  {
    assert LawfulAt(n, h) && LawfulAt(n, c);
    if n.parse(h).Some? {
      AddrTextIsHostText(n, c);
    } else {
      assert c == TrimSuffix(h, ".");
      assert ':' in h <==> ':' in c by { assert HasSuffix(h, ".") ==> h == c + "."; }
      if h == "" {
        assert HasSuffix(h, ".") == false;
      } else if ':' !in h {
        NameMeansTheSame(n, h);
      }
    }
  }

  // ---------------------------------------------------------------- reading what was printed

  lemma SplitHost(n: Netip, h: string)
    requires HostShape(h)
    ensures SplitForwarderHostPort(n, h) == Some(Pair(h, ""))
  {
    if ':' !in h {
      CountCharZero(h, ':');
      IndexNone(h, ':');
    }
  }

  lemma NoHostNoDial(n: Netip, p: Protocol, port: string)
    requires Lawful(n) && ':' !in port
    ensures Dials(n, p, WithPort("", port)) == None
  {
    assert LawfulAt(n, "");
    if port == "" {
      SplitHost(n, "");
    } else {
      var s := WithPort("", port);
      assert s == "" + ":" + port;
      OneColon("", port);
    }
  }

  lemma BrokenBracketNoDial(n: Netip, p: Protocol, c: string, port: string)
    requires ']' in c
    ensures Dials(n, p, WithPort("[" + c + "]", port)) == None
  {
    var s := WithPort("[" + c + "]", port);
    var rest := FirstBracket(c, port);
    assert s[0] == '[';
    if rest[0] == ':' {
      assert rest == [rest[0]] + rest[1..];
      NoNumber(rest[1..]);
    }
  }

  lemma NoNumber(t: string)
    requires ']' in t
    ensures ParseInt64(t) == None
  {
    if t[0] == '+' || t[0] == '-' {
      assert t == [t[0]] + t[1..];
    }
  }

  /** A host and a port, printed with brackets where there is a colon, are read as printed; the text with
      a colon that is no address is not. */
  lemma ReadsAsPrinted(n: Netip, p: Protocol, c: string, port: string)
    requires Lawful(n) && '%' !in c && (c != "" ==> c[0] != '[')
    requires ':' !in port
    ensures Dials(n, p, WithPort(Bracketed(c), port)) ==
      if c == "" || (':' in c && n.parse(c).None?) then None else EndpointOf(n, p, c, port)
  {
    assert LawfulAt(n, c);
    if c == "" {
      NoHostNoDial(n, p, port);
    } else if ':' !in c {
      SplitPlain(n, c, port);
    } else if ']' in c {
      BrokenBracketNoDial(n, p, c, port);
    } else {
      SplitBracketed(n, c, port);
    }
  }

  lemma UdpReadsAsPrinted(n: Netip, h: string, port: string)
    requires HostShape(h) && ':' !in port && (port != "" ==> h != "")
    requires port != "" && ':' in h ==> n.parse(h).Some? && n.parse(h).value.is6 && ']' !in h
    ensures Dials(n, Udp, Format(Udp, h, port)) == EndpointOf(n, Udp, h, port)
  {
    if port == "" {
      SplitHost(n, h);
    } else if ':' !in h {
      SplitPlain(n, h, port);
    } else {
      SplitBracketed(n, h, port);
    }
  }

  lemma HttpsAuthority(c: string, port: string)
    ensures var o := Format(Https, c, port);
      && Authority(Https, o) == WithPort(Bracketed(Lower(c)), port)
      && o == "https://" + Authority(Https, o) + "/dns-query"
  {
    var o := Format(Https, c, port);
    LowerHas(c, ':');
    LowerConcat("[" + c, "]");
    LowerConcat("[", c);
    assert Lower("[") == "[" && Lower("]") == "]";
    assert Lower(Bracketed(c)) == Bracketed(Lower(c));
    assert o[|o| - 10..] == "/dns-query" && o[..8] == "https://";
  }

  lemma AHostBeforeAPort(n: Netip, b: string)
    requires Lawful(n) && SplitForwarderHostPort(n, b).Some?
    ensures var Pair(h, t) := SplitForwarderHostPort(n, b).value; t != "" ==> h != ""
  {
    assert LawfulAt(n, "");
  }

  lemma UdpDialsTheSame(n: Netip, b: string, o: string)
    requires Lawful(n) && ',' !in b && !IsHttpsUrl(b) && CanonicalBase(n, b, Udp) == Some(o)
    ensures Dials(n, Udp, o) == Dials(n, Udp, b)
  {
    var Pair(h, t) := SplitForwarderHostPort(n, b).value;
    SplitHostText(n, b);
    PortDialsTheSame(Udp, t);
    AHostBeforeAPort(n, b);
    UdpReadsAsPrinted(n, h, EffectivePort(Udp, t).value);
  }

  lemma HttpsDialsTheSame(n: Netip, h: string, c: string, e: string)
    requires Lawful(n) && CaseBlind(n) && HostShape(h) && CanonicalHost(n, h, Https) == Some(c) && ':' !in e
    ensures Dials(n, Https, Authority(Https, Format(Https, c, e))) == EndpointOf(n, Https, h, e)
  {
    HostMeansTheSame(n, Https, h, c);
    HttpsAuthority(c, e);
    LowerHas(c, ':');
    LowerHas(c, '%');
    assert n.parse(Lower(c)) == n.parse(c);
    HostLower(n, c);
    ReadsAsPrinted(n, Https, Lower(c), e);
  }

  lemma BracketedDialsTheSame(n: Netip, p: Protocol, h: string, c: string, port: string)
    requires Lawful(n) && !p.Udp? && HostShape(h) && CanonicalHost(n, h, p) == Some(c) && ':' !in port
    ensures Dials(n, p, WithPort(Bracketed(c), port)) == EndpointOf(n, p, h, port)
  {
    HostMeansTheSame(n, p, h, c);
    ReadsAsPrinted(n, p, c, port);
  }

  lemma OthersDialTheSame(n: Netip, b: string, p: Protocol, o: string)
    requires Lawful(n) && CaseBlind(n) && !p.Udp?
    requires ',' !in b && !IsHttpsUrl(b) && CanonicalBase(n, b, p) == Some(o)
    ensures Dials(n, p, Authority(p, o)) == Dials(n, p, b)
    ensures p.Https? ==> o == "https://" + Authority(p, o) + "/dns-query"
  {
    var Pair(h, t) := SplitForwarderHostPort(n, b).value;
    var e, c := EffectivePort(p, t).value, CanonicalHost(n, h, p).value;
    SplitHostText(n, b);
    PortDialsTheSame(p, t);
    if p.Https? {
      HttpsDialsTheSame(n, h, c, e);
      HttpsAuthority(c, e);
    } else {
      BracketedDialsTheSame(n, p, h, c, PrintedPort(p, e));
      assert o == WithPort(Bracketed(c), PrintedPort(p, e));
    }
  }

  /** A host that is accepted, alone or with a port, and its canonical form dial the same host, a final
      dot and the spelling of an address aside, on the same port; under Https the canonical form is the
      URL of the DNS endpoint on it. */
  lemma CanonicalDialsTheSame(n: Netip, b: string, p: Protocol, o: string)
    requires Lawful(n) && CaseBlind(n) && ',' !in b && !IsHttpsUrl(b) && CanonicalBase(n, b, p) == Some(o)
    ensures Dials(n, p, Authority(p, o)) == Dials(n, p, b)
    ensures p.Https? ==> o == "https://" + Authority(p, o) + "/dns-query"
  {
    if p.Udp? {
      UdpDialsTheSame(n, b, o);
    } else {
      OthersDialTheSame(n, b, p, o);
    }
  }

  // ---------------------------------------------------------------- whole forwarders

  /** The address in parentheses. */
  function AddressIn(n: Netip, suffix: string): Option<Addr> {
    if " (" <= suffix && HasSuffix(suffix, ")") && |suffix| >= 3 then n.parse(Unbracketed(suffix[2..|suffix| - 1]))
    else None
  }

  /** No address in parentheses, or the same one. */
  predicate SameSuffix(n: Netip, given: string, printed: string) {
    || (given == "" && printed == "")
    || (AddressIn(n, given).Some? && AddressIn(n, printed) == AddressIn(n, given))
  }

  /** A URL stays as it is; a host and its canonical form dial the same. */
  predicate SameBase(n: Netip, p: Protocol, b: string, o: string) {
    if IsHttpsUrl(b) then p.Https? && o == b
    else
      && Dials(n, p, Authority(p, o)) == Dials(n, p, b)
      && (p.Https? ==> o == "https://" + Authority(p, o) + "/dns-query")
  }

  lemma ParenthesizedSaysTheAddress(n: Netip, s: string, a: Addr)
    requires Lawful(n) && n.parse(s) == Some(a) && a.zone == ""
    ensures AddressIn(n, Parenthesized(n, a)) == Some(a)
  {
    assert LawfulAt(n, s) && LawfulAt(n, n.text(a));
    InnerText(n.text(a), a.is6);
    var inner := if a.is6 then "[" + n.text(a) + "]" else n.text(a);
    assert Parenthesized(n, a) == " (" + inner + ")";
    InParentheses(Parenthesized(n, a), inner);
  }

  /** Where the parentheses at the end begin, |s| when there are none. */
  function CutAt(s: string): (i: nat)
    ensures i <= |s|
  {
    var i := LastIndex(s, " (");
    if i > 0 && HasSuffix(s, ")") then i else |s|
  }

  lemma GivenInParentheses(s: string)
    requires CutAt(s) < |s|
    ensures var i := CutAt(s);
      && CutAt(s) + 2 <= |s| - 1 && " (" <= s[i..] && HasSuffix(s[i..], ")")
      && s[i..][2..|s[i..]| - 1] == s[i + 2..|s| - 1]
  {
    var i := LastIndex(s, " (");
    assert s[i + 1] == s[i..i + 2][1] == '(' && s[|s| - 1..] == ")";
    assert s[i..][..2] == s[i..i + 2] && s[i..][|s| - i - 1..] == s[|s| - 1..];
  }

  /** Cutting in terms of the text in front of the parentheses and the address in them. */
  lemma CutInParentheses(n: Netip, s: string, p: Protocol)
    requires CutAt(s) < |s|
    ensures var i := CutAt(s);
      CutParenthesized(n, s, p) ==
        match AddressIn(n, s[i..])
        case None => None
        case Some(a) =>
          if a.zone != "" then None else Some(Pair(s[..i], if p.Udp? then s[i..] else Parenthesized(n, a)))
  {
    GivenInParentheses(s);
  }

  lemma CutKeepsTheAddress(n: Netip, s: string, p: Protocol)
    requires Lawful(n) && CutParenthesized(n, s, p).Some?
    ensures var Pair(base, printed) := CutParenthesized(n, s, p).value;
      && base == s[..CutAt(s)] && SameSuffix(n, s[CutAt(s)..], printed)
  {
    var i := CutAt(s);
    if i < |s| {
      CutInParentheses(n, s, p);
      GivenInParentheses(s);
      ParenthesizedSaysTheAddress(n, Unbracketed(s[i + 2..|s| - 1]), AddressIn(n, s[i..]).value);
    }
  }

  lemma BaseMeansTheSame(n: Netip, base: string, p: Protocol, o: string)
    requires Lawful(n) && CaseBlind(n) && ',' !in base && CanonicalBase(n, Core(base, p), p) == Some(o)
    ensures SameBase(n, p, Core(base, p), o)
  {
    CoreKeepsCommasOut(base, p);
    if !IsHttpsUrl(Core(base, p)) {
      CanonicalDialsTheSame(n, Core(base, p), p, o);
    }
  }

  /** An accepted forwarder means what its canonical form means: it is cut at its last " (", if it ends in
      a parenthesis, and the address there stays; of what is in front, blanks behind it and a scheme aside,
      a URL stays, and a host is dialled as before. */
  lemma CanonicalMeansTheSame(n: Netip, input: string, p: Protocol, c: string) returns (o: string, printed: string)
    requires Lawful(n) && CaseBlind(n) && CanonicalForwarder(n, input, Some(p)) == Some(c)
    ensures c == o + printed
    ensures var s := TrimSpace(input);
      SameBase(n, p, Core(s[..CutAt(s)], p), o) && SameSuffix(n, s[CutAt(s)..], printed)
  {
    o, printed := TrimmedMeansTheSame(n, TrimSpace(input), p, c);
  }

  lemma TrimmedMeansTheSame(n: Netip, s: string, p: Protocol, c: string) returns (o: string, printed: string)
    requires Lawful(n) && CaseBlind(n) && CanonicalTrimmed(n, s, p) == Some(c)
    ensures c == o + printed
    ensures SameBase(n, p, Core(s[..CutAt(s)], p), o) && SameSuffix(n, s[CutAt(s)..], printed)
  {
    var cut := CutParenthesized(n, s, p).value;
    CutKeepsTheAddress(n, s, p);
    o, printed := CanonicalBase(n, Core(cut.0, p), p).value, cut.1;
    BaseMeansTheSame(n, cut.0, p, o);
  }

  // ---------------------------------------------------------------- what is refused

  /** The text is a bracketed IPv6 address, alone or before a colon and a port, or a host before the only
      colon, or all host. */
  predicate Spells(n: Netip, b: string, h: string, port: string) {
    if "[" <= b then
      && ']' !in h && n.parse(h).Some? && n.parse(h).value.is6
      && (b == "[" + h + "]:" + port || (b == "[" + h + "]" && port == ""))
    else if CountChar(b, ':') == 1 then h != "" && ':' !in h && ':' !in port && b == h + ":" + port
    else b == h && port == ""
  }

  lemma BracketsAreSpelled(n: Netip, b: string, h: string, port: string)
    requires "[" <= b && SplitForwarderHostPort(n, b) == Some(Pair(h, port))
    ensures Spells(n, b, h, port)
  {
    var end := Index(b, "]");
    assert b[0..1] == "[" && !At(b, "]", 0);
    BetweenBrackets(b, end);
    assert b[end..end + 1] == "]";
    assert b == "[" + h + "]" + b[end + 1..];
    if b[end + 1..] != "" {
      assert b[end + 1..] == ":" + port;
      assert b == "[" + h + "]:" + port;
    }
  }

  lemma SpelledBracketsSplit(n: Netip, b: string, h: string, port: string)
    requires "[" <= b && Spells(n, b, h, port)
    ensures SplitForwarderHostPort(n, b) == Some(Pair(h, port))
  {
    assert b[|h| + 1] == ']' && b[1..|h| + 1] == h;
    assert b[..|h| + 1] == "[" + h;
    IndexAt(b, ']', |h| + 1);
    var rest := b[|h| + 2..];
    assert rest == ":" + port || (rest == "" && port == "");
    assert rest != "" ==> rest[1..] == port;
  }

  lemma SplitsAtColon(n: Netip, b: string, h: string, port: string)
    requires !("[" <= b)
    ensures SplitForwarderHostPort(n, b) == Some(Pair(h, port)) <==> Spells(n, b, h, port)
  {
    var colon := Index(b, ":");
    CountCharZero(b, ':');
    if colon >= 0 {
      assert b[colon..colon + 1] == ":";
      assert b == b[..colon] + ":" + b[colon + 1..];
      NoColonBefore(b, colon);
      CountCharConcat(b[..colon] + ":", b[colon + 1..], ':');
      CountCharConcat(b[..colon], ":", ':');
      CountCharZero(b[..colon], ':');
      CountCharZero(b[colon + 1..], ':');
      assert CountChar(":", ':') == 1 by { assert ":"[1..] == ""; }
    } else if ':' in b {
      var i :| 0 <= i < |b| && b[i] == ':';
      assert b[i..i + 1] == ":" && At(b, ":", i);
    }
    if ':' !in h && ':' !in port && b == h + ":" + port {
      OneColon(h, port);
    }
  }

  /** Splitting finds the host and the port that the text spells, if it spells any. */
  lemma SplitExactly(n: Netip, b: string, h: string, port: string)
    ensures SplitForwarderHostPort(n, b) == Some(Pair(h, port)) <==> Spells(n, b, h, port)
  {
    if "[" <= b {
      if SplitForwarderHostPort(n, b) == Some(Pair(h, port)) {
        BracketsAreSpelled(n, b, h, port);
      }
      if Spells(n, b, h, port) {
        SpelledBracketsSplit(n, b, h, port);
      }
    } else {
      SplitsAtColon(n, b, h, port);
    }
  }

  /** A number of the range of ports, printed in plain decimal. */
  predicate PlainPort(port: string) {
    ParseInt64(port).Some? && 1 <= ParseInt64(port).value <= 65535 && port == PrintNat(ParseInt64(port).value)
  }

  /** No port; under Udp any spelling of a port but "853"; otherwise a plain one, which 53 is under Tcp
      alone and 853 under Tls and Quic alone. */
  predicate PortAccepted(p: Protocol, port: string) {
    || port == ""
    || if p.Udp? then ParseInt64(port).Some? && 1 <= ParseInt64(port).value <= 65535 && port != "853"
       else
         && PlainPort(port)
         && (ParseInt64(port).value == 53 ==> p.Tcp?)
         && (ParseInt64(port).value == 853 ==> p.Tls? || p.Quic?)
  }

  /** Under Udp any; otherwise no zone, and digits and dots only as an address. */
  predicate HostAccepted(n: Netip, p: Protocol, h: string) {
    p.Udp? || ('%' !in h && (DigitsAndDots(h) ==> n.parse(h).Some?))
  }

  lemma {:induction false} PlainDecimal(t: string)
    requires t != "" && AllDigits(t) && t[0] != '0'
    ensures DigitsValue(t) >= 1 && PrintNat(DigitsValue(t)) == t
  {
    var m := |t| - 1;
    var last := t[m] as int - '0' as int;
    if m > 0 {
      PlainDecimal(t[..m]);
      var front := DigitsValue(t[..m]);
      assert DigitsValue(t) == front * 10 + last && DigitsValue(t) / 10 == front && DigitsValue(t) % 10 == last;
      assert t == t[..m] + [t[m]];
    } else {
      assert t[..0] == "" && DigitsValue(t) == last && t == [t[0]];
    }
  }

  lemma {:induction false} NoLeadingZero(v: nat)
    requires v >= 1
    ensures PrintNat(v)[0] != '0'
  {
    if v >= 10 {
      NoLeadingZero(v / 10);
    }
  }

  lemma PlainPortExactly(port: string)
    requires port != "" && ParseInt64(port).Some? && 1 <= ParseInt64(port).value <= 65535
    ensures '1' <= port[0] <= '9' && AllDigits(port) <==> PlainPort(port)
  {
    if '1' <= port[0] <= '9' && AllDigits(port) {
      PlainDecimal(port);
    }
    NoLeadingZero(ParseInt64(port).value);
  }

  lemma SamePlainPort(a: string, b: string)
    requires PlainPort(a) && PlainPort(b) && ParseInt64(a) == ParseInt64(b)
    ensures a == b
  {
  }

  lemma NamedPortsArePlain()
    ensures PlainPort("53") && PlainPort("853")
  {
    PortNumbers();
    PlainPortExactly("53");
    PlainPortExactly("853");
  }

  /** Of the plain ports, the named ones are those two texts. */
  lemma NamedPorts(port: string)
    requires PlainPort(port)
    ensures ParseInt64(port).value == 53 <==> port == "53"
    ensures ParseInt64(port).value == 853 <==> port == "853"
  {
    PortNumbers();
    NamedPortsArePlain();
    if ParseInt64(port).value == 53 { SamePlainPort(port, "53"); }
    if ParseInt64(port).value == 853 { SamePlainPort(port, "853"); }
  }

  lemma PortInRange(p: Protocol, port: string)
    requires port != "" && ParseInt64(port).Some? && 1 <= ParseInt64(port).value <= 65535
    ensures PortValid(p, port) <==> p.Udp? || PlainPort(port)
  {
    PlainPortExactly(port);
  }

  /** The ports that are refused. */
  lemma PortRefusedExactly(p: Protocol, port: string)
    ensures EffectivePort(p, port).Some? <==> PortAccepted(p, port)
  {
    if port != "" && ParseInt64(port).Some? && 1 <= ParseInt64(port).value <= 65535 {
      PortInRange(p, port);
      if PlainPort(port) {
        NamedPorts(port);
      } else {
        NamedPortsArePlain();
      }
    }
  }

  ghost predicate SpellsAccepted(n: Netip, p: Protocol, b: string) {
    exists h, port :: Spells(n, b, h, port) && PortAccepted(p, port) && HostAccepted(n, p, h)
  }

  ghost predicate BaseAccepted(n: Netip, p: Protocol, b: string) {
    if IsHttpsUrl(b) then p.Https? && n.validUrl(b) else SpellsAccepted(n, p, b)
  }

  /** A base is accepted exactly when it is an HTTPS URL the library accepts, under Https, or spells a host
      and a port that are accepted. */
  lemma AcceptedExactly(n: Netip, b: string, p: Protocol)
    ensures CanonicalBase(n, b, p).Some? <==> BaseAccepted(n, p, b)
  {
    if !IsHttpsUrl(b) {
      forall h, port ensures SplitForwarderHostPort(n, b) == Some(Pair(h, port)) <==> Spells(n, b, h, port) {
        SplitExactly(n, b, h, port);
      }
      forall port ensures EffectivePort(p, port).Some? <==> PortAccepted(p, port) {
        PortRefusedExactly(p, port);
      }
      if SplitForwarderHostPort(n, b).Some? {
        var Pair(h, port) := SplitForwarderHostPort(n, b).value;
        assert Spells(n, b, h, port);
      }
    }
  }

  /** In final parentheses an address without a zone is accepted. */
  predicate SuffixAccepted(n: Netip, suffix: string) {
    suffix == "" || (AddressIn(n, suffix).Some? && AddressIn(n, suffix).value.zone == "")
  }

  lemma CutExactly(n: Netip, s: string, p: Protocol)
    ensures CutParenthesized(n, s, p).Some? <==> SuffixAccepted(n, s[CutAt(s)..])
    ensures CutParenthesized(n, s, p).Some? ==> CutParenthesized(n, s, p).value.0 == s[..CutAt(s)]
  {
    if CutAt(s) < |s| {
      CutInParentheses(n, s, p);
    }
  }

  /** Of the whole forwarder, an empty text, a comma, and anything but an address without a zone in final
      parentheses is refused; what is in front of them is accepted as its base is. */
  lemma ForwarderAcceptedExactly(n: Netip, input: string, p: Protocol)
    ensures var s := TrimSpace(input);
      CanonicalForwarder(n, input, Some(p)).Some? <==>
        && s != "" && ',' !in s
        && SuffixAccepted(n, s[CutAt(s)..]) && BaseAccepted(n, p, Core(s[..CutAt(s)], p))
  {
    var s := TrimSpace(input);
    CutExactly(n, s, p);
    AcceptedExactly(n, Core(s[..CutAt(s)], p), p);
  }

  /** The scheme of a transport, in any letter case, is cut off. */
  lemma AnySchemeIsStripped(scheme: string, t: string)
    requires Lower(scheme) in {"udp://", "tcp://", "tls://", "quic://"}
    ensures StripScheme(scheme + t) == t
  {
    LowerConcat(scheme, t);
    assert Lower(scheme)[0] == LowerChar(scheme[0]) && Lower(scheme)[1] == LowerChar(scheme[1]);
    if Lower(scheme) == "quic://" {
      NoPrefix(Lower(scheme + t), "udp://", 0);
      NoPrefix(Lower(scheme + t), "tcp://", 0);
      NoPrefix(Lower(scheme + t), "tls://", 0);
    }
    assert (scheme + t)[|scheme|..] == t;
  }

  function ProtocolName(p: Protocol): string {
    match p
    case Udp => "Udp"
    case Tcp => "Tcp"
    case Tls => "Tls"
    case Https => "Https"
    case Quic => "Quic"
  }

  lemma LowerNames()
    ensures Lower("Udp") == "udp" && Lower("Tcp") == "tcp" && Lower("Tls") == "tls"
    ensures Lower("Https") == "https" && Lower("Quic") == "quic"
  {
  }

  /** A protocol goes by its name, in any letter case, and a text that is none of the names is refused. */
  lemma ProtocolByName(n: Netip, input: string, protocol: string)
    ensures forall p: Protocol :: ParseProtocol(protocol) == Some(p) <==> EqualFold(protocol, ProtocolName(p))
    ensures ParseProtocol(protocol).None? ==> CanonicalForwarder(n, input, ParseProtocol(protocol)).None?
  {
    LowerNames();
    forall p: Protocol ensures ParseProtocol(protocol) == Some(p) <==> EqualFold(protocol, ProtocolName(p)) {
      match p case Udp => case Tcp => case Tls => case Https => case Quic =>
    }
  }
}
