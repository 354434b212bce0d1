/** Comparing a configured forwarder with the one the server stores.
    internal/provider/server_settings_forwarders.go */
module ForwarderDrift {
  import opened Text
  import opened ForwarderCanonical

  function SameForwarder(n: Netip, configured: string, server: string, protocol: Option<Protocol>): bool {
    match CanonicalForwarder(n, configured, protocol)
    case None => false
    case Some(want) =>
      EqualFold(want, match CanonicalForwarder(n, server, protocol) case Some(c) => c case None => server)
  }

  // ---------------------------------------------------------------- hosts

  /** What splitting leaves of a host: no opening bracket, and no colon or several. */
  predicate HostShape(h: string) {
    (h != "" ==> h[0] != '[') && (':' in h ==> CountChar(h, ':') >= 2)
  }

  /** What splitting and canonicalizing leave of a well-formed host. */
  predicate HostText(n: Netip, h: string) {
    && HostShape(h) && h != "" && '/' !in h && ',' !in h
    && (forall i :: 0 <= i < |h| ==> !IsSpace(h[i]))
  }

  lemma AddrTextIsHostText(n: Netip, s: string)
    requires Lawful(n) && n.parse(s).Some? && n.parse(s).value.zone == ""
    ensures HostText(n, s) && ']' !in s && '%' !in s
    ensures !n.parse(s).value.is6 <==> ':' !in s
  {
    assert LawfulAt(n, s);
    CountCharZero(s, ':');
  }

  lemma Ipv6Text(n: Netip, s: string)
    requires Lawful(n) && n.parse(s).Some? && n.parse(s).value.is6
    ensures HostShape(s)
  {
    assert LawfulAt(n, s);
  }

  lemma BetweenBrackets(b: string, end: int)
    requires 0 < end == Index(b, "]")
    ensures ']' !in b[1..end]
  {
    var h := b[1..end];
    forall j | 0 <= j < |h| ensures h[j] != ']' {
      assert b[j + 1..j + 2] == [h[j]] && !At(b, "]", j + 1);
    }
  }

  /** A host without brackets is a prefix of the text. */
  lemma UnbracketedHost(n: Netip, b: string)
    requires !("[" <= b) && SplitForwarderHostPort(n, b).Some?
    ensures var Pair(h, t) := SplitForwarderHostPort(n, b).value;
      h <= b && HostShape(h) && (t != "" ==> ':' !in h)
  {
    var colon := Index(b, ":");
    CountCharZero(b, ':');
    NoColonBefore(b, if colon < 0 then |b| else colon);
    assert b != "" ==> b[..1] == [b[0]];
  }

  /** The host an input is split into. */
  lemma SplitHostText(n: Netip, b: string)
    requires Lawful(n) && SplitForwarderHostPort(n, b).Some? && ',' !in b
    ensures var Pair(h, t) := SplitForwarderHostPort(n, b).value;
      && ',' !in h && HostShape(h)
      && (t != "" && ':' in h ==> n.parse(h).Some? && n.parse(h).value.is6 && ']' !in h)
  {
    if "[" <= b {
      assert b[0..1] == "[" && !At(b, "]", 0);
      BetweenBrackets(b, Index(b, "]"));
      Ipv6Text(n, SplitForwarderHostPort(n, b).value.0);
    } else {
      UnbracketedHost(n, b);
    }
  }

  lemma NoColonBefore(b: string, k: nat)
    requires k <= |b| && (Index(b, ":") < 0 || k <= Index(b, ":"))
    ensures ':' !in b[..k]
  {
    forall j | 0 <= j < k ensures b[..k][j] != ':' {
      assert b[j..j + 1] == [b[j]] && !At(b, ":", j);
    }
  }

  lemma CountCharPrefix(s: string, k: nat, c: char)
    requires k <= |s| && c !in s[k..]
    ensures CountChar(s[..k], c) == CountChar(s, c)
  {
    assert s == s[..k] + s[k..];
    CountCharConcat(s[..k], s[k..], c);
    CountCharZero(s[k..], c);
  }

  /** The canonical host is again host text, and canonicalizes to itself, unless it is an
      address that only its final dot kept from being recognized. */
  lemma CanonicalHostAgain(n: Netip, p: Protocol, host: string)
    requires Lawful(n) && !p.Udp? && WellFormedHost(host) && HostText(n, host)
    requires CanonicalHost(n, host, p).Some?
    ensures var h := CanonicalHost(n, host, p).value;
      && HostText(n, h)
      && (n.parse(h).None? || n.parse(host).Some? ==> CanonicalHost(n, h, p) == Some(h))
      && (n.parse(host).Some? ==> n.parse(h).Some? && ']' !in h && (n.parse(h).value.is6 <==> ':' in h))
      && (n.parse(host).None? && n.parse(h).Some? ==>
            && HasSuffix(host, ".") && h == TrimSuffix(host, ".")
            && n.parse(h).value.is6 && n.parse(h).value.zone == "" && ':' in h)
      && (n.parse(host).None? ==> h == TrimSuffix(host, "."))
  {
    var h := CanonicalHost(n, host, p).value;
    if n.parse(host).Some? {
      assert LawfulAt(n, host);
      AddrTextIsHostText(n, h);
    } else {
      if HasSuffix(host, ".") {
        assert host == h + ".";
        assert host[|h|..] == ".";
        CountCharPrefix(host, |h|, ':');
        assert h != "" by { assert host[0] == '.' || |host| > 1; }
        assert host[|h| - 1..] == [h[|h| - 1], '.'] && h[|h| - 1] != '.';
        assert DigitsAndDots(h) ==> DigitsAndDots(host);
      }
      if n.parse(h).Some? {
        assert LawfulAt(n, h);
        CountCharZero(h, ':');
      }
      assert !HasSuffix(h, ".");
    }
  }

  // ---------------------------------------------------------------- the printed base

  /** A base that trimming, cutting and scheme-stripping leave alone, with suffix behind it. */
  predicate PrintedBase(o: string, suffix: string) {
    && o != "" && !IsSpace(o[0]) && o[|o| - 1] != ' ' && ',' !in o && StripScheme(o) == o
    && (suffix == "" ==> !IsSpace(o[|o| - 1]) && (LastIndex(o, " (") <= 0 || !HasSuffix(o, ")")))
  }

  predicate Unspaced(o: string) {
    o != "" && forall i :: 0 <= i < |o| ==> PlainChar(o[i])
  }

  predicate PlainChar(c: char) {
    !IsSpace(c) && c != ',' && c != '/'
  }

  lemma UnspacedIsPrintedBase(o: string, suffix: string)
    requires Unspaced(o)
    ensures PrintedBase(o, suffix) && !IsHttpsUrl(o)
  {
    var i := LastIndex(o, " (");
    assert i >= 0 ==> o[i..i + 2][0] == o[i] && IsSpace(' ');
    var l := Lower(o);
    assert '/' !in l by { assert forall j :: 0 <= j < |o| ==> l[j] == LowerChar(o[j]); }
    NoPrefix(l, "udp://", 4);
    NoPrefix(l, "tcp://", 4);
    NoPrefix(l, "tls://", 4);
    NoPrefix(l, "quic://", 5);
    NoPrefix(l, "https://", 6);
  }

  lemma NoPrefix(l: string, prefix: string, k: nat)
    requires k < |prefix|
    requires k < |l| ==> l[k] != prefix[k]
    ensures !(prefix <= l)
  {
    if |prefix| <= |l| {
      assert l[..|prefix|][k] == l[k];
    }
  }

  lemma FormatIsUnspaced(n: Netip, p: Protocol, h: string, port: string)
    requires HostText(n, h) && !p.Https? && (port == "" || PortValid(p, port))
    ensures Unspaced(Format(p, h, port))
  {
    PortHasOnlyDigits(p, port);
    assert forall i :: 0 <= i < |port| ==> PlainChar(port[i]);
    assert forall i :: 0 <= i < |h| ==> PlainChar(h[i]);
    assert PlainChar('[') && PlainChar(']') && PlainChar(':');
    assert Unspaced(Bracketed(h)) && Unspaced(":") && Unspaced("853");
  }

  lemma HttpsUrlIsPrintedBase(o: string, suffix: string)
    requires IsHttpsUrl(o) && ',' !in o && o[|o| - 1] != ' '
    requires suffix == "" ==> !IsSpace(o[|o| - 1]) && (LastIndex(o, " (") <= 0 || !HasSuffix(o, ")"))
    ensures PrintedBase(o, suffix)
  {
    var l := Lower(o);
    assert l[0] == LowerChar(o[0]) == "https://"[0];
    NoPrefix(l, "udp://", 0);
    NoPrefix(l, "tcp://", 0);
    NoPrefix(l, "tls://", 0);
    NoPrefix(l, "quic://", 0);
  }

  lemma HttpsFormatIsPrintedBase(n: Netip, h: string, port: string, suffix: string)
    requires ',' !in h && (port == "" || PortValid(Https, port))
    ensures IsHttpsUrl(Format(Https, h, port)) && PrintedBase(Format(Https, h, port), suffix)
  {
    PortHasOnlyDigits(Https, port);
    var b := Lower(Bracketed(h));
    assert forall i :: 0 <= i < |b| ==> b[i] != ',';
    var o := Format(Https, h, port);
    var tail := WithPort(b, port) + "/dns-query";
    assert o == "https://" + tail;
    assert ',' !in tail;
    LowerConcat("https://", tail);
    assert Lower("https://") == "https://";
    assert o[|o| - 1] == 'y';
    HttpsUrlIsPrintedBase(o, suffix);
  }

  // ---------------------------------------------------------------- the base, again

  lemma UdpBaseAgain(n: Netip, h: string, port: string)
    requires HostText(n, h) && EffectivePort(Udp, port) == Some(port)
    requires port != "" && ':' in h ==> n.parse(h).Some? && n.parse(h).value.is6 && ']' !in h
    ensures CanonicalBase(n, Format(Udp, h, port), Udp) == Some(Format(Udp, h, port))
  {
    FormatIsUnspaced(n, Udp, h, port);
    UnspacedIsPrintedBase(Format(Udp, h, port), "");
    if port != "" { PortHasOnlyDigits(Udp, port); }
    if ':' !in h {
      SplitPlain(n, h, port);
    } else if port != "" {
      SplitBracketed(n, h, port);
    }
  }

  /** A printed host splits off its printed base again, or the base is refused. */
  lemma SplitFormatted(n: Netip, p: Protocol, h: string, t: string)
    requires HostText(n, h) && (t == "" || PortValid(p, t)) && !p.Https?
    requires !IsHttpsUrl(WithPort(Bracketed(h), t))
    ensures var o := WithPort(Bracketed(h), t);
      if ':' in h && (']' in h || n.parse(h).None? || !n.parse(h).value.is6) then CanonicalBase(n, o, p) == None
      else SplitForwarderHostPort(n, o) == Some(Pair(h, t))
  {
    PortHasOnlyDigits(p, t);
    if ':' !in h {
      SplitPlain(n, h, t);
    } else if ']' in h {
      SplitBrokenBracket(n, p, h, t);
    } else {
      SplitBracketed(n, h, t);
    }
  }

  predicate DottedAddress(n: Netip, host: string) {
    n.parse(host).None? && HasSuffix(host, ".") && n.parse(TrimSuffix(host, ".")).Some?
  }

  predicate HostOnlyProtocol(p: Protocol) {
    p.Tcp? || p.Tls? || p.Quic?
  }

  /** The port as it is printed for p. */
  function PrintedPort(p: Protocol, port: string): string {
    if port == "" && (p.Tls? || p.Quic?) then "853" else port
  }

  /** What a second pass splits off the base printed for h. */
  lemma FormattedAgain(n: Netip, p: Protocol, h: string, port: string)
    requires HostOnlyProtocol(p) && HostText(n, h)
    requires port == "" || PortValid(p, port)
    requires EffectivePort(p, PrintedPort(p, port)) == Some(port)
    ensures CanonicalBase(n, Format(p, h, port), p) ==
      if ':' in h && (']' in h || n.parse(h).None? || !n.parse(h).value.is6) then None
      else match CanonicalHost(n, h, p)
        case None => None
        case Some(again) => Some(Format(p, again, port))
  {
    var t := PrintedPort(p, port);
    assert t == "" || PortValid(p, t);
    FormatIsUnspaced(n, p, h, port);
    UnspacedIsPrintedBase(Format(p, h, port), "");
    assert Format(p, h, port) == WithPort(Bracketed(h), t);
    SplitFormatted(n, p, h, t);
  }

  /** The base printed for a well-formed host is refused or printed the same again. */
  lemma HostBaseAgain(n: Netip, p: Protocol, host: string, port: string)
    requires Lawful(n) && HostOnlyProtocol(p) && WellFormedHost(host) && HostText(n, host) && !DottedAddress(n, host)
    requires CanonicalHost(n, host, p).Some?
    requires (port == "" || PortValid(p, port)) && EffectivePort(p, PrintedPort(p, port)) == Some(port)
    ensures var o := Format(p, CanonicalHost(n, host, p).value, port);
      CanonicalBase(n, o, p).None? || CanonicalBase(n, o, p) == Some(o)
  {
    CanonicalHostAgain(n, p, host);
    FormattedAgain(n, p, CanonicalHost(n, host, p).value, port);
  }

  /** The base printed for an address behind a dot is printed again as the address is. */
  lemma DottedBaseAgain(n: Netip, p: Protocol, host: string, port: string)
    requires Lawful(n) && HostOnlyProtocol(p) && WellFormedHost(host) && HostText(n, host) && DottedAddress(n, host)
    requires CanonicalHost(n, host, p).Some?
    requires (port == "" || PortValid(p, port)) && EffectivePort(p, PrintedPort(p, port)) == Some(port)
    ensures var h := TrimSuffix(host, ".");
      && CanonicalHost(n, host, p) == Some(h) && ':' in h && ':' in n.text(n.parse(h).value)
      && CanonicalBase(n, Format(p, h, port), p) == Some(Format(p, n.text(n.parse(h).value), port))
  {
    CanonicalHostAgain(n, p, host);
    var h := CanonicalHost(n, host, p).value;
    AddrTextIsHostText(n, h);
    assert LawfulAt(n, h);
    AddrTextIsHostText(n, n.text(n.parse(h).value));
    FormattedAgain(n, p, h, port);
  }

  // ---------------------------------------------------------------- the suffix, again

  /** A trimmed, single address. */
  predicate Trimmed(s: string) {
    s != "" && !IsSpace(s[0]) && !IsSpace(s[|s| - 1]) && ',' !in s
  }

  /** An address in parentheses, as cutting it off leaves it. */
  ghost predicate SuffixText(n: Netip, p: Protocol, suffix: string) {
    suffix == "" || (
      && |suffix| >= 3 && " (" <= suffix && HasSuffix(suffix, ")") && ',' !in suffix
      && (forall j :: j > 0 ==> !At(suffix, " (", j))
      && var a := n.parse(Unbracketed(suffix[2..|suffix| - 1]));
         a.Some? && a.value.zone == "" && (!p.Udp? ==> suffix == Parenthesized(n, a.value)))
  }

  lemma AtTail(s: string, sub: string, k: nat, j: int)
    requires k <= |s| && 0 <= j
    ensures At(s[k..], sub, j) == At(s, sub, k + j)
  {
    if j + |sub| <= |s| - k {
      assert s[k..][j..j + |sub|] == s[k + j..k + j + |sub|];
    }
  }

  lemma InParentheses(suffix: string, inner: string)
    requires suffix == " (" + inner + ")" && ' ' !in inner && ',' !in inner
    ensures |suffix| >= 3 && " (" <= suffix && HasSuffix(suffix, ")") && ',' !in suffix
    ensures suffix[2..|suffix| - 1] == inner
    ensures forall j :: j > 0 ==> !At(suffix, " (", j)
  {
    forall j | 0 < j <= |suffix| - 2 ensures !At(suffix, " (", j) {
      assert suffix[j..j + 2][0] == suffix[j];
      assert suffix[j] == '(' || suffix[j] == ')' || suffix[j] in inner;
    }
  }

  lemma InnerText(t: string, is6: bool)
    requires AddrText(t)
    ensures var inner := if is6 then "[" + t + "]" else t;
      ' ' !in inner && ',' !in inner && Unbracketed(inner) == t
  {
    var inner := if is6 then "[" + t + "]" else t;
    assert forall i :: 0 <= i < |t| ==> t[i] != ' ' && t[i] != ',';
    assert t[0] != '[';
    if is6 {
      assert inner[1..|inner| - 1] == t && inner[|inner| - 1..] == "]";
    }
  }

  lemma ParenthesizedIsSuffixText(n: Netip, p: Protocol, a: Addr, s: string)
    requires Lawful(n) && n.parse(s) == Some(a) && a.zone == ""
    ensures SuffixText(n, p, Parenthesized(n, a))
  {
    assert LawfulAt(n, s) && LawfulAt(n, n.text(a));
    InnerText(n.text(a), a.is6);
    var inner := if a.is6 then "[" + n.text(a) + "]" else n.text(a);
    assert Parenthesized(n, a) == " (" + inner + ")";
    InParentheses(Parenthesized(n, a), inner);
  }

  lemma CutSuffixText(n: Netip, s: string, p: Protocol)
    requires Lawful(n) && ',' !in s && CutParenthesized(n, s, p).Some?
    ensures var Pair(base, suffix) := CutParenthesized(n, s, p).value;
      && SuffixText(n, p, suffix) && base <= s
      && (suffix == "" ==> base == s && (LastIndex(s, " (") <= 0 || !HasSuffix(s, ")")))
  {
    var i := LastIndex(s, " (");
    if i > 0 && HasSuffix(s, ")") {
      assert s[i + 1] == s[i..i + 2][1] == '(';
      var inner := s[i + 2..|s| - 1];
      var a := n.parse(Unbracketed(inner)).value;
      if p.Udp? {
        var suffix := s[i..];
        assert suffix[..2] == s[i..i + 2];
        assert suffix[2..|suffix| - 1] == inner;
        forall j | j > 0 ensures !At(suffix, " (", j) { AtTail(s, " (", i, j); }
      } else {
        ParenthesizedIsSuffixText(n, p, a, Unbracketed(inner));
      }
    }
  }

  lemma SuffixStart(o: string, suffix: string)
    requires |suffix| >= 2 && " (" <= suffix && forall j :: j > 0 ==> !At(suffix, " (", j)
    ensures LastIndex(o + suffix, " (") == |o|
  {
    var c := o + suffix;
    assert c[|o|..] == suffix && suffix[0..2] == " (";
    AtTail(c, " (", |o|, 0);
    forall j | j > |o| ensures !At(c, " (", j) { AtTail(c, " (", |o|, j - |o|); }
  }

  lemma CutAgain(n: Netip, p: Protocol, o: string, suffix: string)
    requires o != "" && suffix != "" && SuffixText(n, p, suffix)
    ensures CutParenthesized(n, o + suffix, p) == Some(Pair(o, suffix))
  {
    var c := o + suffix;
    SuffixStart(o, suffix);
    assert c[|c| - 1..] == suffix[|suffix| - 1..];
    assert c[|o|..] == suffix && c[..|o|] == o;
    assert c[|o| + 2..|c| - 1] == suffix[2..|suffix| - 1];
  }

  lemma PrintedIsTrimmed(o: string, suffix: string)
    requires PrintedBase(o, suffix) && (suffix != "" ==> ',' !in suffix && HasSuffix(suffix, ")"))
    ensures Trimmed(o + suffix)
  {
    var c := o + suffix;
    assert c[0] == o[0];
    if suffix == "" {
      assert c == o;
    } else {
      assert suffix[|suffix| - 1..] == ")" && c[|c| - 1] == suffix[|suffix| - 1] == ')';
    }
  }

  lemma PrintedIsCore(p: Protocol, o: string, suffix: string)
    requires PrintedBase(o, suffix)
    ensures Core(o, p) == o
  {
    assert TrimRightBlank(o) == o;
  }

  /** A printed base with a cut suffix behind it is taken apart into just these. */
  lemma TakenApartAgain(n: Netip, p: Protocol, o: string, suffix: string)
    requires PrintedBase(o, suffix) && SuffixText(n, p, suffix)
    ensures Trimmed(o + suffix)
    ensures CutParenthesized(n, o + suffix, p) == Some(Pair(o, suffix))
    ensures Core(o, p) == o
  {
    PrintedIsTrimmed(o, suffix);
    PrintedIsCore(p, o, suffix);
    if suffix == "" {
      assert o + suffix == o;
    } else {
      CutAgain(n, p, o, suffix);
    }
  }

  // ---------------------------------------------------------------- URLs

  lemma BlankIsSpace(s: string)
    requires Trimmed(s)
    ensures TrimRightBlank(s) == s
  {
    assert IsSpace(' ');
  }

  /** A tail of a text that has no parenthesized suffix has none either. */
  lemma TailHasNoSuffix(s: string, k: nat)
    requires k < |s| && !IsSpace(s[0]) && (LastIndex(s, " (") <= 0 || !HasSuffix(s, ")"))
    ensures LastIndex(s[k..], " (") <= 0 || !HasSuffix(s[k..], ")")
  {
    var b := s[k..];
    assert s[|s| - 1..] == b[|b| - 1..] && IsSpace(' ');
    var j := LastIndex(b, " (");
    AtTail(s, " (", k, if j < 0 then 0 else j);
  }

  lemma StripSchemeIsTail(x: string)
    ensures var b := StripScheme(x); |b| <= |x| && b == x[|x| - |b|..]
  {
  }

  /** The base of a URL, which is a tail of the trimmed base. */
  lemma UrlBase(s: string, trimmed: string, suffix: string)
    requires Trimmed(s) && trimmed <= s && (trimmed != "" ==> trimmed[|trimmed| - 1] != ' ')
    requires suffix == "" ==> trimmed == s && (LastIndex(s, " (") <= 0 || !HasSuffix(s, ")"))
    requires IsHttpsUrl(StripScheme(trimmed))
    ensures PrintedBase(StripScheme(trimmed), suffix)
  {
    var b := StripScheme(trimmed);
    var k := |trimmed| - |b|;
    StripSchemeIsTail(trimmed);
    UrlBaseTail(s, trimmed, k, b, suffix);
    HttpsUrlIsPrintedBase(b, suffix);
  }

  lemma UrlBaseTail(s: string, trimmed: string, k: nat, b: string, suffix: string)
    requires Trimmed(s) && trimmed <= s && k < |trimmed| && b == trimmed[k..] && trimmed[|trimmed| - 1] != ' '
    requires suffix == "" ==> trimmed == s && (LastIndex(s, " (") <= 0 || !HasSuffix(s, ")"))
    ensures ',' !in b && b != "" && b[|b| - 1] != ' '
    ensures suffix == "" ==> !IsSpace(b[|b| - 1]) && (LastIndex(b, " (") <= 0 || !HasSuffix(b, ")"))
  {
    assert b[|b| - 1] == trimmed[|trimmed| - 1];
    assert forall i :: 0 <= i < |b| ==> b[i] == trimmed[k + i] == s[k + i];
    if suffix == "" {
      TailHasNoSuffix(s, k);
    }
  }

  // ---------------------------------------------------------------- main results

  /** The host is an address but for its final dot. */
  predicate Dotted(n: Netip, s: string, p: Protocol) {
    HostOnlyProtocol(p) && HostIn(n, s, p).Some? && DottedAddress(n, HostIn(n, s, p).value)
  }

  /** The host is an address but for its final dot, and the address is not printed as it is
      spelled. */
  predicate Respelled(n: Netip, s: string, p: Protocol) {
    Dotted(n, s, p) && RespelledBehindDot(n, HostIn(n, s, p).value)
  }

  /** A canonical form that a second pass refuses, or prints the same but for letter case. */
  predicate Stable(n: Netip, p: Protocol, c: string) {
    match CanonicalTrimmed(n, c, p)
    case None => true
    case Some(again) => EqualFold(c, again)
  }

  lemma CoreKeepsCommasOut(base: string, p: Protocol)
    requires ',' !in base
    ensures ',' !in Core(base, p)
  {
  }

  lemma FoldBetween(a: string, x: string, y: string, b: string)
    ensures EqualFold(a + x + b, a + y + b) <==> EqualFold(x, y)
  {
    LowerConcat(a + x, b);
    LowerConcat(a, x);
    LowerConcat(a + y, b);
    LowerConcat(a, y);
    var s, t := Lower(a) + Lower(x) + Lower(b), Lower(a) + Lower(y) + Lower(b);
    if s == t {
      assert s[|a|..|s| - |b|] == Lower(x);
      assert t[|a|..|t| - |b|] == Lower(y);
    }
  }

  /** The host base of a well-formed input, printed and reduced again. */
  lemma HostCase(n: Netip, s: string, p: Protocol, b: string, suffix: string, o: string)
    requires Lawful(n) && ',' !in b && SuffixText(n, p, suffix) && !IsHttpsUrl(b)
    requires SplitForwarderHostPort(n, b).Some?
    requires !p.Https? ==> WellFormedHost(SplitForwarderHostPort(n, b).value.0)
    requires CanonicalBase(n, b, p) == Some(o)
    ensures PrintedBase(o, suffix)
    ensures !(HostOnlyProtocol(p) && DottedAddress(n, SplitForwarderHostPort(n, b).value.0)) ==>
      CanonicalBase(n, o, p).None? || CanonicalBase(n, o, p) == Some(o)
  {
    var Pair(host, given) := SplitForwarderHostPort(n, b).value;
    var port := EffectivePort(p, given).value;
    var h := CanonicalHost(n, host, p).value;
    SplitHostText(n, b);
    EffectivePortAgain(p, given);
    if p.Https? {
      HttpsHost(n, host, h);
      HttpsFormatIsPrintedBase(n, h, port, suffix);
    } else {
      if p.Udp? {
        UdpBaseAgain(n, h, port);
      } else {
        CanonicalHostAgain(n, p, host);
        if DottedAddress(n, host) { DottedBaseAgain(n, p, host, port); } else { HostBaseAgain(n, p, host, port); }
      }
      FormatIsUnspaced(n, p, h, port);
      UnspacedIsPrintedBase(o, suffix);
    }
  }

  lemma HttpsHost(n: Netip, host: string, h: string)
    requires Lawful(n) && ',' !in host && CanonicalHost(n, host, Https) == Some(h)
    ensures ',' !in h
  {
    if n.parse(host).Some? {
      assert LawfulAt(n, host);
      AddrTextIsHostText(n, h);
    }
  }

  /** The canonical form of a host that is not an address behind a dot is stable. */
  lemma CanonicalAgain(n: Netip, s: string, p: Protocol, c: string)
    requires Lawful(n) && Trimmed(s) && WellFormedInput(n, s, p) && CanonicalTrimmed(n, s, p) == Some(c)
    requires !Dotted(n, s, p)
    ensures Trimmed(c) && Stable(n, p, c)
  {
    var Pair(base, suffix) := CutParenthesized(n, s, p).value;
    CutSuffixText(n, s, p);
    var o := CanonicalBase(n, Core(base, p), p).value;
    BaseAgain(n, s, p, base, suffix, o);
    TakenApartAgain(n, p, o, suffix);
  }

  lemma BaseAgain(n: Netip, s: string, p: Protocol, base: string, suffix: string, o: string)
    requires Lawful(n) && Trimmed(s) && WellFormedInput(n, s, p) && !Dotted(n, s, p)
    requires CutParenthesized(n, s, p) == Some(Pair(base, suffix)) && SuffixText(n, p, suffix) && base <= s
    requires suffix == "" ==> base == s && (LastIndex(s, " (") <= 0 || !HasSuffix(s, ")"))
    requires CanonicalBase(n, Core(base, p), p) == Some(o)
    ensures PrintedBase(o, suffix)
    ensures CanonicalBase(n, o, p).None? || CanonicalBase(n, o, p) == Some(o)
  {
    if IsHttpsUrl(Core(base, p)) {
      BlankIsSpace(s);
      UrlBase(s, TrimRightBlank(base), suffix);
    } else {
      CoreKeepsCommasOut(base, p);
      HostCase(n, s, p, Core(base, p), suffix, o);
    }
  }

  lemma DottedCase(n: Netip, p: Protocol, b: string, suffix: string, o: string)
    requires Lawful(n) && ',' !in b && HostOnlyProtocol(p) && !IsHttpsUrl(b) && CanonicalBase(n, b, p) == Some(o)
    requires WellFormedHost(SplitForwarderHostPort(n, b).value.0)
    requires DottedAddress(n, SplitForwarderHostPort(n, b).value.0)
    ensures CanonicalBase(n, o, p).Some?
      && (EqualFold(o + suffix, CanonicalBase(n, o, p).value + suffix)
          <==> !RespelledBehindDot(n, SplitForwarderHostPort(n, b).value.0))
  {
    var Pair(host, given) := SplitForwarderHostPort(n, b).value;
    var port := EffectivePort(p, given).value;
    SplitHostText(n, b);
    EffectivePortAgain(p, given);
    DottedBaseAgain(n, p, host, port);
    FoldBracketed(p, TrimSuffix(host, "."), n.text(n.parse(TrimSuffix(host, ".")).value), port, suffix);
  }

  /** An address behind a dot canonicalizes to the text before the dot, and that again to the
      address as it is printed. */
  lemma DottedAgain(n: Netip, s: string, p: Protocol, c: string)
    requires Lawful(n) && Trimmed(s) && WellFormedInput(n, s, p) && CanonicalTrimmed(n, s, p) == Some(c)
    requires Dotted(n, s, p)
    ensures Trimmed(c) && CanonicalTrimmed(n, c, p).Some?
    ensures EqualFold(c, CanonicalTrimmed(n, c, p).value) <==> !RespelledBehindDot(n, HostIn(n, s, p).value)
  {
    var Pair(base, suffix) := CutParenthesized(n, s, p).value;
    CutSuffixText(n, s, p);
    CoreKeepsCommasOut(base, p);
    var o := CanonicalBase(n, Core(base, p), p).value;
    HostCase(n, s, p, Core(base, p), suffix, o);
    DottedCase(n, p, Core(base, p), suffix, o);
    TakenApartAgain(n, p, o, suffix);
  }

  lemma FoldBracketed(p: Protocol, x: string, y: string, port: string, suffix: string)
    requires HostOnlyProtocol(p) && ':' in x && ':' in y
    ensures EqualFold(Format(p, x, port) + suffix, Format(p, y, port) + suffix) <==> EqualFold(x, y)
  {
    FormatBracketed(p, x, port, suffix);
    FormatBracketed(p, y, port, suffix);
    FoldBetween("[", x, y, AfterBracket(p, port, suffix));
  }

  function AfterBracket(p: Protocol, port: string, suffix: string): string {
    "]" + (if PrintedPort(p, port) == "" then "" else ":" + PrintedPort(p, port)) + suffix
  }

  lemma FormatBracketed(p: Protocol, x: string, port: string, suffix: string)
    requires HostOnlyProtocol(p) && ':' in x
    ensures Format(p, x, port) + suffix == "[" + x + AfterBracket(p, port, suffix)
  {
  }

  lemma CanonicalInputIsTrimmed(n: Netip, s: string, p: Protocol)
    requires CanonicalTrimmed(n, TrimSpace(s), p).Some?
    ensures Trimmed(TrimSpace(s))
  {
  }

  /** A configured forwarder is the same as the canonical form the server stores for it, for
      every well-formed input and every protocol, except exactly where a final dot hid an
      address that would be printed otherwise. */
  lemma NoDrift(n: Netip, input: string, p: Protocol, c: string)
    requires Lawful(n) && CanonicalForwarder(n, input, Some(p)) == Some(c)
    requires WellFormedInput(n, TrimSpace(input), p)
    ensures SameForwarder(n, input, c, Some(p)) <==> !Respelled(n, TrimSpace(input), p)
  {
    CanonicalInputIsTrimmed(n, input, p);
    NoDriftTrimmed(n, TrimSpace(input), p, c);
    TrimSpaceNoop(c);
  }

  lemma NoDriftTrimmed(n: Netip, s: string, p: Protocol, c: string)
    requires Lawful(n) && Trimmed(s) && WellFormedInput(n, s, p) && CanonicalTrimmed(n, s, p) == Some(c)
    ensures Trimmed(c) && (Stable(n, p, c) <==> !Respelled(n, s, p))
  {
    if Dotted(n, s, p) {
      DottedAgain(n, s, p, c);
    } else {
      CanonicalAgain(n, s, p, c);
    }
  }

  // ---------------------------------------------------------------- why the input must be well-formed

  lemma NotAnAddress(n: Netip, s: string)
    requires Lawful(n) && s != "" && '%' !in s && s[0] == 'x'
    ensures n.parse(s).None? && !DigitsAndDots(s)
  {
    assert LawfulAt(n, s);
  }

  lemma NotParenthesized(n: Netip, s: string, p: Protocol)
    requires '(' !in s
    ensures CutParenthesized(n, s, p) == Some(Pair(s, ""))
  {
    forall j | 0 <= j <= |s| - 2 ensures !At(s, " (", j) {
      assert s[j..j + 2][1] == s[j + 1];
    }
    assert LastIndex(s, " (") < 0;
  }

  /** One pass over an address without parentheses. */
  lemma OnePass(n: Netip, s: string, p: Protocol, core: string, o: string)
    requires s != "" && ',' !in s && '(' !in s && Core(s, p) == core && CanonicalBase(n, core, p) == Some(o)
    ensures CanonicalTrimmed(n, s, p) == Some(o)
  {
    NotParenthesized(n, s, p);
    assert o + "" == o;
  }

  /** Two passes that end apart. */
  lemma TwoPasses(n: Netip, p: Protocol, s: string, stored: string, compared: string)
    requires TrimSpace(s) == s && CanonicalTrimmed(n, s, p) == Some(stored)
    requires CanonicalTrimmed(n, TrimSpace(stored), p) == Some(compared) && |compared| != |stored|
    ensures CanonicalForwarder(n, s, Some(p)) == Some(stored) && !SameForwarder(n, s, stored, Some(p))
  {
    assert |Lower(stored)| != |Lower(compared)|;
  }

  lemma NoSchemeInFront(s: string, k: nat)
    requires |s| < 3 || (k < 3 && (s[k] == ' ' || s[k] == ':'))
    ensures StripScheme(s) == s && !IsHttpsUrl(s)
  {
    var l := Lower(s);
    if |s| >= 3 {
      assert l[k] == s[k];
      NoPrefix(l, "udp://", k);
      NoPrefix(l, "tcp://", k);
      NoPrefix(l, "tls://", k);
      NoPrefix(l, "quic://", k);
      NoPrefix(l, "https://", k);
    }
  }

  lemma BasePass(n: Netip, p: Protocol, h: string, given: string, port: string)
    requires Lawful(n) && (p.Udp? || p.Tcp?)
    requires h != "" && h[0] == 'x' && ':' !in h && ':' !in given && '%' !in h && !HasSuffix(h, ".")
    requires EffectivePort(p, given) == Some(port) && !IsHttpsUrl(WithPort(h, given))
    ensures CanonicalBase(n, WithPort(h, given), p) == Some(WithPort(h, port))
  {
    SplitPlain(n, h, given);
    NotAnAddress(n, h);
  }

  lemma DefaultPort(p: Protocol)
    requires p.Udp? || p.Tcp?
    ensures EffectivePort(p, "53") == Some("")
  {
    assert "53"[..1] == "5" && DigitsValue("5") == 5;
    assert ParseInt64("53") == Some(53);
  }

  lemma FirstBlankBase(n: Netip)
    requires Lawful(n)
    ensures CanonicalBase(n, "x :53", Tcp) == Some("x ") && Core("x :53", Tcp) == "x :53"
  {
    DefaultPort(Tcp);
    NoSchemeInFront("x :53", 1);
    assert WithPort("x ", "53") == "x :53";
    BasePass(n, Tcp, "x ", "53", "");
  }

  lemma FirstBlankPass(n: Netip)
    requires Lawful(n)
    ensures CanonicalTrimmed(n, "x :53", Tcp) == Some("x ")
  {
    FirstBlankBase(n);
    OnePass(n, "x :53", Tcp, "x :53", "x ");
  }

  lemma SecondBlankPass(n: Netip)
    requires Lawful(n)
    ensures CanonicalTrimmed(n, "x", Tcp) == Some("x")
  {
    NoSchemeInFront("x", 0);
    BasePass(n, Tcp, "x", "", "");
    OnePass(n, "x", Tcp, "x", "x");
  }

  lemma BlankTrims()
    ensures TrimSpace("x :53") == "x :53" && TrimSpace("x ") == "x"
  {
    TrimSpaceNoop("x :53");
    assert "x "[..1] == "x" && TrimRightSpace("x") == "x" && TrimRightSpace("x ") == "x";
  }

  /** A host that ends in a blank is stored with it, and compared without it. */
  lemma BlankInHostDrifts(n: Netip)
    requires Lawful(n)
    ensures CanonicalForwarder(n, "x :53", Some(Tcp)) == Some("x ")
    ensures !SameForwarder(n, "x :53", "x ", Some(Tcp))
  {
    FirstBlankPass(n);
    SecondBlankPass(n);
    BlankTrims();
    TwoPasses(n, Tcp, "x :53", "x ", "x");
  }

  lemma CompressedIsRespelled(n: Netip, h: string, a: Addr)
    requires Lawful(n) && n.parse(h) == Some(a) && n.text(a) == "::1" && n.parse(h + ".").None?
    requires h == "0::1"
    ensures RespelledBehindDot(n, h + ".") && a.is6 && '%' !in h + "."
  {
    assert LawfulAt(n, h);
    assert h[1] == ':' && !DigitsAndDots(h);
    assert TrimSuffix(h + ".", ".") == h;
    assert |Lower(h)| == 4 && |Lower("::1")| == 3;
  }

  lemma DottedPass(n: Netip, h: string, a: Addr)
    requires Lawful(n) && n.parse(h) == Some(a) && n.text(a) == "::1" && n.parse(h + ".").None?
    requires h == "0::1"
    ensures SplitForwarderHostPort(n, h + ".") == Some(Pair(h + ".", ""))
    ensures CanonicalBase(n, h + ".", Tcp) == Some("[" + h + "]")
  {
    var s := h + ".";
    CompressedIsRespelled(n, h, a);
    CountCharConcat(h, ".", ':');
    CountCharConcat("0:", ":1", ':');
    assert "0:" + ":1" == h && "0:"[1..] == ":" && ":1"[1..] == "1";
    CountCharZero("1", ':');
    assert CountChar(":", ':') == 1 by { assert ":"[1..] == ""; }
    assert s[0] == '0' && s[1] == ':' && !DigitsAndDots(s);
    NoSchemeInFront(s, 1);
    assert TrimSuffix(s, ".") == h;
    assert CanonicalHost(n, s, Tcp) == Some(h);
    assert EffectivePort(Tcp, "") == Some("");
  }

  lemma DottedIsWellFormed(n: Netip, input: string)
    requires '(' !in input && Core(input, Tcp) == input && !IsHttpsUrl(input)
    requires SplitForwarderHostPort(n, input) == Some(Pair(input, "")) && WellFormedHost(input)
    ensures HostIn(n, input, Tcp) == Some(input) && WellFormedInput(n, input, Tcp)
  {
    NotParenthesized(n, input, Tcp);
  }

  lemma DottedStored(n: Netip, input: string, stored: string)
    requires Lawful(n) && TrimSpace(input) == input
    requires HostIn(n, input, Tcp) == Some(input) && WellFormedInput(n, input, Tcp)
    requires CanonicalTrimmed(n, input, Tcp) == Some(stored) && RespelledBehindDot(n, input)
    requires DottedAddress(n, input)
    ensures CanonicalForwarder(n, input, Some(Tcp)) == Some(stored) && !SameForwarder(n, input, stored, Some(Tcp))
  {
    NoDrift(n, input, Tcp, stored);
  }

  lemma DottedText(h: string)
    requires h == "0::1"
    ensures var input := h + ".";
      && TrimSpace(input) == input && WellFormedHost(input)
      && '(' !in input && Core(input, Tcp) == input && !IsHttpsUrl(input)
  {
    var input := h + ".";
    NoSchemeInFront(input, 1);
    TrimSpaceNoop(input);
    assert input[|input| - 2] == '1' && !HasSuffix(input, "..");
  }

  lemma DottedDrifts(n: Netip, h: string, a: Addr)
    requires Lawful(n) && h == "0::1" && n.parse(h) == Some(a) && n.text(a) == "::1" && n.parse(h + ".").None?
    ensures WellFormedInput(n, h + ".", Tcp)
    ensures CanonicalForwarder(n, h + ".", Some(Tcp)) == Some("[" + h + "]")
    ensures !SameForwarder(n, h + ".", "[" + h + "]", Some(Tcp))
  {
    DottedText(h);
    CompressedIsRespelled(n, h, a);
    DottedPass(n, h, a);
    DottedIsWellFormed(n, h + ".");
    OnePass(n, h + ".", Tcp, h + ".", "[" + h + "]");
    DottedStored(n, h + ".", "[" + h + "]");
  }

  /** The exception occurs: an address that prints otherwise, here in compressed form, hides behind a
      final dot until it has been stored. */
  lemma AddressBehindDotDrifts(n: Netip, a: Addr)
    requires Lawful(n) && n.parse("0::1") == Some(a) && n.text(a) == "::1" && n.parse("0::1" + ".").None?
    ensures var input, stored := "0::1" + ".", "[" + "0::1" + "]";
      && WellFormedInput(n, input, Tcp)
      && CanonicalForwarder(n, input, Some(Tcp)) == Some(stored)
      && !SameForwarder(n, input, stored, Some(Tcp))
  {
    DottedDrifts(n, "0::1", a);
  }

  lemma SchemeStripped(t: string)
    ensures Core("udp://" + t, Udp) == t
  {
    LowerConcat("udp://", t);
    assert Lower("udp://") == "udp://";
  }

  /** Under Udp a text of several colons is all host, and printed as it is. */
  lemma AllHost(n: Netip, b: string)
    requires b != "" && b[0] != '[' && CountChar(b, ':') > 1 && !IsHttpsUrl(b)
    ensures CanonicalBase(n, b, Udp) == Some(b)
  {
    assert SplitForwarderHostPort(n, b) == Some(Pair(b, ""));
  }

  lemma SchemeIsKept(n: Netip, core: string)
    requires core != "" && core[0] == 'u' && CountChar(core, ':') > 1 && ',' !in core && '(' !in core
    ensures CanonicalTrimmed(n, "udp://" + core, Udp) == Some(core)
  {
    assert Lower(core)[0] == 'u';
    AllHost(n, core);
    SchemeStripped(core);
    OnePass(n, "udp://" + core, Udp, core, core);
  }

  lemma CountColons(t: string)
    requires CountChar(t, ':') == 1
    ensures CountChar("udp://" + t, ':') == 2
  {
    CountCharConcat("udp://", t, ':');
    CountCharConcat("udp", "://", ':');
    CountCharZero("udp", ':');
    CountCharZero("//", ':');
    assert "://"[1..] == "//" && "udp" + "://" == "udp://";
  }

  lemma HostAndPort()
    ensures CountChar("x:53", ':') == 1 && "x:53" == WithPort("x", "53")
  {
    CountCharZero("53", ':');
    assert "x:53"[1..] == ":53" && ":53"[1..] == "53";
  }

  lemma PlainBase(n: Netip, t: string)
    requires Lawful(n) && t == WithPort("x", "53") && t[1] == ':'
    ensures CanonicalBase(n, t, Udp) == Some("x")
  {
    DefaultPort(Udp);
    NoSchemeInFront(t, 1);
    BasePass(n, Udp, "x", "53", "");
  }

  lemma SchemeIsStripped(n: Netip, t: string)
    requires CanonicalBase(n, t, Udp) == Some("x") && ',' !in t && '(' !in t
    ensures CanonicalTrimmed(n, "udp://" + t, Udp) == Some("x")
  {
    SchemeStripped(t);
    OnePass(n, "udp://" + t, Udp, t, "x");
  }

  lemma SchemesTrim(core: string)
    requires core != "" && core[0] == 'u' && core[|core| - 1] == '3'
    ensures TrimSpace("udp://" + core) == "udp://" + core && TrimSpace(core) == core
  {
    var s := "udp://" + core;
    assert s[0] == 'u' && s[|s| - 1] == '3';
    TrimSpaceNoop(s);
    TrimSpaceNoop(core);
  }

  /** A slash in a host: only the outer of two schemes is cut off before the text is stored, and
      the inner one when it is compared. */
  lemma NestedSchemeDrifts(n: Netip)
    requires Lawful(n)
    ensures var stored := "udp://" + "x:53";
      && CanonicalForwarder(n, "udp://" + stored, Some(Udp)) == Some(stored)
      && !SameForwarder(n, "udp://" + stored, stored, Some(Udp))
  {
    var stored := "udp://" + "x:53";
    HostAndPort();
    CountColons("x:53");
    SchemeIsKept(n, stored);
    PlainBase(n, "x:53");
    SchemeIsStripped(n, "x:53");
    SchemesTrim(stored);
    TwoPasses(n, Udp, "udp://" + stored, stored, "x");
  }

  /** Nothing but a scheme in front of an address in parentheses: the host is empty. */
  lemma EmptyHostCut(n: Netip, t: string, suffix: string)
    requires Lawful(n) && n.parse(t).Some? && n.parse(t).value.zone == "" && !n.parse(t).value.is6
    requires suffix == " (" + t + ")"
    ensures SuffixText(n, Udp, suffix) && suffix != "" && ',' !in suffix
    ensures CutParenthesized(n, "udp://" + suffix, Udp) == Some(Pair("udp://", suffix))
  {
    assert LawfulAt(n, t);
    InnerText(t, false);
    InParentheses(suffix, t);
    CutAgain(n, Udp, "udp://", suffix);
  }

  lemma EmptyBase(n: Netip)
    ensures Core("udp://", Udp) == "" && !IsHttpsUrl("")
    ensures SplitForwarderHostPort(n, "") == Some(Pair("", "")) && CanonicalBase(n, "", Udp) == Some("")
  {
    SchemeStripped("");
    assert "udp://" + "" == "udp://";
  }

  lemma EmptyHostStored(n: Netip, s: string, suffix: string)
    requires s != "" && ',' !in s && CutParenthesized(n, s, Udp) == Some(Pair("udp://", suffix))
    ensures CanonicalTrimmed(n, s, Udp) == Some(suffix) && HostIn(n, s, Udp) == Some("")
  {
    EmptyBase(n);
    assert "" + suffix == suffix;
  }

  lemma BareParentheses(n: Netip, t: string, u: string)
    requires DigitsAndDots(t) && u == "(" + t + ")"
    ensures CanonicalTrimmed(n, u, Udp) == Some(u)
  {
    forall j | 0 <= j <= |u| - 2 ensures !At(u, " (", j) {
      assert u[j..j + 2][0] == u[j] != ' ';
    }
    assert CutParenthesized(n, u, Udp) == Some(Pair(u, ""));
    assert Lower(u)[0] == '(';
    SplitPlain(n, u, "");
    assert u + "" == u;
  }

  lemma ParenthesesTrim(s: string, suffix: string, u: string)
    requires suffix == " " + u && s == "udp://" + suffix && |u| >= 2 && u[0] == '(' && u[|u| - 1] == ')'
    ensures TrimSpace(s) == s && TrimSpace(suffix) == u
  {
    assert s[0] == 'u' && s[|s| - 1] == ')';
    TrimSpaceNoop(s);
    assert suffix[0] == ' ' && suffix[1..] == u;
    assert TrimLeftSpace(u) == u && TrimLeftSpace(suffix) == u;
  }

  lemma EmptyHostFirstPass(n: Netip, t: string, s: string, suffix: string)
    requires Lawful(n) && n.parse(t).Some? && n.parse(t).value.zone == "" && !n.parse(t).value.is6
    requires suffix == " (" + t + ")" && s == "udp://" + suffix
    ensures CanonicalTrimmed(n, s, Udp) == Some(suffix) && HostIn(n, s, Udp) == Some("") && DigitsAndDots(t)
  {
    assert LawfulAt(n, t);
    EmptyHostCut(n, t, suffix);
    EmptyHostStored(n, s, suffix);
  }

  lemma EmptyHostSecondPass(n: Netip, t: string, s: string, suffix: string, u: string)
    requires DigitsAndDots(t) && u == "(" + t + ")" && suffix == " " + u && s == "udp://" + suffix
    ensures TrimSpace(s) == s && CanonicalTrimmed(n, TrimSpace(suffix), Udp) == Some(u)
  {
    BareParentheses(n, t, u);
    ParenthesesTrim(s, suffix, u);
  }

  lemma EmptyHostPasses(n: Netip, t: string, s: string, suffix: string, u: string)
    requires CanonicalTrimmed(n, s, Udp) == Some(suffix) && DigitsAndDots(t)
    requires u == "(" + t + ")" && suffix == " " + u && s == "udp://" + suffix
    ensures CanonicalForwarder(n, s, Some(Udp)) == Some(suffix) && !SameForwarder(n, s, suffix, Some(Udp))
  {
    EmptyHostSecondPass(n, t, s, suffix, u);
    TwoPasses(n, Udp, s, suffix, u);
  }

  /** An empty host: "udp:// (1.2.3.4)", or any other IPv4 address, is stored without the scheme, and
      compared without the blank. */
  lemma EmptyHostDrifts(n: Netip, t: string)
    requires Lawful(n) && n.parse(t).Some? && n.parse(t).value.zone == "" && !n.parse(t).value.is6
    ensures var stored := " (" + t + ")";
      && HostIn(n, "udp://" + stored, Udp) == Some("")
      && CanonicalForwarder(n, "udp://" + stored, Some(Udp)) == Some(stored)
      && !SameForwarder(n, "udp://" + stored, stored, Some(Udp))
  {
    var stored := " (" + t + ")";
    assert stored == " " + ("(" + t + ")");
    EmptyHostFirstPass(n, t, "udp://" + stored, stored);
    EmptyHostPasses(n, t, "udp://" + stored, stored, "(" + t + ")");
  }

  // ---------------------------------------------------------------- lists

  /** A list attribute: null, unknown, or a list of possibly null or unknown elements. */
  datatype ListValue = NullList | UnknownList | Elements(items: seq<Tf<string>>)

  function KnownList(xs: seq<string>): ListValue {
    Elements(seq(|xs|, i requires 0 <= i < |xs| => Known(xs[i])))
  }

  /** The comparison of one configured forwarder with one the server reports. */
  function Same(n: Netip, protocol: string): (string, string) -> bool {
    (configured: string, server: string) => SameForwarder(n, configured, server, ParseProtocol(protocol))
  }

  predicate SameList(same: (string, string) -> bool, items: seq<Tf<string>>, server: seq<string>) {
    |items| == |server| && forall i :: 0 <= i < |items| ==> items[i].Known? && same(items[i].v, server[i])
  }

  /** A list that says the same as the server's is kept as configured; any other gives way. */
  function Reconciled(same: (string, string) -> bool, configured: ListValue, server: seq<string>): ListValue {
    match configured
    case NullList => NullList
    case UnknownList => KnownList(server)
    case Elements(items) => if SameList(same, items, server) then configured else KnownList(server)
  }

  method ReconcileForwarders(same: (string, string) -> bool, configured: ListValue, server: seq<string>)
    returns (r: ListValue)
    ensures r == Reconciled(same, configured, server)
    ensures configured.NullList? <==> r.NullList?
    ensures !configured.NullList? ==> r.Elements? && |r.items| == |server|
    ensures r.Elements? && r != configured ==> (forall i :: 0 <= i < |server| ==> r.items[i] == Known(server[i]))
    ensures r.Elements? ==> (forall i :: 0 <= i < |server| ==> r.items[i].Known?)
    ensures r.Elements? && r != KnownList(server) ==>
      (forall i :: 0 <= i < |server| ==> same(r.items[i].v, server[i]))
  {
    if configured.NullList? {
      return configured;
    }
    var fromServer := KnownList(server);
    if configured.UnknownList? || |configured.items| != |server| {
      return fromServer;
    }
    for i := 0 to |configured.items|
      invariant forall j :: 0 <= j < i ==> configured.items[j].Known? && same(configured.items[j].v, server[j])
    {
      if !configured.items[i].Known? || !same(configured.items[i].v, server[i]) {
        return fromServer;
      }
    }
    return configured;
  }

  /** A server that stores the canonical form of every configured forwarder leaves a list of
      well-formed ones as it was written. */
  lemma CanonicalServerKeepsConfiguration(n: Netip, configured: seq<string>, server: seq<string>,
                                          protocol: string, p: Protocol)
    requires Lawful(n) && |configured| == |server| && ParseProtocol(protocol) == Some(p)
    requires forall i :: 0 <= i < |configured| ==> StoredCanonically(n, configured[i], server[i], p)
    ensures Reconciled(Same(n, protocol), KnownList(configured), server) == KnownList(configured)
  {
    forall i | 0 <= i < |configured| ensures SameForwarder(n, configured[i], server[i], Some(p)) {
      assert StoredCanonically(n, configured[i], server[i], p);
      NoDrift(n, configured[i], p, server[i]);
    }
  }

  /** The server stores the canonical form of a well-formed forwarder. */
  predicate StoredCanonically(n: Netip, configured: string, server: string, p: Protocol) {
    && CanonicalForwarder(n, configured, Some(p)) == Some(server)
    && WellFormedInput(n, TrimSpace(configured), p)
    && !Respelled(n, TrimSpace(configured), p)
  }

  /** Reading twice changes nothing the first read did not change, for any configuration and
      any answer of the server. */
  lemma ReconcileTwice(n: Netip, protocol: string, configured: ListValue, server: seq<string>)
    ensures var once := Reconciled(Same(n, protocol), configured, server);
      Reconciled(Same(n, protocol), once, server) == once
  {
  }
}
