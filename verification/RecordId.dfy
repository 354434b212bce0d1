/** Composite record IDs, zone::name::type::value, and their import.
    internal/provider/record_id.go */
module RecordId {
  import opened Text

  const SEPARATOR := "::"

  /** The attributes of a record that its ID is printed from, null read as the zero value. */
  datatype Identity = Identity(
    zone: string, name: string, rtype: string, value: string,
    priority: Int64, weight: Int64, port: Int64,
    caaFlags: Int64, caaTag: string,
    protocol: string, forwarderPriority: Int64, dnssecValidation: bool)

  /** The type-specific fields decoded from a value segment.  dnssecValidation is None when
      the segment did not state it, which is not the same as an explicit false. */
  datatype ImportValueFields = ImportValueFields(
    value: string, priority: Int64, weight: Int64, port: Int64,
    caaFlags: Int64, caaTag: string,
    protocol: string, dnssecValidation: Option<bool>)

  datatype ParsedId = ParsedId(zone: string, name: string, rtype: string, segment: string)

  // ---------------------------------------------------------------- printing

  function ValueSegment(m: Identity): string {
    match m.rtype
    case "MX" => m.value + ":" + Itoa(m.priority)
    case "SRV" => m.value + ":" + Itoa(m.priority) + ":" + Itoa(m.weight) + ":" + Itoa(m.port)
    case "CAA" => m.value + ":" + Itoa(m.caaFlags) + ":" + m.caaTag
    case "FWD" => LegacyForwarderSegment(m) + ":" + FormatBool(m.dnssecValidation)
    case _ => m.value
  }

  /** The three-field FWD form that IDs had before the validation flag was part of them. */
  function LegacyForwarderSegment(m: Identity): string {
    m.value + ":" + m.protocol + ":" + Itoa(m.forwarderPriority)
  }

  function BuildRecordID(m: Identity): string {
    Join([m.zone, m.name, m.rtype, ValueSegment(m)], SEPARATOR)
  }

  // ---------------------------------------------------------------- parsing

  /** strings.SplitN(s, "::", n) */
  function SplitN(s: string, n: nat): (parts: seq<string>)
    requires n >= 1
    ensures 1 <= |parts| <= n
  {
    var i := Index(s, SEPARATOR);
    if n == 1 || i < 0 then [s] else [s[..i]] + SplitN(s[i + 2..], n - 1)
  }

  function ParseRecordID(id: string): Option<ParsedId> {
    var parts := SplitN(id, 4);
    if |parts| != 4 || parts[0] == "" || parts[1] == "" || parts[2] == "" || parts[3] == "" then None
    else Some(ParsedId(parts[0], parts[1], parts[2], parts[3]))
  }

  function ParseImportValueSegment(rtype: string, segment: string): Option<ImportValueFields> {
    match rtype
    case "MX" => ParseMX(segment)
    case "SRV" => ParseSRV(Split(segment, ':'))
    case "FWD" => ParseFWD(Split(segment, ':'))
    case "CAA" => ParseCAA(Split(segment, ':'))
    case _ => Some(Plain(segment))
  }

  function Plain(value: string): ImportValueFields {
    ImportValueFields(value, 0, 0, 0, 0, "", "", None)
  }

  function ParseMX(segment: string): Option<ImportValueFields> {
    var idx := LastIndex(segment, ":");
    if idx < 0 then None
    else match ParseInt64(segment[idx + 1..])
      case None => None
      case Some(p) => Some(Plain(segment[..idx]).(priority := p))
  }

  function ParseSRV(parts: seq<string>): Option<ImportValueFields> {
    var n := |parts|;
    if n < 4 then None
    else match (ParseInt64(parts[n - 3]), ParseInt64(parts[n - 2]), ParseInt64(parts[n - 1]))
      case (Some(p), Some(w), Some(pt)) =>
        Some(Plain(Join(parts[..n - 3], ":")).(priority := p, weight := w, port := pt))
      case _ => None
  }

  function ParseFWD(parts: seq<string>): Option<ImportValueFields> {
    if |parts| < 3 then None
    else
      var last := parts[|parts| - 1];
      var dnssec := if last == "true" || last == "false" then Some(last == "true") else None;
      var priorityIdx := if dnssec.Some? then |parts| - 2 else |parts| - 1;
      if priorityIdx < 2 then None
      else match ParseInt64(parts[priorityIdx])
        case None => None
        case Some(p) =>
          Some(Plain(Join(parts[..priorityIdx - 1], ":"))
            .(priority := p, protocol := parts[priorityIdx - 1], dnssecValidation := dnssec))
  }

  function ParseCAA(parts: seq<string>): Option<ImportValueFields> {
    var n := |parts|;
    if n < 3 then None
    else match ParseInt64(parts[n - 2])
      case None => None
      case Some(f) => Some(Plain(Join(parts[..n - 2], ":")).(caaFlags := f, caaTag := parts[n - 1]))
  }

  // ---------------------------------------------------------------- what a round trip recovers

  /** The fields of a record that an import of its ID is to recover. */
  function FieldsOf(m: Identity): ImportValueFields {
    match m.rtype
    case "MX" => Plain(m.value).(priority := m.priority)
    case "SRV" => Plain(m.value).(priority := m.priority, weight := m.weight, port := m.port)
    case "CAA" => Plain(m.value).(caaFlags := m.caaFlags, caaTag := m.caaTag)
    case "FWD" => Plain(m.value).(priority := m.forwarderPriority, protocol := m.protocol,
                                  dnssecValidation := Some(m.dnssecValidation))
    case _ => Plain(m.value)
  }

  /** A zone, name or type that the leftmost "::" cannot cut short. */
  predicate CleanPart(p: string) {
    p != "" && Index(p, SEPARATOR) == -1 && p[|p| - 1] != ':'
  }

  predicate CleanTail(m: Identity) {
    && (m.rtype == "CAA" ==> ':' !in m.caaTag)
    && (m.rtype == "FWD" ==> ':' !in m.protocol)
  }

  lemma ItoaHasNoColon(n: int)
    ensures ':' !in Itoa(n)
  {
  }

  /** Two parts behind a value of any shape: the value keeps all its own colons. */
  lemma SplitTwoBehind(value: string, a: string, b: string)
    requires ':' !in b
    ensures Split(value + ":" + a + ":" + b, ':') == Split(value + ":" + a, ':') + [b]
    ensures ':' !in a ==> Split(value + ":" + a + ":" + b, ':') == Split(value, ':') + [a, b]
    ensures ':' !in a ==> Join(Split(value + ":" + a + ":" + b, ':')[..|Split(value, ':')|], ":") == value
  {
    SplitSnoc(value + ":" + a, b, ':');
    if ':' !in a {
      SplitSnoc(value, a, ':');
      var parts := Split(value, ':') + [a, b];
      assert Split(value, ':') + [a] + [b] == parts;
      assert parts[..|Split(value, ':')|] == Split(value, ':');
      JoinSplit(value, ':');
    }
  }

  /** Whatever a CAA or FWD segment parses to, its tag or protocol holds no colon. */
  lemma ParsedTailHasNoColon(rtype: string, segment: string)
    ensures var r := ParseImportValueSegment(rtype, segment);
      r.Some? ==> ':' !in r.value.caaTag && ':' !in r.value.protocol
  {
  }

  lemma SegmentRoundTripMX(m: Identity)
    requires m.rtype == "MX"
    ensures ParseImportValueSegment(m.rtype, ValueSegment(m)) == Some(FieldsOf(m))
  {
    var s := ValueSegment(m);
    ItoaHasNoColon(m.priority);
    assert At(s, ":", |m.value|);
    forall j | |m.value| < j < |s| ensures !At(s, ":", j) {
      assert s[j..j + 1][0] == s[j] == Itoa(m.priority)[j - |m.value| - 1];
    }
    assert LastIndex(s, ":") == |m.value|;
    assert s[..|m.value|] == m.value && s[|m.value| + 1..] == Itoa(m.priority);
    ParseItoa(m.priority);
  }

  lemma SplitThreeBehind(value: string, a: string, b: string, c: string)
    requires ':' !in a && ':' !in b && ':' !in c
    ensures Split(value + ":" + a + ":" + b + ":" + c, ':') == Split(value, ':') + [a, b, c]
  {
    SplitTwoBehind(value, a, b);
    SplitSnoc(value + ":" + a + ":" + b, c, ':');
  }

  lemma SegmentRoundTripSRV(m: Identity)
    requires m.rtype == "SRV"
    ensures ParseImportValueSegment(m.rtype, ValueSegment(m)) == Some(FieldsOf(m))
  {
    SplitThreeBehind(m.value, Itoa(m.priority), Itoa(m.weight), Itoa(m.port));
    var parts := Split(m.value, ':') + [Itoa(m.priority), Itoa(m.weight), Itoa(m.port)];
    assert parts[..|parts| - 3] == Split(m.value, ':');
    JoinSplit(m.value, ':');
    ParseItoa(m.priority);
    ParseItoa(m.weight);
    ParseItoa(m.port);
  }

  lemma SegmentRoundTripCAA(m: Identity)
    requires m.rtype == "CAA" && ':' !in m.caaTag
    ensures ParseImportValueSegment(m.rtype, ValueSegment(m)) == Some(FieldsOf(m))
  {
    SplitTwoBehind(m.value, Itoa(m.caaFlags), m.caaTag);
    ParseItoa(m.caaFlags);
  }

  lemma ParseFourFields(value: string, protocol: string, priority: Int64, flag: bool)
    ensures ParseFWD(Split(value, ':') + [protocol, Itoa(priority), FormatBool(flag)])
         == Some(Plain(value).(priority := priority, protocol := protocol, dnssecValidation := Some(flag)))
  {
    var parts := Split(value, ':') + [protocol, Itoa(priority), FormatBool(flag)];
    assert parts[..|parts| - 3] == Split(value, ':');
    JoinSplit(value, ':');
    ParseItoa(priority);
  }

  lemma SegmentRoundTripFWD(m: Identity)
    requires m.rtype == "FWD" && ':' !in m.protocol
    ensures ParseImportValueSegment(m.rtype, ValueSegment(m)) == Some(FieldsOf(m))
  {
    ParseForwarder(m.value, m.protocol, m.forwarderPriority, m.dnssecValidation);
  }

  lemma ParseForwarder(value: string, protocol: string, priority: Int64, flag: bool)
    requires ':' !in protocol
    ensures ParseFWD(Split(value + ":" + protocol + ":" + Itoa(priority) + ":" + FormatBool(flag), ':'))
         == Some(Plain(value).(priority := priority, protocol := protocol, dnssecValidation := Some(flag)))
  {
    SplitThreeBehind(value, protocol, Itoa(priority), FormatBool(flag));
    ParseFourFields(value, protocol, priority, flag);
  }

  /** The value segment round-trips exactly when the CAA tag or FWD protocol holds no colon;
      the value itself may hold any number of them. */
  lemma SegmentRoundTrip(m: Identity)
    ensures ParseImportValueSegment(m.rtype, ValueSegment(m)) == Some(FieldsOf(m)) <==> CleanTail(m)
  {
    ParsedTailHasNoColon(m.rtype, ValueSegment(m));
    if CleanTail(m) {
      if m.rtype == "MX" { SegmentRoundTripMX(m); }
      else if m.rtype == "SRV" { SegmentRoundTripSRV(m); }
      else if m.rtype == "CAA" { SegmentRoundTripCAA(m); }
      else if m.rtype == "FWD" { SegmentRoundTripFWD(m); }
    }
  }

  // ---------------------------------------------------------------- the four parts

  /** The leftmost "::" of p::rest is the printed separator exactly when p is clean. */
  lemma FirstSeparator(p: string, rest: string)
    requires p != ""
    ensures Index(p + SEPARATOR + rest, SEPARATOR) == |p| <==> CleanPart(p)
  {
    var s := p + SEPARATOR + rest;
    assert At(s, SEPARATOR, |p|);
    if CleanPart(p) {
      forall j | 0 <= j < |p| ensures !At(s, SEPARATOR, j) {
        if j + 2 <= |p| {
          assert p[j..j + 2] == s[j..j + 2] && !At(p, SEPARATOR, j);
        } else {
          assert s[j..j + 2][0] == s[j] == p[|p| - 1];
        }
      }
    } else if p[|p| - 1] == ':' {
      assert s[|p| - 1..|p| + 1] == [p[|p| - 1]] + [SEPARATOR[0]];
      assert At(s, SEPARATOR, |p| - 1);
    } else {
      var j := Index(p, SEPARATOR);
      assert s[j..j + 2] == p[j..j + 2];
      assert At(s, SEPARATOR, j);
    }
  }

  lemma CutPart(p: string, rest: string, n: nat)
    requires n >= 1 && CleanPart(p)
    ensures SplitN(p + SEPARATOR + rest, n + 1) == [p] + SplitN(rest, n)
  {
    var s := p + SEPARATOR + rest;
    FirstSeparator(p, rest);
    assert s[..|p|] == p && s[|p| + 2..] == rest;
  }

  lemma {:induction false} JoinSplitN(s: string, n: nat)
    requires n >= 1
    ensures Join(SplitN(s, n), SEPARATOR) == s
  {
    var i := Index(s, SEPARATOR);
    if n > 1 && i >= 0 {
      JoinSplitN(s[i + 2..], n - 1);
      var parts := SplitN(s, n);
      assert parts[1..] == SplitN(s[i + 2..], n - 1);
      assert s == s[..i] + s[i..i + 2] + s[i + 2..];
    }
  }

  function JoinFour(z: string, n: string, t: string, v: string): string {
    z + SEPARATOR + (n + SEPARATOR + (t + SEPARATOR + v))
  }

  lemma JoinFourIsJoin(z: string, n: string, t: string, v: string)
    ensures Join([z, n, t, v], SEPARATOR) == JoinFour(z, n, t, v)
  {
    assert [z, n, t, v][1..] == [n, t, v];
    assert [n, t, v][1..] == [t, v];
    assert [t, v][1..] == [v];
    assert Join([t, v], SEPARATOR) == t + SEPARATOR + v;
    assert Join([n, t, v], SEPARATOR) == n + SEPARATOR + (t + SEPARATOR + v);
  }

  predicate CleanParts(m: Identity) {
    CleanPart(m.zone) && CleanPart(m.name) && CleanPart(m.rtype) && ValueSegment(m) != ""
  }

  lemma FourPartsSplit(z: string, n: string, t: string, v: string)
    requires CleanPart(z) && CleanPart(n) && CleanPart(t)
    ensures SplitN(JoinFour(z, n, t, v), 4) == [z, n, t, v]
  {
    CutPart(z, n + SEPARATOR + (t + SEPARATOR + v), 3);
    CutPart(n, t + SEPARATOR + v, 2);
    CutPart(t, v, 1);
    assert [z] + ([n] + ([t] + [v])) == [z, n, t, v];
  }

  lemma FourPartsParse(id: string, z: string, n: string, t: string, v: string)
    requires SplitN(id, 4) == [z, n, t, v] && z != "" && n != "" && t != "" && v != ""
    ensures ParseRecordID(id) == Some(ParsedId(z, n, t, v))
  {
  }

  lemma IdPartsRoundTrip(m: Identity)
    requires CleanParts(m)
    ensures ParseRecordID(BuildRecordID(m)) == Some(ParsedId(m.zone, m.name, m.rtype, ValueSegment(m)))
  {
    var v := ValueSegment(m);
    JoinFourIsJoin(m.zone, m.name, m.rtype, v);
    FourPartsSplit(m.zone, m.name, m.rtype, v);
    FourPartsParse(BuildRecordID(m), m.zone, m.name, m.rtype, v);
  }

  /** An ID that parses to the printed zone, name and type parses to the printed segment too. */
  lemma IdPartsDetermineSegment(m: Identity, p: ParsedId)
    requires ParseRecordID(BuildRecordID(m)) == Some(p)
    requires p.zone == m.zone && p.name == m.name && p.rtype == m.rtype
    ensures p.segment == ValueSegment(m)
  {
    var id := BuildRecordID(m);
    var parts := SplitN(id, 4);
    assert parts == [p.zone, p.name, p.rtype, p.segment];
    JoinSplitN(id, 4);
    JoinFourIsJoin(p.zone, p.name, p.rtype, p.segment);
    JoinFourIsJoin(m.zone, m.name, m.rtype, ValueSegment(m));
    CancelFront(m.rtype + SEPARATOR, p.segment, ValueSegment(m), m.zone + SEPARATOR, m.name + SEPARATOR);
  }

  lemma CancelFront(c: string, x: string, y: string, a: string, b: string)
    requires a + (b + (c + x)) == a + (b + (c + y))
    ensures x == y
  {
    var s, k := a + (b + (c + x)), |a| + |b| + |c|;
    assert s[k..] == x;
    assert s[k..] == y;
  }

  /** A printed ID that parses back to its own parts was printed from clean ones. */
  lemma IdPartsAreClean(m: Identity)
    requires ParseRecordID(BuildRecordID(m)) == Some(ParsedId(m.zone, m.name, m.rtype, ValueSegment(m)))
    ensures CleanParts(m)
  {
    var v := ValueSegment(m);
    var id := BuildRecordID(m);
    JoinFourIsJoin(m.zone, m.name, m.rtype, v);
    var afterZone := m.name + SEPARATOR + (m.rtype + SEPARATOR + v);
    assert SplitN(id, 4)[0] == m.zone == id[..Index(id, SEPARATOR)];
    FirstSeparator(m.zone, afterZone);
    CutPart(m.zone, afterZone, 3);
    assert SplitN(afterZone, 3)[0] == m.name == afterZone[..Index(afterZone, SEPARATOR)];
    var afterName := m.rtype + SEPARATOR + v;
    FirstSeparator(m.name, afterName);
    CutPart(m.name, afterName, 2);
    assert SplitN(afterName, 2)[0] == m.rtype == afterName[..Index(afterName, SEPARATOR)];
    FirstSeparator(m.rtype, v);
  }

  // ---------------------------------------------------------------- main results

  datatype Imported = Imported(zone: string, name: string, rtype: string, fields: ImportValueFields)

  /** What ImportState reads out of an ID. */
  function Import(id: string): Option<Imported> {
    match ParseRecordID(id)
    case None => None
    case Some(p) =>
      match ParseImportValueSegment(p.rtype, p.segment)
      case None => None
      case Some(f) => Some(Imported(p.zone, p.name, p.rtype, f))
  }

  /** For every record type, importing a printed ID recovers exactly what was printed if and
      only if the parts are clean: zone, name and type non-empty, without "::" and not ending
      in ":", the segment non-empty, and no colon in a CAA tag or FWD protocol. */
  lemma IdRoundTrip(m: Identity)
    ensures Import(BuildRecordID(m)) == Some(Imported(m.zone, m.name, m.rtype, FieldsOf(m)))
            <==> CleanParts(m) && CleanTail(m)
  {
    SegmentRoundTrip(m);
    if CleanParts(m) {
      IdPartsRoundTrip(m);
    } else if Import(BuildRecordID(m)) == Some(Imported(m.zone, m.name, m.rtype, FieldsOf(m))) {
      IdPartsDetermineSegment(m, ParseRecordID(BuildRecordID(m)).value);
      IdPartsAreClean(m);
    }
  }

  /** Two records with clean parts never share an ID unless all the printed fields agree. */
  lemma IdInjective(a: Identity, b: Identity)
    requires CleanParts(a) && CleanTail(a) && CleanParts(b) && CleanTail(b)
    requires BuildRecordID(a) == BuildRecordID(b)
    ensures a.zone == b.zone && a.name == b.name && a.rtype == b.rtype && FieldsOf(a) == FieldsOf(b)
  {
    IdRoundTrip(a);
    IdRoundTrip(b);
  }

  lemma SplitLegacy(m: Identity)
    ensures Split(LegacyForwarderSegment(m), ':') ==
      Split(m.value + ":" + m.protocol, ':') + [Itoa(m.forwarderPriority)]
  {
    ItoaHasNoColon(m.forwarderPriority);
    SplitSnoc(m.value + ":" + m.protocol, Itoa(m.forwarderPriority), ':');
  }

  /** The three-field form still imports, with the validation flag absent, exactly when the
      protocol holds no colon. */
  lemma LegacyRoundTrip(m: Identity)
    requires m.rtype == "FWD"
    ensures (ParseImportValueSegment("FWD", LegacyForwarderSegment(m))
             == Some(FieldsOf(m).(dnssecValidation := None)))
      <==> ':' !in m.protocol
  {
    ParsedTailHasNoColon("FWD", LegacyForwarderSegment(m));
    ParseItoa(m.forwarderPriority);
    ItoaIsNotABool(m.forwarderPriority);
    SplitLegacy(m);
    if ':' !in m.protocol {
      SplitTwoBehind(m.value, m.protocol, Itoa(m.forwarderPriority));
    }
  }

  /** No three-field segment is also a four-field segment, whatever values they carry. */
  lemma LegacyNeverCollides(a: Identity, b: Identity)
    requires a.rtype == "FWD" && b.rtype == "FWD"
    ensures LegacyForwarderSegment(a) != ValueSegment(b)
  {
    SplitLegacy(a);
    SplitSnoc(LegacyForwarderSegment(b), FormatBool(b.dnssecValidation), ':');
    ItoaIsNotABool(a.forwarderPriority);
    var legacy, full := Split(LegacyForwarderSegment(a), ':'), Split(ValueSegment(b), ':');
    assert legacy[|legacy| - 1] == Itoa(a.forwarderPriority);
    assert full[|full| - 1] == FormatBool(b.dnssecValidation);
  }
}
