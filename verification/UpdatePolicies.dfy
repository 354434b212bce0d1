/** Security policies for dynamic updates: a set in the configuration, a sorted table on the wire.
    internal/provider/zone_resource.go and FormatUpdateSecurityPolicies of internal/client/zones.go */
module UpdatePolicies {
  import opened Text
  import opened WireTable
  import opened Sorting

  /** A policy as code holds it: the record types in some order. */
  datatype Policy = Policy(tsigKeyName: string, domain: string, allowedTypes: seq<string>)

  /** A policy as the configuration means it. */
  datatype Allowance = Allowance(tsigKeyName: string, domain: string, allowedTypes: set<string>)

  function Types(types: seq<string>): set<string> {
    set t | t in types
  }

  function Meaning(p: Policy): Allowance {
    Allowance(p.tsigKeyName, p.domain, Types(p.allowedTypes))
  }

  function Meanings(policies: seq<Policy>): set<Allowance> {
    set p | p in policies :: Meaning(p)
  }

  predicate NoRepeats(xs: seq<string>) {
    forall i, j :: 0 <= i < j < |xs| ==> xs[i] != xs[j]
  }

  predicate SamePair(p: Policy, q: Policy) {
    p.tsigKeyName == q.tsigKeyName && p.domain == q.domain
  }

  /** What plan-time validation leaves: no two policies of the same key and domain. */
  predicate PairsApart(policies: seq<Policy>) {
    forall i, j :: 0 <= i < j < |policies| ==> !SamePair(policies[i], policies[j])
  }

  /** The order in which a set lists its elements is nobody's business: this is one such listing. */
  predicate Listing(policies: seq<Policy>) {
    && PairsApart(policies)
    && forall i :: 0 <= i < |policies| ==> NoRepeats(policies[i].allowedTypes)
  }

  // ---------------------------------------------------------------- plan-time validation

  datatype Planned = Planned(tsigKeyName: Tf<string>, domain: Tf<string>)

  predicate Checked(r: Planned) {
    !r.tsigKeyName.Unknown? && !r.domain.Unknown?
  }

  function Pair(r: Planned): (string, string) {
    (Str(r.tsigKeyName), Str(r.domain))
  }

  /** The validation is silent exactly when no two rows with known cells share key and domain. */
  method ValidateUpdateSecurityPolicies(rows: seq<Planned>) returns (errors: nat)
    ensures errors == 0 <==>
      forall i, j :: 0 <= i < j < |rows| && Checked(rows[i]) && Checked(rows[j]) ==> Pair(rows[i]) != Pair(rows[j])
  {
    errors := 0;
    var seen: map<(string, string), bool> := map[];
    for n := 0 to |rows|
      invariant forall k :: k in seen <==> exists i :: 0 <= i < n && Checked(rows[i]) && Pair(rows[i]) == k
      invariant errors == 0 <==>
        forall i, j :: 0 <= i < j < n && Checked(rows[i]) && Checked(rows[j]) ==> Pair(rows[i]) != Pair(rows[j])
    {
      var row := rows[n];
      if row.tsigKeyName.Unknown? || row.domain.Unknown? {
        continue;
      }
      var k := (Str(row.tsigKeyName), Str(row.domain));
      if k in seen {
        errors := errors + 1;
      }
      seen := seen[k := true];
    }
  }

  // ---------------------------------------------------------------- set to wire

  /** Key name first, then domain. */
  predicate Before(p: Policy, q: Policy) {
    if p.tsigKeyName != q.tsigKeyName then Less(p.tsigKeyName, q.tsigKeyName) else Less(p.domain, q.domain)
  }

  function ByPair(): (Policy, Policy) -> bool {
    (p, q) => Before(p, q)
  }

  function Tidy(p: Policy): Policy {
    p.(allowedTypes := Sort(LessThan(), p.allowedTypes))
  }

  function Tidied(policies: seq<Policy>): (r: seq<Policy>)
    ensures |r| == |policies|
    ensures forall i :: 0 <= i < |policies| ==> r[i] == Tidy(policies[i])
  {
    seq(|policies|, i requires 0 <= i < |policies| => Tidy(policies[i]))
  }

  function FromSet(policies: seq<Policy>): seq<Policy> {
    Sort(ByPair(), Tidied(policies))
  }

  method UpdateSecurityPoliciesFromSet(models: seq<Policy>) returns (policies: seq<Policy>)
    ensures policies == FromSet(models)
  {
    policies := [];
    for i := 0 to |models|
      invariant |policies| == i
      invariant forall j :: 0 <= j < i ==> policies[j] == Tidy(models[j])
    {
      var allowedTypes := Sort(LessThan(), models[i].allowedTypes);
      policies := policies + [Policy(models[i].tsigKeyName, models[i].domain, allowedTypes)];
    }
    assert policies == Tidied(models);
    policies := Sort(ByPair(), policies);
  }

  function PolicyRow(): Policy -> Row {
    (p: Policy) => [p.tsigKeyName, p.domain, Join(p.allowedTypes, ",")]
  }

  const CLEARED := "false"

  function Format(policies: seq<Policy>): string {
    if policies == [] then CLEARED else EncodeTable(policies, PolicyRow())
  }

  method FormatUpdateSecurityPolicies(policies: seq<Policy>) returns (value: string)
    ensures value == Format(policies)
  {
    if |policies| == 0 {
      return CLEARED;
    }
    value := Flatten(policies, PolicyRow());
  }

  function Wire(policies: seq<Policy>): string {
    Format(FromSet(policies))
  }

  // ---------------------------------------------------------------- one set, one text

  lemma ByPairIsStrict()
    ensures StrictOrder(ByPair())
  {
    forall p, q | ByPair()(p, q) ensures !ByPair()(q, p) {
      LessTotal(p.tsigKeyName, q.tsigKeyName);
      LessTotal(p.domain, q.domain);
    }
    forall p, q, r | ByPair()(p, q) && ByPair()(q, r) ensures ByPair()(p, r) {
      BeforeTransitive(p, q, r);
    }
  }

  lemma BeforeTransitive(p: Policy, q: Policy, r: Policy)
    requires Before(p, q) && Before(q, r)
    ensures Before(p, r)
  {
    LessTotal(p.tsigKeyName, q.tsigKeyName);
    LessTotal(q.tsigKeyName, r.tsigKeyName);
    if p.tsigKeyName != q.tsigKeyName && q.tsigKeyName != r.tsigKeyName {
      LessTransitive(p.tsigKeyName, q.tsigKeyName, r.tsigKeyName);
      LessTotal(p.tsigKeyName, r.tsigKeyName);
    }
    if p.tsigKeyName == q.tsigKeyName == r.tsigKeyName {
      LessTransitive(p.domain, q.domain, r.domain);
    }
  }

  lemma TypesSorted(types: seq<string>)
    requires NoRepeats(types)
    ensures Sorted(LessThan(), Sort(LessThan(), types))
  {
    LessThanIsStrict();
    forall i, j | 0 <= i < j < |types| ensures LessThan()(types[i], types[j]) || LessThan()(types[j], types[i]) {
      LessTotal(types[i], types[j]);
    }
    SortSorted(LessThan(), types);
  }

  /** Two listings of the same policy tidy to the same value. */
  lemma TidyForgetsOrder(p: Policy, q: Policy)
    requires NoRepeats(p.allowedTypes) && NoRepeats(q.allowedTypes) && Meaning(p) == Meaning(q)
    ensures Tidy(p) == Tidy(q)
  {
    LessThanIsStrict();
    TypesSorted(p.allowedTypes);
    TypesSorted(q.allowedTypes);
    forall t ensures t in p.allowedTypes <==> t in q.allowedTypes {
      assert t in Types(p.allowedTypes) <==> t in Types(q.allowedTypes);
    }
    SortedUnique(LessThan(), Sort(LessThan(), p.allowedTypes), Sort(LessThan(), q.allowedTypes));
  }

  lemma FromSetSorted(policies: seq<Policy>)
    requires PairsApart(policies)
    ensures Sorted(ByPair(), FromSet(policies))
  {
    ByPairIsStrict();
    var ps := Tidied(policies);
    forall i, j | 0 <= i < j < |ps| ensures ByPair()(ps[i], ps[j]) || ByPair()(ps[j], ps[i]) {
      assert !SamePair(policies[i], policies[j]);
      LessTotal(ps[i].tsigKeyName, ps[j].tsigKeyName);
      LessTotal(ps[i].domain, ps[j].domain);
    }
    SortSorted(ByPair(), ps);
  }

  lemma FromSetElements(a: seq<Policy>, b: seq<Policy>)
    requires Listing(a) && Listing(b) && Meanings(a) == Meanings(b)
    ensures forall p :: p in FromSet(a) ==> p in FromSet(b)
  {
    forall p | p in FromSet(a) ensures p in FromSet(b) {
      assert p in Tidied(a);
      var i :| 0 <= i < |a| && Tidied(a)[i] == p;
      assert Meaning(a[i]) in Meanings(a);
      var q :| q in b && Meaning(q) == Meaning(a[i]);
      var j :| 0 <= j < |b| && b[j] == q;
      TidyForgetsOrder(a[i], b[j]);
      assert Tidied(b)[j] == p;
    }
  }

  /** Whatever order the set and its type sets are listed in, the request is the same. */
  lemma WireIsCanonical(a: seq<Policy>, b: seq<Policy>)
    requires Listing(a) && Listing(b) && Meanings(a) == Meanings(b)
    ensures FromSet(a) == FromSet(b)
    ensures Wire(a) == Wire(b)
  {
    ByPairIsStrict();
    FromSetSorted(a);
    FromSetSorted(b);
    FromSetElements(a, b);
    FromSetElements(b, a);
    SortedUnique(ByPair(), FromSet(a), FromSet(b));
  }

  // ---------------------------------------------------------------- wire to set

  /** What the schema patterns leave of the separators: no pipe anywhere, no comma in a type,
      and at least one type. */
  predicate Clean(p: Policy) {
    && '|' !in p.tsigKeyName && '|' !in p.domain
    && p.allowedTypes != []
    && forall i :: 0 <= i < |p.allowedTypes| ==> '|' !in p.allowedTypes[i] && ',' !in p.allowedTypes[i]
  }

  predicate AllClean(policies: seq<Policy>) {
    forall i :: 0 <= i < |policies| ==> Clean(policies[i])
  }

  function PolicyOf(): Row -> Option<Policy> {
    (c: Row) => if |c| == 3 then Some(Policy(c[0], c[1], Split(c[2], ','))) else None
  }

  /** How the server reads the parameter. */
  function Parse(value: string): Option<seq<Policy>> {
    if value == CLEARED then Some([]) else DecodeTable(value, 3, PolicyOf())
  }

  lemma {:induction false} JoinIsPipeFree(types: seq<string>)
    requires forall i :: 0 <= i < |types| ==> '|' !in types[i]
    ensures '|' !in Join(types, ",")
  {
    if |types| > 1 {
      JoinIsPipeFree(types[1..]);
    }
  }

  lemma RowRoundTrip(p: Policy)
    requires Clean(p)
    ensures Readable(p, PolicyRow(), PolicyOf(), 3)
  {
    JoinIsPipeFree(p.allowedTypes);
    SplitJoin(p.allowedTypes, ',');
  }

  lemma ParseFormat(policies: seq<Policy>)
    requires AllClean(policies)
    ensures Parse(Format(policies)) == Some(policies)
    ensures Format(policies) == CLEARED <==> policies == []
  {
    forall i | 0 <= i < |policies| ensures Readable(policies[i], PolicyRow(), PolicyOf(), 3) {
      RowRoundTrip(policies[i]);
    }
    TableRoundTrip(policies, PolicyRow(), PolicyOf(), 3);
    assert '|' !in CLEARED;
  }

  lemma TidyKeepsMeaning(p: Policy)
    ensures Meaning(Tidy(p)) == Meaning(p)
    ensures Clean(p) ==> Clean(Tidy(p))
  {
    assert Types(Tidy(p).allowedTypes) == Types(p.allowedTypes);
    if Clean(p) {
      var sorted := Tidy(p).allowedTypes;
      forall i | 0 <= i < |sorted| ensures '|' !in sorted[i] && ',' !in sorted[i] {
        assert sorted[i] in p.allowedTypes;
      }
    }
  }

  lemma FromSetKeepsMeaning(policies: seq<Policy>)
    ensures Meanings(FromSet(policies)) == Meanings(policies)
    ensures AllClean(policies) ==> AllClean(FromSet(policies))
  {
    var sent := FromSet(policies);
    forall p | p in sent ensures p in Tidied(policies) && exists q :: q in policies && p == Tidy(q) {
      var i :| 0 <= i < |policies| && Tidied(policies)[i] == p;
    }
    forall m ensures m in Meanings(sent) <==> m in Meanings(policies) {
      if m in Meanings(sent) {
        var p :| p in sent && Meaning(p) == m;
        var q :| q in policies && p == Tidy(q);
        TidyKeepsMeaning(q);
      }
      if m in Meanings(policies) {
        var i :| 0 <= i < |policies| && Meaning(policies[i]) == m;
        TidyKeepsMeaning(policies[i]);
        assert Tidied(policies)[i] in sent;
      }
    }
    if AllClean(policies) {
      forall i | 0 <= i < |sent| ensures Clean(sent[i]) {
        assert sent[i] in sent;
        var j :| 0 <= j < |policies| && Tidied(policies)[j] == sent[i];
        TidyKeepsMeaning(policies[j]);
      }
    }
  }

  /** The server reads back the set that was configured, and "false" is sent for the empty set alone. */
  lemma WireCarriesTheSet(policies: seq<Policy>)
    requires AllClean(policies)
    ensures Parse(Wire(policies)).Some? && Meanings(Parse(Wire(policies)).value) == Meanings(policies)
    ensures Wire(policies) == CLEARED <==> policies == []
  {
    FromSetKeepsMeaning(policies);
    ParseFormat(FromSet(policies));
    assert |FromSet(policies)| == |policies|;
  }

  /** Same request, same set: two listings are sent alike exactly when they mean the same. */
  lemma WireMeansTheSet(a: seq<Policy>, b: seq<Policy>)
    requires Listing(a) && Listing(b) && AllClean(a) && AllClean(b)
    ensures Wire(a) == Wire(b) <==> Meanings(a) == Meanings(b)
  {
    if Meanings(a) == Meanings(b) {
      WireIsCanonical(a, b);
    }
    WireCarriesTheSet(a);
    WireCarriesTheSet(b);
  }

  /** The hypothesis of one type at least is needed: no type and one empty type read alike. */
  lemma NoTypesReadAsOneEmptyType()
    ensures Wire([Policy("k", "d", [])]) == Wire([Policy("k", "d", [""])])
    ensures Meanings([Policy("k", "d", [])]) != Meanings([Policy("k", "d", [""])])
  {
    var p, q := Policy("k", "d", []), Policy("k", "d", [""]);
    assert Tidied([p]) == [Tidy(p)] && Tidied([q]) == [Tidy(q)];
    assert Rows([Tidy(p)], PolicyRow()) == Rows([Tidy(q)], PolicyRow());
    assert Meaning(p) in Meanings([p]);
    assert "" in Types(q.allowedTypes);
  }

  lemma TwoSorted(p: Policy, q: Policy)
    requires !Before(p, q)
    ensures Sort(ByPair(), [p, q]) == [q, p]
  {
    assert [p, q][1..] == [q] && [q][1..] == [] && Sort(ByPair(), [q]) == [q];
    assert [q] + Insert(ByPair(), p, []) == [q, p];
  }

  /** The validation is needed: two policies of one key and domain, listed in two orders, give two
      requests, unless they mean the same. */
  lemma DuplicatePairsAreNotCanonical(p: Policy, q: Policy)
    requires SamePair(p, q) && Clean(p) && Clean(q)
    ensures Wire([p, q]) == Wire([q, p]) <==> Tidy(p) == Tidy(q)
  {
    LessTotal(p.domain, p.domain);
    assert Tidied([p, q]) == [Tidy(p), Tidy(q)] && Tidied([q, p]) == [Tidy(q), Tidy(p)];
    TwoSorted(Tidy(p), Tidy(q));
    TwoSorted(Tidy(q), Tidy(p));
    FromSetKeepsMeaning([p, q]);
    FromSetKeepsMeaning([q, p]);
    ParseFormat([Tidy(p), Tidy(q)]);
    ParseFormat([Tidy(q), Tidy(p)]);
    assert [Tidy(p), Tidy(q)] == [Tidy(q), Tidy(p)] ==> [Tidy(p), Tidy(q)][0] == [Tidy(q), Tidy(p)][0];
  }

  // ---------------------------------------------------------------- reading back

  /** The server keeps repeated record types; a set cannot, so they are dropped. */
  method UpdateSecurityPoliciesToSet(policies: seq<Policy>) returns (elems: seq<Policy>)
    ensures |elems| == |policies|
    ensures forall i :: 0 <= i < |elems| ==>
      NoRepeats(elems[i].allowedTypes) && Meaning(elems[i]) == Meaning(policies[i])
  {
    elems := [];
    for i := 0 to |policies|
      invariant |elems| == i
      invariant forall j :: 0 <= j < i ==>
        NoRepeats(elems[j].allowedTypes) && Meaning(elems[j]) == Meaning(policies[j])
    {
      var allowedTypes := WithoutRepeats(policies[i].allowedTypes);
      elems := elems + [Policy(policies[i].tsigKeyName, policies[i].domain, allowedTypes)];
    }
  }

  method WithoutRepeats(types: seq<string>) returns (kept: seq<string>)
    ensures NoRepeats(kept) && Types(kept) == Types(types)
  {
    kept := [];
    var seen: map<string, bool> := map[];
    for i := 0 to |types|
      invariant NoRepeats(kept)
      invariant forall t :: t in seen <==> t in kept
      invariant forall t :: t in kept <==> t in types[..i]
    {
      if types[i] !in seen {
        seen := seen[types[i] := true];
        kept := kept + [types[i]];
      }
      assert types[..i + 1] == types[..i] + [types[i]];
    }
    assert types[..|types|] == types;
  }
}
