/** Blocked and allowed domains: reconciling a set of domains with a filter list, one call at a time.
    internal/provider/blocking_common.go, internal/provider/blocked_zones_resource.go */
module FilterZones {
  function SetOf(domains: seq<string>): set<string> {
    set d | d in domains
  }

  /** None of the calls from one count to another is lost. */
  ghost predicate Answered(lost: nat -> bool, from: nat, to: nat) {
    forall k :: from <= k < to ==> !lost(k)
  }

  /** One filter list; lost says which calls, counted from the first, fail without effect. */
  class FilterServer {
    const lost: nat -> bool
    var domains: set<string>
    var calls: nat

    constructor (lost: nat -> bool, domains: set<string>)
      ensures this.lost == lost && this.domains == domains && calls == 0
    {
      this.lost, this.domains, this.calls := lost, domains, 0;
    }

    method Exists(domain: string) returns (ok: bool, found: bool)
      modifies this`calls
      ensures ok == !lost(old(calls)) && calls == old(calls) + 1
      ensures ok ==> found == (domain in domains)
    {
      ok, found := !lost(calls), domain in domains;
      calls := calls + 1;
    }

    method Add(domain: string) returns (ok: bool)
      modifies this`calls, this`domains
      ensures ok == !lost(old(calls)) && calls == old(calls) + 1
      ensures domains == old(domains) + if ok then {domain} else {}
    {
      ok := !lost(calls);
      calls := calls + 1;
      if ok {
        domains := domains + {domain};
      }
    }

    method Delete(domain: string) returns (ok: bool)
      modifies this`calls, this`domains
      ensures ok == !lost(old(calls)) && calls == old(calls) + 1
      ensures domains == old(domains) - if ok then {domain} else {}
    {
      ok := !lost(calls);
      calls := calls + 1;
      if ok {
        domains := domains - {domain};
      }
    }
  }

  method CheckAndSetCreate(server: FilterServer, domain: string) returns (ok: bool, adopted: bool)
    modifies server`calls, server`domains
    ensures ok ==> server.domains == old(server.domains) + {domain} && adopted == (domain in old(server.domains))
    ensures !ok ==> server.domains == old(server.domains)
    ensures old(server.calls) < server.calls && (ok <==> Answered(server.lost, old(server.calls), server.calls))
  {
    var found;
    ok, found := server.Exists(domain);
    if !ok {
      return false, false;
    }
    if found {
      return true, true;
    }
    ok := server.Add(domain);
    adopted := false;
  }

  method CheckAndSetDelete(server: FilterServer, domain: string) returns (ok: bool)
    modifies server`calls, server`domains
    ensures server.domains == if ok then old(server.domains) - {domain} else old(server.domains)
    ensures old(server.calls) < server.calls && (ok <==> Answered(server.lost, old(server.calls), server.calls))
  {
    var found;
    ok, found := server.Exists(domain);
    if !ok || !found {
      return;
    }
    ok := server.Delete(domain);
  }

  lemma SetOfSnoc(domains: seq<string>, domain: string)
    ensures SetOf(domains + [domain]) == SetOf(domains) + {domain}
  {
  }

  method ToSet(domains: seq<string>) returns (m: set<string>)
    ensures m == SetOf(domains)
  {
    m := {};
    for i := 0 to |domains|
      invariant m == SetOf(domains[..i])
    {
      m := m + {domains[i]};
      SetOfSnoc(domains[..i], domains[i]);
      assert domains[..i + 1] == domains[..i] + [domains[i]];
    }
    assert domains[..|domains|] == domains;
  }

  /** What a reconciliation in which nothing fails leaves on the server. */
  function Reconciled(server: set<string>, state: set<string>, plan: set<string>): set<string> {
    (server - (state - plan)) + (plan - state)
  }

  /** The first loop, in any order: stops at the first call that fails. */
  method AddMissing(server: FilterServer, stateMap: set<string>, planMap: set<string>) returns (ok: bool)
    modifies server`calls, server`domains
    ensures ok ==> server.domains == old(server.domains) + (planMap - stateMap)
    ensures old(server.domains) <= server.domains <= old(server.domains) + (planMap - stateMap)
    ensures old(server.calls) <= server.calls && (ok <==> Answered(server.lost, old(server.calls), server.calls))
  {
    var todo := planMap;
    while todo != {}
      invariant todo <= planMap
      invariant server.domains == old(server.domains) + ((planMap - todo) - stateMap)
      invariant old(server.calls) <= server.calls && Answered(server.lost, old(server.calls), server.calls)
      decreases |todo|
    {
      var d :| d in todo;
      todo := todo - {d};
      if d !in stateMap {
        var created, _ := CheckAndSetCreate(server, d);
        if !created {
          return false;
        }
      }
    }
    return true;
  }

  /** The second loop, likewise. */
  method RemoveDropped(server: FilterServer, stateMap: set<string>, planMap: set<string>) returns (ok: bool)
    modifies server`calls, server`domains
    ensures ok ==> server.domains == old(server.domains) - (stateMap - planMap)
    ensures old(server.domains) - (stateMap - planMap) <= server.domains <= old(server.domains)
    ensures old(server.calls) <= server.calls && (ok <==> Answered(server.lost, old(server.calls), server.calls))
  {
    var todo := stateMap;
    while todo != {}
      invariant todo <= stateMap
      invariant server.domains == old(server.domains) - ((stateMap - todo) - planMap)
      invariant old(server.calls) <= server.calls && Answered(server.lost, old(server.calls), server.calls)
      decreases |todo|
    {
      var d :| d in todo;
      todo := todo - {d};
      if d !in planMap {
        var deleted := CheckAndSetDelete(server, d);
        if !deleted {
          return false;
        }
      }
    }
    return true;
  }

  /** In whatever order the two maps are walked: there is an error exactly when a call was lost; without
      one the list is the reconciled one; with one, only domains that were to change have changed, and
      nothing is removed before everything that was to be added is there. */
  method ReconcileSet(server: FilterServer, stateDomains: seq<string>, planDomains: seq<string>) returns (ok: bool)
    modifies server`calls, server`domains
    ensures var state, plan := SetOf(stateDomains), SetOf(planDomains);
      && (ok ==> server.domains == Reconciled(old(server.domains), state, plan))
      && old(server.domains) - (state - plan) <= server.domains <= old(server.domains) + (plan - state)
      && (old(server.domains) <= server.domains || plan - state <= server.domains)
    ensures old(server.calls) <= server.calls && (ok <==> Answered(server.lost, old(server.calls), server.calls))
  {
    var stateMap := ToSet(stateDomains);
    var planMap := ToSet(planDomains);
    ok := AddMissing(server, stateMap, planMap);
    if !ok {
      return;
    }
    ok := RemoveDropped(server, stateMap, planMap);
  }

  /** A read keeps the tracked domains the server still has. */
  method Refresh(server: FilterServer, stateDomains: seq<string>) returns (ok: bool, remaining: seq<string>)
    modifies server`calls
    ensures ok ==> SetOf(remaining) == SetOf(stateDomains) * server.domains
    ensures old(server.calls) <= server.calls && (ok <==> Answered(server.lost, old(server.calls), server.calls))
  {
    ok, remaining := true, [];
    for i := 0 to |stateDomains|
      invariant SetOf(remaining) == SetOf(stateDomains[..i]) * server.domains
      invariant old(server.calls) <= server.calls && Answered(server.lost, old(server.calls), server.calls)
    {
      var answered, found := server.Exists(stateDomains[i]);
      if !answered {
        return false, remaining;
      }
      SetOfSnoc(stateDomains[..i], stateDomains[i]);
      if found {
        SetOfSnoc(remaining, stateDomains[i]);
        remaining := remaining + [stateDomains[i]];
      }
      assert stateDomains[..i + 1] == stateDomains[..i] + [stateDomains[i]];
    }
    assert stateDomains[..|stateDomains|] == stateDomains;
  }

  // ---------------------------------------------------------------- whole runs

  /** Everything planned is on the server exactly when the server still had what the plan keeps. */
  lemma PlannedIsThere(server: set<string>, state: set<string>, plan: set<string>)
    ensures plan <= Reconciled(server, state, plan) <==> plan * state <= server
  {
    forall d | d in plan * state ensures d in Reconciled(server, state, plan) <==> d in server {
    }
    if plan <= Reconciled(server, state, plan) {
      forall d | d in plan * state ensures d in server {
      }
    }
  }

  /** One cycle: state refreshed, then reconciled with the plan.  A state that is refreshed away is
      created anew, which adds the whole plan: the same sets, with nothing tracked before. */
  function Cycle(server: set<string>, state: set<string>, plan: set<string>): set<string> {
    Reconciled(server, state * server, plan)
  }

  lemma CycleReachesThePlan(server: set<string>, state: set<string>, plan: set<string>)
    ensures plan <= Cycle(server, state, plan)
    ensures Cycle(server, state, plan) == (server - state) + plan
  {
    PlannedIsThere(server, state * server, plan);
  }

  /** What a reconciliation that stops on an error can leave: only domains due to change have
      changed, and nothing is gone before all additions are in. */
  predicate Partial(server: set<string>, state: set<string>, plan: set<string>, left: set<string>) {
    && server - (state - plan) <= left <= server + (plan - state)
    && (server <= left || plan - state <= left)
  }

  /** A cycle with a plan: without an error, broken in the update with what that leaves on the
      server, or broken in the refresh, which can also be skipped. */
  datatype Attempt =
    | Clean(plan: set<string>, refreshed: bool)
    | Broken(plan: set<string>, refreshed: bool, left: set<string>)
    | Unread

  /** The server's list, and what the state tracks. */
  datatype Pair = Pair(server: set<string>, state: set<string>)

  /** The state an update starts from. */
  function Read(p: Pair, refreshed: bool): set<string> {
    if refreshed then p.state * p.server else p.state
  }

  predicate Possible(p: Pair, a: Attempt) {
    a.Broken? ==> Partial(p.server, Read(p, a.refreshed), a.plan, a.left)
  }

  /** An error keeps the state, as refreshed. */
  function Step(p: Pair, a: Attempt): Pair {
    match a
    case Clean(plan, refreshed) => Pair(Reconciled(p.server, Read(p, refreshed), plan), plan)
    case Broken(plan, refreshed, left) => Pair(left, Read(p, refreshed))
    case Unread => p
  }

  function After(p: Pair, run: seq<Attempt>): Pair {
    if run == [] then p else Step(After(p, run[..|run| - 1]), run[|run| - 1])
  }

  predicate PossibleRun(p: Pair, run: seq<Attempt>) {
    forall i :: 0 <= i < |run| ==> Possible(After(p, run[..i]), run[i])
  }

  /** Terraform's cycle over one list, the resource's Read, unless skipped, and then its Update:
      whatever fails, it is one of the attempts, clean exactly when no call is lost, and tracked is the
      state it leaves. */
  method RefreshThenUpdate(server: FilterServer, refreshed: bool, stateDomains: seq<string>, planDomains: seq<string>)
    returns (tracked: seq<string>, ghost attempt: Attempt)
    modifies server`calls, server`domains
    ensures var before := Pair(old(server.domains), SetOf(stateDomains));
      && Possible(before, attempt) && Pair(server.domains, SetOf(tracked)) == Step(before, attempt)
      && (if attempt.Unread? then refreshed else attempt.plan == SetOf(planDomains) && attempt.refreshed == refreshed)
    ensures attempt.Clean? <==> Answered(server.lost, old(server.calls), server.calls)
  {
    var remaining := stateDomains;
    if refreshed {
      var read;
      read, remaining := Refresh(server, stateDomains);
      if !read {
        return stateDomains, Unread;
      }
    }
    var ok := ReconcileSet(server, remaining, planDomains);
    if ok {
      return planDomains, Clean(SetOf(planDomains), refreshed);
    }
    return remaining, Broken(SetOf(planDomains), refreshed, server.domains);
  }

  /** A cycle without an error plans the domain after position i. */
  predicate PlannedLater(run: seq<Attempt>, i: int, d: string) {
    exists k :: 0 <= k < |run| && i < k && run[k].Clean? && d in run[k].plan
  }

  /** The failing cycle at j planned the domain and left it on the server without its being tracked. */
  predicate LeftBehind(p: Pair, run: seq<Attempt>, j: int, d: string) {
    && 0 <= j < |run| && run[j].Broken? && d in run[j].plan && d in run[j].left
    && d !in Read(After(p, run[..j]), run[j].refreshed)
  }

  lemma UntrackedStep(p: Pair, a: Attempt)
    requires Possible(p, a)
    ensures var untracked, after := p.server - p.state, Step(p, a);
      after.server - after.state == match a
        case Clean(plan, _) => untracked - plan
        case Broken(plan, refreshed, left) => untracked + (plan * left - Read(p, refreshed))
        case Unread => untracked
  {
  }

  lemma PrefixLeavesTheSame(p: Pair, run: seq<Attempt>, d: string)
    requires run != [] && PossibleRun(p, run)
    ensures var init := run[..|run| - 1];
      && PossibleRun(p, init)
      && (forall j :: 0 <= j < |init| ==> (LeftBehind(p, run, j, d) <==> LeftBehind(p, init, j, d)))
  {
    var init := run[..|run| - 1];
    forall i | 0 <= i < |init| ensures run[..i] == init[..i] && Possible(After(p, init[..i]), init[i]) {
      assert run[..i] == init[..i];
      assert Possible(After(p, run[..i]), run[i]);
    }
  }

  lemma PlannedLaterSnoc(init: seq<Attempt>, last: Attempt, j: int, d: string)
    requires j < |init|
    ensures PlannedLater(init + [last], j, d) <==> PlannedLater(init, j, d) || (last.Clean? && d in last.plan)
  {
    var run := init + [last];
    assert run[|init|] == last;
    if PlannedLater(init, j, d) {
      var k :| 0 <= k < |init| && j < k && init[k].Clean? && d in init[k].plan;
      assert run[k].Clean?;
    }
    if PlannedLater(run, j, d) {
      var k :| 0 <= k < |run| && j < k && run[k].Clean? && d in run[k].plan;
      assert k < |init| ==> init[k].Clean?;
    }
  }

  /** Over every run of cycles, failing anywhere: the untracked domains on the list are exactly those
      untracked at first, and those a failing cycle left behind, that no cycle without an error
      planned after. */
  lemma {:induction false} RunLeavesUntracked(p: Pair, run: seq<Attempt>, d: string)
    requires PossibleRun(p, run)
    ensures d in After(p, run).server - After(p, run).state <==>
      || (d in p.server - p.state && !PlannedLater(run, -1, d))
      || exists j :: LeftBehind(p, run, j, d) && !PlannedLater(run, j, d)
  {
    if run != [] {
      var n := |run| - 1;
      var init, last := run[..n], run[n];
      assert run == init + [last];
      PrefixLeavesTheSame(p, run, d);
      RunLeavesUntracked(p, init, d);
      assert Possible(After(p, run[..n]), run[n]);
      UntrackedStep(After(p, init), last);
      forall j | -1 <= j < n
        ensures PlannedLater(run, j, d) <==> PlannedLater(init, j, d) || (last.Clean? && d in last.plan)
      {
        PlannedLaterSnoc(init, last, j, d);
      }
      LastJoins(p, run, d);
    }
  }

  /** How the last cycle adds to the domains left behind. */
  lemma LastJoins(p: Pair, run: seq<Attempt>, d: string)
    requires run != [] && PossibleRun(p, run)
    ensures var n := |run| - 1;
      (exists j :: LeftBehind(p, run, j, d) && !PlannedLater(run, j, d)) <==>
        (LeftBehind(p, run, n, d)
         || exists j :: LeftBehind(p, run[..n], j, d) && !PlannedLater(run[..n], j, d)
                        && !(run[n].Clean? && d in run[n].plan))
  {
    var n := |run| - 1;
    var init, last := run[..n], run[n];
    assert run == init + [last];
    PrefixLeavesTheSame(p, run, d);
    assert !PlannedLater(run, n, d);
    forall j | 0 <= j < n
      ensures PlannedLater(run, j, d) <==> PlannedLater(init, j, d) || (last.Clean? && d in last.plan)
    {
      PlannedLaterSnoc(init, last, j, d);
    }
    forall j | LeftBehind(p, init, j, d) && !PlannedLater(init, j, d) && !(last.Clean? && d in last.plan)
      ensures LeftBehind(p, run, j, d) && !PlannedLater(run, j, d)
    {
      assert LeftBehind(p, run, j, d);
    }
    forall j | j != n && LeftBehind(p, run, j, d) && !PlannedLater(run, j, d)
      ensures LeftBehind(p, init, j, d) && !PlannedLater(init, j, d) && !(last.Clean? && d in last.plan)
    {
      assert LeftBehind(p, init, j, d);
    }
  }

  /** A run that ends without an error leaves those untracked domains and its last plan, all of it when
      the last refresh was made, and otherwise exactly when the server still had what the plan kept. */
  lemma CleanEnd(p: Pair, run: seq<Attempt>)
    requires run != [] && run[|run| - 1].Clean?
    ensures var last, before, end := run[|run| - 1], After(p, run[..|run| - 1]), After(p, run);
      && end.state == last.plan && end.server == (last.plan * end.server) + (end.server - end.state)
      && (last.plan <= end.server <==> last.refreshed || last.plan * before.state <= before.server)
  {
    var last, before := run[|run| - 1], After(p, run[..|run| - 1]);
    PlannedIsThere(before.server, Read(before, last.refreshed), last.plan);
  }

  /** One lost call is enough: a is added, b fails, the state stays, and no later plan removes a. */
  lemma FailedAddIsOrphaned(a: string, b: string, c: string)
    requires a != b && b != c && a != c
    ensures var run := [Broken({a, b, c}, true, {a, c}), Clean({c}, true)];
      PossibleRun(Pair({c}, {c}), run) && After(Pair({c}, {c}), run) == Pair({a, c}, {c})
  {
    var p := Pair({c}, {c});
    var run := [Broken({a, b, c}, true, {a, c}), Clean({c}, true)];
    assert run[..0] == [] && run[..1] == [run[0]] && [run[0]][..0] == [];
    assert After(p, run[..1]) == Pair({a, c}, {c});
    assert Reconciled({a, c}, {c}, {c}) == {a, c};
  }

  /** No cycle fails or skips its refresh. */
  predicate AllClean(run: seq<Attempt>) {
    forall i :: 0 <= i < |run| ==> run[i].Clean? && run[i].refreshed
  }

  /** After any number of cycles without an error the list holds the last plan, and of all other
      domains exactly those it held at first that were never tracked or planned: adopted domains go
      when they are dropped, foreign ones never. */
  lemma {:induction false} CyclesOwnWhatWasPlanned(p: Pair, run: seq<Attempt>, d: string)
    requires run != [] && AllClean(run)
    ensures d in After(p, run).server <==>
      d in run[|run| - 1].plan || (d in p.server && d !in p.state && !PlannedLater(run, -1, d))
  {
    assert PossibleRun(p, run);
    RunLeavesUntracked(p, run, d);
    CleanEnd(p, run);
  }
}
