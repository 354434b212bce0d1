/** Joining a secondary node to a cluster over a connection that loses responses.
    internal/provider/cluster_secondary_resource.go */
module ClusterJoin {
  /** Milliseconds: how long the loop keeps trying, and its shortest wait. */
  const DEADLINE: int := 90_000
  const WAIT: int := 5_000

  /** What becomes of the response to a join request: it arrives, or an error takes its place that
      says "connection refused" or "connection reset", or one that does not, such as a timeout. */
  datatype Fate = Arrives | RefusedOrReset | OtherwiseLost

  /** What befalls one pass of the loop: whether the join request lands on a node that is not yet
      joined, the fate of its response, whether the state query fails, how long each takes, and
      whether the wait is cancelled. */
  datatype Weather = Weather(
    lands: bool, fate: Fate, stateLost: bool, joinTime: nat, stateTime: nat, oversleep: nat, cancelled: bool)

  datatype JoinReply = Joined | ConnectionRefused | OtherError

  datatype StateReply = Unreadable | NotInitialized | Initialized

  datatype Event = Join(reply: JoinReply, landed: bool) | Query(state: StateReply)

  /** A node: joining twice is an error of its own. */
  class Node {
    var joined: bool
    var events: seq<Event>

    constructor (joined: bool)
      ensures this.joined == joined && events == []
    {
      this.joined, this.events := joined, [];
    }

    method InitJoin(w: Weather) returns (reply: JoinReply)
      modifies this
      ensures reply == JoinAnswer(old(joined), w)
      ensures joined == (old(joined) || w.lands)
      ensures events == old(events) + [Join(reply, !old(joined) && w.lands)]
    {
      reply := JoinAnswer(joined, w);
      events := events + [Join(reply, !joined && w.lands)];
      joined := joined || w.lands;
    }

    method State(w: Weather) returns (reply: StateReply)
      modifies this`events
      ensures reply == StateAnswer(joined, w)
      ensures events == old(events) + [Query(reply)]
    {
      reply := StateAnswer(joined, w);
      events := events + [Query(reply)];
    }
  }

  function JoinAnswer(joined: bool, w: Weather): JoinReply {
    match w.fate
    case RefusedOrReset => ConnectionRefused
    case OtherwiseLost => OtherError
    case Arrives => if !joined && w.lands then Joined else OtherError
  }

  function StateAnswer(joined: bool, w: Weather): StateReply {
    if w.stateLost then Unreadable else if joined then Initialized else NotInitialized
  }

  /** How a create ends: ok is the resource entering state. */
  datatype Ending = Ending(ok: bool, joined: bool, now: int, events: seq<Event>)

  /** One pass: the loop ends with it, or goes on later. */
  datatype Pass = Done(end: Ending) | Again(joined: bool, now: int, events: seq<Event>)

  function OnePass(w: Weather, now: int, joined: bool): (r: Pass)
    ensures r.Again? ==> r.now >= now + WAIT && now <= DEADLINE
  {
    var reply, after, later := JoinAnswer(joined, w), joined || w.lands, now + w.joinTime;
    var sent := [Join(reply, !joined && w.lands)];
    if !reply.ConnectionRefused? then Done(Ending(reply.Joined?, after, later, sent))
    else if later > DEADLINE then Done(Ending(false, after, later, sent))
    else
      var state := StateAnswer(after, w);
      if state.Initialized? then Done(Ending(true, after, later + w.stateTime, sent + [Query(state)]))
      else if w.cancelled then Done(Ending(false, after, later + w.stateTime, sent + [Query(state)]))
      else Again(after, later + w.stateTime + WAIT + w.oversleep, sent + [Query(state)])
  }

  /** The loop from one pass on. */
  function Passes(weather: nat -> Weather, pass: nat, now: int, joined: bool): Ending
    decreases DEADLINE - now
  {
    match OnePass(weather(pass), now, joined)
    case Done(end) => end
    case Again(after, later, events) =>
      var rest := Passes(weather, pass + 1, later, after);
      rest.(events := events + rest.events)
  }

  /** The body of the loop: request, deadline, state query, wait. */
  method TryOnce(node: Node, w: Weather, now: int) returns (done: bool, ok: bool, later: int)
    modifies node
    ensures var p := OnePass(w, now, old(node.joined));
      && done == p.Done?
      && node.joined == (if done then p.end.joined else p.joined)
      && node.events == old(node.events) + (if done then p.end.events else p.events)
      && later == (if done then p.end.now else p.now)
      && (done ==> ok == p.end.ok)
  {
    later := now + w.joinTime;
    var reply := node.InitJoin(w);
    if !reply.ConnectionRefused? || later > DEADLINE {
      return true, reply.Joined?, later;
    }
    var state := node.State(w);
    later := later + w.stateTime;
    if state.Initialized? {
      return true, true, later;
    }
    if w.cancelled {
      return true, false, later;
    }
    later := later + WAIT + w.oversleep;
    return false, false, later;
  }

  function After(events: seq<Event>, end: Ending): Ending {
    end.(events := events + end.events)
  }

  lemma PassesUnrolled(weather: nat -> Weather, pass: nat, now: int, joined: bool, before: seq<Event>)
    ensures var p, all := OnePass(weather(pass), now, joined), After(before, Passes(weather, pass, now, joined));
      all == match p
        case Done(end) => After(before, end)
        case Again(after, later, events) => After(before + events, Passes(weather, pass + 1, later, after))
  {
    var p := OnePass(weather(pass), now, joined);
    if p.Again? {
      var rest := Passes(weather, pass + 1, p.now, p.joined).events;
      assert before + (p.events + rest) == before + p.events + rest;
    }
  }

  method Create(node: Node, weather: nat -> Weather) returns (ok: bool)
    requires node.events == []
    modifies node
    ensures var e := Passes(weather, 0, 0, old(node.joined));
      ok == e.ok && node.joined == e.joined && node.events == e.events
  {
    var now, pass, done := 0, 0, false;
    ok := false;
    ghost var all := Passes(weather, 0, 0, node.joined);
    assert After([], all) == all;
    while !done
      invariant all == if done then Ending(ok, node.joined, now, node.events)
                       else After(node.events, Passes(weather, pass, now, node.joined))
      decreases !done, DEADLINE - now
    {
      PassesUnrolled(weather, pass, now, node.joined, node.events);
      done, ok, now := TryOnce(node, weather(pass), now);
      pass := pass + 1;
    }
  }

  // ---------------------------------------------------------------- what holds of every run

  function Joins(events: seq<Event>): nat {
    if events == [] then 0 else (if events[0].Join? then 1 else 0) + Joins(events[1..])
  }

  lemma JoinsOfPass(sent: Event, query: Event, rest: seq<Event>)
    requires sent.Join? && query.Query?
    ensures Joins([sent] + [query] + rest) == 1 + Joins(rest)
    ensures Joins([sent] + [query]) == 1 && Joins([sent]) == 1
  {
    var all := [sent] + [query] + rest;
    assert all[1..] == [query] + rest && all[1..][1..] == rest;
    assert [sent][1..] == [] && [query][1..] == [];
    assert Joins([query]) == 0 && ([sent] + [query])[1..] == [query];
  }

  /** Every join request but the first follows a state query that failed or found the node not
      joined. */
  predicate NeverBlind(events: seq<Event>) {
    && events != [] && events[0].Join?
    && forall i :: 1 <= i < |events| && events[i].Join? ==>
         events[i - 1] == Query(Unreadable) || events[i - 1] == Query(NotInitialized)
  }

  lemma {:induction false} RetriesAreNeverBlind(weather: nat -> Weather, pass: nat, now: int, joined: bool)
    ensures NeverBlind(Passes(weather, pass, now, joined).events)
    decreases DEADLINE - now
  {
    var p := OnePass(weather(pass), now, joined);
    if p.Again? {
      RetriesAreNeverBlind(weather, pass + 1, p.now, p.joined);
    }
  }

  /** A create that ends well leaves the node joined. */
  lemma {:induction false} SuccessMeansJoined(weather: nat -> Weather, pass: nat, now: int, joined: bool)
    ensures var e := Passes(weather, pass, now, joined); e.ok ==> e.joined
    decreases DEADLINE - now
  {
    var p := OnePass(weather(pass), now, joined);
    if p.Again? {
      SuccessMeansJoined(weather, pass + 1, p.now, p.joined);
    }
  }

  /** With ninety seconds to try and five between tries, there are at most twenty requests. */
  lemma {:induction false} AtMostTwentyJoins(weather: nat -> Weather, pass: nat, now: int, joined: bool)
    requires 0 <= now
    ensures var joins := Joins(Passes(weather, pass, now, joined).events);
      joins >= 1 && (now <= DEADLINE ==> WAIT * (joins - 2) <= DEADLINE - now) && (now > DEADLINE ==> joins == 1)
    ensures now == 0 ==> Joins(Passes(weather, pass, now, joined).events) <= 20
    decreases DEADLINE - now
  {
    var p := OnePass(weather(pass), now, joined);
    if p.Again? {
      JoinsOfPass(p.events[0], p.events[1], Passes(weather, pass + 1, p.now, p.joined).events);
      assert p.events == [p.events[0]] + [p.events[1]];
      AtMostTwentyJoins(weather, pass + 1, p.now, p.joined);
    } else {
      JoinsOfPass(p.end.events[0], Query(Unreadable), []);
      assert p.end.events == [p.end.events[0]] || p.end.events == [p.end.events[0]] + [p.end.events[1]];
      assert |p.end.events| == 2 ==> p.end.events[1].Query?;
      if |p.end.events| == 2 {
        JoinsOfPass(p.end.events[0], p.end.events[1], []);
      }
    }
  }

  /** Nothing lands, every response is a refused connection, and nothing takes time but the wait. */
  ghost predicate AlwaysRefused(weather: nat -> Weather) {
    forall i :: weather(i) == Weather(false, RefusedOrReset, false, 0, 0, 0, false)
  }

  /** On a node that never comes up the loop keeps trying until the deadline has passed. */
  lemma {:induction false} JoinsUntilTheDeadline(weather: nat -> Weather, pass: nat, now: int)
    requires AlwaysRefused(weather) && pass <= 19 && now == WAIT * pass
    ensures var e := Passes(weather, pass, now, false);
      Joins(e.events) == 20 - pass && !e.ok && e.now == DEADLINE + WAIT
    decreases 19 - pass
  {
    var p := OnePass(weather(pass), now, false);
    if p.Again? {
      JoinsUntilTheDeadline(weather, pass + 1, p.now);
      assert p.events == [p.events[0]] + [p.events[1]];
      JoinsOfPass(p.events[0], p.events[1], Passes(weather, pass + 1, p.now, p.joined).events);
    } else {
      assert p.end.events == [p.end.events[0]];
      JoinsOfPass(p.end.events[0], Query(Unreadable), []);
    }
  }

  /** The bound is reached: twenty requests, and none after the first pass behind the deadline. */
  lemma TwentyJoinsAreReached(weather: nat -> Weather)
    requires AlwaysRefused(weather)
    ensures Joins(Passes(weather, 0, 0, false).events) == 20
  {
    JoinsUntilTheDeadline(weather, 0, 0);
  }

  /** A request that lands in time, its response lost to a refused or reset connection and the state
      readable, ends the create well there and then: the node is not asked to join again. */
  lemma {:induction false} LandedJoinIsFound(weather: nat -> Weather, pass: nat, now: int, joined: bool, k: nat)
    requires var e := Passes(weather, pass, now, joined).events;
      k + 1 < |e| && e[k] == Join(ConnectionRefused, true) && e[k + 1].Query? && e[k + 1].state != Unreadable
    ensures var e := Passes(weather, pass, now, joined); e.ok && k + 2 == |e.events|
    decreases DEADLINE - now
  {
    var p := OnePass(weather(pass), now, joined);
    if p.Again? {
      var e, rest := Passes(weather, pass, now, joined).events, Passes(weather, pass + 1, p.now, p.joined).events;
      assert forall i :: 2 <= i < |e| ==> e[i] == rest[i - 2];
      assert k >= 2;
      LandedJoinIsFound(weather, pass + 1, p.now, p.joined, k - 2);
    }
  }

  // ---------------------------------------------------------------- when a joined node is lost

  predicate Landing(events: seq<Event>, k: int) {
    0 <= k < |events| && events[k].Join? && events[k].landed
  }

  predicate EndsWell(events: seq<Event>) {
    events != [] && (events[|events| - 1] == Query(Initialized) || events[|events| - 1] == Join(Joined, true))
  }

  /** A create ends well exactly when the last thing it hears is that the node is joined, and the
      node is joined exactly when it was before or a request landed. */
  lemma {:induction false} EndingIsHeard(weather: nat -> Weather, pass: nat, now: int, joined: bool)
    ensures var e := Passes(weather, pass, now, joined);
      (e.ok <==> EndsWell(e.events)) && (e.joined <==> joined || exists k :: Landing(e.events, k))
    decreases DEADLINE - now
  {
    var p := OnePass(weather(pass), now, joined);
    if p.Again? {
      EndingIsHeard(weather, pass + 1, p.now, p.joined);
      var e, rest := Passes(weather, pass, now, joined), Passes(weather, pass + 1, p.now, p.joined);
      LandingsShift(p.events, rest.events);
      RetriesAreNeverBlind(weather, pass + 1, p.now, p.joined);
    } else {
      assert Landing(p.end.events, 0) <==> !joined && weather(pass).lands;
    }
  }

  lemma LandingsShift(sent: seq<Event>, rest: seq<Event>)
    requires |sent| == 2 && sent[0].Join? && sent[1].Query?
    ensures forall k :: Landing(rest, k) ==> Landing(sent + rest, k + 2)
    ensures (exists k :: Landing(sent + rest, k)) <==> sent[0].landed || exists k :: Landing(rest, k)
  {
    if sent[0].landed {
      assert Landing(sent + rest, 0);
    }
    forall k | Landing(sent + rest, k) ensures k == 0 || Landing(rest, k - 2) {
    }
    forall k | Landing(rest, k) ensures Landing(sent + rest, k + 2) {
    }
  }

  /** The request at k landed unheard: its own response did not say so, and either nothing came after
      it, or a state query that failed, and no later one found the node joined. */
  predicate LandsUnheard(events: seq<Event>, k: int) {
    && Landing(events, k) && events[k].reply != Joined
    && (k == |events| - 1 || (events[k + 1] == Query(Unreadable) && events[|events| - 1] != Query(Initialized)))
  }

  /** Requests to a joined node land no more and are never answered with success. */
  lemma {:induction false} NoSecondLanding(weather: nat -> Weather, pass: nat, now: int)
    ensures forall i :: 0 <= i < |Passes(weather, pass, now, true).events| ==>
      var e := Passes(weather, pass, now, true).events[i];
      if e.Join? then !e.landed && e.reply != Joined else e.state != NotInitialized
    decreases DEADLINE - now
  {
    var p := OnePass(weather(pass), now, true);
    if p.Again? {
      NoSecondLanding(weather, pass + 1, p.now);
    }
  }

  /** In every weather, a node that was not joined is joined in vain exactly when a request landed
      unheard: the response lost in a way the loop does not recognise or after the deadline, or
      followed by a state query that failed and none that succeeded. */
  lemma {:induction false} LostExactlyWhenUnheard(weather: nat -> Weather, pass: nat, now: int)
    ensures var e := Passes(weather, pass, now, false);
      e.joined && !e.ok <==> exists k :: LandsUnheard(e.events, k)
    decreases DEADLINE - now
  {
    var p, e := OnePass(weather(pass), now, false), Passes(weather, pass, now, false);
    EndingIsHeard(weather, pass, now, false);
    if p.Again? {
      RetriesAreNeverBlind(weather, pass + 1, p.now, p.joined);
      var rest := Passes(weather, pass + 1, p.now, p.joined).events;
      assert e.events == p.events + rest;
      if p.joined {
        NoSecondLanding(weather, pass + 1, p.now);
        assert LandsUnheard(e.events, 0) <==> !e.ok;
      } else {
        LostExactlyWhenUnheard(weather, pass + 1, p.now);
        UnheardShifts(p.events, rest);
      }
    } else if weather(pass).lands {
      assert LandsUnheard(e.events, 0) <==> !e.ok;
    }
  }

  lemma UnheardShifts(sent: seq<Event>, rest: seq<Event>)
    requires |sent| == 2 && sent[0].Join? && !sent[0].landed && sent[1].Query? && rest != [] && rest[0].Join?
    ensures (exists k :: LandsUnheard(sent + rest, k)) <==> exists k :: LandsUnheard(rest, k)
  {
    forall k | LandsUnheard(rest, k) ensures LandsUnheard(sent + rest, k + 2) {
    }
    forall k | LandsUnheard(sent + rest, k) ensures LandsUnheard(rest, k - 2) {
    }
  }

  // ---------------------------------------------------------------- the same, told by the weather alone

  /** When a pass starts, if all before it went on. */
  function Start(weather: nat -> Weather, pass: nat): int {
    if pass == 0 then 0
    else
      var w := weather(pass - 1);
      Start(weather, pass - 1) + w.joinTime + w.stateTime + WAIT + w.oversleep
  }

  /** The loss of the response is recognised, and in time. */
  predicate Retriable(weather: nat -> Weather, pass: nat) {
    weather(pass).fate == RefusedOrReset && Start(weather, pass) + weather(pass).joinTime <= DEADLINE
  }

  predicate GoesOn(weather: nat -> Weather, pass: nat) {
    Retriable(weather, pass) && !weather(pass).cancelled
  }

  /** From pass b on, with a node not yet joined, the request of pass l is reached and lands. */
  predicate LandsFrom(weather: nat -> Weather, b: nat, l: nat) {
    b <= l && weather(l).lands && forall i :: b <= i < l ==> GoesOn(weather, i) && !weather(i).lands
  }

  /** From pass b on, with a joined node, the query of pass m is reached and is the first answered. */
  predicate FoundFrom(weather: nat -> Weather, b: nat, m: nat) {
    && b <= m && Retriable(weather, m) && !weather(m).stateLost
    && forall i :: b <= i < m ==> GoesOn(weather, i) && weather(i).stateLost
  }

  ghost predicate Found(weather: nat -> Weather, b: nat) {
    exists m :: FoundFrom(weather, b, m)
  }

  /** That the request of pass l landed comes to be known: by its response, or by a later query. */
  ghost predicate Heard(weather: nat -> Weather, l: nat) {
    weather(l).fate == Arrives || Found(weather, l)
  }

  ghost predicate Lands(weather: nat -> Weather, b: nat) {
    exists l :: LandsFrom(weather, b, l)
  }

  ghost predicate LandsHeard(weather: nat -> Weather, b: nat) {
    exists l :: LandsFrom(weather, b, l) && Heard(weather, l)
  }

  lemma FoundLater(weather: nat -> Weather, b: nat)
    requires GoesOn(weather, b) && weather(b).stateLost
    ensures Found(weather, b) <==> Found(weather, b + 1)
  {
    var next := b + 1;
    forall m: nat ensures FoundFrom(weather, b, m) <==> FoundFrom(weather, next, m) {
    }
  }

  /** The search ends at pass b: there, or not at all. */
  lemma FoundNow(weather: nat -> Weather, b: nat)
    requires !(GoesOn(weather, b) && weather(b).stateLost)
    ensures Found(weather, b) <==> Retriable(weather, b) && !weather(b).stateLost
  {
    if Retriable(weather, b) && !weather(b).stateLost {
      assert FoundFrom(weather, b, b);
    }
    forall m: nat | m != b ensures !FoundFrom(weather, b, m) {
    }
  }

  lemma {:induction false} JoinedNodeIsFound(weather: nat -> Weather, b: nat)
    ensures Passes(weather, b, Start(weather, b), true).ok <==> Found(weather, b)
    decreases DEADLINE - Start(weather, b)
  {
    var p := OnePass(weather(b), Start(weather, b), true);
    if p.Again? {
      assert p.now == Start(weather, b + 1);
      JoinedNodeIsFound(weather, b + 1);
      FoundLater(weather, b);
    } else {
      FoundNow(weather, b);
    }
  }

  lemma LandsNow(weather: nat -> Weather, b: nat)
    requires weather(b).lands
    ensures Lands(weather, b) && (LandsHeard(weather, b) <==> Heard(weather, b))
  {
    assert LandsFrom(weather, b, b);
    forall l: nat | LandsFrom(weather, b, l) ensures l == b {
      OneLanding(weather, b, l, b);
    }
  }

  lemma LandsLater(weather: nat -> Weather, b: nat)
    requires !weather(b).lands
    ensures Lands(weather, b) <==> GoesOn(weather, b) && Lands(weather, b + 1)
    ensures LandsHeard(weather, b) <==> GoesOn(weather, b) && LandsHeard(weather, b + 1)
  {
    var next := b + 1;
    forall l: nat ensures LandsFrom(weather, b, l) <==> GoesOn(weather, b) && LandsFrom(weather, next, l) {
      if LandsFrom(weather, b, l) {
        assert b < l;
        assert GoesOn(weather, b);
      }
    }
  }

  lemma FirstLandingIsHeard(weather: nat -> Weather, b: nat)
    requires weather(b).lands
    ensures var e := Passes(weather, b, Start(weather, b), false); e.joined && (e.ok <==> Heard(weather, b))
  {
    var p := OnePass(weather(b), Start(weather, b), false);
    if p.Again? {
      assert p.now == Start(weather, b + 1);
      JoinedNodeIsFound(weather, b + 1);
      FoundLater(weather, b);
      EndingIsHeard(weather, b + 1, p.now, true);
    } else {
      FoundNow(weather, b);
    }
  }

  lemma {:induction false} LandingIsHeard(weather: nat -> Weather, b: nat)
    ensures var e := Passes(weather, b, Start(weather, b), false);
      (e.joined <==> Lands(weather, b)) && (e.ok <==> LandsHeard(weather, b))
    decreases DEADLINE - Start(weather, b)
  {
    var p := OnePass(weather(b), Start(weather, b), false);
    if weather(b).lands {
      LandsNow(weather, b);
      FirstLandingIsHeard(weather, b);
    } else {
      LandsLater(weather, b);
      if p.Again? {
        assert p.now == Start(weather, b + 1);
        LandingIsHeard(weather, b + 1);
      }
    }
  }

  lemma OneLanding(weather: nat -> Weather, b: nat, k: nat, l: nat)
    requires LandsFrom(weather, b, k) && LandsFrom(weather, b, l)
    ensures k == l
  {
  }

  /** A node is joined in vain exactly when a request is reached and lands, its response does not
      arrive, and from that pass on there is no query that is answered, with every lost response up to
      it recognised and in time, and every query before it failing uncancelled. */
  lemma LostExactlyInThisWeather(weather: nat -> Weather)
    ensures var e := Passes(weather, 0, 0, false);
      e.joined && !e.ok <==> exists l :: LandsFrom(weather, 0, l) && !Heard(weather, l)
  {
    LandingIsHeard(weather, 0);
    forall k: nat, l: nat | LandsFrom(weather, 0, k) && LandsFrom(weather, 0, l) ensures k == l {
      OneLanding(weather, 0, k, l);
    }
  }

  /** With every state query answered and every lost response recognised, only the deadline is left:
      a node is joined in vain exactly when the request that landed was answered after it. */
  lemma {:induction false} OnlyTheDeadlineLosesTheNode(weather: nat -> Weather, pass: nat, now: int)
    requires forall i :: !weather(i).stateLost && weather(i).fate != OtherwiseLost
    ensures var e := Passes(weather, pass, now, false);
      && e.events != []
      && (e.joined && !e.ok <==> e.events[|e.events| - 1] == Join(ConnectionRefused, true))
      && (e.joined && !e.ok ==> e.now > DEADLINE)
    decreases DEADLINE - now
  {
    var p := OnePass(weather(pass), now, false);
    if p.Again? {
      OnlyTheDeadlineLosesTheNode(weather, pass + 1, p.now);
    }
  }

  /** A response lost in a way that is not recognised loses the node at once, without a state query
      and long before the deadline. */
  lemma TimeoutLosesTheNode(weather: nat -> Weather)
    requires weather(0) == Weather(true, OtherwiseLost, false, 30_000, 0, 0, false)
    ensures var e := Passes(weather, 0, 0, false);
      e.joined && !e.ok && e.events == [Join(OtherError, true)] && e.now < DEADLINE
  {
  }

  /** A state query that fails right after the request landed loses the node: the next request is
      answered with the node's own refusal to join twice. */
  lemma UnreadableStateLosesTheNode(weather: nat -> Weather)
    requires weather(0) == Weather(true, RefusedOrReset, true, 0, 0, 0, false)
    requires weather(1).fate == Arrives
    ensures var e := Passes(weather, 0, 0, false); e.joined && !e.ok
  {
    var p := OnePass(weather(0), 0, false);
    assert OnePass(weather(1), p.now, true).end ==
      Ending(false, true, p.now + weather(1).joinTime, [Join(OtherError, false)]);
  }
}
