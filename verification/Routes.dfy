/**
 The routing table kept in Redis: each uid has a route to a node, each node a reverse set of
 uids, both with the same time to live.  Scripts run as single steps; keys vanish when their
 time is up.  A gateway caches what it looked up for three seconds.
 */
module Routes {
  import opened Common

  type Uid = string
  type Node = string

  const CACHE_TTL := 3

  datatype Route = Route(node: Node, expiry: int)
  datatype Members = Members(uids: set<Uid>, expiry: int)

  /** What a lookup that began at `began` has read and has yet to write into the cache. */
  datatype Answer = Answer(uid: Uid, node: Node, began: int)

  datatype State = State(
    now: int,
    routes: map<Uid, Route>,
    sets: map<Node, Members>,
    cache: map<Uid, Route>,        // one gateway's cache
    answers: multiset<Answer>)     // its lookups between their read and their cache write

  datatype Event =
    | Bind(uid: Uid, node: Node)
    | Unbind(uid: Uid, node: Node)
    | Invalidate(node: Node)
    | Read(uid: Uid, began: int)   // a lookup that missed the cache, with the time it began
    | Fill(answer: Answer)         // the same lookup's cache write, any time later
    | Tick(seconds: nat)

  /** The node a uid is routed to now. */
  function Owner(routes: map<Uid, Route>, now: int, uid: Uid): Option<Node> {
    if uid in routes && now < routes[uid].expiry then Some(routes[uid].node) else None
  }

  /** The reverse set of a node now. */
  function UidsOf(sets: map<Node, Members>, now: int, node: Node): set<Uid> {
    if node in sets && now < sets[node].expiry then sets[node].uids else {}
  }

  function WithoutMember(sets: map<Node, Members>, now: int, node: Node, uid: Uid): map<Node, Members> {
    if node in sets && now < sets[node].expiry then sets[node := sets[node].(uids := sets[node].uids - {uid})] else sets
  }

  function AfterBind(s: State, ttl: nat, uid: Uid, node: Node): State {
    var prior := Owner(s.routes, s.now, uid);
    var sets := if prior.Some? && prior.value != node then WithoutMember(s.sets, s.now, prior.value, uid) else s.sets;
    s.(routes := s.routes[uid := Route(node, s.now + ttl)],
       sets := sets[node := Members(UidsOf(sets, s.now, node) + {uid}, s.now + ttl)])
  }

  function AfterUnbind(s: State, uid: Uid, node: Node): State {
    var t := s.(cache := s.cache - {uid});
    if Owner(s.routes, s.now, uid) == Some(node)
    then t.(routes := s.routes - {uid}, sets := WithoutMember(s.sets, s.now, node, uid))
    else t
  }

  function AfterInvalidate(s: State, node: Node): State {
    s.(routes := s.routes - UidsOf(s.sets, s.now, node), sets := s.sets - {node},
       cache := map u | u in s.cache && s.cache[u].node != node :: s.cache[u])
  }

  function AfterRead(s: State, uid: Uid, began: int): State {
    var owner := Owner(s.routes, s.now, uid);
    if owner.Some? then s.(answers := s.answers + multiset{Answer(uid, owner.value, began)}) else s
  }

  /** Caches an answer as of the time its lookup began. */
  function AfterFill(s: State, a: Answer): State {
    s.(cache := s.cache[a.uid := Route(a.node, a.began + CACHE_TTL)], answers := s.answers - multiset{a})
  }

  predicate Enabled(s: State, e: Event) {
    (e.Read? ==> e.began <= s.now) && (e.Fill? ==> e.answer in s.answers)
  }

  function Next(s: State, ttl: nat, e: Event): State {
    match e
    case Bind(uid, node) => AfterBind(s, ttl, uid, node)
    case Unbind(uid, node) => AfterUnbind(s, uid, node)
    case Invalidate(node) => AfterInvalidate(s, node)
    case Read(uid, began) => AfterRead(s, uid, began)
    case Fill(a) => AfterFill(s, a)
    case Tick(d) => s.(now := s.now + d)
  }

  predicate Fresh(s: State) {
    s.routes == map[] && s.sets == map[] && s.cache == map[] && s.answers == multiset{}
  }

  /** A run, with all the states it passes. */
  ghost predicate IsRun(states: seq<State>, ttl: nat, events: seq<Event>) {
    && |states| == |events| + 1 && Fresh(states[0])
    && forall i | 0 <= i < |events| :: Enabled(states[i], events[i]) && states[i + 1] == Next(states[i], ttl, events[i])
  }

  // ---- Every route is in its node's reverse set ----

  ghost predicate Reversed(routes: map<Uid, Route>, sets: map<Node, Members>, now: int) {
    forall u | u in routes && now < routes[u].expiry ::
      routes[u].node in sets && u in sets[routes[u].node].uids && routes[u].expiry <= sets[routes[u].node].expiry
  }

  ghost predicate Bounded(routes: map<Uid, Route>, now: int, ttl: nat) {
    forall u | u in routes :: routes[u].expiry <= now + ttl
  }

  ghost predicate RouteInv(s: State, ttl: nat) {
    Reversed(s.routes, s.sets, s.now) && Bounded(s.routes, s.now, ttl)
  }

  lemma LeavesOneSet(routes: map<Uid, Route>, sets: map<Node, Members>, now: int, node: Node, uid: Uid)
    requires Reversed(routes, sets, now)
    ensures Reversed(routes - {uid}, WithoutMember(sets, now, node, uid), now)
  {
  }

  lemma EntersOneSet(routes: map<Uid, Route>, sets: map<Node, Members>, now: int, ttl: nat, node: Node, uid: Uid)
    requires Reversed(routes - {uid}, sets, now) && Bounded(routes, now, ttl)
    ensures Reversed(routes[uid := Route(node, now + ttl)], sets[node := Members(UidsOf(sets, now, node) + {uid}, now + ttl)], now)
  {
    var routes', sets' := routes[uid := Route(node, now + ttl)], sets[node := Members(UidsOf(sets, now, node) + {uid}, now + ttl)];
    forall u | u in routes' && now < routes'[u].expiry
      ensures routes'[u].node in sets' && u in sets'[routes'[u].node].uids && routes'[u].expiry <= sets'[routes'[u].node].expiry
    {
      if u != uid {
        assert u in routes - {uid} && (routes - {uid})[u] == routes'[u];
      }
    }
  }

  lemma StepKeepsRoutes(s: State, ttl: nat, e: Event)
    requires RouteInv(s, ttl)
    ensures RouteInv(Next(s, ttl, e), ttl)
  {
    match e
    case Bind(uid, node) =>
      var prior := Owner(s.routes, s.now, uid);
      if prior.Some? && prior.value != node {
        LeavesOneSet(s.routes, s.sets, s.now, prior.value, uid);
        EntersOneSet(s.routes, WithoutMember(s.sets, s.now, prior.value, uid), s.now, ttl, node, uid);
      } else {
        EntersOneSet(s.routes, s.sets, s.now, ttl, node, uid);
      }
    case Unbind(uid, node) => LeavesOneSet(s.routes, s.sets, s.now, node, uid);
    case Invalidate(node) => InvalidateKeepsRoutes(s, node);
    case Read(_, _) =>
    case Fill(_) =>
    case Tick(_) =>
  }

  lemma InvalidateKeepsRoutes(s: State, node: Node)
    requires Reversed(s.routes, s.sets, s.now)
    ensures Reversed(AfterInvalidate(s, node).routes, AfterInvalidate(s, node).sets, s.now)
    ensures forall u :: Owner(AfterInvalidate(s, node).routes, s.now, u) != Some(node)
  {
  }

  lemma {:induction false} RunKeepsRoutes(states: seq<State>, ttl: nat, events: seq<Event>, k: nat)
    requires IsRun(states, ttl, events) && k < |states|
    ensures RouteInv(states[k], ttl)
  {
    hide Next;
    if k > 0 {
      RunKeepsRoutes(states, ttl, events, k - 1);
      StepKeepsRoutes(states[k - 1], ttl, events[k - 1]);
    }
  }

  /** In every state of every run, a live route is in its node's live reverse set. */
  lemma RouteIsInReverseSet(states: seq<State>, ttl: nat, events: seq<Event>, k: nat, uid: Uid)
    requires IsRun(states, ttl, events) && k < |states|
    ensures var owner := Owner(states[k].routes, states[k].now, uid);
            owner.Some? ==> uid in UidsOf(states[k].sets, states[k].now, owner.value)
  {
    hide Next, IsRun;
    RunKeepsRoutes(states, ttl, events, k);
  }

  /** So taking a node down leaves no route to it. */
  lemma InvalidateMissesNoRoute(states: seq<State>, ttl: nat, events: seq<Event>, k: nat, node: Node)
    requires IsRun(states, ttl, events) && k < |states|
    ensures forall u :: Owner(AfterInvalidate(states[k], node).routes, states[k].now, u) != Some(node)
  {
    hide Next, IsRun, AfterInvalidate;
    RunKeepsRoutes(states, ttl, events, k);
    InvalidateKeepsRoutes(states[k], node);
  }

  // ---- Unbinding by a stale owner ----

  /** A release by a node that no longer owns the route changes nobody's route. */
  lemma StaleUnbindKeepsRoutes(s: State, uid: Uid, node: Node, u: Uid)
    ensures Owner(AfterUnbind(s, uid, node).routes, s.now, u) ==
            if u == uid && Owner(s.routes, s.now, uid) == Some(node) then None else Owner(s.routes, s.now, u)
  {
  }

  // ---- Routes of other nodes ----

  /** Taking a node down removes another node's route exactly when the uid lingers in the reverse set. */
  lemma ForeignRouteSurvivesIff(s: State, node: Node, uid: Uid)
    requires Owner(s.routes, s.now, uid).Some? && Owner(s.routes, s.now, uid) != Some(node)
    ensures Owner(AfterInvalidate(s, node).routes, s.now, uid) == Owner(s.routes, s.now, uid) <==> uid !in UidsOf(s.sets, s.now, node)
  {
  }

  /** Reverse sets hold exactly the uids routed to their node. */
  ghost predicate Exact(s: State) {
    forall n, u :: u in UidsOf(s.sets, s.now, n) <==> Owner(s.routes, s.now, u) == Some(n)
  }

  /** A tick during which some route runs out while its node's set stays. */
  ghost predicate Lingers(s: State, d: nat) {
    exists u :: u in s.routes && s.now < s.routes[u].expiry <= s.now + d && u in UidsOf(s.sets, s.now + d, s.routes[u].node)
  }

  /** Only a route that runs out can linger: every other step keeps the reverse sets exact. */
  lemma StepKeepsExactIff(s: State, ttl: nat, e: Event)
    requires RouteInv(s, ttl) && Exact(s) && ttl > 0
    ensures Exact(Next(s, ttl, e)) <==> !(e.Tick? && Lingers(s, e.seconds))
  {
    hide Exact, Lingers, AfterBind, AfterUnbind, AfterInvalidate;
    match e
    case Bind(uid, node) => BindKeepsExact(s, ttl, uid, node);
    case Unbind(uid, node) => UnbindKeepsExact(s, uid, node);
    case Invalidate(node) => InvalidateKeepsExact(s, node);
    case Read(_, _) => SameTables(s, Next(s, ttl, e));
    case Fill(_) => SameTables(s, Next(s, ttl, e));
    case Tick(d) =>
      if Lingers(s, d) {
        TickBreaksExact(s, d);
      } else {
        TickKeepsExact(s, ttl, d);
      }
  }

  lemma SameTables(s: State, s': State)
    requires Exact(s) && s'.routes == s.routes && s'.sets == s.sets && s'.now == s.now
    ensures Exact(s')
  {
  }

  lemma InvalidateKeepsExact(s: State, node: Node)
    requires Exact(s)
    ensures Exact(AfterInvalidate(s, node))
  {
    var s' := AfterInvalidate(s, node);
    forall n, u ensures u in UidsOf(s'.sets, s'.now, n) <==> Owner(s'.routes, s'.now, u) == Some(n) {
      assert u in UidsOf(s.sets, s.now, n) <==> Owner(s.routes, s.now, u) == Some(n);
      assert u in UidsOf(s.sets, s.now, node) <==> Owner(s.routes, s.now, u) == Some(node);
    }
  }

  lemma BindKeepsExact(s: State, ttl: nat, uid: Uid, node: Node)
    requires Exact(s) && ttl > 0
    ensures Exact(AfterBind(s, ttl, uid, node))
  {
    var s' := AfterBind(s, ttl, uid, node);
    forall n, u ensures u in UidsOf(s'.sets, s'.now, n) <==> Owner(s'.routes, s'.now, u) == Some(n) {
      assert u in UidsOf(s.sets, s.now, n) <==> Owner(s.routes, s.now, u) == Some(n);
    }
  }

  lemma UnbindKeepsExact(s: State, uid: Uid, node: Node)
    requires Exact(s)
    ensures Exact(AfterUnbind(s, uid, node))
  {
    var s' := AfterUnbind(s, uid, node);
    forall n, u ensures u in UidsOf(s'.sets, s'.now, n) <==> Owner(s'.routes, s'.now, u) == Some(n) {
      assert u in UidsOf(s.sets, s.now, n) <==> Owner(s.routes, s.now, u) == Some(n);
    }
  }

  lemma TickKeepsExact(s: State, ttl: nat, d: nat)
    requires RouteInv(s, ttl) && Exact(s) && !Lingers(s, d)
    ensures Exact(s.(now := s.now + d))
  {
    var s' := s.(now := s.now + d);
    forall n, u ensures u in UidsOf(s'.sets, s'.now, n) <==> Owner(s'.routes, s'.now, u) == Some(n) {
      assert u in UidsOf(s.sets, s.now, n) <==> Owner(s.routes, s.now, u) == Some(n);
    }
  }

  lemma TickBreaksExact(s: State, d: nat)
    requires Lingers(s, d)
    ensures !Exact(s.(now := s.now + d))
  {
    var s' := s.(now := s.now + d);
    var u :| u in s.routes && s.now < s.routes[u].expiry <= s.now + d && u in UidsOf(s.sets, s.now + d, s.routes[u].node);
    assert u in UidsOf(s'.sets, s'.now, s.routes[u].node) && Owner(s'.routes, s'.now, u) == None;
  }

  /** In a run where no route outlived by its set ran out, taking a node down removes exactly the routes to it. */
  lemma {:induction false} NoLingeringNoLoss(states: seq<State>, ttl: nat, events: seq<Event>, k: nat)
    requires IsRun(states, ttl, events) && k < |states| && ttl > 0
    requires forall i | 0 <= i < k && events[i].Tick? :: !Lingers(states[i], events[i].seconds)
    ensures Exact(states[k])
    ensures forall n, u :: Owner(AfterInvalidate(states[k], n).routes, states[k].now, u) ==
                           var owner := Owner(states[k].routes, states[k].now, u); if owner == Some(n) then None else owner
  {
    ExactAlong(states, ttl, events, k);
    forall n, u ensures Owner(AfterInvalidate(states[k], n).routes, states[k].now, u) ==
                        var owner := Owner(states[k].routes, states[k].now, u); if owner == Some(n) then None else owner
    {
      assert u in UidsOf(states[k].sets, states[k].now, n) <==> Owner(states[k].routes, states[k].now, u) == Some(n);
    }
  }

  lemma {:induction false} ExactAlong(states: seq<State>, ttl: nat, events: seq<Event>, k: nat)
    requires IsRun(states, ttl, events) && k < |states| && ttl > 0
    requires forall i | 0 <= i < k && events[i].Tick? :: !Lingers(states[i], events[i].seconds)
    ensures Exact(states[k])
  {
    hide Next, Lingers;
    if k > 0 {
      ExactAlong(states, ttl, events, k - 1);
      RunKeepsRoutes(states, ttl, events, k - 1);
      StepKeepsExactIff(states[k - 1], ttl, events[k - 1]);
    }
  }

  /**
   A route can linger: it runs out while a later login keeps its node's set alive.  After a
   login elsewhere, taking the first node down removes the route of the second.
   */
  lemma ForeignRouteCanBeRemoved(ttl: nat, a: Uid, b: Uid, m: Node, n: Node)
    returns (states: seq<State>, events: seq<Event>)
    requires ttl >= 2 && a != b && m != n
    ensures IsRun(states, ttl, events)
    ensures var s := states[|events|];
            Owner(s.routes, s.now, a) == Some(m) && Owner(AfterInvalidate(s, n).routes, s.now, a) == None
  {
    hide AfterBind, AfterInvalidate;
    var s0 := State(0, map[], map[], map[], multiset{});
    events := [Bind(a, n), Tick(ttl - 1), Bind(b, n), Tick(1), Bind(a, m)];
    var s1 := Next(s0, ttl, events[0]);
    var s2 := Next(s1, ttl, events[1]);
    var s3 := Next(s2, ttl, events[2]);
    var s4 := Next(s3, ttl, events[3]);
    var s5 := Next(s4, ttl, events[4]);
    states := [s0, s1, s2, s3, s4, s5];
    FirstBind(s0, ttl, a, n);
    BindBeside(s2, ttl, a, b, n);
    LingererIsLost(s4, ttl, a, m, n);
  }

  lemma FirstBind(s: State, ttl: nat, a: Uid, n: Node)
    requires Fresh(s)
    ensures var s' := AfterBind(s, ttl, a, n);
            && s'.now == s.now && a in s'.routes && s'.routes[a] == Route(n, s.now + ttl)
            && n in s'.sets && a in s'.sets[n].uids && s'.sets[n].expiry == s.now + ttl && s'.routes.Keys == {a}
  {
  }

  /** A later login on the same node renews the set, not the earlier route. */
  lemma BindBeside(s: State, ttl: nat, a: Uid, b: Uid, n: Node)
    requires a != b && a in s.routes && b !in s.routes && a in UidsOf(s.sets, s.now, n)
    ensures var s' := AfterBind(s, ttl, b, n);
            && s'.now == s.now && a in s'.routes && s'.routes[a] == s.routes[a]
            && n in s'.sets && a in s'.sets[n].uids && s'.sets[n].expiry == s.now + ttl
  {
  }

  /** A uid left in a set by a route that ran out: its next route elsewhere falls with the set's node. */
  lemma LingererIsLost(s: State, ttl: nat, a: Uid, m: Node, n: Node)
    requires ttl > 0 && m != n && Owner(s.routes, s.now, a) == None && a in UidsOf(s.sets, s.now, n)
    ensures var s' := AfterBind(s, ttl, a, m);
            Owner(s'.routes, s'.now, a) == Some(m) && Owner(AfterInvalidate(s', n).routes, s'.now, a) == None
  {
  }

  // ---- The cache ----

  /** Some state of the run, within the last three seconds of `now`, had the route. */
  ghost predicate WasTrue(states: seq<State>, k: nat, uid: Uid, node: Node, since: int)
    requires k < |states|
  {
    exists j :: 0 <= j <= k && since <= states[j].now && Owner(states[j].routes, states[j].now, uid) == Some(node)
  }

  /** A lookup's answer is either an old one or the route it has just read. */
  lemma AnswerIsOldOrRead(s: State, ttl: nat, e: Event, a: Answer)
    requires a in Next(s, ttl, e).answers && a !in s.answers && Enabled(s, e)
    ensures a.began <= s.now && Owner(s.routes, s.now, a.uid) == Some(a.node)
  {
  }

  lemma {:induction false} AnswerWasTrue(states: seq<State>, ttl: nat, events: seq<Event>, k: nat, a: Answer)
    requires IsRun(states, ttl, events) && k < |states| && a in states[k].answers
    ensures WasTrue(states, k, a.uid, a.node, a.began)
  {
    hide Next, Owner;
    var s, e := states[k - 1], events[k - 1];
    assert Enabled(s, e) && states[k] == Next(s, ttl, e);
    if a in s.answers {
      AnswerWasTrue(states, ttl, events, k - 1, a);
    } else {
      AnswerIsOldOrRead(s, ttl, e, a);
      assert Owner(states[k - 1].routes, states[k - 1].now, a.uid) == Some(a.node);
    }
  }

  /** A cache entry is either an old one or what a lookup has just written. */
  lemma EntryIsOldOrFilled(s: State, ttl: nat, e: Event, uid: Uid)
    requires uid in Next(s, ttl, e).cache
    ensures var entry := Next(s, ttl, e).cache[uid];
            if e.Fill? && e.answer.uid == uid then entry == Route(e.answer.node, e.answer.began + CACHE_TTL)
            else uid in s.cache && s.cache[uid] == entry
  {
  }

  lemma {:induction false} CachedWasTrue(states: seq<State>, ttl: nat, events: seq<Event>, k: nat, uid: Uid)
    requires IsRun(states, ttl, events) && k < |states| && uid in states[k].cache
    ensures var entry := states[k].cache[uid]; WasTrue(states, k, uid, entry.node, entry.expiry - CACHE_TTL)
  {
    hide Next, Owner;
    var s, e := states[k - 1], events[k - 1];
    assert Enabled(s, e) && states[k] == Next(s, ttl, e);
    EntryIsOldOrFilled(s, ttl, e, uid);
    if e.Fill? && e.answer.uid == uid {
      AnswerWasTrue(states, ttl, events, k - 1, e.answer);
    } else {
      CachedWasTrue(states, ttl, events, k - 1, uid);
    }
  }

  /** A cache hit gives a route that held at some moment within the last three seconds. */
  lemma HitIsRecent(states: seq<State>, ttl: nat, events: seq<Event>, k: nat, uid: Uid) returns (j: nat)
    requires IsRun(states, ttl, events) && k < |states| && uid in states[k].cache && states[k].now < states[k].cache[uid].expiry
    ensures j <= k && states[k].now - 3 < states[j].now
    ensures Owner(states[j].routes, states[j].now, uid) == Some(states[k].cache[uid].node)
  {
    CachedWasTrue(states, ttl, events, k, uid);
    var entry := states[k].cache[uid];
    j :| 0 <= j <= k && entry.expiry - CACHE_TTL <= states[j].now && Owner(states[j].routes, states[j].now, uid) == Some(entry.node);
  }

  // ---- A node that is gone ----

  /** Nothing leads to the node: no route, no cache entry, no answer on its way into the cache. */
  ghost predicate Gone(s: State, node: Node) {
    NoRoute(s.routes, s.now, node) && NotCached(s.cache, node) && NotAnswered(s.answers, node)
  }

  ghost predicate NoRoute(routes: map<Uid, Route>, now: int, node: Node) {
    forall u | u in routes && now < routes[u].expiry :: routes[u].node != node
  }

  ghost predicate NotCached(cache: map<Uid, Route>, node: Node) {
    forall u | u in cache :: cache[u].node != node
  }

  ghost predicate NotAnswered(answers: multiset<Answer>, node: Node) {
    forall a | a in answers :: a.node != node
  }

  lemma StepKeepsGone(s: State, ttl: nat, e: Event, node: Node)
    requires Gone(s, node) && Enabled(s, e) && !(e.Bind? && e.node == node)
    ensures Gone(Next(s, ttl, e), node)
  {
    var s' := Next(s, ttl, e);
    assert NoRoute(s'.routes, s'.now, node) by {
      hide NotCached, NotAnswered;
    }
    assert NotCached(s'.cache, node) by {
      hide NoRoute;
    }
    assert NotAnswered(s'.answers, node) by {
      hide NotCached;
    }
  }

  /** A node that is gone stays gone until somebody is bound to it. */
  lemma {:induction false} GoneUntilBound(states: seq<State>, ttl: nat, events: seq<Event>, j: nat, k: nat, node: Node)
    requires IsRun(states, ttl, events) && j <= k < |states| && Gone(states[j], node)
    requires forall i | j <= i < k && events[i].Bind? :: events[i].node != node
    ensures Gone(states[k], node)
  {
    hide Next, Gone, Enabled;
    if j < k {
      GoneUntilBound(states, ttl, events, j, k - 1, node);
      StepKeepsGone(states[k - 1], ttl, events[k - 1], node);
    }
  }

  // ---- A node that was taken down ----

  /** What any further steps make of a state. */
  ghost predicate CanRun(s: State, ttl: nat, events: seq<Event>)
    decreases |events|
  {
    events == [] || (Enabled(s, events[0]) && CanRun(Next(s, ttl, events[0]), ttl, events[1..]))
  }

  function Final(s: State, ttl: nat, events: seq<Event>): State
    decreases |events|
  {
    if events == [] then s else Final(Next(s, ttl, events[0]), ttl, events[1..])
  }

  predicate BindsTo(e: Event, node: Node) {
    e.Bind? && e.node == node
  }

  /** Some lookup would be answered with the node out of the cache. */
  predicate Answering(s: State, node: Node) {
    exists u | u in s.cache :: s.cache[u].node == node && s.now < s.cache[u].expiry
  }

  /** Some lookup that began less than three seconds ago has read the node and has yet to cache it. */
  ghost predicate Late(s: State, node: Node) {
    exists a | a in s.answers :: a.node == node && s.now < a.began + 3
  }

  /** The steps bring the node back to lookups although nobody is bound to it. */
  ghost predicate BringsBack(s: State, ttl: nat, events: seq<Event>, node: Node) {
    CanRun(s, ttl, events) && (forall e | e in events :: !BindsTo(e, node)) && Answering(Final(s, ttl, events), node)
  }

  /** Nothing leads to the node now or can without a bind: whatever still names it is stale. */
  ghost predicate Silent(s: State, node: Node) {
    NoRoute(s.routes, s.now, node) && !Answering(s, node) && !Late(s, node)
  }

  lemma StepKeepsSilent(s: State, ttl: nat, e: Event, node: Node)
    requires Silent(s, node) && Enabled(s, e) && !BindsTo(e, node)
    ensures Silent(Next(s, ttl, e), node)
  {
    hide NoRoute, Answering, Late, Enabled, BindsTo, Next;
    StepKeepsUnrouted(s, ttl, e, node);
    StepKeepsUnanswered(s, ttl, e, node);
    StepKeepsOnTime(s, ttl, e, node);
  }

  lemma StepKeepsUnrouted(s: State, ttl: nat, e: Event, node: Node)
    requires NoRoute(s.routes, s.now, node) && !BindsTo(e, node)
    ensures var s' := Next(s, ttl, e); NoRoute(s'.routes, s'.now, node)
  {
  }

  lemma StepKeepsUnanswered(s: State, ttl: nat, e: Event, node: Node)
    requires !Answering(s, node) && !Late(s, node) && Enabled(s, e)
    ensures !Answering(Next(s, ttl, e), node)
  {
  }

  lemma StepKeepsOnTime(s: State, ttl: nat, e: Event, node: Node)
    requires NoRoute(s.routes, s.now, node) && !Late(s, node)
    ensures !Late(Next(s, ttl, e), node)
  {
  }

  lemma {:induction false} SilentStays(s: State, ttl: nat, events: seq<Event>, node: Node)
    requires Silent(s, node) && CanRun(s, ttl, events) && forall e | e in events :: !BindsTo(e, node)
    ensures !Answering(Final(s, ttl, events), node)
    decreases |events|
  {
    hide Enabled, Next, BindsTo, NoRoute, Answering, Late;
    if events != [] {
      StepKeepsSilent(s, ttl, events[0], node);
      SilentStays(Next(s, ttl, events[0]), ttl, events[1..], node);
    }
  }

  lemma LateFillBringsBack(s: State, ttl: nat, node: Node, a: Answer)
    requires a in s.answers && a.node == node && s.now < a.began + CACHE_TTL
    ensures BringsBack(s, ttl, [Fill(a)], node)
  {
    var events := [Fill(a)];
    var s' := Next(s, ttl, events[0]);
    assert events[1..] == [] && CanRun(s', ttl, []) && Final(s', ttl, []) == s';
    assert a.uid in s'.cache && s'.cache[a.uid].node == node;
  }

  /**
   A node that was taken down comes back to lookups without a bind if and only if, at that
   moment, some lookup has read it and is less than three seconds old.
   */
  lemma ComesBackIff(states: seq<State>, ttl: nat, events: seq<Event>, k: nat, node: Node)
    requires IsRun(states, ttl, events) && k < |states|
    ensures (exists more :: BringsBack(AfterInvalidate(states[k], node), ttl, more, node)) <==> Late(states[k], node)
  {
    var s, s' := states[k], AfterInvalidate(states[k], node);
    if a :| a in s.answers && a.node == node && s.now < a.began + CACHE_TTL {
      LateFillBringsBack(s', ttl, node, a);
    } else {
      TakenDownIsSilent(states, ttl, events, k, node);
      forall more ensures !BringsBack(s', ttl, more, node) {
        hide Silent, AfterInvalidate;
        if CanRun(s', ttl, more) && forall e | e in more :: !BindsTo(e, node) {
          SilentStays(s', ttl, more, node);
        }
      }
    }
  }

  lemma TakenDownIsSilent(states: seq<State>, ttl: nat, events: seq<Event>, k: nat, node: Node)
    requires IsRun(states, ttl, events) && k < |states| && !Late(states[k], node)
    ensures Silent(AfterInvalidate(states[k], node), node)
  {
    RunKeepsRoutes(states, ttl, events, k);
    InvalidateKeepsRoutes(states[k], node);
    var s' := AfterInvalidate(states[k], node);
    forall u | u in s'.routes && s'.now < s'.routes[u].expiry ensures s'.routes[u].node != node {
      assert Owner(s'.routes, s'.now, u) != Some(node);
    }
  }

  /** Such a run exists: the late cache write makes lookups answer with the node though no route does. */
  lemma LateFillRevivesNode(ttl: nat, u: Uid, n: Node) returns (states: seq<State>, events: seq<Event>)
    requires ttl > 0
    ensures IsRun(states, ttl, events)
    ensures var s := states[|events|];
            && (forall v :: Owner(s.routes, s.now, v) != Some(n))
            && u in s.cache && s.cache[u].node == n && s.now < s.cache[u].expiry
  {
    var s0 := State(0, map[], map[], map[], multiset{});
    events := [Bind(u, n), Read(u, 0), Invalidate(n), Fill(Answer(u, n, 0))];
    var s1 := Next(s0, ttl, events[0]);
    var s2 := Next(s1, ttl, events[1]);
    var s3 := Next(s2, ttl, events[2]);
    var s4 := Next(s3, ttl, events[3]);
    states := [s0, s1, s2, s3, s4];
    assert Owner(s1.routes, s1.now, u) == Some(n);
    assert s3.routes == map[];
  }

  // ---- What a lookup answers ----

  /** A lookup of the uid now: the cached route while it is fresh, otherwise the stored one. */
  function Found(s: State, uid: Uid): Option<Node> {
    if uid in s.cache && s.now < s.cache[uid].expiry then Some(s.cache[uid].node) else Owner(s.routes, s.now, uid)
  }

  /** A release by the owner is seen at once; by anybody else it only makes the next lookup read the route again. */
  lemma ReleaseIsSeen(s: State, uid: Uid, node: Node, u: Uid)
    ensures Found(AfterUnbind(s, uid, node), u) ==
            if u != uid then Found(s, u)
            else if Owner(s.routes, s.now, uid) == Some(node) then None
            else Owner(s.routes, s.now, uid)
  {
  }

  /** The steps make lookups of the uid answer again although nobody binds it. */
  ghost predicate FindsAgain(s: State, ttl: nat, events: seq<Event>, uid: Uid) {
    CanRun(s, ttl, events) && (forall e | e in events :: !(e.Bind? && e.uid == uid)) && Found(Final(s, ttl, events), uid).Some?
  }

  /** Some lookup that began less than three seconds ago has read the uid's route and has yet to cache it. */
  ghost predicate Reading(s: State, uid: Uid) {
    exists a | a in s.answers :: a.uid == uid && s.now < a.began + 3
  }

  ghost predicate Lost(s: State, uid: Uid) {
    Found(s, uid) == None && !Reading(s, uid)
  }

  lemma StepKeepsLost(s: State, ttl: nat, e: Event, uid: Uid)
    requires Lost(s, uid) && Enabled(s, e) && !(e.Bind? && e.uid == uid)
    ensures Lost(Next(s, ttl, e), uid)
  {
    var s' := Next(s, ttl, e);
    assert Found(s', uid) == None;
    assert !Reading(s', uid);
  }

  lemma {:induction false} LostStays(s: State, ttl: nat, events: seq<Event>, uid: Uid)
    requires Lost(s, uid) && CanRun(s, ttl, events) && forall e | e in events :: !(e.Bind? && e.uid == uid)
    ensures Found(Final(s, ttl, events), uid) == None
    decreases |events|
  {
    hide Enabled, Next, Found, Reading;
    if events != [] {
      StepKeepsLost(s, ttl, events[0], uid);
      LostStays(Next(s, ttl, events[0]), ttl, events[1..], uid);
    }
  }

  lemma LateFillFinds(s: State, ttl: nat, a: Answer)
    requires a in s.answers && s.now < a.began + 3
    ensures FindsAgain(s, ttl, [Fill(a)], a.uid)
  {
    var events := [Fill(a)];
    var s' := Next(s, ttl, events[0]);
    assert events[1..] == [] && CanRun(s', ttl, []) && Final(s', ttl, []) == s';
  }

  /**
   Over every run after a release by the owner in which nobody binds the uid: some lookup of it
   answers again if and only if, at the release, one younger than three seconds has read the
   route and not yet cached it.
   */
  lemma ReleasedComesBackIff(s: State, ttl: nat, uid: Uid, node: Node)
    requires Owner(s.routes, s.now, uid) == Some(node)
    ensures (exists more :: FindsAgain(AfterUnbind(s, uid, node), ttl, more, uid)) <==> Reading(s, uid)
  {
    var s' := AfterUnbind(s, uid, node);
    ReleaseIsSeen(s, uid, node, uid);
    if a :| a in s.answers && a.uid == uid && s.now < a.began + 3 {
      LateFillFinds(s', ttl, a);
    } else {
      assert Lost(s', uid);
      forall more ensures !FindsAgain(s', ttl, more, uid) {
        hide Lost, AfterUnbind;
        if CanRun(s', ttl, more) && forall e: Event | e in more :: !(e.Bind? && e.uid == uid) {
          LostStays(s', ttl, more, uid);
        }
      }
    }
  }

  // ---- A bind is seen within three seconds ----

  /** The uid is bound to the node since `at`, and whatever says otherwise is from before. */
  ghost predicate Settling(s: State, ttl: nat, uid: Uid, node: Node, at: int) {
    && uid in s.routes && s.routes[uid] == Route(node, at + ttl)
    && (uid in s.cache ==> s.cache[uid].node == node || s.cache[uid].expiry <= at + 3)
    && forall a | a in s.answers && a.uid == uid :: a.node == node || a.began <= at
  }

  /** No entry outlives its three seconds, and no lookup began in the future. */
  ghost predicate Dated(s: State) {
    (forall u | u in s.cache :: s.cache[u].expiry <= s.now + 3) && forall a | a in s.answers :: a.began <= s.now
  }

  lemma StepKeepsDated(s: State, ttl: nat, e: Event)
    requires Dated(s) && Enabled(s, e)
    ensures Dated(Next(s, ttl, e))
  {
    hide Owner;
  }

  lemma {:induction false} RunKeepsDated(states: seq<State>, ttl: nat, events: seq<Event>, k: nat)
    requires IsRun(states, ttl, events) && k < |states|
    ensures Dated(states[k])
  {
    hide Next, Enabled;
    if k > 0 {
      RunKeepsDated(states, ttl, events, k - 1);
      StepKeepsDated(states[k - 1], ttl, events[k - 1]);
    }
  }

  /** The uid is not bound again, nor released by the node, nor in the reverse set of a node that is taken down. */
  predicate Elsewhere(s: State, e: Event, uid: Uid, node: Node) {
    && !(e.Bind? && e.uid == uid) && !(e.Unbind? && e.uid == uid && e.node == node)
    && (e.Invalidate? ==> uid !in UidsOf(s.sets, s.now, e.node))
  }

  lemma ScriptKeepsSettling(s: State, ttl: nat, e: Event, uid: Uid, node: Node, at: int)
    requires Settling(s, ttl, uid, node, at) && Elsewhere(s, e, uid, node) && !e.Read? && !e.Fill?
    ensures Settling(Next(s, ttl, e), ttl, uid, node, at)
  {
    hide Owner, UidsOf, WithoutMember;
    var s' := Next(s, ttl, e);
    assert s'.answers == s.answers;
    assert uid in s'.routes && s'.routes[uid] == s.routes[uid] by {
      assert Owner(s.routes, s.now, uid) == Some(node) || Owner(s.routes, s.now, uid) == None by { OwnerIsRouted(s, uid); }
    }
  }

  lemma OwnerIsRouted(s: State, uid: Uid)
    requires uid in s.routes
    ensures Owner(s.routes, s.now, uid) == Some(s.routes[uid].node) || Owner(s.routes, s.now, uid) == None
  {
  }

  lemma LookupKeepsSettling(s: State, ttl: nat, e: Event, uid: Uid, node: Node, at: int)
    requires Settling(s, ttl, uid, node, at) && Enabled(s, e) && (e.Read? || e.Fill?)
    ensures Settling(Next(s, ttl, e), ttl, uid, node, at)
  {
    hide UidsOf, WithoutMember;
  }

  lemma StepKeepsSettling(s: State, ttl: nat, e: Event, uid: Uid, node: Node, at: int)
    requires Settling(s, ttl, uid, node, at) && Enabled(s, e) && Elsewhere(s, e, uid, node) && s.now < at + ttl
    ensures Settling(Next(s, ttl, e), ttl, uid, node, at)
  {
    hide Settling, Next, Enabled, Elsewhere;
    if e.Read? || e.Fill? {
      LookupKeepsSettling(s, ttl, e, uid, node, at);
    } else {
      ScriptKeepsSettling(s, ttl, e, uid, node, at);
    }
  }

  /**
   From three seconds after a bind until its time is up, unless the uid's route is touched, lookups
   answer with the node, even where an older route was cached or on its way.
   */
  lemma {:induction false} BindIsSeen(states: seq<State>, ttl: nat, events: seq<Event>, j: nat, k: nat, uid: Uid, node: Node)
    requires IsRun(states, ttl, events) && j < k < |states| && events[j] == Bind(uid, node)
    requires forall i | j < i < k :: Elsewhere(states[i], events[i], uid, node)
    requires states[j].now + 3 <= states[k].now < states[j].now + ttl
    ensures Found(states[k], uid) == Some(node)
  {
    RunKeepsDated(states, ttl, events, j);
    SettlingAlong(states, ttl, events, j, k, uid, node);
  }

  lemma {:induction false} SettlingAlong(states: seq<State>, ttl: nat, events: seq<Event>, j: nat, k: nat, uid: Uid, node: Node)
    requires IsRun(states, ttl, events) && j < k < |states| && events[j] == Bind(uid, node) && Dated(states[j])
    requires forall i | j < i < k :: Elsewhere(states[i], events[i], uid, node)
    requires states[k].now < states[j].now + ttl
    ensures Settling(states[k], ttl, uid, node, states[j].now) && states[j].now <= states[k].now
    decreases k
  {
    hide Enabled, Settling, Elsewhere, Next;
    var s, e := states[k - 1], events[k - 1];
    assert states[k] == Next(s, ttl, e) && Enabled(s, e);
    TimeGrows(s, ttl, e);
    if k == j + 1 {
      BindSettles(s, ttl, uid, node);
    } else {
      SettlingAlong(states, ttl, events, j, k - 1, uid, node);
      StepKeepsSettling(s, ttl, e, uid, node, states[j].now);
    }
  }

  lemma TimeGrows(s: State, ttl: nat, e: Event)
    ensures s.now <= Next(s, ttl, e).now
  {
  }

  lemma BindSettles(s: State, ttl: nat, uid: Uid, node: Node)
    requires Dated(s)
    ensures Settling(Next(s, ttl, Bind(uid, node)), ttl, uid, node, s.now)
  {
  }
}
