/** The table as it runs: the scripts' reads and writes in order, and the loops of an invalidation. */
module RouteTable {
  import opened Common
  import opened Routes

  class Table {
    const ttl: nat
    var now: int
    var routes: map<Uid, Route>
    var sets: map<Node, Members>
    var cache: map<Uid, Route>
    ghost var answers: multiset<Answer>

    ghost function Abs(): State
      reads this
    {
      State(now, routes, sets, cache, answers)
    }

    constructor (ttl: nat, now: int)
      ensures Fresh(Abs()) && this.ttl == ttl && this.now == now
    {
      this.ttl, this.now := ttl, now;
      routes, sets, cache, answers := map[], map[], map[], multiset{};
    }

    method Get(uid: Uid) returns (r: Option<Node>)
      ensures r == Owner(routes, now, uid)
    {
      r := if uid in routes && now < routes[uid].expiry then Some(routes[uid].node) else None;
    }

    method SetRemove(node: Node, uid: Uid)
      modifies `sets
      ensures sets == WithoutMember(old(sets), now, node, uid)
    {
      if node in sets && now < sets[node].expiry {
        sets := sets[node := sets[node].(uids := sets[node].uids - {uid})];
      }
    }

    method Bind(uid: Uid, node: Node)
      modifies `routes, `sets
      ensures Abs() == AfterBind(old(Abs()), ttl, uid, node)
    {
      var prior := Get(uid);
      if prior.Some? && prior.value != node {
        SetRemove(prior.value, uid);
      }
      routes := routes[uid := Route(node, now + ttl)];
      sets := sets[node := Members(UidsOf(sets, now, node) + {uid}, now + ttl)];
    }

    method Unbind(uid: Uid, node: Node)
      modifies `routes, `sets, `cache
      ensures Abs() == AfterUnbind(old(Abs()), uid, node)
      ensures uid !in cache && (old(Owner(routes, now, uid)) == Some(node) ==> uid !in routes)
    {
      var cur := Get(uid);
      if cur == Some(node) {
        routes := routes - {uid};
        SetRemove(node, uid);
      }
      cache := cache - {uid};
    }

    method Invalidate(node: Node)
      modifies `routes, `sets, `cache
      ensures Abs() == AfterInvalidate(old(Abs()), node)
    {
      routes := WithoutRoutes(routes, UidsOf(sets, now, node));
      sets := sets - {node};
      cache := WithoutNode(cache, node);
    }

    /** The first half of a lookup: the cached route while it is fresh, otherwise the stored one. */
    method BeginLookup(uid: Uid) returns (r: Option<Node>, hit: bool)
      modifies `answers
      ensures hit == (uid in cache && now < cache[uid].expiry)
      ensures hit ==> r == Some(cache[uid].node) && Abs() == old(Abs())
      ensures !hit ==> r == Owner(routes, now, uid) && Abs() == AfterRead(old(Abs()), uid, now)
    {
      hit := uid in cache && now < cache[uid].expiry;
      if hit {
        return Some(cache[uid].node), true;
      }
      r := Get(uid);
      if r.Some? {
        answers := answers + multiset{Answer(uid, r.value, now)};
      }
    }

    /** The second half, at any later time: what was read is cached as of when the lookup began. */
    method EndLookup(uid: Uid, node: Node, began: int)
      requires Enabled(Abs(), Fill(Answer(uid, node, began)))
      modifies `cache, `answers
      ensures Abs() == AfterFill(old(Abs()), Answer(uid, node, began))
    {
      answers := answers - multiset{Answer(uid, node, began)};
      cache := cache[uid := Route(node, began + CACHE_TTL)];
    }
  }

  /** A lookup right after a release by the owner finds nothing. */
  method LookupAfterRelease(t: Table, uid: Uid, node: Node) returns (r: Option<Node>, hit: bool)
    requires Owner(t.routes, t.now, uid) == Some(node)
    modifies t
    ensures r == None && !hit
  {
    t.Unbind(uid, node);
    r, hit := t.BeginLookup(uid);
  }

  method WithoutRoutes(routes: map<Uid, Route>, uids: set<Uid>) returns (r: map<Uid, Route>)
    ensures r == routes - uids
  {
    r := routes;
    var left := uids;
    while left != {}
      invariant left <= uids && r == routes - (uids - left)
      decreases left
    {
      var u := Pick(left);
      left := left - {u};
      r := r - {u};
    }
  }

  method WithoutNode(cache: map<Uid, Route>, node: Node) returns (r: map<Uid, Route>)
    ensures r == map u | u in cache && cache[u].node != node :: cache[u]
  {
    r := cache;
    var left := cache.Keys;
    while left != {}
      invariant left <= cache.Keys
      invariant forall u :: u in r <==> u in cache && (u in left || cache[u].node != node)
      invariant forall u | u in r :: r[u] == cache[u]
      decreases left
    {
      var u := Pick(left);
      left := left - {u};
      if cache[u].node == node {
        r := r - {u};
      }
    }
  }
}
