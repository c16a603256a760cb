/** An honest search delivers along simple paths only, and finds one whenever its limits allow. */
module RoutingReach {
  import opened Wrappers
  import opened Routing
  import opened RoutingProofs

  // ------------------------------------------------------------------------- paths

  ghost predicate Edge(net: Net, a: Node, b: Node) { b in net(a).neighbors && b !in net(a).blocked }

  /** A path of at most `ttl` hops along unblocked neighbours. */
  ghost predicate Route(net: Net, a: Node, dest: Node, p: seq<Node>, ttl: int) {
    && p != [] && p[0] == a && p[|p| - 1] == dest
    && |p| - 1 <= Depth(ttl)
    && forall i :: 0 <= i < |p| - 1 ==> Edge(net, p[i], p[i + 1])
  }

  ghost predicate AllPermute(net: Net) { forall k: Node {:trigger net(k)} :: Permutes(net(k)) }

  lemma RouteFrom(net: Net, a: Node, b: Node, dest: Node, q: seq<Node>, ttl: int)
    requires Edge(net, a, b) && Route(net, b, dest, q, ttl - 1) && ttl > 0
    ensures Route(net, a, dest, [a] + q, ttl)
  {
    var p := [a] + q;
    forall i | 0 <= i < |p| - 1 ensures Edge(net, p[i], p[i + 1]) {
      if i > 0 { assert Edge(net, q[i - 1], q[i]); }
    }
  }

  lemma Regroup(visited: seq<Node>, self: Node, q: seq<Node>)
    ensures visited + ([self] + q) == (visited + [self]) + q
  {}

  lemma AppendFresh(p: seq<Node>, k: Node)
    requires NoRepeats(p) && k !in p
    ensures NoRepeats(p + [k])
  {}

  // --------------------------------------------------------------------- soundness

  /** A delivered attempt was delivered by one of its candidates. */
  lemma {:induction false} Winner(net: Net, depth: nat, self: Node, a: Attempt, ordered: seq<Node>, spent: int,
                                  tried: nat)
    returns (f: Forward)
    requires TryAll(a, ordered, Honest(net, depth, self), spent, tried).reply.delivered
    ensures f.next in ordered
    ensures f.child.dest == a.dest && f.child.ttl == a.ttl - 1 && f.child.visited == a.path
    ensures var r := Answer(net, depth, self, f.next, f.child);
            && r.delivered
            && (r.via.Some? ==> TryAll(a, ordered, Honest(net, depth, self), spent, tried).reply.via == r.via)
    decreases |ordered|
  {
    f := Forward(ordered[0], Child(a, spent));
    var r := Answer(net, depth, self, f.next, f.child);
    assert Honest(net, depth, self)(f.next, f.child) == r;
    if !r.delivered {
      f := Winner(net, depth, self, a, ordered[1..], SpentAfter(a, spent, r), tried + 1);
    }
  }

  /** Whatever the limits, a reported route is the path so far followed by a real route to the destination. */
  lemma {:induction false} SearchIsSound(net: Net, depth: nat, self: Node, env: Envelope, from: Option<Node>)
    returns (p: seq<Node>)
    requires AllPermute(net) && Search(net, depth, self, env, from).reply.delivered
    ensures Search(net, depth, self, env, from).reply.via == Some(env.visited + p)
    ensures Route(net, self, env.dest, p, Min(env.ttl, net(self).ttlMax))
    ensures NoRepeats(env.visited + [self]) ==> NoRepeats(env.visited + p)
    decreases depth
  {
    if env.dest == self {
      p := [self];
    } else {
      var a := AttemptOf(net(self), self, env);
      var f := Winner(net, depth, self, a, Ordered(net(self), self, env, from), 0, 0);
      OrderedIsCandidates(net(self), self, env, from, f.next);
      var q := SearchIsSound(net, depth - 1, f.next, f.child, Some(self));
      assert Route(net, f.next, env.dest, q, a.ttl - 1);
      RouteFrom(net, self, f.next, env.dest, q, a.ttl);
      p := [self] + q;
      Regroup(env.visited, self, q);
      if NoRepeats(env.visited + [self]) { AppendFresh(f.child.visited, f.next); }
    }
  }

  // -------------------------------------------------------------------- completeness

  /** Forwards an exhaustive search of simple paths up to `n` hops makes below a node. */
  function Cost(net: Net, n: nat, self: Node, visited: seq<Node>, dest: Node, from: Option<Node>): nat
    decreases n, 1, 0
  {
    if self == dest || n == 0 then 0
    else CostAll(net, n, self, visited + [self], dest, Ordered(net(self), self, Envelope(dest, n, 0, visited), from))
  }

  function CostAll(net: Net, n: nat, self: Node, path: seq<Node>, dest: Node, ks: seq<Node>): nat
    requires n > 0
    decreases n, 0, |ks|
  {
    if ks == [] then 0
    else 1 + Cost(net, n - 1, ks[0], path, dest, Some(self)) + CostAll(net, n, self, path, dest, ks[1..])
  }

  /** No node's clamps bind a search of this depth and budget. */
  ghost predicate Roomy(net: Net, ttl: nat, budget: int) {
    forall k: Node {:trigger net(k)} ::
      Permutes(net(k)) && ttl <= net(k).ttlMax && budget <= net(k).budgetMax && |net(k).neighbors| <= net(k).fanout
  }

  lemma {:induction false} TryAllWithinCost(net: Net, depth: nat, n: nat, b: int, self: Node, a: Attempt, ks: seq<Node>,
                                            spent: int, tried: nat)
    requires Roomy(net, n, b) && 0 < n <= depth && a.ttl == n && a.budget <= b && 0 <= spent <= a.budget
    ensures var s := TryAll(a, ks, Honest(net, depth, self), spent, tried).reply.spent;
            s.Some? && s.value <= spent + CostAll(net, n, self, a.path, a.dest, ks)
    decreases n, 0, |ks|
  {
    if !Stops(a, ks, spent, tried) {
      var f := Forward(ks[0], Child(a, spent));
      var r := Answer(net, depth, self, f.next, f.child);
      assert Honest(net, depth, self)(f.next, f.child) == r;
      AnswerWithinCost(net, depth, n, b, self, f);
      var spent' := SpentAfter(a, spent, r);
      if !r.delivered { TryAllWithinCost(net, depth, n, b, self, a, ks[1..], spent', tried + 1); }
    }
  }

  /** An honest child is charged no more than its exhaustive search would cost. */
  lemma {:induction false} AnswerWithinCost(net: Net, depth: nat, n: nat, b: int, self: Node, f: Forward)
    requires Roomy(net, n, b) && 0 < n <= depth && f.child.ttl == n - 1 && 0 <= f.child.budget <= b
    ensures 0 <= Charge(Answer(net, depth, self, f.next, f.child).spent, f.child.budget)
              <= Cost(net, n - 1, f.next, f.child.visited, f.child.dest, Some(self))
    decreases n, 0, 0
  {
    SearchSpent(net, depth - 1, f.next, f.child, Some(self));
    SearchWithinCost(net, depth - 1, n - 1, b, f.next, f.child, Some(self));
    assert Answer(net, depth, self, f.next, f.child) == Search(net, depth - 1, f.next, f.child, Some(self)).reply;
  }

  lemma {:induction false} SearchWithinCost(net: Net, depth: nat, n: nat, b: int, self: Node, env: Envelope,
                                            from: Option<Node>)
    requires Roomy(net, n, b) && n <= depth && env.ttl == n && env.budget <= b
    ensures var s := Search(net, depth, self, env, from).reply.spent;
            s.Some? && s.value <= Cost(net, n, self, env.visited, env.dest, from)
    decreases n, 1, 0
  {
    var a := AttemptOf(net(self), self, env);
    if env.dest != self && a.ttl > 0 && a.budget > 0 {
      TryAllWithinCost(net, depth, n, b, self, a, Ordered(net(self), self, env, from), 0, 0);
    }
  }

  lemma {:induction false} TryAllFinds(net: Net, depth: nat, n: nat, b: int, self: Node, a: Attempt, ks: seq<Node>,
                                       spent: int, tried: nat, q: seq<Node>)
    requires Roomy(net, n, b) && 0 < n <= depth && a.ttl == n && a.budget <= b && 0 <= spent
    requires spent + CostAll(net, n, self, a.path, a.dest, ks) <= a.budget
    requires tried + |ks| <= a.fanout && a.path != [] && a.path[|a.path| - 1] == self
    requires q != [] && q[0] in ks && Route(net, q[0], a.dest, q, n - 1) && NoRepeats(a.path + q)
    ensures TryAll(a, ks, Honest(net, depth, self), spent, tried).reply.delivered
    decreases n, 0, |ks|
  {
    var f := Forward(ks[0], Child(a, spent));
    var r := Answer(net, depth, self, f.next, f.child);
    assert Honest(net, depth, self)(f.next, f.child) == r;
    AnswerWithinCost(net, depth, n, b, self, f);
    if ks[0] == q[0] {
      SearchFinds(net, depth - 1, n - 1, b, f.next, f.child, Some(self), q);
      assert r == Search(net, depth - 1, f.next, f.child, Some(self)).reply;
    } else if !r.delivered {
      TryAllFinds(net, depth, n, b, self, a, ks[1..], SpentAfter(a, spent, r), tried + 1, q);
    }
  }

  /** With room, and budget for the exhaustive search, every simple route within the ttl is enough to deliver. */
  lemma {:induction false} SearchFinds(net: Net, depth: nat, n: nat, b: int, self: Node, env: Envelope,
                                       from: Option<Node>, p: seq<Node>)
    requires Roomy(net, n, b) && n <= depth && env.ttl == n && env.budget <= b
    requires Cost(net, n, self, env.visited, env.dest, from) <= env.budget
    requires from.Some? ==> from.value in env.visited
    requires Route(net, self, env.dest, p, n) && NoRepeats(env.visited + p)
    ensures Search(net, depth, self, env, from).reply.delivered
    decreases n, 1, 0
  {
    if env.dest != self {
      var cfg := net(self);
      var a := AttemptOf(cfg, self, env);
      var q := p[1..];
      var ks := Ordered(cfg, self, env, from);
      NextIsCandidate(net, self, env, from, p);
      assert a.path + q == env.visited + p;
      assert Route(net, q[0], env.dest, q, n - 1) by {
        forall i | 0 <= i < |q| - 1 ensures Edge(net, q[i], q[i + 1]) { assert Edge(net, p[i + 1], p[i + 2]); }
      }
      TryAllFinds(net, depth, n, b, self, a, ks, 0, 0, q);
    }
  }

  lemma NextIsCandidate(net: Net, self: Node, env: Envelope, from: Option<Node>, p: seq<Node>)
    requires Permutes(net(self)) && |p| > 1 && p[0] == self && Edge(net, p[0], p[1])
    requires NoRepeats(env.visited + p) && (from.Some? ==> from.value in env.visited)
    ensures p[1] in Ordered(net(self), self, env, from)
    ensures |Ordered(net(self), self, env, from)| <= |net(self).neighbors|
  {
    var all := env.visited + p;
    assert all[|env.visited|] == p[0] && all[|env.visited| + 1] == p[1];
    forall i | 0 <= i < |env.visited| ensures env.visited[i] != p[1] { assert all[i] == env.visited[i]; }
    OrderedIsCandidates(net(self), self, env, from, p[1]);
  }

  // -------------------------------------------------------------------------- send

  ghost predicate SimpleRoute(net: Net, a: Node, dest: Node, p: seq<Node>, ttl: int) {
    Route(net, a, dest, p, ttl) && NoRepeats(p)
  }

  /** Whatever ttl, budget and clamps, a delivered send reports a simple route within the ttl. */
  lemma SendIsSound(net: Net, self: Node, dest: Node, ttl: int, budget: int)
    requires AllPermute(net) && Send(net, self, dest, ttl, budget).reply.delivered
    ensures var via := Send(net, self, dest, ttl, budget).reply.via;
            via.Some? && SimpleRoute(net, self, dest, via.value, ttl)
  {
    if dest != self {
      var cfg := net(self);
      var env := Envelope(dest, Min(ttl, cfg.ttlMax), Min(budget, cfg.budgetMax), []);
      var p := SearchIsSound(net, Depth(ttl), self, env, None);
      assert env.visited + p == p && env.visited + [self] == [self];
      assert SimpleRoute(net, self, dest, p, ttl);
    }
  }

  /** When no clamp binds and the budget covers the exhaustive search, a send delivers exactly when some simple
      path of unblocked neighbours reaches the destination within the ttl, and then exactly once. */
  lemma SendDeliversIff(net: Net, self: Node, dest: Node, ttl: nat, budget: nat)
    requires Roomy(net, ttl, budget)
    requires Cost(net, ttl, self, [], dest, None) <= budget
    ensures Send(net, self, dest, ttl, budget).reply.delivered <==> exists p :: SimpleRoute(net, self, dest, p, ttl)
    ensures dest != self ==>
              Deliveries(net, ttl, self, Envelope(dest, ttl, budget, []), None)
              == if exists p :: SimpleRoute(net, self, dest, p, ttl) then 1 else 0
  {
    if Send(net, self, dest, ttl, budget).reply.delivered {
      SendIsSound(net, self, dest, ttl, budget);
    }
    if dest == self {
      assert SimpleRoute(net, self, dest, [self], ttl);
    } else {
      var env := Envelope(dest, ttl, budget, []);
      DeliveredOnce(net, ttl, self, env, None);
      if p :| SimpleRoute(net, self, dest, p, ttl) {
        assert [] + p == p;
        SearchFinds(net, ttl, ttl, budget, self, env, None, p);
      }
    }
  }

  // ---------------------------------------------------------------------- policies

  ghost predicate Closest(distance: (Node, Node) -> int, dest: Node, ks: seq<Node>) {
    forall i, j :: 0 <= i < j < |ks| ==> distance(ks[i], dest) <= distance(ks[j], dest)
  }

  lemma {:induction false} InsertByPermutes(distance: (Node, Node) -> int, dest: Node, k: Node, ks: seq<Node>)
    ensures multiset(InsertBy(distance, dest, k, ks)) == multiset{k} + multiset(ks)
  {
    if !(ks == [] || distance(k, dest) <= distance(ks[0], dest)) {
      InsertByPermutes(distance, dest, k, ks[1..]);
      assert ks == [ks[0]] + ks[1..];
    }
  }

  lemma {:induction false} InsertByCloses(distance: (Node, Node) -> int, dest: Node, k: Node, ks: seq<Node>)
    requires Closest(distance, dest, ks)
    ensures Closest(distance, dest, InsertBy(distance, dest, k, ks))
  {
    if !(ks == [] || distance(k, dest) <= distance(ks[0], dest)) {
      InsertByCloses(distance, dest, k, ks[1..]);
      var tail := InsertBy(distance, dest, k, ks[1..]);
      forall i | 0 <= i < |tail| ensures distance(ks[0], dest) <= distance(tail[i], dest) {
        assert tail[i] in tail;
      }
    }
  }

  lemma {:induction false} SortByFacts(distance: (Node, Node) -> int, dest: Node, ks: seq<Node>)
    ensures multiset(SortBy(distance, dest, ks)) == multiset(ks)
    ensures Closest(distance, dest, SortBy(distance, dest, ks))
  {
    if ks != [] {
      SortByFacts(distance, dest, ks[1..]);
      InsertByPermutes(distance, dest, ks[0], SortBy(distance, dest, ks[1..]));
      InsertByCloses(distance, dest, ks[0], SortBy(distance, dest, ks[1..]));
      assert ks == [ks[0]] + ks[1..];
    }
  }

  /** The greedy policy only reorders, closest to the destination first. */
  lemma GreedyIsPermutation(distance: (Node, Node) -> int, dest: Node, ks: seq<Node>)
    ensures multiset(GreedyOrder(distance)(ks, dest)) == multiset(ks)
    ensures Closest(distance, dest, GreedyOrder(distance)(ks, dest))
  {
    SortByFacts(distance, dest, ks);
    assert GreedyOrder(distance)(ks, dest) == SortBy(distance, dest, ks);
  }

  /** Both shipped policies meet the assumption the search theorems make. */
  lemma ShippedPoliciesPermute(cfg: Config, distance: (Node, Node) -> int)
    ensures Permutes(cfg.(order := GreedyOrder(distance))) && Permutes(cfg.(order := FloodOrder()))
  {
    forall ks: seq<Node>, dest: Node ensures multiset(GreedyOrder(distance)(ks, dest)) == multiset(ks) {
      GreedyIsPermutation(distance, dest, ks);
    }
  }
}
