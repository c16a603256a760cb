/** The routing engine: bounded depth-first relay over a graph, one node at a time or as a network. */
module Routing {
  import opened Wrappers

  type Node = nat

  /** A node's neighbours, its blocks, its policy, and its clamps on what a sender may ask of it. */
  datatype Config = Config(neighbors: seq<Node>, blocked: set<Node>, order: (seq<Node>, Node) -> seq<Node>,
                           fanout: nat, ttlMax: nat, budgetMax: nat)

  type Net = Node -> Config

  /** The routing fields of an envelope; the payload rides along unread. */
  datatype Envelope = Envelope(dest: Node, ttl: int, budget: int, visited: seq<Node>)

  /** What comes back. A child's `spent` may be anything, or missing. */
  datatype Reply = Reply(delivered: bool, via: Option<seq<Node>>, spent: Option<int>)

  datatype Forward = Forward(next: Node, child: Envelope)

  /** A node's reply and the forwards it made, in order. */
  datatype Outcome = Outcome(reply: Reply, forwards: seq<Forward>)

  type Children = (Node, Envelope) -> Reply

  function Min(a: int, b: int): int { if a < b then a else b }

  /** What a child is charged: its own claim if sane, capped by its allowance, else the whole allowance. */
  function Charge(reported: Option<int>, allowance: int): int {
    if reported.Some? && reported.value >= 0 then Min(reported.value, allowance) else allowance
  }

  function Candidates(cfg: Config, keys: seq<Node>, path: seq<Node>, from: Option<Node>): (r: seq<Node>)
    ensures forall k :: k in r <==> k in keys && Some(k) != from && k !in path && k !in cfg.blocked
    ensures |r| <= |keys|
  {
    if keys == [] then []
    else if Some(keys[0]) != from && keys[0] !in path && keys[0] !in cfg.blocked
    then [keys[0]] + Candidates(cfg, keys[1..], path, from)
    else Candidates(cfg, keys[1..], path, from)
  }

  function Refused(spent: int): Outcome { Outcome(Reply(false, None, Some(spent)), []) }

  /** What is fixed while a node tries its candidates. */
  datatype Attempt = Attempt(dest: Node, ttl: int, budget: int, path: seq<Node>, fanout: nat)

  function Child(a: Attempt, spent: int): Envelope { Envelope(a.dest, a.ttl - 1, a.budget - spent - 1, a.path) }

  function SpentAfter(a: Attempt, spent: int, r: Reply): int {
    spent + 1 + Charge(r.spent, Child(a, spent).budget)
  }

  function Arrived(a: Attempt, next: Node, r: Reply, spent: int): Reply {
    Reply(true, Some(if r.via.Some? then r.via.value else a.path + [next]), Some(spent))
  }

  predicate Stops(a: Attempt, ordered: seq<Node>, spent: int, tried: nat) {
    ordered == [] || tried >= a.fanout || a.budget - spent - 1 < 0
  }

  function TryAll(a: Attempt, ordered: seq<Node>, children: Children, spent: int, tried: nat): Outcome
    decreases |ordered|
  {
    if Stops(a, ordered, spent, tried) then Refused(spent)
    else
      var f := Forward(ordered[0], Child(a, spent));
      var r := children(f.next, f.child);
      if r.delivered then Outcome(Arrived(a, f.next, r, SpentAfter(a, spent, r)), [f])
      else
        var rest := TryAll(a, ordered[1..], children, SpentAfter(a, spent, r), tried + 1);
        Outcome(rest.reply, [f] + rest.forwards)
  }

  function AttemptOf(cfg: Config, self: Node, env: Envelope): Attempt {
    Attempt(env.dest, Min(env.ttl, cfg.ttlMax), Min(env.budget, cfg.budgetMax), env.visited + [self], cfg.fanout)
  }

  function Ordered(cfg: Config, self: Node, env: Envelope, from: Option<Node>): seq<Node> {
    cfg.order(Candidates(cfg, cfg.neighbors, env.visited + [self], from), env.dest)
  }

  /** `relay` at one node, whatever its children answer. */
  function Relay(cfg: Config, self: Node, env: Envelope, from: Option<Node>, children: Children): Outcome {
    var a := AttemptOf(cfg, self, env);
    if env.dest == self then Outcome(Reply(true, Some(a.path), Some(0)), [])
    else if a.ttl <= 0 || a.budget <= 0 then Refused(0)
    else TryAll(a, Ordered(cfg, self, env, from), children, 0, 0)
  }

  /** Honest children: every node runs `relay` on what it is handed. `depth` only has to reach the ttl. */
  function Answer(net: Net, depth: nat, self: Node, next: Node, child: Envelope): Reply
    decreases depth, 0
  {
    if depth == 0 then Reply(false, None, Some(0))
    else Relay(net(next), next, child, Some(self), Honest(net, depth - 1, next)).reply
  }

  function Honest(net: Net, depth: nat, self: Node): Children
    decreases depth, 1
  {
    (next: Node, child: Envelope) => Answer(net, depth, self, next, child)
  }

  /** A search over the network from one node; the depth is the ttl it was asked for. */
  function Search(net: Net, depth: nat, self: Node, env: Envelope, from: Option<Node>): Outcome {
    Relay(net(self), self, env, from, Honest(net, depth, self))
  }

  function Depth(ttl: int): nat { if ttl < 0 then 0 else ttl }

  /** `send`: a local destination is delivered at once; anything else is relayed from here. */
  function Send(net: Net, self: Node, dest: Node, ttl: int, budget: int): Outcome {
    var cfg := net(self);
    if dest == self then Outcome(Reply(true, Some([self]), None), [])
    else Search(net, Depth(ttl), self, Envelope(dest, Min(ttl, cfg.ttlMax), Min(budget, cfg.budgetMax), []), None)
  }

  /** The recursive method itself: a loop over the ordered candidates, each child a call to the next node. */
  method RelayOverNetwork(net: Net, depth: nat, self: Node, env: Envelope, from: Option<Node>) returns (o: Outcome)
    ensures o == Search(net, depth, self, env, from)
    decreases depth
  {
    var cfg := net(self);
    var a := AttemptOf(cfg, self, env);
    if env.dest == self { return Outcome(Reply(true, Some(a.path), Some(0)), []); }
    if a.ttl <= 0 || a.budget <= 0 { return Refused(0); }
    var ordered := Ordered(cfg, self, env, from);
    ghost var children := Honest(net, depth, self);
    var spent, tried := 0, 0;
    var forwards := [];
    while !Stops(a, ordered[tried..], spent, tried)
      invariant 0 <= tried <= |ordered|
      invariant TryAll(a, ordered, children, 0, 0)
             == Prepend(forwards, TryAll(a, ordered[tried..], children, spent, tried))
      decreases |ordered| - tried
    {
      var f := Forward(ordered[tried], Child(a, spent));
      var r := Reply(false, None, Some(0));
      if depth > 0 {
        var sub := RelayOverNetwork(net, depth - 1, f.next, f.child, Some(self));
        r := sub.reply;
      }
      assert r == Answer(net, depth, self, f.next, f.child) == children(f.next, f.child);
      TryNext(a, ordered, tried, children, spent);
      PrependTwice(forwards, f, TryAll(a, ordered[tried + 1..], children, SpentAfter(a, spent, r), tried + 1));
      spent := SpentAfter(a, spent, r);
      tried := tried + 1;
      forwards := forwards + [f];
      if r.delivered { return Outcome(Arrived(a, f.next, r, spent), forwards); }
    }
    assert forwards + [] == forwards;
    o := Outcome(Reply(false, None, Some(spent)), forwards);
  }

  lemma TryNext(a: Attempt, ordered: seq<Node>, i: nat, children: Children, spent: int)
    requires i <= |ordered| && !Stops(a, ordered[i..], spent, i)
    ensures var f := Forward(ordered[i], Child(a, spent));
            var r := children(f.next, f.child);
            var rest := TryAll(a, ordered[i + 1..], children, SpentAfter(a, spent, r), i + 1);
            var arrived := Outcome(Arrived(a, f.next, r, SpentAfter(a, spent, r)), [f]);
            TryAll(a, ordered[i..], children, spent, i) == if r.delivered then arrived else Prepend([f], rest)
  {
    assert ordered[i..][1..] == ordered[i + 1..];
  }

  lemma PrependTwice(fs: seq<Forward>, f: Forward, o: Outcome)
    ensures Prepend(fs, Prepend([f], o)) == Prepend(fs + [f], o)
  {}

  function Prepend(fs: seq<Forward>, o: Outcome): Outcome { Outcome(o.reply, fs + o.forwards) }

  // ----------------------------------------------------------------------- policies

  /** Stable insertion by distance to the destination, closest first. */
  function InsertBy(distance: (Node, Node) -> int, dest: Node, k: Node, ks: seq<Node>): (r: seq<Node>)
    ensures forall x :: x in r ==> x == k || x in ks
  {
    if ks == [] || distance(k, dest) <= distance(ks[0], dest) then [k] + ks
    else [ks[0]] + InsertBy(distance, dest, k, ks[1..])
  }

  function SortBy(distance: (Node, Node) -> int, dest: Node, ks: seq<Node>): seq<Node> {
    if ks == [] then [] else InsertBy(distance, dest, ks[0], SortBy(distance, dest, ks[1..]))
  }

  function GreedyOrder(distance: (Node, Node) -> int): (seq<Node>, Node) -> seq<Node> {
    (ks: seq<Node>, dest: Node) => SortBy(distance, dest, ks)
  }

  function FloodOrder(): (seq<Node>, Node) -> seq<Node> { (ks: seq<Node>, dest: Node) => ks }
}
