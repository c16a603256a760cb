/** Budget arithmetic under any children, and soundness and completeness of an honest search. */
module RoutingProofs {
  import opened Wrappers
  import opened Routing

  // -------------------------------------------------------------- budget, any children

  /** What the first n forwards have been charged. */
  function SpentUpTo(fs: seq<Forward>, children: Children, n: nat): int
    requires n <= |fs|
  {
    if n == 0 then 0
    else
      var f := fs[n - 1];
      SpentUpTo(fs, children, n - 1) + 1 + Charge(children(f.next, f.child).spent, f.child.budget)
  }

  lemma {:induction false} SpentShift(f: Forward, fs: seq<Forward>, children: Children, n: nat)
    requires n <= |fs|
    ensures SpentUpTo([f] + fs, children, n + 1)
         == 1 + Charge(children(f.next, f.child).spent, f.child.budget) + SpentUpTo(fs, children, n)
  {
    if n > 0 {
      SpentShift(f, fs, children, n - 1);
      assert ([f] + fs)[n] == fs[n - 1];
    } else {
      assert SpentUpTo([f] + fs, children, 0) == 0;
    }
  }

  /** One forward of an attempt: within the budget, one step shallower, to a candidate, carrying the path. */
  ghost predicate GoodForward(a: Attempt, ordered: seq<Node>, f: Forward, spentBefore: int) {
    && f.next in ordered
    && f.child.dest == a.dest && f.child.ttl == a.ttl - 1 && f.child.visited == a.path
    && spentBefore + 1 + f.child.budget == a.budget
    && 0 <= f.child.budget
  }

  lemma {:induction false} TryAllSpends(a: Attempt, ordered: seq<Node>, children: Children, spent: int, tried: nat)
    requires 0 <= spent <= a.budget
    ensures var o := TryAll(a, ordered, children, spent, tried);
            && o.reply.spent == Some(spent + SpentUpTo(o.forwards, children, |o.forwards|))
            && spent <= o.reply.spent.value <= a.budget
            && |o.forwards| <= |ordered| && (tried <= a.fanout ==> tried + |o.forwards| <= a.fanout)
    decreases |ordered|
  {
    if !Stops(a, ordered, spent, tried) {
      var f := Forward(ordered[0], Child(a, spent));
      var r := children(f.next, f.child);
      var spent' := SpentAfter(a, spent, r);
      if r.delivered {
        SpentShift(f, [], children, 0);
        assert [f] + [] == [f];
      } else {
        TryAllSpends(a, ordered[1..], children, spent', tried + 1);
        var rest := TryAll(a, ordered[1..], children, spent', tried + 1);
        SpentShift(f, rest.forwards, children, |rest.forwards|);
      }
    }
  }

  lemma {:induction false} TryAllForwards(a: Attempt, ordered: seq<Node>, children: Children, spent: int, tried: nat,
                                          i: nat)
    requires 0 <= spent <= a.budget
    requires i < |TryAll(a, ordered, children, spent, tried).forwards|
    ensures var o := TryAll(a, ordered, children, spent, tried);
            GoodForward(a, ordered, o.forwards[i], spent + SpentUpTo(o.forwards, children, i))
    decreases |ordered|
  {
    var o := TryAll(a, ordered, children, spent, tried);
    var f := Forward(ordered[0], Child(a, spent));
    var r := children(f.next, f.child);
    var spent' := SpentAfter(a, spent, r);
    if i > 0 {
      TryAllForwards(a, ordered[1..], children, spent', tried + 1, i - 1);
      var rest := TryAll(a, ordered[1..], children, spent', tried + 1);
      SpentShift(f, rest.forwards, children, i - 1);
      assert o.forwards[i] == rest.forwards[i - 1];
    }
  }

  predicate NoRepeats(p: seq<Node>) { forall i, j :: 0 <= i < j < |p| ==> p[i] != p[j] }

  /** A policy may reorder what it is given, and nothing else. */
  ghost predicate Permutes(cfg: Config) {
    forall ks: seq<Node>, dest: Node {:trigger cfg.order(ks, dest)} :: multiset(cfg.order(ks, dest)) == multiset(ks)
  }

  lemma OrderedIsCandidates(cfg: Config, self: Node, env: Envelope, from: Option<Node>, k: Node)
    requires Permutes(cfg)
    ensures k in Ordered(cfg, self, env, from) <==>
              k in cfg.neighbors && Some(k) != from && k !in env.visited + [self] && k !in cfg.blocked
    ensures |Ordered(cfg, self, env, from)| <= |cfg.neighbors|
  {
    var c := Candidates(cfg, cfg.neighbors, env.visited + [self], from);
    var r := cfg.order(c, env.dest);
    assert multiset(r) == multiset(c);
    assert k in r <==> k in multiset(r);
    assert k in c <==> k in multiset(c);
    assert |r| == |multiset(r)| == |c|;
  }

  /** However its children lie, a node reports no more than its clamped allowance, and every forward it makes
      fits what is left, goes one step shallower to an unblocked neighbour off the path, and repeats no node. */
  lemma BudgetHolds(cfg: Config, self: Node, env: Envelope, from: Option<Node>, children: Children)
    requires Permutes(cfg)
    ensures var o := Relay(cfg, self, env, from, children);
            var budget := Min(env.budget, cfg.budgetMax);
            && o.reply.spent.Some? && 0 <= o.reply.spent.value
            && (o.reply.spent.value > 0 ==> o.reply.spent.value <= budget)
            && |o.forwards| <= cfg.fanout
            && forall i :: 0 <= i < |o.forwards| ==>
                 var f := o.forwards[i];
                 && SpentUpTo(o.forwards, children, i) + 1 + f.child.budget == budget && 0 <= f.child.budget
                 && f.child.ttl == Min(env.ttl, cfg.ttlMax) - 1 && 0 <= f.child.ttl
                 && f.next in cfg.neighbors && f.next !in cfg.blocked && Some(f.next) != from
                 && f.child.visited == env.visited + [self]
                 && (NoRepeats(env.visited) && self !in env.visited ==>
                     NoRepeats(f.child.visited) && f.next !in f.child.visited)
  {
    var a := AttemptOf(cfg, self, env);
    var ordered := Ordered(cfg, self, env, from);
    if env.dest != self && a.ttl > 0 && a.budget > 0 {
      TryAllSpends(a, ordered, children, 0, 0);
      var o := TryAll(a, ordered, children, 0, 0);
      forall i | 0 <= i < |o.forwards|
        ensures o.forwards[i].next in cfg.neighbors && o.forwards[i].next !in cfg.blocked
        ensures Some(o.forwards[i].next) != from && o.forwards[i].next !in env.visited + [self]
        ensures GoodForward(a, ordered, o.forwards[i], SpentUpTo(o.forwards, children, i))
      {
        TryAllForwards(a, ordered, children, 0, 0, i);
        OrderedIsCandidates(cfg, self, env, from, o.forwards[i].next);
      }
    }
  }

  // ------------------------------------------------------- which forwards, any children

  /** Every candidate before the last was asked in vain, and the last one either delivered or left nothing to go on. */
  ghost predicate TriedInOrder(a: Attempt, ordered: seq<Node>, children: Children, o: Outcome, spent: int, tried: nat) {
    var (fs, n) := (o.forwards, |o.forwards|);
    && n <= |ordered| && (forall i :: 0 <= i < n ==> fs[i].next == ordered[i])
    && (forall i :: 0 <= i < n - 1 ==> !children(fs[i].next, fs[i].child).delivered)
    && (o.reply.delivered <==> n > 0 && children(fs[n - 1].next, fs[n - 1].child).delivered)
    && (!o.reply.delivered ==>
          n == |ordered| || tried + n >= a.fanout || (o.reply.spent.Some? && a.budget - o.reply.spent.value < 1))
    && (o.reply.delivered ==>
          o.reply.via == Some(if children(fs[n - 1].next, fs[n - 1].child).via.Some?
                              then children(fs[n - 1].next, fs[n - 1].child).via.value
                              else a.path + [fs[n - 1].next]))
  }

  lemma {:induction false} TryAllInOrder(a: Attempt, ordered: seq<Node>, children: Children, spent: int, tried: nat)
    ensures TriedInOrder(a, ordered, children, TryAll(a, ordered, children, spent, tried), spent, tried)
    decreases |ordered|
  {
    if !Stops(a, ordered, spent, tried) {
      var f := Forward(ordered[0], Child(a, spent));
      var r := children(f.next, f.child);
      if !r.delivered {
        var rest := TryAll(a, ordered[1..], children, SpentAfter(a, spent, r), tried + 1);
        TryAllInOrder(a, ordered[1..], children, SpentAfter(a, spent, r), tried + 1);
        var fs := [f] + rest.forwards;
        forall i | 0 <= i < |fs| ensures fs[i].next == ordered[i] {
          if i > 0 { assert fs[i] == rest.forwards[i - 1]; }
        }
        forall i | 0 <= i < |fs| - 1 ensures !children(fs[i].next, fs[i].child).delivered {
          if i > 0 { assert fs[i] == rest.forwards[i - 1]; }
        }
        assert |fs| > 1 ==> fs[|fs| - 1] == rest.forwards[|rest.forwards| - 1];
      }
    }
  }

  /** What a child is held to have spent: its own claim if that is one, within its allowance, and all of that
      otherwise. */
  predicate Paid(reported: Option<int>, allowance: int, paid: int) {
    if reported.None? || reported.value < 0 || reported.value > allowance then paid == allowance
    else paid == reported.value
  }

  /** Each child is handed what its elder siblings left, less one for the forward itself. */
  predicate HandedDown(budget: int, fs: seq<Forward>, children: Children, total: int) {
    && (fs == [] ==> total == 0)
    && (fs != [] ==> fs[0].child.budget == budget - 1)
    && forall i :: 0 <= i < |fs| ==> LeftOver(budget, fs, children, total, i)
  }

  /** What the i-th child left: for the next one, or for the report. */
  predicate LeftOver(budget: int, fs: seq<Forward>, children: Children, total: int, i: nat)
    requires i < |fs|
  {
    var (f, left) := (fs[i], if i < |fs| - 1 then fs[i + 1].child.budget + 1 else budget - total);
    Paid(children(f.next, f.child).spent, f.child.budget, f.child.budget - left)
  }

  /** A node that relays asks its candidates in the policy's order, one at a time, until one delivers; short of that it
      stops only when they, its fanout or its budget have run out. What a child is handed and what is reported follow
      from what the children claim. */
  lemma RelayTriesUntil(cfg: Config, self: Node, env: Envelope, from: Option<Node>, children: Children)
    requires env.dest != self && 0 < Min(env.ttl, cfg.ttlMax) && 0 < Min(env.budget, cfg.budgetMax)
    ensures var o := Relay(cfg, self, env, from, children);
            var (ttl, budget, path) := (Min(env.ttl, cfg.ttlMax), Min(env.budget, cfg.budgetMax), env.visited + [self]);
            var ordered := Ordered(cfg, self, env, from);
            && TriedInOrder(Attempt(env.dest, ttl, budget, path, cfg.fanout), ordered, children, o, 0, 0)
            && o.reply.spent.Some? && HandedDown(budget, o.forwards, children, o.reply.spent.value)
            && (!o.reply.delivered ==> |o.forwards| == Min(cfg.fanout, |ordered|) || budget - o.reply.spent.value < 1)
            && forall f :: f in o.forwards ==> f.child.dest == env.dest
  {
    var (a, ordered) := (AttemptOf(cfg, self, env), Ordered(cfg, self, env, from));
    AttemptTriesUntil(a, ordered, children);
  }

  lemma AttemptTriesUntil(a: Attempt, ordered: seq<Node>, children: Children)
    requires 0 < a.budget
    ensures var o := TryAll(a, ordered, children, 0, 0);
            && TriedInOrder(a, ordered, children, o, 0, 0)
            && o.reply.spent.Some? && HandedDown(a.budget, o.forwards, children, o.reply.spent.value)
            && (!o.reply.delivered ==> |o.forwards| == Min(a.fanout, |ordered|) || a.budget - o.reply.spent.value < 1)
            && forall f :: f in o.forwards ==> f.child.dest == a.dest
  {
    TryAllInOrder(a, ordered, children, 0, 0);
    TryAllSpends(a, ordered, children, 0, 0);
    ForwardsFit(a, ordered, children);
    ChildrenAreHandedDown(a, TryAll(a, ordered, children, 0, 0).forwards, children);
  }

  /** The i-th forward is for the attempt's destination, and carries what those before it have left. */
  predicate Fits(a: Attempt, fs: seq<Forward>, children: Children, i: nat)
    requires i < |fs|
  {
    && fs[i].child.dest == a.dest && 0 <= fs[i].child.budget
    && SpentUpTo(fs, children, i) + 1 + fs[i].child.budget == a.budget
  }

  lemma ForwardsFit(a: Attempt, ordered: seq<Node>, children: Children)
    requires 0 < a.budget
    ensures var fs := TryAll(a, ordered, children, 0, 0).forwards;
            forall i :: 0 <= i < |fs| ==> Fits(a, fs, children, i)
  {
    var fs := TryAll(a, ordered, children, 0, 0).forwards;
    forall i | 0 <= i < |fs| ensures Fits(a, fs, children, i) { TryAllForwards(a, ordered, children, 0, 0, i); }
  }

  lemma ChildrenAreHandedDown(a: Attempt, fs: seq<Forward>, children: Children)
    requires forall i :: 0 <= i < |fs| ==> Fits(a, fs, children, i)
    ensures HandedDown(a.budget, fs, children, SpentUpTo(fs, children, |fs|))
    ensures forall f :: f in fs ==> f.child.dest == a.dest
  {
    forall i | 0 <= i < |fs| ensures LeftOver(a.budget, fs, children, SpentUpTo(fs, children, |fs|), i) {
      ChildIsHandedDown(a, fs, children, i);
    }
    forall f | f in fs ensures f.child.dest == a.dest {
      var i :| 0 <= i < |fs| && fs[i] == f;
      assert Fits(a, fs, children, i);
    }
    assert fs != [] ==> Fits(a, fs, children, 0);
  }

  lemma ChildIsHandedDown(a: Attempt, fs: seq<Forward>, children: Children, i: nat)
    requires i < |fs| && Fits(a, fs, children, i) && (i + 1 < |fs| ==> Fits(a, fs, children, i + 1))
    ensures LeftOver(a.budget, fs, children, SpentUpTo(fs, children, |fs|), i)
  {
    assert SpentUpTo(fs, children, i + 1)
        == SpentUpTo(fs, children, i) + 1 + Charge(children(fs[i].next, fs[i].child).spent, fs[i].child.budget);
  }

  /** A message for this node is delivered here; one out of hops or of budget goes nowhere. Neither is forwarded. */
  lemma RelayStopsHere(cfg: Config, self: Node, env: Envelope, from: Option<Node>, children: Children)
    requires env.dest == self || Min(env.ttl, cfg.ttlMax) <= 0 || Min(env.budget, cfg.budgetMax) <= 0
    ensures var o := Relay(cfg, self, env, from, children);
            && o.forwards == [] && o.reply.spent == Some(0)
            && (o.reply.delivered <==> env.dest == self)
            && (env.dest == self ==> o.reply.via == Some(env.visited + [self]))
  {
  }

  /** A message to oneself never leaves. */
  lemma SendToSelf(net: Net, self: Node, ttl: int, budget: int)
    ensures Send(net, self, self, ttl, budget) == Outcome(Reply(true, Some([self]), None), [])
  {
  }

  /** The policy is handed the neighbours in their own order, without the sender, the path and the blocked. */
  lemma {:induction false} CandidatesKeepOrder(cfg: Config, a: seq<Node>, b: seq<Node>, path: seq<Node>,
                                               from: Option<Node>)
    ensures Candidates(cfg, a + b, path, from) == Candidates(cfg, a, path, from) + Candidates(cfg, b, path, from)
    ensures |a| == 1 ==>
              Candidates(cfg, a, path, from)
              == if Some(a[0]) != from && a[0] !in path && a[0] !in cfg.blocked then a else []
  {
    if a == [] {
      assert a + b == b;
    } else {
      assert (a + b)[0] == a[0] && (a + b)[1..] == a[1..] + b;
      CandidatesKeepOrder(cfg, a[1..], b, path, from);
      var (rest, others) := (Candidates(cfg, a[1..], path, from), Candidates(cfg, b, path, from));
      assert [a[0]] + (rest + others) == ([a[0]] + rest) + others;
      assert |a| == 1 ==> rest == [] && [a[0]] + rest == a;
    }
  }

  // ------------------------------------------------------------------ honest accounting

  /** All forwards made anywhere in the search. */
  function TotalForwards(net: Net, depth: nat, self: Node, env: Envelope, from: Option<Node>): nat
    decreases depth, 1, 0
  {
    SumForwards(net, depth, self, Search(net, depth, self, env, from).forwards)
  }

  function SumForwards(net: Net, depth: nat, self: Node, fs: seq<Forward>): nat
    decreases depth, 0, |fs|
  {
    if fs == [] then 0
    else
      1 + (if depth == 0 then 0 else TotalForwards(net, depth - 1, fs[0].next, fs[0].child, Some(self)))
        + SumForwards(net, depth, self, fs[1..])
  }

  lemma SearchSpent(net: Net, depth: nat, self: Node, env: Envelope, from: Option<Node>)
    ensures var s := Search(net, depth, self, env, from).reply.spent;
            s.Some? && 0 <= s.value && (s.value > 0 ==> s.value <= env.budget)
  {
    var a := AttemptOf(net(self), self, env);
    if env.dest != self && a.ttl > 0 && a.budget > 0 {
      TryAllSpends(a, Ordered(net(self), self, env, from), Honest(net, depth, self), 0, 0);
    }
  }

  /** What one forward costs in an honest search: itself and everything made below it. */
  function CostOf(net: Net, depth: nat, self: Node, f: Forward): nat
    decreases depth, 2
  {
    1 + (if depth == 0 then 0 else TotalForwards(net, depth - 1, f.next, f.child, Some(self)))
  }

  /** An honest child's report is never capped: it is charged what its search cost. */
  lemma {:induction false} HonestCharge(net: Net, depth: nat, self: Node, f: Forward)
    requires 0 <= f.child.budget
    ensures 1 + Charge(Answer(net, depth, self, f.next, f.child).spent, f.child.budget) == CostOf(net, depth, self, f)
    decreases depth, 0, 0
  {
    if depth > 0 {
      SearchSpent(net, depth - 1, f.next, f.child, Some(self));
      SpentIsTotalForwards(net, depth - 1, f.next, f.child, Some(self));
      assert Answer(net, depth, self, f.next, f.child) == Search(net, depth - 1, f.next, f.child, Some(self)).reply;
    }
  }

  lemma {:induction false} TryAllAccounts(net: Net, depth: nat, self: Node, a: Attempt, ordered: seq<Node>,
                                          spent: int, tried: nat)
    requires 0 <= spent <= a.budget
    ensures var o := TryAll(a, ordered, Honest(net, depth, self), spent, tried);
            o.reply.spent == Some(spent + SumForwards(net, depth, self, o.forwards))
    decreases depth, 1, |ordered|
  {
    if !Stops(a, ordered, spent, tried) {
      var f := Forward(ordered[0], Child(a, spent));
      var r := Answer(net, depth, self, f.next, f.child);
      assert Honest(net, depth, self)(f.next, f.child) == r;
      HonestCharge(net, depth, self, f);
      var spent' := spent + CostOf(net, depth, self, f);
      assert SpentAfter(a, spent, r) == spent';
      if r.delivered {
        SumOfOne(net, depth, self, f, []);
        assert [f] + [] == [f];
      } else {
        var rest := TryAll(a, ordered[1..], Honest(net, depth, self), spent', tried + 1);
        TryAllAccounts(net, depth, self, a, ordered[1..], spent', tried + 1);
        SumOfOne(net, depth, self, f, rest.forwards);
        assert TryAll(a, ordered, Honest(net, depth, self), spent, tried) == Outcome(rest.reply, [f] + rest.forwards);
      }
    }
  }

  lemma SumOfOne(net: Net, depth: nat, self: Node, f: Forward, fs: seq<Forward>)
    ensures SumForwards(net, depth, self, [f] + fs)
         == CostOf(net, depth, self, f) + SumForwards(net, depth, self, fs)
  {
    assert ([f] + fs)[1..] == fs;
  }

  /** In an honest, loss-free search the reported cost is exactly the number of forwards made anywhere in it. */
  lemma {:induction false} SpentIsTotalForwards(net: Net, depth: nat, self: Node, env: Envelope, from: Option<Node>)
    ensures Search(net, depth, self, env, from).reply.spent == Some(TotalForwards(net, depth, self, env, from))
    decreases depth, 2, 0
  {
    var a := AttemptOf(net(self), self, env);
    if env.dest != self && a.ttl > 0 && a.budget > 0 {
      TryAllAccounts(net, depth, self, a, Ordered(net(self), self, env, from), 0, 0);
    }
  }

  // ------------------------------------------------------------------- one delivery

  /** How many times the consumer is called in a search. */
  function Deliveries(net: Net, depth: nat, self: Node, env: Envelope, from: Option<Node>): nat
    decreases depth, 1, 0
  {
    if env.dest == self then 1
    else SumDeliveries(net, depth, self, Search(net, depth, self, env, from).forwards)
  }

  function SumDeliveries(net: Net, depth: nat, self: Node, fs: seq<Forward>): nat
    decreases depth, 0, |fs|
  {
    if fs == [] then 0
    else (if depth == 0 then 0 else Deliveries(net, depth - 1, fs[0].next, fs[0].child, Some(self)))
         + SumDeliveries(net, depth, self, fs[1..])
  }

  lemma {:induction false} TryAllDelivers(net: Net, depth: nat, self: Node, a: Attempt, ordered: seq<Node>,
                                          spent: int, tried: nat)
    ensures var o := TryAll(a, ordered, Honest(net, depth, self), spent, tried);
            SumDeliveries(net, depth, self, o.forwards) == if o.reply.delivered then 1 else 0
    decreases depth, 0, |ordered|
  {
    if !Stops(a, ordered, spent, tried) {
      var f := Forward(ordered[0], Child(a, spent));
      var r := Answer(net, depth, self, f.next, f.child);
      assert Honest(net, depth, self)(f.next, f.child) == r;
      if depth > 0 {
        DeliveredOnce(net, depth - 1, f.next, f.child, Some(self));
        assert r == Search(net, depth - 1, f.next, f.child, Some(self)).reply;
      }
      var spent' := SpentAfter(a, spent, r);
      if r.delivered {
        DeliveriesOfOne(net, depth, self, f, []);
        assert [f] + [] == [f];
      } else {
        TryAllDelivers(net, depth, self, a, ordered[1..], spent', tried + 1);
        DeliveriesOfOne(net, depth, self, f,
                        TryAll(a, ordered[1..], Honest(net, depth, self), spent', tried + 1).forwards);
      }
    }
  }

  lemma DeliveriesOfOne(net: Net, depth: nat, self: Node, f: Forward, fs: seq<Forward>)
    ensures SumDeliveries(net, depth, self, [f] + fs)
         == (if depth == 0 then 0 else Deliveries(net, depth - 1, f.next, f.child, Some(self)))
              + SumDeliveries(net, depth, self, fs)
  {
    assert ([f] + fs)[1..] == fs;
  }

  /** A loss-free search calls the consumer once if it reports delivery, and never otherwise. */
  lemma {:induction false} DeliveredOnce(net: Net, depth: nat, self: Node, env: Envelope, from: Option<Node>)
    ensures Deliveries(net, depth, self, env, from)
         == if Search(net, depth, self, env, from).reply.delivered then 1 else 0
    decreases depth, 1, 0
  {
    var a := AttemptOf(net(self), self, env);
    if env.dest != self && a.ttl > 0 && a.budget > 0 {
      TryAllDelivers(net, depth, self, a, Ordered(net(self), self, env, from), 0, 0);
    }
  }
}
