/** One peer's record under any number of writers: when a retired identity can come back. */
module PeerRaces {
  import opened Wrappers
  import opened Keys
  import opened Peers
  import opened PeerMerge

  /** One record on disk, and the writers that have read it, each with its baseline and its own view. */
  datatype Race = Race(disk: Peer, writers: map<nat, (Peer, Peer)>)

  datatype Move = Open(w: nat) | Edit(w: nat, next: Peer) | Persist(w: nat)

  /** An edit is a commit: one revision up. */
  predicate Legal(r: Race, m: Move) {
    match m
    case Open(w) => w !in r.writers
    case Edit(w, next) => w in r.writers && Descends(next, r.writers[w].1) && next.rev == r.writers[w].1.rev + 1
    case Persist(w) => w in r.writers
  }

  function Moved(ports: Ports, r: Race, m: Move): Race
    requires Legal(r, m)
  {
    match m
    case Open(w) => r.(writers := r.writers[w := (r.disk, r.disk)])
    case Edit(w, next) => r.(writers := r.writers[w := (r.writers[w].0, next)])
    case Persist(w) =>
      r.(disk := MergeRecord(ports, r.disk, r.writers[w].1, Some(r.writers[w].0)))
  }

  ghost predicate Plays(ports: Ports, races: seq<Race>, moves: seq<Move>) {
    && |races| == |moves| + 1
    && forall i :: 0 <= i < |moves| ==> Follows(ports, races[i], moves[i], races[i + 1])
  }

  ghost predicate Follows(ports: Ports, r: Race, m: Move, next: Race) { Legal(r, m) && next == Moved(ports, r, m) }

  /** A commit that leaves the identity alone. */
  predicate Edited(next: Peer, p: Peer) {
    Descends(next, p) && next.rev == p.rev + 1 && next.publicKey == p.publicKey
  }

  /** A commit that retires it. */
  predicate Rekeyed(next: Peer, p: Peer) { Descends(next, p) && next.rev == p.rev + 1 && Rotated(next, p) }

  /** Bumping the revision on every commit is not enough to make disk descend from what a writer read. Two
      writers that each commit once from revision n, the second retiring the key, leave a merge of revision
      n+1; a third writer that read the first one's n+1 takes it for unchanged, and any edit of its own
      brings the retired key back. */
  lemma ThreeWritersRestoreARetiredKey(ports: Ports, p: Peer, first: Peer, second: Peer, third: Peer)
    returns (races: seq<Race>, moves: seq<Move>)
    requires Parses(p.publicKey) && Edited(first, p) && Rekeyed(second, p) && Edited(third, first)
    ensures Plays(ports, races, moves) && races[0] == Race(p, map[0 := (p, p), 1 := (p, p)])
    ensures moves == [Edit(0, first), Persist(0), Open(2), Edit(1, second), Persist(1), Edit(2, third), Persist(2)]
    ensures races[5].disk.publicKey == second.publicKey
    ensures races[7].disk.publicKey == p.publicKey
  {
    var views := map[0 := (p, p), 1 := (p, p)];
    races, moves := [Race(p, views)], [];
    races, moves := OneMore(ports, races, moves, Edit(0, first));
    races, moves := OneMore(ports, races, moves, Persist(0));
    assert races[2].disk == first;
    races, moves := OneMore(ports, races, moves, Open(2));
    races, moves := OneMore(ports, races, moves, Edit(1, second));
    races, moves := OneMore(ports, races, moves, Persist(1));
    SecondRotationLands(ports, p, first, second);
    races, moves := OneMore(ports, races, moves, Edit(2, third));
    races, moves := OneMore(ports, races, moves, Persist(2));
  }

  /** The second writer's rotation lands on the first one's edit, at the same revision. */
  lemma SecondRotationLands(ports: Ports, p: Peer, first: Peer, second: Peer)
    requires Parses(p.publicKey) && Edited(first, p) && Rekeyed(second, p)
    ensures var merged := MergeRecord(ports, first, second, Some(p));
            merged.rev == first.rev && merged.publicKey == second.publicKey
  {
    assert MergeSecurityUnit(first, second, p).mineIdentity;
  }

  lemma OneMore(ports: Ports, races: seq<Race>, moves: seq<Move>, m: Move)
    returns (races': seq<Race>, moves': seq<Move>)
    requires Plays(ports, races, moves) && Legal(races[|moves|], m)
    ensures races' == races + [Moved(ports, races[|moves|], m)] && moves' == moves + [m] && Plays(ports, races', moves')
  {
    var next := Moved(ports, races[|moves|], m);
    races', moves' := races + [next], moves + [m];
    assert Follows(ports, races[|moves|], m, next);
    forall i | 0 <= i < |moves'| ensures Follows(ports, races'[i], moves'[i], races'[i + 1]) {
      if i < |moves| { assert Follows(ports, races[i], moves[i], races[i + 1]); }
    }
  }

  // ------------------------------------------------------------- over any interleaving

  type Ident = Option<(Kind, KeyId)>

  /** The identity a record holds, however its key is wrapped. */
  function IdentOf(p: Peer): Ident {
    if Parses(p.publicKey) then Some((p.publicKey.value.kind, p.publicKey.value.id)) else None
  }

  /** Every record in play holds a key that parses. */
  ghost predicate AllParse(r: Race) {
    && Parses(r.disk.publicKey)
    && forall w :: w in r.writers ==> Parses(r.writers[w].0.publicKey) && Parses(r.writers[w].1.publicKey)
  }

  /** A rotation is to a key nobody has held: not disk, now or before, and no writer. */
  ghost predicate Fresh(races: seq<Race>, n: nat, id: Ident)
    requires n < |races|
  {
    && (forall a :: 0 <= a <= n ==> IdentOf(races[a].disk) != id)
    && forall w ::
         w in races[n].writers ==> IdentOf(races[n].writers[w].0) != id && IdentOf(races[n].writers[w].1) != id
  }

  ghost predicate RotatesFresh(races: seq<Race>, n: nat, m: Move)
    requires n < |races|
  {
    m.Edit? && m.w in races[n].writers && IdentOf(m.next) != IdentOf(races[n].writers[m.w].1) ==>
      Fresh(races, n, IdentOf(m.next))
  }

  ghost predicate Clean(ports: Ports, races: seq<Race>, moves: seq<Move>) {
    && Plays(ports, races, moves)
    && races[0].writers == map[]
    && (forall n :: 0 <= n < |races| ==> AllParse(races[n]))
    && forall n :: 0 <= n < |moves| ==> RotatesFresh(races, n, moves[n])
  }

  /** Disk has moved to another identity than the writer read, and its revision does not show it. */
  predicate StalledAt(r: Race, m: Move) {
    && m.Persist? && m.w in r.writers
    && var (base, mine) := r.writers[m.w];
       r.disk.rev == base.rev && mine.rev != base.rev && IdentOf(r.disk) != IdentOf(base)
  }

  /** Up to n, disk has never gone back to an identity it had left. */
  ghost predicate NoReturn(races: seq<Race>, n: nat)
    requires n < |races|
  {
    forall a, b, c :: 0 <= a < b < c <= n && IdentOf(races[a].disk) == IdentOf(races[c].disk) ==>
      IdentOf(races[b].disk) == IdentOf(races[a].disk)
  }

  /** The writer read disk at move o, and whatever it rotated to since was not on disk by then. */
  ghost predicate OpenedAt(races: seq<Race>, n: nat, w: nat, o: nat)
    requires n < |races| && w in races[n].writers
  {
    var (base, mine) := races[n].writers[w];
    && o <= n && IdentOf(races[o].disk) == IdentOf(base)
    && (IdentOf(mine) != IdentOf(base) ==> forall a :: 0 <= a <= o ==> IdentOf(races[a].disk) != IdentOf(mine))
    && (mine.rev == base.rev ==> mine == base)
    && base.rev <= mine.rev
  }

  ghost predicate Opened(races: seq<Race>, n: nat)
    requires n < |races|
  {
    forall w :: w in races[n].writers ==> HasOpened(races, n, w)
  }

  ghost predicate HasOpened(races: seq<Race>, n: nat, w: nat)
    requires n < |races| && w in races[n].writers
  {
    exists o: nat :: OpenedAt(races, n, w, o)
  }

  /** A write without a stall changes disk's identity only from the writer's baseline identity to the writer's own. */
  lemma PersistMoves(ports: Ports, disk: Peer, mine: Peer, base: Peer)
    requires Parses(disk.publicKey) && Parses(mine.publicKey) && Parses(base.publicKey)
    requires mine.rev == base.rev ==> mine == base
    requires !(disk.rev == base.rev && mine.rev != base.rev && IdentOf(disk) != IdentOf(base))
    ensures var merged := MergeRecord(ports, disk, mine, Some(base));
            IdentOf(merged) != IdentOf(disk) ==>
              IdentOf(disk) == IdentOf(base) && IdentOf(merged) == IdentOf(mine) && IdentOf(mine) != IdentOf(base)
  {
    var merged := MergeRecord(ports, disk, mine, Some(base));
    if IdentOf(disk) != IdentOf(base) {
      assert Peers.Rotated(disk, base);
    } else {
      assert !Peers.Rotated(disk, base);
      assert IdentOf(mine) == IdentOf(base) ==> !Peers.Rotated(mine, base);
    }
  }

  lemma PersistKeeps(ports: Ports, races: seq<Race>, moves: seq<Move>, n: nat)
    requires Clean(ports, races, moves) && n < |moves| && moves[n].Persist?
    requires NoReturn(races, n) && Opened(races, n) && !StalledAt(races[n], moves[n])
    ensures NoReturn(races, n + 1)
  {
    assert Follows(ports, races[n], moves[n], races[n + 1]);
    var r, w := races[n], moves[n].w;
    var (base, mine) := r.writers[w];
    assert AllParse(r) && HasOpened(races, n, w);
    var o: nat :| OpenedAt(races, n, w, o);
    PersistMoves(ports, r.disk, mine, base);
    var id := IdentOf(races[n + 1].disk);
    if id != IdentOf(r.disk) {
      forall a | 0 <= a <= n ensures IdentOf(races[a].disk) != id {
        if a > o && IdentOf(races[a].disk) == id { assert false; }
      }
    }
    SameOrNew(races, n);
  }

  /** If disk keeps its identity or takes one it never had, it has still never gone back. */
  lemma SameOrNew(races: seq<Race>, n: nat)
    requires n + 1 < |races| && NoReturn(races, n)
    requires || IdentOf(races[n + 1].disk) == IdentOf(races[n].disk)
             || forall a :: 0 <= a <= n ==> IdentOf(races[a].disk) != IdentOf(races[n + 1].disk)
    ensures NoReturn(races, n + 1)
  {
    forall a, b, c | 0 <= a < b < c <= n + 1 && IdentOf(races[a].disk) == IdentOf(races[c].disk)
      ensures IdentOf(races[b].disk) == IdentOf(races[a].disk)
    {
      if c == n + 1 && b < n { assert IdentOf(races[a].disk) == IdentOf(races[n].disk); }
    }
  }

  lemma MoveKeepsOpened(ports: Ports, races: seq<Race>, moves: seq<Move>, n: nat)
    requires Clean(ports, races, moves) && n < |moves| && Opened(races, n)
    ensures Opened(races, n + 1)
  {
    assert Follows(ports, races[n], moves[n], races[n + 1]);
    assert RotatesFresh(races, n, moves[n]);
    var next := n + 1;
    forall w | w in races[next].writers ensures HasOpened(races, next, w) {
      if moves[n].Open? && moves[n].w == w {
        assert OpenedAt(races, next, w, n);
      } else {
        assert HasOpened(races, n, w);
        var o: nat :| OpenedAt(races, n, w, o);
        assert OpenedAt(races, next, w, o);
      }
    }
  }

  lemma MoveNeverReturns(ports: Ports, races: seq<Race>, moves: seq<Move>, n: nat)
    requires Clean(ports, races, moves) && n < |moves|
    requires NoReturn(races, n) && Opened(races, n) && !StalledAt(races[n], moves[n])
    ensures NoReturn(races, n + 1) && Opened(races, n + 1)
  {
    MoveKeepsOpened(ports, races, moves, n);
    if moves[n].Persist? {
      PersistKeeps(ports, races, moves, n);
    } else {
      assert Follows(ports, races[n], moves[n], races[n + 1]);
      SameOrNew(races, n);
    }
  }

  lemma {:induction false} AlwaysOpened(ports: Ports, races: seq<Race>, moves: seq<Move>, n: nat)
    requires Clean(ports, races, moves) && n <= |moves|
    ensures Opened(races, n)
  {
    if n > 0 {
      AlwaysOpened(ports, races, moves, n - 1);
      MoveKeepsOpened(ports, races, moves, n - 1);
    }
  }

  /** A stalled write by a writer on another identity than disk's, one that disk has held. */
  predicate Restores(races: seq<Race>, n: nat, m: Move)
    requires n < |races|
  {
    && StalledAt(races[n], m)
    && IdentOf(races[n].writers[m.w].1) != IdentOf(races[n].disk)
    && exists a :: 0 <= a < n && IdentOf(races[a].disk) == IdentOf(races[n].writers[m.w].1)
  }

  /** Such a write is a return, whatever went before. */
  lemma RestoringReturns(ports: Ports, races: seq<Race>, moves: seq<Move>, n: nat)
    requires Clean(ports, races, moves) && n < |moves| && Restores(races, n, moves[n])
    ensures !NoReturn(races, n + 1)
  {
    assert Follows(ports, races[n], moves[n], races[n + 1]);
    var mine := races[n].writers[moves[n].w].1;
    var a :| 0 <= a < n && IdentOf(races[a].disk) == IdentOf(mine);
    assert IdentOf(races[a].disk) == IdentOf(races[n + 1].disk) != IdentOf(races[n].disk);
  }

  /** And the first return is one. */
  lemma FirstReturnRestores(ports: Ports, races: seq<Race>, moves: seq<Move>, n: nat)
    requires Clean(ports, races, moves) && n < |moves| && NoReturn(races, n) && !NoReturn(races, n + 1)
    ensures Restores(races, n, moves[n])
  {
    AlwaysOpened(ports, races, moves, n);
    if !StalledAt(races[n], moves[n]) {
      MoveNeverReturns(ports, races, moves, n);
    } else {
      assert Follows(ports, races[n], moves[n], races[n + 1]);
      var mine := races[n].writers[moves[n].w].1;
      assert IdentOf(races[n + 1].disk) == IdentOf(mine);
      if !Restores(races, n, moves[n]) { SameOrNew(races, n); }
    }
  }

  /** Over any interleaving of any writers, each rotation to a key of its own: disk goes back to an identity it had left
      exactly when some write restores one. The three writers above show that this does happen. */
  lemma {:induction false} ReturnsIff(ports: Ports, races: seq<Race>, moves: seq<Move>, c: nat)
    requires Clean(ports, races, moves) && c <= |moves|
    ensures !NoReturn(races, c) <==> exists n :: 0 <= n < c && Restores(races, n, moves[n])
  {
    if c > 0 {
      var n := c - 1;
      ReturnsIff(ports, races, moves, n);
      if Restores(races, n, moves[n]) {
        RestoringReturns(ports, races, moves, n);
      } else if NoReturn(races, n) && !NoReturn(races, c) {
        FirstReturnRestores(ports, races, moves, n);
      }
    }
  }

  /** So behind every return is a write that found disk on another identity than it had read, at the revision it had
      read. */
  lemma ReturnsOnlyByStall(ports: Ports, races: seq<Race>, moves: seq<Move>, a: nat, b: nat, c: nat) returns (n: nat)
    requires Clean(ports, races, moves) && a < b < c < |races|
    requires IdentOf(races[a].disk) == IdentOf(races[c].disk) != IdentOf(races[b].disk)
    ensures n < c && StalledAt(races[n], moves[n])
  {
    ReturnsIff(ports, races, moves, c);
    n :| 0 <= n < c && Restores(races, n, moves[n]);
  }
}
