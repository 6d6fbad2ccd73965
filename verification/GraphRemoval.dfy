/** Taking connections apart: what removing a peer pair and a hook leaves of the rest. */
module GraphRemoval {
  import opened Lists
  import opened GraphState
  import opened GraphSteps

  // ---- What stays ----

  /** Some hooks may have gone; the rest keep their place and their flag. */
  ghost predicate HooksKept(hooks: Hooks, hooks': Hooks) {
    && hooks'.Keys <= hooks.Keys
    && (forall x :: x in hooks' ==> Key(hooks'[x]) == Key(hooks[x]) && hooks'[x].valid == hooks[x].valid)
  }

  /** No node has gone or changed, except for its count and its hooks of the direction opposite to d. */
  ghost predicate NodesKept(nodes: Nodes, nodes': Nodes, d: Dir) {
    && nodes'.Keys == nodes.Keys
    && (forall n :: n in nodes' ==>
          && nodes'[n].valid == nodes[n].valid
          && nodes'[n].events == nodes[n].events
          && nodes'[n].Hooks(d) == nodes[n].Hooks(d))
  }

  /** Events, creation references, and temporary references to nodes and events are the same. */
  ghost predicate SameRest(s: State, t: State) {
    && (t.events, t.own, t.nodeHolds, t.eventHolds) == (s.events, s.own, s.nodeHolds, s.eventHolds)
    && (t.lastnodeid, t.lastaddress, t.lasteventid) == (s.lastnodeid, s.lastaddress, s.lasteventid)
  }

  /** From s to t at most some hooks of direction `Opposite(d)` have gone. */
  ghost predicate Shrunk(s: State, t: State, d: Dir) {
    HooksKept(s.hooks, t.hooks) && NodesKept(s.nodes, t.nodes, d) && SameRest(s, t)
  }

  lemma KeptHook(a: Hooks, b: Hooks, x: nat)
    requires HooksKept(a, b) && x in b
    ensures x in a && Key(a[x]) == Key(b[x]) && a[x].valid == b[x].valid
  {
  }

  lemma ShrunkTwice(s: State, t: State, u: State, d: Dir)
    requires Shrunk(s, t, d) && Shrunk(t, u, d)
    ensures Shrunk(s, u, d)
  {
  }

  lemma UnrefHookKeeps(nodes: Nodes, hooks: Hooks, h: nat)
    requires h in hooks && hooks[h].refs > 0 && hooks[h].node in nodes && nodes[hooks[h].node].refs > 1
    ensures HooksKept(hooks, UnrefHook(hooks, h)) && UnrefHook(hooks, h).Keys >= hooks.Keys - {h}
    ensures NodesKept(nodes, UnrefHookNodes(nodes, hooks, h), Opposite(hooks[h].dir))
    ensures var k := hooks[h];
            UnrefHookNodes(nodes, hooks, h)[k.node].Hooks(k.dir) ==
              if k.refs > 1 then nodes[k.node].Hooks(k.dir) else Without(nodes[k.node].Hooks(k.dir), h)
    ensures forall n :: n in nodes && n != hooks[h].node ==> UnrefHookNodes(nodes, hooks, h)[n] == nodes[n]
  {
  }

  /** A node that has not been removed does not go with one of its hooks. */
  lemma OwnedOutlivesHook(s: State, h: nat)
    requires Exact(s) && h in s.hooks && s.hooks[h].node in s.own
    ensures s.hooks[h].node in s.nodes && s.nodes[s.hooks[h].node].refs > 1
  {
    LiveHook(s, h);
  }

  // ---- Removing one peer entry: dmm_hook_rmpeer ----

  predicate CanRmPeer(s: State, g: nat, h: nat) {
    g in s.hooks && g != h && Live(s, h)
  }

  /** One dmm_hook_rmpeer that finds its entry. */
  function RmPeer(s: State, g: nat, h: nat): State
    requires CanRmPeer(s, g, h)
  {
    DropHook(TakePeer(s, g, h), h)
  }

  lemma PeersDiffer(s: State, g: nat, h: nat)
    requires Exact(s) && Joined(s.hooks, g, h)
    ensures CanRmPeer(s, g, h)
    ensures s.hooks[g].dir == Opposite(s.hooks[h].dir) && s.hooks[g].node in s.own
  {
    hide NodeCounts, HookCounts, EventCounts, HookLists, Names, Subscriptions;
    LiveHook(s, h);
  }

  lemma RmPeerShrinks(s: State, g: nat, h: nat)
    requires CanRmPeer(s, g, h) && s.nodes[s.hooks[h].node].refs > 1
    ensures Shrunk(s, RmPeer(s, g, h), Opposite(s.hooks[h].dir))
  {
    hide NodesKept;
    UnrefHookKeeps(s.nodes, TakePeer(s, g, h).hooks, h);
  }

  lemma RmPeerExact(s: State, g: nat, h: nat)
    requires Exact(s) && Joined(s.hooks, g, h) && h in s.hooks && s.hooks[h].node in s.own
    requires s.hooks[h].refs == 1 ==> s.hooks[h].peers == []
    ensures CanRmPeer(s, g, h)
    ensures Exact(RmPeer(s, g, h))
    ensures forall x, y :: Joined(RmPeer(s, g, h).hooks, x, y) <==> Joined(s.hooks, x, y) && !(x == g && y == h)
    ensures Shrunk(s, RmPeer(s, g, h), Opposite(s.hooks[h].dir))
  {
    hide Exact, Shrunk;
    PeersDiffer(s, g, h);
    OwnedOutlivesHook(s, h);
    RmPeerShrinks(s, g, h);
    TakePeerExact(s, g, h);
    var s1 := TakePeer(s, g, h);
    DropHookExact(s1, h);
    SamePeersNamedBy(s1.hooks, DropHook(s1, h).hooks);
  }

  /** What one removal of h from g's list does to the two records. */
  lemma RmPeerRecords(s: State, g: nat, h: nat)
    requires CanRmPeer(s, g, h)
    ensures RmPeer(s, g, h).hookHolds == s.hookHolds
    ensures g in RmPeer(s, g, h).hooks
    ensures RmPeer(s, g, h).hooks[g] == s.hooks[g].(peers := Without(s.hooks[g].peers, h))
    ensures s.hooks[h].refs > 1 ==>
              && RmPeer(s, g, h).nodes == s.nodes
              && h in RmPeer(s, g, h).hooks
              && RmPeer(s, g, h).hooks[h] == s.hooks[h].(refs := s.hooks[h].refs - 1)
  {
  }

  // ---- Parting a pair: the body of the loop in dmm_hook_rm ----

  lemma NamedAndHeld(s: State, h: nat, p: nat)
    requires Exact(s) && h in s.hookHolds && Joined(s.hooks, p, h)
    ensures h in s.hooks && s.hooks[h].refs > 1
  {
    assert p in NamedBy(s.hooks, h);
    assert NamedBy(s.hooks, h) != {};
  }

  lemma TwoNamers(hooks: Hooks, holds: multiset<nat>, h: nat, x: nat, p: nat)
    requires HookCounts(hooks, holds) && Joined(hooks, h, p) && Joined(hooks, x, p) && x != h && p in hooks
    ensures hooks[p].refs > 1
  {
    assert {h, x} <= NamedBy(hooks, p);
    var others := NamedBy(hooks, p) - {h};
    assert x in others;
    assert NamedBy(hooks, p) == others + {h};
  }

  /** A hook whose only reference is one peer entry, and whose other peers would name it back, has none. */
  lemma SoleNamer(s: State, h: nat, p: nat)
    requires Exact(s) && Joined(s.hooks, h, p) && p in s.hooks && s.hooks[p].refs == 1
    requires forall x :: Joined(s.hooks, p, x) ==> x != h && Joined(s.hooks, x, p)
    ensures s.hooks[p].peers == []
  {
    if s.hooks[p].peers != [] {
      var x := s.hooks[p].peers[0];
      assert Joined(s.hooks, p, x);
      hide NodeCounts, HookCounts, EventCounts, HookLists, PeerLists, Names, Subscriptions;
      TwoNamers(s.hooks, s.hookHolds, h, x, p);
    }
  }

  predicate CanPart(s: State, h: nat, p: nat) {
    h != p && Live(s, h) && Live(s, p) && s.hooks[h].refs > 1
  }

  /** h and p no longer name each other, and p is gone if nothing else held it. */
  function Part(s: State, h: nat, p: nat): State
    requires CanPart(s, h, p)
  {
    RmPeer(RmPeer(s, p, h), h, p)
  }

  /** h is held and h and p name each other. */
  ghost predicate Pair(s: State, h: nat, p: nat) {
    Joined(s.hooks, h, p) && Joined(s.hooks, p, h) && h in s.hookHolds
  }

  lemma PairCanPart(s: State, h: nat, p: nat)
    requires Exact(s) && Pair(s, h, p)
    ensures CanPart(s, h, p) && CanRmPeer(s, p, h) && s.hooks[h].dir == Opposite(s.hooks[p].dir)
    ensures s.hooks[h].node in s.own && s.hooks[p].node in s.own
  {
    hide Exact, Joined;
    PeersDiffer(s, h, p);
    PeersDiffer(s, p, h);
    NamedAndHeld(s, h, p);
  }

  /** The first half: h is held, so it survives losing its entry in p's list. */
  lemma PartFirst(s: State, h: nat, p: nat)
    requires Exact(s) && Symmetric(s.hooks) && Pair(s, h, p)
    ensures CanPart(s, h, p)
    ensures var s1 := RmPeer(s, p, h);
            && Exact(s1) && Shrunk(s, s1, s.hooks[h].dir) && s1.hookHolds == s.hookHolds
            && h in s1.hooks && s1.hooks[h].peers == s.hooks[h].peers
            && p in s1.hooks && s1.hooks[p].node in s1.own
            && s1.hooks[p].dir == s.hooks[p].dir
    ensures forall x, y :: Joined(RmPeer(s, p, h).hooks, x, y) <==> Joined(s.hooks, x, y) && !(x == p && y == h)
  {
    hide Exact, Symmetric, Joined, RmPeer, NodesKept, HooksKept;
    PairCanPart(s, h, p);
    RmPeerExact(s, p, h);
    RmPeerRecords(s, p, h);
    SameNodesKept(s.nodes, s.hooks[h].dir);
  }

  lemma SameNodesKept(nodes: Nodes, d: Dir)
    ensures NodesKept(nodes, nodes, d)
  {
  }

  /** The second half: if p goes with the entry, it has no peers left. */
  lemma PartSecond(s1: State, h: nat, p: nat)
    requires Exact(s1) && Joined(s1.hooks, h, p) && p in s1.hooks && s1.hooks[p].node in s1.own
    requires forall x :: Joined(s1.hooks, p, x) ==> x != h && Joined(s1.hooks, x, p)
    ensures CanRmPeer(s1, h, p)
    ensures s1.hooks[p].refs == 1 ==> s1.hooks[p].peers == []
    ensures var t := RmPeer(s1, h, p);
            && Exact(t) && Shrunk(s1, t, Opposite(s1.hooks[p].dir)) && t.hookHolds == s1.hookHolds
            && h in t.hooks && t.hooks[h].peers == Without(s1.hooks[h].peers, p)
    ensures forall x, y :: Joined(RmPeer(s1, h, p).hooks, x, y) <==> Joined(s1.hooks, x, y) && !(x == h && y == p)
  {
    hide Exact, Symmetric, RmPeer, NodesKept, HooksKept;
    PeersDiffer(s1, h, p);
    if s1.hooks[p].refs == 1 {
      SoleNamer(s1, h, p);
    }
    RmPeerExact(s1, h, p);
    RmPeerRecords(s1, h, p);
  }

  lemma PartExact(s: State, h: nat, p: nat)
    requires Exact(s) && Symmetric(s.hooks) && Pair(s, h, p)
    ensures CanPart(s, h, p)
    ensures var s1 := RmPeer(s, p, h);
            && Exact(s1) && p in s1.hooks && h in s1.hooks && Joined(s1.hooks, h, p) && s1.hooks[p].node in s1.own
            && (s1.hooks[p].refs == 1 ==> s1.hooks[p].peers == [])
    ensures var t := Part(s, h, p);
            && Exact(t) && Symmetric(t.hooks) && Shrunk(s, t, s.hooks[h].dir) && t.hookHolds == s.hookHolds
            && h in t.hooks && t.hooks[h].peers == Without(s.hooks[h].peers, p)
    ensures forall x, y :: Joined(Part(s, h, p).hooks, x, y) <==>
              Joined(s.hooks, x, y) && !(x == h && y == p) && !(x == p && y == h)
  {
    PairCanPart(s, h, p);
    hide Exact, RmPeer, Shrunk;
    PartFirst(s, h, p);
    var s1 := RmPeer(s, p, h);
    PartSecond(s1, h, p);
    ShrunkTwice(s, s1, Part(s, h, p), s.hooks[h].dir);
  }

  // ---- Removing a hook: dmm_hook_rm ----

  function Invalidate(s: State, h: nat): State
    requires h in s.hooks
  {
    s.(hooks := s.hooks[h := s.hooks[h].(valid := false)])
  }

  lemma InvalidatePeers(hooks: Hooks, h: nat)
    requires h in hooks
    ensures var hooks' := hooks[h := hooks[h].(valid := false)];
            SamePeers(hooks, hooks') && forall x :: NamedBy(hooks', x) == NamedBy(hooks, x)
  {
    SamePeersNamedBy(hooks, hooks[h := hooks[h].(valid := false)]);
  }

  lemma InvalidateExact(s: State, h: nat)
    requires Exact(s) && h in s.hooks
    ensures Exact(Invalidate(s, h)) && SamePeers(s.hooks, Invalidate(s, h).hooks)
  {
    hide NodeCounts, EventCounts, HookLists, PeerLists, Names, Subscriptions, SamePeers, NamedBy;
    InvalidatePeers(s.hooks, h);
    PeersFrame(s.hooks, Invalidate(s, h).hooks, s.own);
    SameListOfs(s.nodes, s.hooks, Invalidate(s, h).hooks);
  }

  /** Part way through dmm_hook_rm(h), which began in s: of h's peers only `rest` are left. */
  ghost predicate Parting(s: State, t: State, h: nat, rest: seq<nat>) {
    && Exact(t) && Symmetric(t.hooks)
    && h in s.hooks && h in t.hooks && h in t.hookHolds && t.hookHolds == s.hookHolds
    && t.hooks[h].peers == rest
    && Shrunk(s, t, s.hooks[h].dir)
    && (forall x, y :: x != h && y != h ==> (Joined(t.hooks, x, y) <==> Joined(s.hooks, x, y)))
  }

  lemma PartingStep(s: State, t: State, h: nat, p: nat, rest: seq<nat>)
    requires Parting(s, t, h, [p] + rest)
    ensures Exact(t) && Symmetric(t.hooks) && Pair(t, h, p) && CanPart(t, h, p)
    ensures Parting(s, Part(t, h, p), h, rest)
  {
    hide Exact, NodesKept, HooksKept, Part, RmPeer, CanRmPeer, Live;
    assert Joined(t.hooks, h, p) && Without([p] + rest, p) == rest;
    KeptHook(s.hooks, t.hooks, h);
    PartExact(t, h, p);
    hide Joined, Symmetric, Without, Pair;
    ShrunkTwice(s, t, Part(t, h, p), s.hooks[h].dir);
    hide Shrunk;
  }

  lemma PartingBegins(s: State, h: nat)
    requires Exact(s) && Symmetric(s.hooks) && h in s.hooks
    ensures Exact(RefHook(s, h)) && h in RefHook(s, h).hooks
    ensures var s1 := Invalidate(RefHook(s, h), h); Parting(s1, s1, h, s.hooks[h].peers)
    ensures forall x, y :: Joined(Invalidate(RefHook(s, h), h).hooks, x, y) <==> Joined(s.hooks, x, y)
  {
    hide NodeCounts, HookCounts, EventCounts, HookLists, PeerLists, Names, Subscriptions;
    RefHookExact(s, h);
    var s0 := RefHook(s, h);
    InvalidateExact(s0, h);
    var s1 := Invalidate(s0, h);
    PeersFrame(s.hooks, s0.hooks, s.own);
    PeersFrame(s0.hooks, s1.hooks, s.own);
    SamePeersNamedBy(s.hooks, s0.hooks);
    SamePeersNamedBy(s0.hooks, s1.hooks);
  }

  lemma NobodyNames(t: State, h: nat)
    requires Exact(t) && Symmetric(t.hooks) && h in t.hooks && t.hooks[h].peers == []
    ensures forall x, y :: Joined(t.hooks, x, y) ==> x != h && y != h
    ensures t.hooks[h].refs == t.hookHolds[h]
  {
    hide NodeCounts, EventCounts, HookLists, PeerLists, Names, Subscriptions;
    forall x, y | Joined(t.hooks, x, y) ensures x != h && y != h {
      assert Joined(t.hooks, y, x);
    }
    assert NamedBy(t.hooks, h) == {} by {
      assert forall x :: x in NamedBy(t.hooks, h) ==> Joined(t.hooks, x, h);
    }
  }

  /** Giving back the reference dmm_hook_rm took: h goes unless somebody else holds it. */
  lemma LastDrop(t: State, h: nat)
    requires Exact(t) && Symmetric(t.hooks) && h in t.hookHolds && h in t.hooks && t.hooks[h].peers == []
    ensures Live(t, h)
    ensures var u := DropHook(t, h);
            && Exact(u) && Symmetric(u.hooks)
            && (forall x, y :: Joined(u.hooks, x, y) <==> Joined(t.hooks, x, y))
            && (h in u.hooks <==> t.hookHolds[h] > 1)
            && (h in u.hooks ==> u.hooks[h] == t.hooks[h].(refs := t.hooks[h].refs - 1))
  {
    NobodyNames(t, h);
    hide Exact, Symmetric, Joined;
    DropHookExact(t, h);
    PeersFrame(t.hooks, DropHook(t, h).hooks, t.own);
    SamePeersNamedBy(t.hooks, DropHook(t, h).hooks);
    hide SamePeers, UnrefHookNodes;
  }

  /** No node has gone or changed, except for its count, its hooks of the direction opposite to k's, and
      the place of k itself, stored at h. */
  ghost predicate NodesKeptBut(nodes: Nodes, nodes': Nodes, k: Hook, h: nat, kept: bool) {
    && nodes'.Keys == nodes.Keys
    && (forall n :: n in nodes' ==>
          && nodes'[n].valid == nodes[n].valid
          && nodes'[n].events == nodes[n].events
          && nodes'[n].Hooks(k.dir) == if n == k.node && !kept then Without(nodes[n].Hooks(k.dir), h)
                                       else nodes[n].Hooks(k.dir))
  }

  lemma PlacesKept(a: Nodes, b: Nodes, c: Nodes, k: Hook, h: nat, kept: bool)
    requires NodesKept(a, b, k.dir) && NodesKept(b, c, Opposite(k.dir)) && k.node in c
    requires c[k.node].Hooks(k.dir) == if kept then b[k.node].Hooks(k.dir) else Without(b[k.node].Hooks(k.dir), h)
    requires forall n :: n in b && n != k.node ==> n in c && c[n] == b[n]
    ensures NodesKeptBut(a, c, k, h, kept)
  {
  }

  /** What dmm_hook_rm(h) does: h loses every peer and every peer loses h, in both records; every other
      connection is untouched, hooks that nothing else held go, and h itself stays, invalid and without
      peers, exactly when somebody else holds it. */
  ghost predicate HookRemoved(s: State, t: State, h: nat) {
    && Exact(t) && Symmetric(t.hooks)
    && h in s.hooks && t.hookHolds == s.hookHolds && SameRest(s, t)
    && (forall x, y :: Joined(t.hooks, x, y) <==> Joined(s.hooks, x, y) && x != h && y != h)
    && (h in t.hooks <==> h in s.hookHolds)
    && (h in t.hooks ==> t.hooks[h].peers == [] && !t.hooks[h].valid && Key(t.hooks[h]) == Key(s.hooks[h]))
    && HooksKept(s.hooks - {h}, t.hooks - {h})
    && NodesKeptBut(s.nodes, t.nodes, s.hooks[h], h, h in t.hooks)
  }

  lemma PartingPlaces(s1: State, t: State, h: nat)
    requires h in s1.hooks && Shrunk(s1, t, s1.hooks[h].dir)
    requires Live(t, h) && t.nodes[t.hooks[h].node].refs > 1
    ensures HooksKept(s1.hooks - {h}, DropHook(t, h).hooks - {h})
    ensures NodesKeptBut(s1.nodes, DropHook(t, h).nodes, s1.hooks[h], h, h in DropHook(t, h).hooks)
  {
    KeptHook(s1.hooks, t.hooks, h);
    hide NodesKept, NodesKeptBut, UnrefHookNodes;
    DropPlaces(s1.nodes, t.nodes, t.hooks, s1.hooks[h], h);
  }

  lemma DropPlaces(a: Nodes, nodes: Nodes, hooks: Hooks, k: Hook, h: nat)
    requires NodesKept(a, nodes, k.dir)
    requires h in hooks && Key(hooks[h]) == Key(k)
    requires hooks[h].refs > 0 && hooks[h].node in nodes && nodes[hooks[h].node].refs > 1
    ensures NodesKeptBut(a, UnrefHookNodes(nodes, hooks, h), k, h, h in UnrefHook(hooks, h))
  {
    hide NodesKept, UnrefHookNodes, NodesKeptBut;
    UnrefHookKeeps(nodes, hooks, h);
    PlacesKept(a, nodes, UnrefHookNodes(nodes, hooks, h), k, h, hooks[h].refs > 1);
  }

  lemma SameKeyPlaces(a: Nodes, c: Nodes, k: Hook, k1: Hook, h: nat, kept: bool)
    requires NodesKeptBut(a, c, k1, h, kept) && Key(k1) == Key(k)
    ensures NodesKeptBut(a, c, k, h, kept)
  {
  }

  lemma MinusUpdate(hooks: Hooks, h: nat, k: Hook)
    ensures hooks[h := k] - {h} == hooks - {h}
  {
  }

  lemma RemovalBegins(s: State, h: nat)
    requires h in s.hooks
    ensures var s1 := Invalidate(RefHook(s, h), h);
            && h in s1.hooks && !s1.hooks[h].valid && Key(s1.hooks[h]) == Key(s.hooks[h])
            && s1.hooks - {h} == s.hooks - {h}
            && s1.nodes == s.nodes && SameRest(s, s1) && s1.hookHolds == s.hookHolds + multiset{h}
  {
    MinusUpdate(s.hooks, h, RefHook(s, h).hooks[h]);
    MinusUpdate(RefHook(s, h).hooks, h, Invalidate(RefHook(s, h), h).hooks[h]);
  }

  lemma PartingEnds(s: State, t: State, h: nat)
    requires Exact(s) && Symmetric(s.hooks) && h in s.hooks && s.hooks[h].node in s.own
    requires h in RefHook(s, h).hooks && Parting(Invalidate(RefHook(s, h), h), t, h, [])
    ensures h in t.hookHolds && t.hooks[h].peers == [] && Exact(t) && Live(t, h)
    ensures HookRemoved(s, DropHook(t, h), h)
  {
    hide Exact, Symmetric, NodesKeptBut, NodesKept, RefHook, Invalidate;
    PartingBegins(s, h);
    RemovalBegins(s, h);
    var s1 := Invalidate(RefHook(s, h), h);
    NobodyNames(t, h);
    KeptHook(s1.hooks, t.hooks, h);
    hide HooksKept, Joined;
    LastDrop(t, h);
    OwnedOutlivesHook(t, h);
    PartingPlaces(s1, t, h);
    SameKeyPlaces(s.nodes, DropHook(t, h).nodes, s.hooks[h], s1.hooks[h], h, h in DropHook(t, h).hooks);
    hide Live, UnrefHook, UnrefHookNodes;
  }
}
