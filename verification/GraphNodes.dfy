/** Removing a node: every hook of it, every subscription of it, then its creation reference. */
module GraphNodes {
  import opened Lists
  import opened GraphState
  import opened GraphSteps
  import opened GraphRemoval
  import opened GraphLinks
  import opened GraphConnect
  import opened GraphEvents

  // ---- The loops over the hooks of the node ----

  /** Hooks that do not belong to n are where they were; no hook has come. */
  ghost predicate OthersKept(hooks: Hooks, hooks': Hooks, n: nat) {
    && hooks'.Keys <= hooks.Keys
    && (forall x :: x in hooks' ==>
          Key(hooks'[x]) == Key(hooks[x]) && (hooks[x].node != n ==> hooks'[x].valid == hooks[x].valid))
  }

  /** Connections that do not touch n are as they were; no connection has come. */
  ghost predicate OthersJoined(hooks: Hooks, hooks': Hooks, n: nat) {
    && (forall x, y :: Joined(hooks', x, y) ==> Joined(hooks, x, y))
    && (forall x, y :: Joined(hooks, x, y) && hooks[x].node != n && y in hooks && hooks[y].node != n ==>
          Joined(hooks', x, y))
  }

  /** The hooks of n in direction d, but for those in `rest`, are invalid and have no peers. */
  ghost predicate Cleared(hooks: Hooks, n: nat, d: Dir, rest: seq<nat>) {
    forall x :: x in hooks && hooks[x].node == n && hooks[x].dir == d && x !in rest ==>
      !hooks[x].valid && hooks[x].peers == []
  }

  predicate Suffix(list: seq<nat>, rest: seq<nat>) {
    |rest| <= |list| && list[|list| - |rest|..] == rest
  }

  /** Part way through dmm_node_rm(n), which began in s. */
  ghost predicate Clearing(s: State, t: State, n: nat) {
    && Exact(t) && Symmetric(t.hooks) && n in t.own && t.hookHolds == s.hookHolds && SameRest(s, t)
    && NodesSame(s.nodes, t.nodes)
    && OthersKept(s.hooks, t.hooks, n) && OthersJoined(s.hooks, t.hooks, n)
  }

  lemma RemovedKeeps(a: Hooks, b: Hooks, c: Hooks, n: nat, h: nat)
    requires OthersKept(a, b, n) && OthersJoined(a, b, n)
    requires h in b && b[h].node == n
    requires HooksKept(b - {h}, c - {h}) && (h in c ==> Key(c[h]) == Key(b[h]))
    requires forall x, y :: Joined(c, x, y) <==> Joined(b, x, y) && x != h && y != h
    ensures OthersKept(a, c, n) && OthersJoined(a, c, n)
  {
    forall x | x in c ensures x in b && Key(c[x]) == Key(b[x]) && (b[x].node != n ==> c[x].valid == b[x].valid) {
      if x != h {
        assert x in c - {h};
      }
    }
  }

  lemma RemovedClears(b: Hooks, c: Hooks, n: nat, d: Dir, h: nat, rest: seq<nat>)
    requires Cleared(b, n, d, [h] + rest)
    requires h in b && HooksKept(b - {h}, c - {h})
    requires h in c ==> c[h].peers == [] && !c[h].valid
    requires forall x, y :: Joined(c, x, y) <==> Joined(b, x, y) && x != h && y != h
    ensures Cleared(c, n, d, rest)
  {
    forall x | x in c && c[x].node == n && c[x].dir == d && x !in rest ensures !c[x].valid && c[x].peers == [] {
      if x != h {
        assert x in c - {h};
        assert Key((c - {h})[x]) == Key((b - {h})[x]);
        if c[x].peers != [] {
          assert Joined(c, x, c[x].peers[0]);
        }
      }
    }
  }

  /** The saved rest of the node's list is still the end of the list. */
  lemma RemovedSuffix(list: seq<nat>, h: nat, rest: seq<nat>)
    requires NoDup(list) && Suffix(list, [h] + rest)
    ensures Suffix(list, rest) && Suffix(Without(list, h), rest)
  {
    var i := |list| - |rest| - 1;
    assert list[i] == list[i..][0] == h;
    WithoutAt(list, h, i);
    assert list[i + 1..] == list[i..][1..] == rest;
    assert (list[..i] + list[i + 1..])[i..] == list[i + 1..];
  }

  lemma ClearingStep(s: State, t: State, u: State, n: nat, d: Dir, h: nat, rest: seq<nat>)
    requires Clearing(s, t, n) && n in t.nodes && Suffix(t.nodes[n].Hooks(d), [h] + rest)
    requires HookRemoved(t, u, h) && h in t.hooks && t.hooks[h].node == n && t.hooks[h].dir == d
    ensures Clearing(s, u, n) && n in u.nodes && Suffix(u.nodes[n].Hooks(d), rest)
    ensures Cleared(t.hooks, n, d, [h] + rest) ==> Cleared(u.hooks, n, d, rest)
    ensures Cleared(t.hooks, n, Opposite(d), []) ==> Cleared(u.hooks, n, Opposite(d), [])
  {
    ListNoDup(t, n, d);
    hide Exact, Symmetric, OthersKept, OthersJoined, HooksKept, Cleared, Suffix, NoDup;
    RemovedSuffix(t.nodes[n].Hooks(d), h, rest);
    RemovedKeeps(s.hooks, t.hooks, u.hooks, n, h);
    if Cleared(t.hooks, n, d, [h] + rest) {
      RemovedClears(t.hooks, u.hooks, n, d, h, rest);
    }
    if Cleared(t.hooks, n, Opposite(d), []) {
      ClearedMore(t.hooks, n, Opposite(d), h);
      RemovedClears(t.hooks, u.hooks, n, Opposite(d), h, []);
    }
    hide Joined;
    NodesSameBut(s.nodes, t.nodes, u.nodes, t.hooks[h], h, h in u.hooks);
  }

  lemma ClearedMore(hooks: Hooks, n: nat, d: Dir, h: nat)
    requires Cleared(hooks, n, d, [])
    ensures Cleared(hooks, n, d, [h] + [])
  {
  }

  lemma NodesSameBut(a: Nodes, b: Nodes, c: Nodes, k: Hook, h: nat, kept: bool)
    requires NodesSame(a, b) && NodesKeptBut(b, c, k, h, kept)
    ensures NodesSame(a, c)
  {
  }

  lemma ListNoDup(t: State, n: nat, d: Dir)
    requires Exact(t) && n in t.nodes
    ensures NoDup(t.nodes[n].Hooks(d))
    ensures forall h :: h in t.nodes[n].Hooks(d) <==> h in t.hooks && t.hooks[h].node == n && t.hooks[h].dir == d
  {
  }

  function InvalidateNode(s: State, n: nat): State
    requires n in s.nodes
  {
    s.(nodes := s.nodes[n := s.nodes[n].(valid := false)])
  }

  lemma ClearingBegins(s: State, n: nat)
    requires Inv(s) && n in s.nodes && s.nodes[n].valid
    ensures var t := InvalidateNode(s, n);
            Clearing(t, t, n) && Coupled(t.nodes, t.hooks, t.own, {n}) && t.nodes.Keys == s.nodes.Keys
  {
    hide NodeCounts, HookCounts, EventCounts, HookLists, PeerLists, Names, Subscriptions;
    InvalidateNodeExact(s, n);
  }

  lemma FlagCounts(nodes: Nodes, own: set<nat>, holds: multiset<nat>, n: nat)
    requires NodeCounts(nodes, own, holds) && n in nodes
    ensures NodeCounts(nodes[n := nodes[n].(valid := false)], own, holds)
    ensures SameLists(nodes, nodes[n := nodes[n].(valid := false)])
  {
  }

  lemma InvalidateNodeExact(s: State, n: nat)
    requires Exact(s) && n in s.nodes
    ensures Exact(InvalidateNode(s, n))
  {
    hide NodeCounts, HookCounts, EventCounts, HookLists, PeerLists, Names, Subscriptions, SameLists;
    FlagCounts(s.nodes, s.own, s.nodeHolds, n);
    HookListsFrame(s.nodes, InvalidateNode(s, n).nodes, s.hooks);
    SubscriptionsFrame(s.nodes, InvalidateNode(s, n).nodes, s.events);
  }

  // ---- The loop over the subscriptions of the node ----

  /** Every node is there, and all but n are as they were. */
  ghost predicate OnlyNode(a: Nodes, b: Nodes, n: nat) {
    && b.Keys == a.Keys
    && (forall m :: m in b && m != n ==> b[m] == a[m])
    && (n in b ==> b[n].valid == a[n].valid)
  }

  lemma UnsubOnly(s: State, a: Nodes, e: nat, n: nat)
    requires CanUnsub(s, e, n) && s.nodes[n].refs > 1 && OnlyNode(a, s.nodes, n)
    ensures OnlyNode(a, Unsub(s, e, n).nodes, n)
  {
  }

  /** Part way through dmm_node_unsubscribeallevents(n), which began in s: only `rest` is left. */
  ghost predicate Unsubscribing(s: State, t: State, n: nat, rest: seq<nat>) {
    && Exact(t) && FewerSubs(s, t) && n in t.own && n in t.nodes && t.nodes[n].events == rest
    && OnlyNode(s.nodes, t.nodes, n)
    && (forall e, m :: m != n ==> Sub(t.events, e, m) == Sub(s.events, e, m))
  }

  lemma UnsubscribingStep(s: State, t: State, n: nat, e: nat, rest: seq<nat>)
    requires Unsubscribing(s, t, n, [e] + rest)
    ensures e in t.events && n in t.events[e].nodes && CanUnsub(t, e, n)
    ensures Unsubscribing(s, Unsub(t, e, n), n, rest)
  {
    Subscribed(t, n, e);
    assert Without([e] + rest, e) == rest;
    hide Exact, FewerSubs, Sub;
    UnsubExact(t, e, n);
    OwnedSubscriber(t, n);
    UnsubFewer(t, e, n);
    UnsubOnly(t, s.nodes, e, n);
    hide OnlyNode;
    FewerTwice(s, t, Unsub(t, e, n));
    FewerOwn(t, Unsub(t, e, n));
    hide Unsub;
  }

  lemma FewerOwn(s: State, t: State)
    requires FewerSubs(s, t)
    ensures t.own == s.own
  {
  }

  lemma OwnedSubscriber(t: State, n: nat)
    requires Exact(t) && n in t.own && t.nodes[n].events != []
    ensures n in t.nodes && t.nodes[n].refs > 1
  {
  }

  lemma Subscribed(t: State, n: nat, e: nat)
    requires Exact(t) && n in t.nodes && e in t.nodes[n].events
    ensures e in t.events && n in t.events[e].nodes
  {
    assert e in t.events;
    BothRecords(t, e, n);
  }

  lemma NoneLeft(t: State, n: nat)
    requires Exact(t) && n in t.nodes && t.nodes[n].events == []
    ensures forall e :: Sub(t.events, e, n) == 0
  {
    forall e ensures Sub(t.events, e, n) == 0 {
      if e in t.events {
        assert multiset(t.events[e].nodes)[n] == multiset(t.nodes[n].events)[e];
      }
    }
  }

  // ---- The end of dmm_node_rm ----

  /** The creation reference becomes one in the hands of the caller. */
  function Disown(s: State, n: nat): State {
    s.(own := s.own - {n}, nodeHolds := s.nodeHolds + multiset{n})
  }

  lemma DisownExact(s: State, n: nat)
    requires Exact(s) && n in s.own
    requires forall h :: h in s.hooks && s.hooks[h].node == n ==> s.hooks[h].peers == []
    ensures Exact(Disown(s, n)) && n in s.nodes
  {
    hide HookCounts, EventCounts, HookLists, Names, Subscriptions;
    assert NodeCounts(s.nodes, s.own - {n}, s.nodeHolds + multiset{n});
    hide NodeCounts;
    assert PeerLists(s.hooks, s.own - {n});
  }

  lemma AllCleared(hooks: Hooks, n: nat)
    requires Cleared(hooks, n, In, []) && Cleared(hooks, n, Out, [])
    ensures forall h :: h in hooks && hooks[h].node == n ==> !hooks[h].valid && hooks[h].peers == []
  {
    forall h | h in hooks && hooks[h].node == n ensures !hooks[h].valid && hooks[h].peers == [] {
      assert hooks[h].dir == In || hooks[h].dir == Out;
    }
  }

  lemma LinksWithout(a: Hooks, b: Hooks, own: set<nat>, n: nat)
    requires OthersKept(a, b, n) && OthersJoined(a, b, n)
    requires PeerLists(a, own) && PeerLists(b, own) && Symmetric(b)
    requires forall h :: h in b && b[h].node == n ==> b[h].peers == []
    ensures Links(b) == set l | l in Links(a) && l.src != n && l.dst != n
  {
    forall l ensures l in Links(b) <==> l in Links(a) && l.src != n && l.dst != n {
      InLinks(a, l);
      InLinks(b, l);
      if l in Links(b) {
        var g, h :| Linked(b, g, h, l);
        assert Joined(b, h, g);
        assert Linked(a, g, h, l);
      }
      if l in Links(a) && l.src != n && l.dst != n {
        var g, h :| Linked(a, g, h, l);
        PeersLive(b, own);
        assert Linked(b, g, h, l);
      }
    }
  }

  /** What dmm_node_rm(n) does: every link that touches n is gone and every other is there; n has no
      subscriptions and every other is as it was; n is no longer owned. Nothing else has gone. */
  ghost predicate NodeRemoved(s: State, t: State, n: nat) {
    && Inv(t)
    && t.own == s.own - {n}
    && (t.nodeHolds, t.hookHolds, t.eventHolds) == (s.nodeHolds, s.hookHolds, s.eventHolds)
    && (t.lastnodeid, t.lastaddress, t.lasteventid) == (s.lastnodeid, s.lastaddress, s.lasteventid)
    && Links(t.hooks) == (set l | l in Links(s.hooks) && l.src != n && l.dst != n)
    && (forall e, m :: Sub(t.events, e, m) == if m == n then 0 else Sub(s.events, e, m))
    && s.nodes.Keys - {n} <= t.nodes.Keys <= s.nodes.Keys
    && (forall m :: m in t.nodes && m != n ==> t.nodes[m].valid == s.nodes[m].valid)
    && (forall h :: h in t.hooks && t.hooks[h].node == n ==> h in t.hookHolds)
    && (n in t.nodes ==> t.nodes[n].events == [])
  }

  lemma CoupledOthers(a: Nodes, c: Nodes, hooks: Hooks, hooks': Hooks, own: set<nat>, n: nat)
    requires Coupled(a, hooks, own, {}) && HookLists(c, hooks') && OthersKept(hooks, hooks', n)
    requires c.Keys <= a.Keys
    requires forall m :: m in c && m != n ==> c[m].valid == a[m].valid && |c[m].events| <= |a[m].events|
    requires forall h :: h in hooks' && hooks'[h].node == n ==> !hooks'[h].valid
    requires n in c ==> !c[n].valid && c[n].events == []
    ensures Coupled(c, hooks', own - {n}, {})
  {
  }

  lemma HeldOnly(s: State, h: nat)
    requires Exact(s) && Symmetric(s.hooks) && h in s.hooks && s.hooks[h].peers == []
    ensures h in s.hookHolds
  {
    NobodyNames(s, h);
    LiveHook(s, h);
  }

  lemma SubsAfter(s: State, t: State, u: State, n: nat)
    requires t.events == s.events && Unsubscribing(t, u, n, [])
    ensures forall e, m :: Sub(u.events, e, m) == if m == n then 0 else Sub(s.events, e, m)
  {
    hide FewerSubs, Sub, OnlyNode;
    NoneLeft(u, n);
    hide Exact;
  }

  /** The nodes after all that dmm_node_rm does, against the nodes before. */
  lemma NodesAfter(a: Nodes, t: Nodes, u: Nodes, n: nat)
    requires n in a && n in u && u[n].refs > 0 && u[n].events == []
    requires NodesSame(a[n := a[n].(valid := false)], t) && OnlyNode(t, u, n)
    ensures var w := UnrefNode(u, n);
            && a.Keys - {n} <= w.Keys <= a.Keys
            && (forall m :: m in w && m != n ==> w[m].valid == a[m].valid && |w[m].events| <= |a[m].events|)
            && (n in w ==> !w[n].valid && w[n].events == [])
  {
  }

  lemma LinksAfter(s: State, w: State, n: nat)
    requires Exact(s) && Exact(w) && Symmetric(w.hooks)
    requires n in s.nodes && OthersKept(s.hooks, w.hooks, n) && OthersJoined(s.hooks, w.hooks, n)
    requires forall h :: h in w.hooks && w.hooks[h].node == n ==> w.hooks[h].peers == []
    ensures Links(w.hooks) == set l | l in Links(s.hooks) && l.src != n && l.dst != n
  {
    PeersOf(s);
    PeersOf(w);
    hide Exact, OthersKept, OthersJoined, PeerLists, Symmetric;
    LinksWithout(s.hooks, w.hooks, s.own + w.own, n);
  }

  lemma PeersOf(s: State)
    requires Exact(s)
    ensures forall own :: s.own <= own ==> PeerLists(s.hooks, own)
  {
  }

  predicate CanDrop(s: State, n: nat) {
    n in s.nodes && s.nodes[n].refs > 0
  }

  /** dmm_node_rm(n) began in s; t is the state after the hook loops and u after the subscription loop. */
  ghost predicate Removing(s: State, t: State, u: State, n: nat) {
    && Inv(s) && n in s.nodes && s.nodes[n].valid
    && Clearing(InvalidateNode(s, n), t, n) && Cleared(t.hooks, n, In, []) && Cleared(t.hooks, n, Out, [])
    && Unsubscribing(t, u, n, [])
  }

  lemma RemovalSteps(s: State, t: State, u: State, n: nat)
    requires Removing(s, t, u, n)
    ensures var v := Disown(u, n); Exact(v) && n in v.nodeHolds && CanDrop(v, n)
    ensures var w := DropNode(Disown(u, n), n); Exact(w) && Symmetric(w.hooks)
    ensures forall h :: h in u.hooks && u.hooks[h].node == n ==> !u.hooks[h].valid && u.hooks[h].peers == []
  {
    hide Inv, Exact, Symmetric, OthersKept, OthersJoined, FewerNodes, NodesSame, Cleared, Sub, OnlyNode;
    AllCleared(t.hooks, n);
    DisownExact(u, n);
    DropNodeExact(Disown(u, n), n);
  }

  ghost predicate NodesLeft(a: Nodes, c: Nodes, n: nat) {
    && a.Keys - {n} <= c.Keys <= a.Keys
    && (forall m :: m in c && m != n ==> c[m].valid == a[m].valid && |c[m].events| <= |a[m].events|)
    && (n in c ==> !c[n].valid && c[n].events == [])
  }

  lemma RemovalNodes(s: State, t: State, u: State, n: nat)
    requires Removing(s, t, u, n) && CanDrop(Disown(u, n), n)
    ensures NodesLeft(s.nodes, DropNode(Disown(u, n), n).nodes, n)
  {
    hide Inv, Exact, Symmetric, OthersKept, OthersJoined, FewerNodes, NodesSame, Cleared, Sub, OnlyNode, UnrefNode;
    NodesAfter(s.nodes, t.nodes, u.nodes, n);
  }

  lemma RemovalRest(s: State, t: State, u: State, n: nat)
    requires Removing(s, t, u, n) && CanDrop(Disown(u, n), n)
    ensures var w := DropNode(Disown(u, n), n);
            && w.own == s.own - {n}
            && (w.nodeHolds, w.hookHolds, w.eventHolds) == (s.nodeHolds, s.hookHolds, s.eventHolds)
            && (w.lastnodeid, w.lastaddress, w.lasteventid) == (s.lastnodeid, s.lastaddress, s.lasteventid)
            && OthersKept(s.hooks, w.hooks, n) && OthersJoined(s.hooks, w.hooks, n)
  {
    hide Inv, Exact, Symmetric, OthersKept, OthersJoined, FewerNodes, NodesSame, Cleared, Sub, OnlyNode, UnrefNode;
    assert s.nodeHolds + multiset{n} - multiset{n} == s.nodeHolds;
  }

  lemma RemovalSubs(s: State, t: State, u: State, n: nat)
    requires Removing(s, t, u, n)
    ensures forall e, m :: Sub(u.events, e, m) == if m == n then 0 else Sub(s.events, e, m)
  {
    hide Inv, Exact, Symmetric, OthersKept, OthersJoined, FewerNodes, NodesSame, Cleared, Sub, OnlyNode;
    SubsAfter(s, t, u, n);
  }

  lemma RemovalInv(s: State, t: State, u: State, n: nat)
    requires Removing(s, t, u, n) && CanDrop(Disown(u, n), n)
    ensures Inv(DropNode(Disown(u, n), n))
  {
    assert Inv(s);
    hide Removing, Exact, Symmetric, OthersKept, OthersJoined, Coupled, DropNode;
    RemovalSteps(s, t, u, n);
    RemovalNodes(s, t, u, n);
    RemovalRest(s, t, u, n);
    var w := DropNode(Disown(u, n), n);
    assert w.hooks == u.hooks by {
      DropNodeHooks(Disown(u, n), n);
    }
    ExactLists(w);
    CoupledOthers(s.nodes, w.nodes, s.hooks, w.hooks, s.own, n);
  }

  lemma DropNodeHooks(s: State, n: nat)
    requires CanDrop(s, n)
    ensures DropNode(s, n).hooks == s.hooks && DropNode(s, n).events == s.events
    ensures DropNode(s, n).nodeHolds == s.nodeHolds - multiset{n}
  {
  }

  lemma RemovalHeld(s: State, t: State, u: State, n: nat)
    requires Removing(s, t, u, n) && CanDrop(Disown(u, n), n)
    ensures var w := DropNode(Disown(u, n), n);
            && (forall h :: h in w.hooks && w.hooks[h].node == n ==> h in w.hookHolds)
            && Links(w.hooks) == (set l | l in Links(s.hooks) && l.src != n && l.dst != n)
  {
    assert Inv(s) && n in s.nodes;
    InvExact(s);
    hide Removing, Inv, Exact, Symmetric, OthersKept, OthersJoined, Links, DropNode;
    RemovalSteps(s, t, u, n);
    RemovalNodes(s, t, u, n);
    RemovalRest(s, t, u, n);
    DropNodeHooks(Disown(u, n), n);
    var w := DropNode(Disown(u, n), n);
    LinksAfter(s, w, n);
    forall h | h in w.hooks && w.hooks[h].node == n ensures h in w.hookHolds {
      HeldOnly(w, h);
    }
  }

  lemma RemovalEnds(s: State, t: State, u: State, n: nat)
    requires Removing(s, t, u, n)
    ensures var v := Disown(u, n); Exact(v) && n in v.nodeHolds && CanDrop(v, n)
    ensures NodeRemoved(s, DropNode(Disown(u, n), n), n)
  {
    hide Removing, Inv, Exact, Symmetric, OthersKept, OthersJoined, Links, Sub, DropNode;
    RemovalSteps(s, t, u, n);
    RemovalNodes(s, t, u, n);
    RemovalRest(s, t, u, n);
    RemovalSubs(s, t, u, n);
    RemovalInv(s, t, u, n);
    RemovalHeld(s, t, u, n);
    DropNodeHooks(Disown(u, n), n);
  }

  // ---- Creation ----

  /** A new node: valid, with the creation reference. */
  lemma NothingYet()
    ensures Inv(State(map[], map[], map[], 0, 0, 0, {}, multiset{}, multiset{}, multiset{}))
  {
  }

  function NewNode(s: State): State {
    var n := s.lastnodeid + 1;
    s.(nodes := s.nodes[n := Node(true, [], [], [], 1)], lastnodeid := n, own := s.own + {n})
  }

  function NewEvent(s: State): State {
    var e := s.lasteventid + 1;
    s.(events := s.events[e := Event([], 1)], lasteventid := e, eventHolds := s.eventHolds + multiset{e})
  }

  lemma NewNodeLists(nodes: Nodes, hooks: Hooks, n: nat)
    requires HookLists(nodes, hooks) && n !in nodes
    ensures HookLists(nodes[n := Node(true, [], [], [], 1)], hooks)
  {
  }

  lemma NewNodeCounts(nodes: Nodes, own: set<nat>, holds: multiset<nat>, n: nat)
    requires NodeCounts(nodes, own, holds) && n !in nodes
    ensures NodeCounts(nodes[n := Node(true, [], [], [], 1)], own + {n}, holds)
  {
    assert n !in holds && holds[n] == 0;
  }

  lemma NewSubscriptions(nodes: Nodes, events: Events, n: nat, e: nat)
    requires Subscriptions(nodes, events) && n !in nodes && e !in events
    ensures Subscriptions(nodes[n := Node(true, [], [], [], 1)], events)
    ensures Subscriptions(nodes, events[e := Event([], 1)])
  {
    forall e' | e' in events ensures n !in events[e'].nodes {
    }
    forall m | m in nodes ensures e !in nodes[m].events {
    }
  }

  lemma NewNodeCoupled(nodes: Nodes, hooks: Hooks, own: set<nat>, n: nat)
    requires Coupled(nodes, hooks, own, {}) && PeerLists(hooks, own) && n !in nodes
    ensures Coupled(nodes[n := Node(true, [], [], [], 1)], hooks, own + {n}, {}) && PeerLists(hooks, own + {n})
  {
  }

  lemma NewNodeInv(s: State)
    requires Inv(s)
    ensures Inv(NewNode(s)) && s.lastnodeid + 1 !in s.nodes
  {
    hide NodeCounts, HookCounts, EventCounts, HookLists, PeerLists, Names, Subscriptions, Symmetric, Coupled;
    FreshIds(s);
    NewNodeLists(s.nodes, s.hooks, s.lastnodeid + 1);
    NewNodeCounts(s.nodes, s.own, s.nodeHolds, s.lastnodeid + 1);
    NewNodeCoupled(s.nodes, s.hooks, s.own, s.lastnodeid + 1);
    NewSubscriptions(s.nodes, s.events, s.lastnodeid + 1, s.lasteventid + 1);
  }

  lemma NewEventCounts(events: Events, holds: multiset<nat>, e: nat)
    requires EventCounts(events, holds) && e !in events
    ensures EventCounts(events[e := Event([], 1)], holds + multiset{e})
    ensures forall e', n :: Sub(events[e := Event([], 1)], e', n) == Sub(events, e', n)
  {
  }

  lemma NewEventInv(s: State)
    requires Inv(s)
    ensures Inv(NewEvent(s)) && s.lasteventid + 1 !in s.events
    ensures forall e, n :: Sub(NewEvent(s).events, e, n) == Sub(s.events, e, n)
  {
    hide NodeCounts, HookCounts, EventCounts, HookLists, PeerLists, Names, Subscriptions, Symmetric, Coupled, Sub;
    FreshIds(s);
    NewEventCounts(s.events, s.eventHolds, s.lasteventid + 1);
    NewSubscriptions(s.nodes, s.events, s.lastnodeid + 1, s.lasteventid + 1);
  }

  lemma BumpNodeInv(s: State)
    requires Inv(s)
    ensures Inv(s.(lastnodeid := s.lastnodeid + 1))
  {
    hide NodeCounts, HookCounts, EventCounts, HookLists, PeerLists, Names, Subscriptions, Symmetric, Coupled;
  }

  // ---- The walks begin and read their cells ----

  lemma UnsubscribingBegins(s: State, n: nat)
    requires Exact(s) && n in s.own && n in s.nodes
    ensures Unsubscribing(s, s, n, s.nodes[n].events)
  {
    hide Exact;
  }

  lemma UnsubscribingCells(s: State, t: State, n: nat, e: nat, rest: seq<nat>)
    requires Unsubscribing(s, t, n, [e] + rest)
    ensures Exact(t) && e in t.events && n in t.nodes && Sub(t.events, e, n) > 0
  {
    Subscribed(t, n, e);
    hide Exact;
  }

  lemma WalkBegins(s: State, t: State, n: nat, d: Dir)
    requires Clearing(s, t, n) && n in t.nodes
    ensures Suffix(t.nodes[n].Hooks(d), t.nodes[n].Hooks(d)) && Cleared(t.hooks, n, d, t.nodes[n].Hooks(d))
  {
    ClearingOwn(s, t, n);
    hide Clearing, Exact;
    AllListed(t, n, d);
  }

  lemma AllListed(t: State, n: nat, d: Dir)
    requires Exact(t) && n in t.nodes
    ensures Cleared(t.hooks, n, d, t.nodes[n].Hooks(d))
  {
    ListNoDup(t, n, d);
    hide Exact;
  }

  /** The walk's current cell is a live hook of n of this direction. */
  lemma WalkCell(s: State, t: State, n: nat, d: Dir, h: nat, rest: seq<nat>)
    requires Clearing(s, t, n) && n in t.nodes && Suffix(t.nodes[n].Hooks(d), [h] + rest)
    ensures Exact(t) && Symmetric(t.hooks) && h in t.hooks && t.hooks[h].node == n && t.hooks[h].dir == d && n in t.own
  {
    ListNoDup(t, n, d);
    hide Exact, Symmetric, OthersKept, OthersJoined;
    var list := t.nodes[n].Hooks(d);
    assert list[|list| - |rest| - 1] == ([h] + rest)[0];
  }

  lemma ClearingOwn(s: State, t: State, n: nat)
    requires Clearing(s, t, n)
    ensures Exact(t) && n in t.own
  {
  }

  // ---- Holding events between operations ----

  lemma RefEventInv(s: State, e: nat)
    requires Inv(s) && e in s.events
    ensures Inv(RefEvent(s, e))
  {
    hide Exact, Symmetric, Coupled;
    RefEventExact(s, e);
  }

  lemma DropEventInv(s: State, e: nat)
    requires Inv(s) && e in s.eventHolds
    ensures e in s.events && s.events[e].refs > 0
    ensures Inv(DropEvent(s, e))
  {
    hide Exact, Symmetric, Coupled;
    DropEventExact(s, e);
  }
}
