/** The state of the node graph: nodes, hooks, peer lists, event subscriptions, reference counts,
    and the invariant that ties every count to the things that hold a reference. */
module GraphState {
  import opened Lists

  datatype Dir = In | Out

  function Opposite(d: Dir): Dir { if d.In? then Out else In }

  datatype Hook = Hook(name: string, dir: Dir, valid: bool, node: nat, peers: seq<nat>, refs: nat)

  datatype Node = Node(valid: bool, inhooks: seq<nat>, outhooks: seq<nat>, events: seq<nat>, refs: nat) {
    function Hooks(d: Dir): seq<nat> { if d.In? then inhooks else outhooks }

    function WithHooks(d: Dir, hs: seq<nat>): Node {
      if d.In? then this.(inhooks := hs) else this.(outhooks := hs)
    }
  }

  datatype Event = Event(nodes: seq<nat>, refs: nat)

  type Nodes = map<nat, Node>
  type Hooks = map<nat, Hook>
  type Events = map<nat, Event>

  /** The hooks whose peer list names h. */
  function NamedBy(hooks: Hooks, h: nat): set<nat> {
    set g | g in hooks && h in hooks[g].peers
  }

  predicate Joined(hooks: Hooks, g: nat, h: nat) {
    g in hooks && h in hooks[g].peers
  }

  // ---- The invariant ----

  function Owed(d: Node, owned: bool, held: nat): nat {
    |d.inhooks| + |d.outhooks| + |d.events| + (if owned then 1 else 0) + held
  }

  ghost predicate NodeCounts(nodes: Nodes, own: set<nat>, holds: multiset<nat>) {
    && own <= nodes.Keys
    && (forall n :: n in holds ==> n in nodes)
    && (forall n :: n in nodes ==> nodes[n].refs == Owed(nodes[n], n in own, holds[n]) > 0)
  }

  ghost predicate HookCounts(hooks: Hooks, holds: multiset<nat>) {
    && (forall h :: h in holds ==> h in hooks)
    && (forall h :: h in hooks ==> hooks[h].refs == |NamedBy(hooks, h)| + holds[h] > 0)
  }

  ghost predicate EventCounts(events: Events, holds: multiset<nat>) {
    && (forall e :: e in holds ==> e in events)
    && (forall e :: e in events ==> events[e].refs == |events[e].nodes| + holds[e] > 0)
  }

  /** `list` holds exactly the hooks of node n in direction d, each once. */
  ghost predicate ListOf(list: seq<nat>, hooks: Hooks, n: nat, d: Dir) {
    NoDup(list) && forall h :: h in list <==> h in hooks && hooks[h].node == n && hooks[h].dir == d
  }

  ghost predicate HookLists(nodes: Nodes, hooks: Hooks) {
    && (forall h :: h in hooks ==> hooks[h].node in nodes)
    && (forall n :: n in nodes ==>
          ListOf(nodes[n].inhooks, hooks, n, In) && ListOf(nodes[n].outhooks, hooks, n, Out))
  }

  /** Peers are live, of the opposite direction, listed once, and belong to nodes not yet removed. */
  ghost predicate PeerLists(hooks: Hooks, own: set<nat>) {
    && (forall g :: g in hooks ==> NoDup(hooks[g].peers))
    && (forall g, h :: Joined(hooks, g, h) ==>
          h in hooks && hooks[h].dir != hooks[g].dir && hooks[g].node in own)
  }

  ghost predicate Symmetric(hooks: Hooks) {
    forall g, h :: Joined(hooks, g, h) ==> Joined(hooks, h, g)
  }

  /** A name dmm_hook_create accepts: not empty, short enough for its buffer, no brackets. */
  predicate GoodName(name: string) {
    0 < |name| < 32 && '[' !in name && ']' !in name
  }

  function Key(k: Hook): (nat, Dir, string) { (k.node, k.dir, k.name) }

  ghost predicate Names(hooks: Hooks) {
    && (forall h :: h in hooks ==> GoodName(hooks[h].name))
    && (forall g, h ::
          g in hooks && h in hooks && Key(hooks[g]) == Key(hooks[h]) ==> g == h)
  }

  /** The two records of a subscription agree as multisets. */
  ghost predicate Subscriptions(nodes: Nodes, events: Events) {
    && (forall e, n :: e in events && n in events[e].nodes ==> n in nodes)
    && (forall n, e :: n in nodes && e in nodes[n].events ==> e in events)
    && (forall e, n :: e in events && n in nodes ==>
          multiset(events[e].nodes)[n] == multiset(nodes[n].events)[e])
  }

  /** Outside `dying`, a node is valid exactly when it has not been removed, its hooks are valid with it,
      and a removed node keeps no subscriptions. */
  ghost predicate Coupled(nodes: Nodes, hooks: Hooks, own: set<nat>, dying: set<nat>) {
    && (forall n :: n in nodes && n !in dying ==>
          (nodes[n].valid <==> n in own) && (nodes[n].valid || nodes[n].events == []))
    && (forall h :: h in hooks && hooks[h].node !in dying ==>
          hooks[h].node in nodes && hooks[h].valid == nodes[hooks[h].node].valid)
  }

  // ---- What giving back a reference does ----

  /** The nodes after one reference to n is given back: n is freed if it was the last. */
  function UnrefNode(nodes: Nodes, n: nat): Nodes
    requires n in nodes && nodes[n].refs > 0
  {
    if nodes[n].refs > 1 then nodes[n := nodes[n].(refs := nodes[n].refs - 1)] else nodes - {n}
  }

  function UnrefHook(hooks: Hooks, h: nat): Hooks
    requires h in hooks && hooks[h].refs > 0
  {
    if hooks[h].refs > 1 then hooks[h := hooks[h].(refs := hooks[h].refs - 1)] else hooks - {h}
  }

  function UnrefEvent(events: Events, e: nat): Events
    requires e in events && events[e].refs > 0
  {
    if events[e].refs > 1 then events[e := events[e].(refs := events[e].refs - 1)] else events - {e}
  }

  /** The nodes once hook k, stored at address h, is unlinked from its node's list. */
  function Unlisted(nodes: Nodes, k: Hook, h: nat): Nodes
    requires k.node in nodes
  {
    var d := nodes[k.node];
    nodes[k.node := d.WithHooks(k.dir, Without(d.Hooks(k.dir), h))]
  }

  /** The nodes once hook k, stored at address h, is linked at the head of its node's list and holds a reference to
      it. */
  function Listed(nodes: Nodes, k: Hook, h: nat): Nodes
    requires k.node in nodes
  {
    var d := nodes[k.node];
    nodes[k.node := d.WithHooks(k.dir, [h] + d.Hooks(k.dir)).(refs := d.refs + 1)]
  }

  /** The nodes after one reference to hook h is given back. */
  function UnrefHookNodes(nodes: Nodes, hooks: Hooks, h: nat): Nodes
    requires h in hooks && hooks[h].node in nodes && nodes[hooks[h].node].refs > 0
  {
    if hooks[h].refs > 1 then nodes else UnrefNode(Unlisted(nodes, hooks[h], h), hooks[h].node)
  }

  // ---- Frames: changes a part of the invariant does not see ----

  /** `nodes'` differs from `nodes` at most in counts and flags, and has dropped only nodes without hooks. */
  ghost predicate SameLists(nodes: Nodes, nodes': Nodes) {
    && nodes'.Keys <= nodes.Keys
    && (forall n :: n in nodes' ==>
          && nodes'[n].inhooks == nodes[n].inhooks
          && nodes'[n].outhooks == nodes[n].outhooks && nodes'[n].events == nodes[n].events)
    && (forall n :: n in nodes && n !in nodes' ==>
          nodes[n].inhooks == [] && nodes[n].outhooks == [] && nodes[n].events == [])
  }

  lemma HookListsFrame(nodes: Nodes, nodes': Nodes, hooks: Hooks)
    requires HookLists(nodes, hooks) && SameLists(nodes, nodes')
    ensures HookLists(nodes', hooks)
  {
    forall h | h in hooks ensures hooks[h].node in nodes' {
      assert h in nodes[hooks[h].node].Hooks(hooks[h].dir);
    }
  }

  /** Changing anything but a hook's place leaves the hook lists right. */
  lemma SameListOfs(nodes: Nodes, hooks: Hooks, hooks': Hooks)
    requires HookLists(nodes, hooks) && SamePeers(hooks, hooks') && hooks'.Keys == hooks.Keys
    ensures HookLists(nodes, hooks')
  {
    forall n | n in nodes
      ensures ListOf(nodes[n].inhooks, hooks', n, In) && ListOf(nodes[n].outhooks, hooks', n, Out)
    {
      assert ListOf(nodes[n].inhooks, hooks, n, In) && ListOf(nodes[n].outhooks, hooks, n, Out);
    }
  }

  lemma SubscriptionsFrame(nodes: Nodes, nodes': Nodes, events: Events)
    requires Subscriptions(nodes, events) && SameLists(nodes, nodes')
    ensures Subscriptions(nodes', events)
  {
    forall e, n | e in events && n in events[e].nodes ensures n in nodes' {
      assert multiset(events[e].nodes)[n] == multiset(nodes[n].events)[e];
    }
  }

  /** `hooks'` has the same peers and the same identities, and has dropped only hooks without peers. */
  ghost predicate SamePeers(hooks: Hooks, hooks': Hooks) {
    && hooks'.Keys <= hooks.Keys
    && (forall g :: g in hooks' ==> hooks'[g].peers == hooks[g].peers && Key(hooks'[g]) == Key(hooks[g]))
    && (forall g :: g in hooks && g !in hooks' ==> hooks[g].peers == [] && NamedBy(hooks, g) == {})
  }

  lemma SamePeersNamedBy(hooks: Hooks, hooks': Hooks)
    requires SamePeers(hooks, hooks')
    ensures forall x :: NamedBy(hooks', x) == NamedBy(hooks, x)
    ensures forall g, h :: Joined(hooks', g, h) <==> Joined(hooks, g, h)
  {
  }

  lemma PeersFrame(hooks: Hooks, hooks': Hooks, own: set<nat>)
    requires SamePeers(hooks, hooks')
    ensures Symmetric(hooks) ==> Symmetric(hooks')
    ensures PeerLists(hooks, own) ==> PeerLists(hooks', own)
    ensures Names(hooks) ==> Names(hooks')
  {
    SamePeersNamedBy(hooks, hooks');
    if PeerLists(hooks, own) {
      forall g, h | Joined(hooks', g, h) ensures h in hooks' {
        assert g in NamedBy(hooks, h);
      }
    }
  }

  // ---- Taking and giving back references keeps the counts exact ----

  lemma RefNodeCounts(nodes: Nodes, own: set<nat>, holds: multiset<nat>, n: nat)
    requires NodeCounts(nodes, own, holds) && n in nodes
    ensures var nodes' := nodes[n := nodes[n].(refs := nodes[n].refs + 1)];
            NodeCounts(nodes', own, holds + multiset{n}) && SameLists(nodes, nodes')
  {
  }

  /** A node whose last reference goes has no hooks and no subscriptions left: the two assertions of
      dmm_node_unref hold. */
  lemma LastNodeReference(nodes: Nodes, own: set<nat>, holds: multiset<nat>, n: nat)
    requires NodeCounts(nodes, own, holds) && n in holds && nodes[n].refs == 1
    ensures nodes[n].inhooks == [] && nodes[n].outhooks == [] && nodes[n].events == []
    ensures n !in own && holds[n] == 1
  {
  }

  lemma UnrefNodeCounts(nodes: Nodes, own: set<nat>, holds: multiset<nat>, n: nat)
    requires NodeCounts(nodes, own, holds) && n in holds
    ensures NodeCounts(UnrefNode(nodes, n), own, holds - multiset{n})
    ensures SameLists(nodes, UnrefNode(nodes, n))
  {
    if nodes[n].refs == 1 {
      LastNodeReference(nodes, own, holds, n);
    }
  }

  lemma RefHookCounts(hooks: Hooks, holds: multiset<nat>, h: nat)
    requires HookCounts(hooks, holds) && h in hooks
    ensures var hooks' := hooks[h := hooks[h].(refs := hooks[h].refs + 1)];
            HookCounts(hooks', holds + multiset{h}) && SamePeers(hooks, hooks')
  {
    SamePeersNamedBy(hooks, hooks[h := hooks[h].(refs := hooks[h].refs + 1)]);
  }

  lemma UnrefHookCounts(hooks: Hooks, holds: multiset<nat>, h: nat)
    requires HookCounts(hooks, holds) && h in holds
    requires hooks[h].refs == 1 ==> hooks[h].peers == []
    ensures HookCounts(UnrefHook(hooks, h), holds - multiset{h})
    ensures SamePeers(hooks, UnrefHook(hooks, h))
  {
    if hooks[h].refs == 1 {
      assert NamedBy(hooks, h) == {};
    }
    SamePeersNamedBy(hooks, UnrefHook(hooks, h));
  }

  lemma UnlistedCounts(nodes: Nodes, own: set<nat>, holds: multiset<nat>, k: Hook, h: nat)
    requires NodeCounts(nodes, own, holds) && k.node in nodes && h in nodes[k.node].Hooks(k.dir)
    ensures NodeCounts(Unlisted(nodes, k, h), own, holds + multiset{k.node})
  {
    WithoutCounts(nodes[k.node].Hooks(k.dir), h);
  }

  lemma UnlistedLists(nodes: Nodes, hooks: Hooks, h: nat)
    requires HookLists(nodes, hooks) && h in hooks
    ensures HookLists(Unlisted(nodes, hooks[h], h), hooks - {h})
  {
    var k := hooks[h];
    WithoutNoDup(nodes[k.node].Hooks(k.dir), h);
    var nodes' := Unlisted(nodes, k, h);
    forall n | n in nodes'
      ensures ListOf(nodes'[n].inhooks, hooks - {h}, n, In) && ListOf(nodes'[n].outhooks, hooks - {h}, n, Out)
    {
      assert ListOf(nodes[n].inhooks, hooks, n, In) && ListOf(nodes[n].outhooks, hooks, n, Out);
    }
  }

  lemma UnlistedSubscriptions(nodes: Nodes, events: Events, k: Hook, h: nat)
    requires Subscriptions(nodes, events) && k.node in nodes
    ensures Subscriptions(Unlisted(nodes, k, h), events)
  {
    assert forall n :: n in nodes ==> Unlisted(nodes, k, h)[n].events == nodes[n].events;
  }

  lemma ListedCounts(nodes: Nodes, own: set<nat>, holds: multiset<nat>, k: Hook, h: nat)
    requires NodeCounts(nodes, own, holds) && k.node in nodes
    ensures NodeCounts(Listed(nodes, k, h), own, holds)
  {
  }

  lemma ListOfGrows(list: seq<nat>, hooks: Hooks, n: nat, d: Dir, k: Hook, h: nat)
    requires ListOf(list, hooks, n, d) && h !in hooks
    ensures k.node == n && k.dir == d ==> ListOf([h] + list, hooks[h := k], n, d)
    ensures k.node != n || k.dir != d ==> ListOf(list, hooks[h := k], n, d)
  {
  }

  lemma ListedLists(nodes: Nodes, hooks: Hooks, k: Hook, h: nat)
    requires HookLists(nodes, hooks) && k.node in nodes && h !in hooks
    ensures HookLists(Listed(nodes, k, h), hooks[h := k])
  {
    forall n | n in nodes
      ensures ListOf(Listed(nodes, k, h)[n].inhooks, hooks[h := k], n, In)
      ensures ListOf(Listed(nodes, k, h)[n].outhooks, hooks[h := k], n, Out)
    {
      ListOfGrows(nodes[n].inhooks, hooks, n, In, k, h);
      ListOfGrows(nodes[n].outhooks, hooks, n, Out, k, h);
    }
  }

  lemma ListedSubscriptions(nodes: Nodes, events: Events, k: Hook, h: nat)
    requires Subscriptions(nodes, events) && k.node in nodes
    ensures Subscriptions(Listed(nodes, k, h), events)
  {
    assert forall n :: n in nodes ==> Listed(nodes, k, h)[n].events == nodes[n].events;
  }

  // ---- Peer lists ----

  /** The hooks once h is no longer in g's peer list. */
  function Unpeer(hooks: Hooks, g: nat, h: nat): Hooks
    requires g in hooks
  {
    hooks[g := hooks[g].(peers := Without(hooks[g].peers, h))]
  }

  /** The hooks once h is at the head of g's peer list. */
  function Peered(hooks: Hooks, g: nat, h: nat): Hooks
    requires g in hooks
  {
    hooks[g := hooks[g].(peers := [h] + hooks[g].peers)]
  }

  lemma UnpeerJoined(hooks: Hooks, own: set<nat>, g: nat, h: nat)
    requires PeerLists(hooks, own) && Joined(hooks, g, h)
    ensures forall x, y :: Joined(Unpeer(hooks, g, h), x, y) <==> Joined(hooks, x, y) && !(x == g && y == h)
    ensures PeerLists(Unpeer(hooks, g, h), own)
  {
    WithoutNoDup(hooks[g].peers, h);
  }

  lemma UnpeerNamedBy(hooks: Hooks, own: set<nat>, g: nat, h: nat)
    requires PeerLists(hooks, own) && Joined(hooks, g, h)
    ensures forall x :: x in hooks ==>
              NamedBy(Unpeer(hooks, g, h), x) == if x == h then NamedBy(hooks, x) - {g} else NamedBy(hooks, x)
    ensures Joined(hooks, g, h)
  {
    var hooks' := Unpeer(hooks, g, h);
    UnpeerJoined(hooks, own, g, h);
    forall x | x in hooks
      ensures NamedBy(hooks', x) == if x == h then NamedBy(hooks, x) - {g} else NamedBy(hooks, x)
    {
      assert forall y :: Joined(hooks', y, x) <==> y in NamedBy(hooks', x);
      assert forall y :: Joined(hooks, y, x) <==> y in NamedBy(hooks, x);
    }
  }

  lemma UnpeerCounts(hooks: Hooks, holds: multiset<nat>, own: set<nat>, g: nat, h: nat)
    requires HookCounts(hooks, holds) && PeerLists(hooks, own) && Joined(hooks, g, h)
    ensures HookCounts(Unpeer(hooks, g, h), holds + multiset{h})
  {
    UnpeerNamedBy(hooks, own, g, h);
  }

  lemma PeeredJoined(hooks: Hooks, own: set<nat>, g: nat, h: nat)
    requires PeerLists(hooks, own) && g in hooks && h in hooks && !Joined(hooks, g, h)
    requires hooks[g].dir != hooks[h].dir && hooks[g].node in own
    ensures forall x, y :: Joined(Peered(hooks, g, h), x, y) <==> Joined(hooks, x, y) || (x == g && y == h)
    ensures PeerLists(Peered(hooks, g, h), own)
  {
  }

  lemma PeeredNamedBy(hooks: Hooks, own: set<nat>, g: nat, h: nat)
    requires PeerLists(hooks, own) && g in hooks && h in hooks && !Joined(hooks, g, h)
    requires hooks[g].dir != hooks[h].dir && hooks[g].node in own
    ensures forall x :: x in hooks ==>
              NamedBy(Peered(hooks, g, h), x) == if x == h then NamedBy(hooks, x) + {g} else NamedBy(hooks, x)
    ensures !Joined(hooks, g, h)
  {
    var hooks' := Peered(hooks, g, h);
    PeeredJoined(hooks, own, g, h);
    forall x | x in hooks
      ensures NamedBy(hooks', x) == if x == h then NamedBy(hooks, x) + {g} else NamedBy(hooks, x)
    {
      assert forall y :: Joined(hooks', y, x) <==> y in NamedBy(hooks', x);
      assert forall y :: Joined(hooks, y, x) <==> y in NamedBy(hooks, x);
    }
  }

  lemma PeeredCounts(hooks: Hooks, holds: multiset<nat>, own: set<nat>, g: nat, h: nat)
    requires HookCounts(hooks, holds) && PeerLists(hooks, own) && g in hooks && h in holds && !Joined(hooks, g, h)
    requires hooks[g].dir != hooks[h].dir && hooks[g].node in own
    ensures HookCounts(Peered(hooks, g, h), holds - multiset{h})
  {
    PeeredNamedBy(hooks, own, g, h);
    hide HookCounts, PeerLists, Joined;
    assert g !in NamedBy(hooks, h);
    OneNamerMore(hooks, Peered(hooks, g, h), holds, g, h);
  }

  lemma OneNamerMore(hooks: Hooks, hooks': Hooks, holds: multiset<nat>, g: nat, h: nat)
    requires HookCounts(hooks, holds) && h in holds && hooks'.Keys == hooks.Keys && g !in NamedBy(hooks, h)
    requires forall x :: x in hooks ==> hooks'[x].refs == hooks[x].refs
    requires forall x :: x in hooks ==>
               NamedBy(hooks', x) == if x == h then NamedBy(hooks, x) + {g} else NamedBy(hooks, x)
    ensures HookCounts(hooks', holds - multiset{h})
  {
    hide NamedBy;
  }

  /** No hook of this node and direction has this name. */
  ghost predicate NameFree(hooks: Hooks, n: nat, d: Dir, name: string) {
    forall h :: h in hooks ==> Key(hooks[h]) != (n, d, name)
  }

  lemma AllocatedCounts(hooks: Hooks, holds: multiset<nat>, own: set<nat>, k: Hook, h: nat)
    requires HookCounts(hooks, holds) && PeerLists(hooks, own)
    requires h !in hooks && h !in holds && k.peers == [] && k.refs == 1
    ensures HookCounts(hooks[h := k], holds + multiset{h})
  {
    AllocatedNamedBy(hooks, own, k, h);
    hide PeerLists;
    forall x | x in hooks ensures (holds + multiset{h})[x] == holds[x] {
    }
  }

  lemma AllocatedPeers(hooks: Hooks, own: set<nat>, k: Hook, h: nat)
    requires PeerLists(hooks, own) && h !in hooks && k.peers == []
    ensures PeerLists(hooks[h := k], own)
    ensures forall x, y :: Joined(hooks[h := k], x, y) <==> Joined(hooks, x, y)
  {
    AllocatedNamedBy(hooks, own, k, h);
  }

  lemma AllocatedNames(hooks: Hooks, k: Hook, h: nat)
    requires Names(hooks) && h !in hooks && GoodName(k.name) && NameFree(hooks, k.node, k.dir, k.name)
    ensures Names(hooks[h := k])
  {
  }

  lemma AllocatedNamedBy(hooks: Hooks, own: set<nat>, k: Hook, h: nat)
    requires PeerLists(hooks, own) && h !in hooks && k.peers == []
    ensures forall x :: NamedBy(hooks[h := k], x) == NamedBy(hooks, x)
    ensures NamedBy(hooks[h := k], h) == {}
    ensures forall x, y :: Joined(hooks[h := k], x, y) <==> Joined(hooks, x, y)
  {
    assert forall g :: g in NamedBy(hooks, h) ==> Joined(hooks, g, h);
    forall x ensures NamedBy(hooks[h := k], x) == NamedBy(hooks, x) {
    }
  }

  // ---- Events ----

  lemma RefEventCounts(nodes: Nodes, events: Events, holds: multiset<nat>, e: nat)
    requires EventCounts(events, holds) && Subscriptions(nodes, events) && e in events
    ensures var events' := events[e := events[e].(refs := events[e].refs + 1)];
            EventCounts(events', holds + multiset{e}) && Subscriptions(nodes, events')
  {
  }

  lemma UnrefEventCounts(nodes: Nodes, events: Events, holds: multiset<nat>, e: nat)
    requires EventCounts(events, holds) && Subscriptions(nodes, events) && e in holds
    ensures EventCounts(UnrefEvent(events, e), holds - multiset{e})
    ensures Subscriptions(nodes, UnrefEvent(events, e))
  {
    if events[e].refs == 1 {
      forall n | n in nodes ensures e !in nodes[n].events {
        assert multiset(events[e].nodes)[n] == multiset(nodes[n].events)[e];
      }
    }
  }
}
