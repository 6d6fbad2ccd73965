/** The whole state of the runtime, its invariant, and the single steps every operation is made of:
    taking and giving back references, linking and unlinking hooks, peers and subscriptions. */
module GraphSteps {
  import opened Lists
  import opened GraphState

  /** `nodes`, `hooks` and `events` are the allocated objects; ids and addresses are handed out in order.
      The rest says who holds references: `own` are the nodes whose creation reference has not been
      released, and the multisets are the temporary references callers have taken and not yet given back
      (for an event also its creator's reference and a timer's registration). */
  datatype State = State(
    nodes: Nodes, hooks: Hooks, events: Events,
    lastnodeid: nat, lastaddress: nat, lasteventid: nat,
    own: set<nat>, nodeHolds: multiset<nat>, hookHolds: multiset<nat>, eventHolds: multiset<nat>)

  ghost predicate Fresh(s: State) {
    && (forall n :: n in s.nodes ==> n <= s.lastnodeid)
    && (forall h :: h in s.hooks ==> h <= s.lastaddress)
    && (forall e :: e in s.events ==> e <= s.lasteventid)
  }

  /** What holds at every point, even while a connection is half made or half undone. */
  ghost predicate Exact(s: State) {
    && NodeCounts(s.nodes, s.own, s.nodeHolds)
    && HookCounts(s.hooks, s.hookHolds)
    && EventCounts(s.events, s.eventHolds)
    && HookLists(s.nodes, s.hooks)
    && PeerLists(s.hooks, s.own)
    && Names(s.hooks)
    && Subscriptions(s.nodes, s.events)
    && Fresh(s)
  }

  /** What holds between operations. */
  ghost predicate Inv(s: State) {
    Exact(s) && Symmetric(s.hooks) && Coupled(s.nodes, s.hooks, s.own, {})
  }

  // ---- References ----

  function RefNode(s: State, n: nat): State
    requires n in s.nodes
  {
    s.(nodes := s.nodes[n := s.nodes[n].(refs := s.nodes[n].refs + 1)],
       nodeHolds := s.nodeHolds + multiset{n})
  }

  function DropNode(s: State, n: nat): State
    requires n in s.nodes && s.nodes[n].refs > 0
  {
    s.(nodes := UnrefNode(s.nodes, n), nodeHolds := s.nodeHolds - multiset{n})
  }

  function RefHook(s: State, h: nat): State
    requires h in s.hooks
  {
    s.(hooks := s.hooks[h := s.hooks[h].(refs := s.hooks[h].refs + 1)],
       hookHolds := s.hookHolds + multiset{h})
  }

  /** Hook h and the node it belongs to are allocated and referenced. */
  predicate Live(s: State, h: nat) {
    && h in s.hooks && s.hooks[h].refs > 0
    && s.hooks[h].node in s.nodes && s.nodes[s.hooks[h].node].refs > 0
  }

  /** A hook that goes gives back the reference it held on its node. */
  function DropHook(s: State, h: nat): State
    requires Live(s, h)
  {
    s.(hooks := UnrefHook(s.hooks, h), nodes := UnrefHookNodes(s.nodes, s.hooks, h),
       hookHolds := s.hookHolds - multiset{h})
  }

  function RefEvent(s: State, e: nat): State
    requires e in s.events
  {
    s.(events := s.events[e := s.events[e].(refs := s.events[e].refs + 1)],
       eventHolds := s.eventHolds + multiset{e})
  }

  function DropEvent(s: State, e: nat): State
    requires e in s.events && s.events[e].refs > 0
  {
    s.(events := UnrefEvent(s.events, e), eventHolds := s.eventHolds - multiset{e})
  }

  lemma RefNodeExact(s: State, n: nat)
    requires Exact(s) && n in s.nodes
    ensures Exact(RefNode(s, n)) && SameLists(s.nodes, RefNode(s, n).nodes)
  {
    hide NodeCounts, HookCounts, HookLists, PeerLists, Names, Subscriptions, SameLists, SamePeers;
    RefNodeCounts(s.nodes, s.own, s.nodeHolds, n);
    var nodes' := RefNode(s, n).nodes;
    HookListsFrame(s.nodes, nodes', s.hooks);
    SubscriptionsFrame(s.nodes, nodes', s.events);
  }

  lemma HeldNode(s: State, n: nat)
    requires Exact(s) && n in s.nodeHolds
    ensures n in s.nodes && s.nodes[n].refs > 0
    ensures s.nodes[n].refs == 1 ==> s.nodes[n].inhooks == [] && s.nodes[n].outhooks == [] && n !in s.own
  {
  }

  /** The assertions dmm_node_unref makes hold, and the counts stay exact. */
  lemma DropNodeExact(s: State, n: nat)
    requires Exact(s) && n in s.nodeHolds
    ensures n in s.nodes && s.nodes[n].refs > 0
    ensures s.nodes[n].refs == 1 ==> s.nodes[n].inhooks == [] && s.nodes[n].outhooks == []
    ensures Exact(DropNode(s, n)) && SameLists(s.nodes, DropNode(s, n).nodes)
  {
    hide NodeCounts, HookCounts, HookLists, PeerLists, Names, Subscriptions, SameLists, SamePeers;
    HeldNode(s, n);
    UnrefNodeCounts(s.nodes, s.own, s.nodeHolds, n);
    var nodes' := UnrefNode(s.nodes, n);
    HookListsFrame(s.nodes, nodes', s.hooks);
    SubscriptionsFrame(s.nodes, nodes', s.events);
  }

  lemma RefHookExact(s: State, h: nat)
    requires Exact(s) && h in s.hooks
    ensures Exact(RefHook(s, h)) && SamePeers(s.hooks, RefHook(s, h).hooks)
  {
    hide NodeCounts, HookCounts, HookLists, PeerLists, Names, Subscriptions, SameLists, SamePeers;
    RefHookCounts(s.hooks, s.hookHolds, h);
    PeersFrame(s.hooks, RefHook(s, h).hooks, s.own);
    SameListOfs(s.nodes, s.hooks, RefHook(s, h).hooks);
  }

  lemma LiveHook(s: State, h: nat)
    requires Exact(s) && h in s.hooks
    ensures Live(s, h)
    ensures h in s.nodes[s.hooks[h].node].Hooks(s.hooks[h].dir)
  {
  }

  lemma HeldHook(s: State, h: nat)
    requires Exact(s) && h in s.hookHolds
    ensures h in s.hooks
  {
  }

  lemma DropHookExact(s: State, h: nat)
    requires Exact(s) && h in s.hookHolds
    requires h in s.hooks && s.hooks[h].refs == 1 ==> s.hooks[h].peers == []
    ensures Live(s, h)
    ensures Exact(DropHook(s, h)) && SamePeers(s.hooks, DropHook(s, h).hooks)
  {
    hide NodeCounts, HookCounts, HookLists, PeerLists, Names, Subscriptions, SameLists, SamePeers;
    HeldHook(s, h);
    LiveHook(s, h);
    UnrefHookCounts(s.hooks, s.hookHolds, h);
    PeersFrame(s.hooks, UnrefHook(s.hooks, h), s.own);
    if s.hooks[h].refs == 1 {
      FreeHookExact(s, h);
      DropNodeExact(FreeHook(s, h), s.hooks[h].node);
      LastOrNot(s, h);
    } else {
      SameListOfs(s.nodes, s.hooks, UnrefHook(s.hooks, h));
    }
  }

  /** The state once hook h is freed but the reference it held on its node is not yet given back. */
  function FreeHook(s: State, h: nat): State
    requires h in s.hooks && s.hooks[h].node in s.nodes
  {
    var k := s.hooks[h];
    s.(hooks := s.hooks - {h}, nodes := Unlisted(s.nodes, k, h),
       hookHolds := s.hookHolds - multiset{h}, nodeHolds := s.nodeHolds + multiset{k.node})
  }

  lemma FreeHookExact(s: State, h: nat)
    requires Exact(s) && h in s.hookHolds && h in s.hooks && s.hooks[h].refs == 1 && s.hooks[h].peers == []
    ensures s.hooks[h].node in s.nodes && Exact(FreeHook(s, h))
  {
    hide NodeCounts, HookCounts, EventCounts, HookLists, PeerLists, Names, Subscriptions, SameLists, SamePeers;
    LiveHook(s, h);
    UnrefHookCounts(s.hooks, s.hookHolds, h);
    PeersFrame(s.hooks, UnrefHook(s.hooks, h), s.own);
    UnlistedCounts(s.nodes, s.own, s.nodeHolds, s.hooks[h], h);
    UnlistedLists(s.nodes, s.hooks, h);
    UnlistedSubscriptions(s.nodes, s.events, s.hooks[h], h);
  }

  lemma LastOrNot(s: State, h: nat)
    requires Live(s, h)
    ensures DropHook(s, h) ==
              if s.hooks[h].refs == 1 then DropNode(FreeHook(s, h), s.hooks[h].node)
              else s.(hooks := s.hooks[h := s.hooks[h].(refs := s.hooks[h].refs - 1)],
                      hookHolds := s.hookHolds - multiset{h})
  {
    if s.hooks[h].refs == 1 {
      assert FreeHook(s, h).nodeHolds - multiset{s.hooks[h].node} == s.nodeHolds;
    }
  }

  lemma RefEventExact(s: State, e: nat)
    requires Exact(s) && e in s.events
    ensures Exact(RefEvent(s, e))
  {
    hide NodeCounts, HookCounts, EventCounts, HookLists, PeerLists, Names, Subscriptions;
    RefEventCounts(s.nodes, s.events, s.eventHolds, e);
  }

  lemma HeldEvent(s: State, e: nat)
    requires Exact(s) && e in s.eventHolds
    ensures e in s.events && s.events[e].refs > 0
    ensures s.events[e].refs == 1 ==> s.events[e].nodes == []
  {
  }

  /** The assertion dmm_event_unref makes holds: an event whose last reference goes has no subscribers. */
  lemma DropEventExact(s: State, e: nat)
    requires Exact(s) && e in s.eventHolds
    ensures e in s.events && s.events[e].refs > 0
    ensures s.events[e].refs == 1 ==> s.events[e].nodes == []
    ensures Exact(DropEvent(s, e))
  {
    hide NodeCounts, HookCounts, EventCounts, HookLists, PeerLists, Names, Subscriptions;
    HeldEvent(s, e);
    UnrefEventCounts(s.nodes, s.events, s.eventHolds, e);
  }

  // ---- Hooks ----

  /** The state once a new hook stands at the head of its node's list, with the creator's reference. */
  function NewHook(s: State, n: nat, d: Dir, name: string): State
    requires n in s.nodes
  {
    var k := Hook(name, d, true, n, [], 1);
    var h := s.lastaddress + 1;
    s.(hooks := s.hooks[h := k], nodes := Listed(s.nodes, k, h), lastaddress := h,
       hookHolds := s.hookHolds + multiset{h})
  }

  lemma FreshIds(s: State)
    requires Exact(s)
    ensures s.lastnodeid + 1 !in s.nodes && s.lastnodeid + 1 !in s.nodeHolds && s.lastnodeid + 1 !in s.own
    ensures s.lastaddress + 1 !in s.hooks && s.lastaddress + 1 !in s.hookHolds
    ensures s.lasteventid + 1 !in s.events && s.lasteventid + 1 !in s.eventHolds
  {
  }

  lemma NewHookExact(s: State, n: nat, d: Dir, name: string)
    requires Exact(s) && n in s.nodes && GoodName(name) && NameFree(s.hooks, n, d, name)
    ensures Exact(NewHook(s, n, d, name))
    ensures forall g, h :: Joined(NewHook(s, n, d, name).hooks, g, h) <==> Joined(s.hooks, g, h)
  {
    hide NodeCounts, HookCounts, EventCounts, HookLists, PeerLists, Names, Subscriptions;
    var k := Hook(name, d, true, n, [], 1);
    var h := s.lastaddress + 1;
    FreshIds(s);
    AllocatedCounts(s.hooks, s.hookHolds, s.own, k, h);
    AllocatedPeers(s.hooks, s.own, k, h);
    AllocatedNames(s.hooks, k, h);
    ListedCounts(s.nodes, s.own, s.nodeHolds, k, h);
    ListedLists(s.nodes, s.hooks, k, h);
    ListedSubscriptions(s.nodes, s.events, k, h);
  }

  // ---- Peers ----

  /** h is put at the head of g's peer list, which takes a reference to h. */
  function AddPeer(s: State, g: nat, h: nat): State
    requires g in s.hooks && h in s.hooks
  {
    var hooks1 := s.hooks[h := s.hooks[h].(refs := s.hooks[h].refs + 1)];
    s.(hooks := Peered(hooks1, g, h))
  }

  /** h is taken off g's peer list; the reference the list held is now in the hands of the caller. */
  function TakePeer(s: State, g: nat, h: nat): State
    requires g in s.hooks
  {
    s.(hooks := Unpeer(s.hooks, g, h), hookHolds := s.hookHolds + multiset{h})
  }

  lemma AddPeerExact(s: State, g: nat, h: nat)
    requires Exact(s) && g in s.hooks && h in s.hooks && !Joined(s.hooks, g, h)
    requires s.hooks[g].dir != s.hooks[h].dir && s.hooks[g].node in s.own
    ensures Exact(AddPeer(s, g, h))
    ensures forall x, y :: Joined(AddPeer(s, g, h).hooks, x, y) <==> Joined(s.hooks, x, y) || (x == g && y == h)
  {
    hide NodeCounts, HookCounts, EventCounts, HookLists, PeerLists, Names, Subscriptions;
    var s1 := RefHook(s, h);
    RefHookExact(s, h);
    PeeredJoined(s1.hooks, s.own, g, h);
    PeeredCounts(s1.hooks, s1.hookHolds, s.own, g, h);
    assert s1.hookHolds - multiset{h} == s.hookHolds;
    PeeredPlaces(s.nodes, s1.hooks, g, h);
  }

  lemma PeeredPlaces(nodes: Nodes, hooks: Hooks, g: nat, h: nat)
    requires HookLists(nodes, hooks) && Names(hooks) && g in hooks
    ensures HookLists(nodes, Peered(hooks, g, h)) && Names(Peered(hooks, g, h))
    ensures HookLists(nodes, Unpeer(hooks, g, h)) && Names(Unpeer(hooks, g, h))
  {
    SamePlaces(nodes, hooks, Peered(hooks, g, h));
    SamePlaces(nodes, hooks, Unpeer(hooks, g, h));
  }

  lemma SamePlaces(nodes: Nodes, hooks: Hooks, hooks': Hooks)
    requires HookLists(nodes, hooks) && Names(hooks) && hooks'.Keys == hooks.Keys
    requires forall h :: h in hooks ==> Key(hooks'[h]) == Key(hooks[h])
    ensures HookLists(nodes, hooks') && Names(hooks')
  {
    forall n | n in nodes
      ensures ListOf(nodes[n].inhooks, hooks', n, In) && ListOf(nodes[n].outhooks, hooks', n, Out)
    {
      assert ListOf(nodes[n].inhooks, hooks, n, In) && ListOf(nodes[n].outhooks, hooks, n, Out);
    }
  }

  lemma TakePeerExact(s: State, g: nat, h: nat)
    requires Exact(s) && Joined(s.hooks, g, h)
    ensures Exact(TakePeer(s, g, h))
    ensures forall x, y :: Joined(TakePeer(s, g, h).hooks, x, y) <==> Joined(s.hooks, x, y) && !(x == g && y == h)
  {
    hide NodeCounts, HookCounts, EventCounts, HookLists, PeerLists, Names, Subscriptions;
    UnpeerJoined(s.hooks, s.own, g, h);
    UnpeerCounts(s.hooks, s.hookHolds, s.own, g, h);
    PeeredPlaces(s.nodes, s.hooks, g, h);
  }
}
