/** Connecting and disconnecting: hooks found or created, joined both ways, and let go. */
module GraphConnect {
  import opened Errors
  import opened Lists
  import opened GraphState
  import opened GraphSteps
  import opened GraphRemoval
  import opened GraphLinks

  // ---- What a connection leaves alone ----

  ghost predicate HooksGrown(a: Hooks, b: Hooks) {
    && a.Keys <= b.Keys
    && (forall x :: x in a ==> Key(b[x]) == Key(a[x]) && b[x].valid == a[x].valid)
  }

  ghost predicate NodesSame(a: Nodes, b: Nodes) {
    && b.Keys == a.Keys
    && (forall n :: n in a ==> b[n].valid == a[n].valid && b[n].events == a[n].events)
  }

  /** Hooks may have come; nothing else but hook lists, peer lists and counts has changed. */
  ghost predicate Widened(s: State, t: State) {
    && HooksGrown(s.hooks, t.hooks) && NodesSame(s.nodes, t.nodes)
    && SameRest(s, t.(lastaddress := s.lastaddress)) && s.lastaddress <= t.lastaddress
  }

  /** Peers have come at the head of peer lists; none has gone. */
  ghost predicate PeersGrown(a: Hooks, b: Hooks) {
    forall x :: x in a && a[x].peers != [] ==> x in b && EndsWith(b[x].peers, a[x].peers)
  }

  predicate EndsWith(xs: seq<nat>, ys: seq<nat>) {
    |ys| <= |xs| && xs[|xs| - |ys|..] == ys
  }

  lemma GrownTwice(a: Hooks, b: Hooks, c: Hooks)
    requires PeersGrown(a, b) && PeersGrown(b, c)
    ensures PeersGrown(a, c)
  {
    forall x | x in a && a[x].peers != [] ensures x in c && EndsWith(c[x].peers, a[x].peers) {
      assert b[x].peers != [];
      var p, q, r := a[x].peers, b[x].peers, c[x].peers;
      assert r[|r| - |p|..] == r[|r| - |q|..][|q| - |p|..];
    }
  }

  lemma DropGrows(hooks: Hooks, h: nat)
    requires h in hooks && hooks[h].refs > 0 && (hooks[h].refs == 1 ==> hooks[h].peers == [])
    ensures PeersGrown(hooks, UnrefHook(hooks, h))
  {
  }

  lemma RefGrows(s: State, h: nat)
    requires h in s.hooks
    ensures PeersGrown(s.hooks, RefHook(s, h).hooks)
  {
  }

  lemma NewGrows(s: State, n: nat, d: Dir, name: string)
    requires n in s.nodes && s.lastaddress + 1 !in s.hooks
    ensures PeersGrown(s.hooks, NewHook(s, n, d, name).hooks)
  {
  }

  lemma GotGrows(s: State, t: State, n: nat, d: Dir, name: string, h: nat)
    requires Got(s, t, n, d, name, h)
    ensures PeersGrown(s.hooks, t.hooks)
  {
    if h in s.hooks {
      RefGrows(s, h);
    } else {
      NewGrows(s, n, d, name);
    }
    hide PeersGrown, NewHook, RefHook, NameFree;
  }

  lemma AddPeerGrows(s: State, g: nat, h: nat)
    requires g in s.hooks && h in s.hooks
    ensures PeersGrown(s.hooks, AddPeer(s, g, h).hooks) && AddPeer(s, g, h).hooks.Keys == s.hooks.Keys
  {
    var t := AddPeer(s, g, h);
    forall x | x in s.hooks ensures x in t.hooks && EndsWith(t.hooks[x].peers, s.hooks[x].peers) {
      if x == g {
        assert ([h] + s.hooks[g].peers)[1..] == s.hooks[g].peers;
      }
    }
  }

  lemma JoinGrows(s: State, g: nat, h: nat)
    requires g in s.hooks && h in s.hooks
    ensures PeersGrown(s.hooks, Join(s, g, h).hooks)
  {
    AddPeerGrows(s, g, h);
    AddPeerGrows(AddPeer(s, g, h), h, g);
    hide PeersGrown, AddPeer;
    GrownTwice(s.hooks, AddPeer(s, g, h).hooks, Join(s, g, h).hooks);
  }

  lemma WidenedTwice(s: State, t: State, u: State)
    requires Widened(s, t) && Widened(t, u)
    ensures Widened(s, u)
  {
  }

  // ---- Letting go of a hook between operations ----

  /** Between operations a hook held only by its holder has no peers, so letting go is always allowed. */
  lemma HeldAlone(s: State, h: nat)
    requires Exact(s) && Symmetric(s.hooks) && h in s.hookHolds
    ensures Live(s, h) && (s.hooks[h].refs == 1 ==> s.hooks[h].peers == [])
  {
    HeldHook(s, h);
    LiveHook(s, h);
    if s.hooks[h].peers != [] {
      assert Joined(s.hooks, h, s.hooks[h].peers[0]);
      hide Exact;
      NamedAndHeld(s, h, s.hooks[h].peers[0]);
    }
  }

  lemma CoupledDrop(nodes: Nodes, nodes': Nodes, hooks: Hooks, hooks': Hooks, own: set<nat>, dying: set<nat>)
    requires Coupled(nodes, hooks, own, dying) && HookLists(nodes', hooks')
    requires nodes'.Keys <= nodes.Keys && hooks'.Keys <= hooks.Keys
    requires forall n :: n in nodes' ==> nodes'[n].valid == nodes[n].valid && nodes'[n].events == nodes[n].events
    requires forall h :: h in hooks' ==> hooks'[h].valid == hooks[h].valid && hooks'[h].node == hooks[h].node
    ensures Coupled(nodes', hooks', own, dying)
  {
  }

  lemma UnrefHookFlags(nodes: Nodes, hooks: Hooks, h: nat)
    requires h in hooks && hooks[h].refs > 0 && hooks[h].node in nodes && nodes[hooks[h].node].refs > 0
    ensures var nodes' := UnrefHookNodes(nodes, hooks, h); var hooks' := UnrefHook(hooks, h);
            && nodes'.Keys <= nodes.Keys && HooksKept(hooks, hooks')
            && (forall n :: n in nodes' ==> nodes'[n].valid == nodes[n].valid && nodes'[n].events == nodes[n].events)
  {
  }

  lemma ExactLists(s: State)
    requires Exact(s)
    ensures HookLists(s.nodes, s.hooks) && PeerLists(s.hooks, s.own) && Names(s.hooks)
  {
  }

  /** Letting go of a hook keeps the invariant and every connection. */
  lemma DropHookInv(s: State, h: nat)
    requires Inv(s) && h in s.hookHolds
    ensures Live(s, h) && (s.hooks[h].refs == 1 ==> s.hooks[h].peers == [])
    ensures Inv(DropHook(s, h)) && Links(DropHook(s, h).hooks) == Links(s.hooks)
    ensures HooksKept(s.hooks, DropHook(s, h).hooks)
    ensures forall x, y :: Joined(DropHook(s, h).hooks, x, y) <==> Joined(s.hooks, x, y)
  {
    hide Exact, Symmetric, Coupled, Joined;
    HeldAlone(s, h);
    DropHookExact(s, h);
    var t := DropHook(s, h);
    UnrefHookFlags(s.nodes, s.hooks, h);
    PeersFrame(s.hooks, t.hooks, s.own);
    SamePeersNamedBy(s.hooks, t.hooks);
    ExactLists(s);
    ExactLists(t);
    CoupledDrop(s.nodes, t.nodes, s.hooks, t.hooks, s.own, {});
    hide HookLists, UnrefHookNodes, SamePeers;
    PeersLive(s.hooks, s.own);
    PeersLive(t.hooks, t.own);
    hide PeerLists;
    SameLinks(s.hooks, t.hooks);
  }

  // ---- Getting a hook ----

  /** dmm_hook_get gave hook h of this key with a temporary reference: it was there, or it is new. */
  ghost predicate Got(s: State, t: State, n: nat, d: Dir, name: string, h: nat) {
    if h in s.hooks then
      Key(s.hooks[h]) == (n, d, name) && s.hooks[h].valid && t == RefHook(s, h)
    else
      && n in s.nodes && s.nodes[n].valid && GoodName(name) && NameFree(s.hooks, n, d, name)
      && h == s.lastaddress + 1 && t == NewHook(s, n, d, name)
  }

  /** Whether a hook can be had: an existing one always, a new one if the node still exists, the name is good,
      there is memory, and the node's newhook callback agrees. */
  ghost function GetResult(s: State, n: nat, d: Dir, name: string, memory: bool, verdict: Errno): Errno
    requires n in s.nodes
  {
    if exists h :: h in s.hooks && s.hooks[h].valid && Key(s.hooks[h]) == (n, d, name) then Ok
    else if !s.nodes[n].valid || !GoodName(name) then EINVAL
    else if !memory then ENOMEM
    else verdict
  }

  lemma UniqueName(s: State, n: nat, d: Dir, name: string, h: nat)
    requires Exact(s) && h in s.hooks && Key(s.hooks[h]) == (n, d, name)
    ensures forall x :: x in s.hooks && Key(s.hooks[x]) == (n, d, name) ==> x == h
  {
  }

  lemma ValidHooks(s: State, n: nat)
    requires Inv(s) && n in s.nodes
    ensures forall h :: h in s.hooks && s.hooks[h].node == n ==> s.hooks[h].valid == s.nodes[n].valid
  {
    hide Exact;
  }

  lemma CoupledNew(nodes: Nodes, hooks: Hooks, own: set<nat>, k: Hook, h: nat)
    requires Coupled(nodes, hooks, own, {}) && k.node in nodes && nodes[k.node].valid && k.valid && h !in hooks
    ensures Coupled(Listed(nodes, k, h), hooks[h := k], own, {})
  {
  }

  lemma CoupledRef(nodes: Nodes, hooks: Hooks, own: set<nat>, h: nat, k: Hook)
    requires Coupled(nodes, hooks, own, {}) && h in hooks && k.valid == hooks[h].valid && k.node == hooks[h].node
    ensures Coupled(nodes, hooks[h := k], own, {})
  {
  }

  lemma RefHookInv(s: State, h: nat)
    requires Inv(s) && h in s.hooks
    ensures Inv(RefHook(s, h)) && Links(RefHook(s, h).hooks) == Links(s.hooks)
    ensures forall x, y :: Joined(RefHook(s, h).hooks, x, y) <==> Joined(s.hooks, x, y)
  {
    hide Exact, Symmetric, Coupled, Joined;
    RefHookExact(s, h);
    var t := RefHook(s, h);
    PeersFrame(s.hooks, t.hooks, s.own);
    SamePeersNamedBy(s.hooks, t.hooks);
    CoupledRef(s.nodes, s.hooks, s.own, h, t.hooks[h]);
    hide SamePeers;
    ExactLists(s);
    ExactLists(t);
    PeersLive(s.hooks, s.own);
    PeersLive(t.hooks, t.own);
    hide HookLists, PeerLists;
    SameLinks(s.hooks, t.hooks);
  }

  lemma NewHookInv(s: State, n: nat, d: Dir, name: string)
    requires Inv(s) && n in s.nodes && s.nodes[n].valid && GoodName(name) && NameFree(s.hooks, n, d, name)
    ensures Inv(NewHook(s, n, d, name)) && Links(NewHook(s, n, d, name).hooks) == Links(s.hooks)
    ensures forall x, y :: Joined(NewHook(s, n, d, name).hooks, x, y) <==> Joined(s.hooks, x, y)
  {
    FreshIds(s);
    hide Exact, Coupled, Joined, Listed, NameFree;
    NewHookExact(s, n, d, name);
    var t := NewHook(s, n, d, name);
    CoupledNew(s.nodes, s.hooks, s.own, t.hooks[t.lastaddress], t.lastaddress);
    NewHookLinks(s, n, d, name);
  }

  lemma NewHookLinks(s: State, n: nat, d: Dir, name: string)
    requires Exact(s) && n in s.nodes && s.lastaddress + 1 !in s.hooks && Exact(NewHook(s, n, d, name))
    requires forall x, y :: Joined(NewHook(s, n, d, name).hooks, x, y) <==> Joined(s.hooks, x, y)
    ensures Links(NewHook(s, n, d, name).hooks) == Links(s.hooks)
  {
    hide Exact, Joined, Listed;
    var t := NewHook(s, n, d, name);
    ExactLists(s);
    ExactLists(t);
    PeersLive(s.hooks, s.own);
    PeersLive(t.hooks, t.own);
    hide HookLists, PeerLists;
    SameLinks(s.hooks, t.hooks);
  }

  lemma GotInv(s: State, t: State, n: nat, d: Dir, name: string, h: nat)
    requires Inv(s) && Got(s, t, n, d, name, h)
    ensures Inv(t) && Links(t.hooks) == Links(s.hooks)
    ensures forall x, y :: Joined(t.hooks, x, y) <==> Joined(s.hooks, x, y)
  {
    hide Inv, RefHook, NewHook, Links, Joined;
    if h in s.hooks {
      RefHookInv(s, h);
    } else {
      NewHookInv(s, n, d, name);
    }
  }

  lemma GotRecord(s: State, t: State, n: nat, d: Dir, name: string, h: nat)
    requires Got(s, t, n, d, name, h)
    ensures h in t.hooks && Key(t.hooks[h]) == (n, d, name) && t.hooks[h].valid && h in t.hookHolds
    ensures s.hooks.Keys <= t.hooks.Keys && (forall x :: x in s.hooks && x != h ==> t.hooks[x] == s.hooks[x])
    ensures t.nodes.Keys == s.nodes.Keys && (forall m :: m in s.nodes ==> t.nodes[m].valid == s.nodes[m].valid)
    ensures SameRest(s, t.(lastaddress := s.lastaddress))
  {
  }

  /** A hook that is valid belongs to a node that has not been removed. */
  lemma ValidOwned(s: State, h: nat)
    requires Inv(s) && h in s.hooks && s.hooks[h].valid
    ensures s.hooks[h].node in s.own && s.hooks[h].node in s.nodes && s.nodes[s.hooks[h].node].valid
  {
    ExactLists(s);
    hide Exact;
  }

  lemma UnlistListed(nodes: Nodes, k: Hook, h: nat)
    requires k.node in nodes && nodes[k.node].refs > 0
    ensures UnrefNode(Unlisted(Listed(nodes, k, h), k, h), k.node) == nodes
  {
    assert Without([h] + nodes[k.node].Hooks(k.dir), h) == nodes[k.node].Hooks(k.dir);
  }

  lemma UngetFound(s: State, h: nat, a: nat)
    requires Live(s, h)
    ensures Live(RefHook(s, h).(lastaddress := a), h)
    ensures DropHook(RefHook(s, h).(lastaddress := a), h) == s.(lastaddress := a)
  {
    var t := RefHook(s, h);
    assert t.hooks[h := t.hooks[h].(refs := t.hooks[h].refs - 1)] == s.hooks;
  }

  lemma UngetNew(s: State, n: nat, d: Dir, name: string, a: nat)
    requires n in s.nodes && s.nodes[n].refs > 0 && s.lastaddress + 1 !in s.hooks
    ensures var t := NewHook(s, n, d, name).(lastaddress := a);
            Live(t, s.lastaddress + 1) && DropHook(t, s.lastaddress + 1) == s.(lastaddress := a)
  {
    hide Listed, Unlisted;
    var t := NewHook(s, n, d, name);
    var h := t.lastaddress;
    var k := t.hooks[h];
    ListedNode(s.nodes, k, h);
    UnlistListed(s.nodes, k, h);
    assert t.hooks - {h} == s.hooks;
  }

  /** Letting go of a hook just got undoes the getting: one just created is destroyed. */
  lemma Unget(s: State, t: State, n: nat, d: Dir, name: string, h: nat, a: nat)
    requires Inv(s) && Got(s, t, n, d, name, h)
    ensures Live(t.(lastaddress := a), h)
    ensures DropHook(t.(lastaddress := a), h) == s.(lastaddress := a)
  {
    hide Exact, Symmetric, Coupled, NameFree, DropHook, RefHook, NewHook, Live;
    if h in s.hooks {
      LiveHook(s, h);
      UngetFound(s, h, a);
    } else {
      FreshIds(s);
      LiveNode(s, n);
      UngetNew(s, n, d, name, a);
    }
  }

  lemma LiveNode(s: State, n: nat)
    requires Exact(s) && n in s.nodes
    ensures s.nodes[n].refs > 0
  {
  }

  lemma ListedNode(nodes: Nodes, k: Hook, h: nat)
    requires k.node in nodes
    ensures k.node in Listed(nodes, k, h) && Listed(nodes, k, h)[k.node].refs == nodes[k.node].refs + 1
  {
  }

  // ---- Joining a pair ----

  /** dmm_hook_rmpeer right after dmm_hook_addpeer puts everything back. */
  lemma UndoAddPeer(s: State, g: nat, h: nat)
    requires g in s.hooks && g != h && Live(s, h)
    ensures CanRmPeer(AddPeer(s, g, h), g, h) && Joined(AddPeer(s, g, h).hooks, g, h)
    ensures RmPeer(AddPeer(s, g, h), g, h) == s
  {
    assert Without([h] + s.hooks[g].peers, h) == s.hooks[g].peers;
    assert RmPeer(AddPeer(s, g, h), g, h).hooks == s.hooks;
  }

  /** g is an out hook and h an in hook, both held, of nodes not removed. */
  ghost predicate Joinable(s: State, g: nat, h: nat) {
    && g in s.hooks && h in s.hooks && s.hooks[g].dir == Out && s.hooks[h].dir == In
    && s.hooks[g].node in s.own && s.hooks[h].node in s.own
    && !Joined(s.hooks, g, h)
  }

  function Join(s: State, g: nat, h: nat): State
    requires g in s.hooks && h in s.hooks
  {
    AddPeer(AddPeer(s, g, h), h, g)
  }

  lemma AddPeerRecords(s: State, g: nat, h: nat)
    requires g in s.hooks && h in s.hooks && g != h
    ensures var t := AddPeer(s, g, h);
            && t == s.(hooks := t.hooks) && t.hooks.Keys == s.hooks.Keys
            && (forall x :: x in s.hooks ==> Key(t.hooks[x]) == Key(s.hooks[x]) && t.hooks[x].valid == s.hooks[x].valid)
            && t.hooks[h].refs > s.hooks[h].refs
  {
  }

  lemma JoinExact(s: State, g: nat, h: nat)
    requires Exact(s) && Symmetric(s.hooks) && Joinable(s, g, h)
    ensures Exact(AddPeer(s, g, h)) && !Joined(AddPeer(s, g, h).hooks, h, g)
    ensures Exact(Join(s, g, h)) && Symmetric(Join(s, g, h).hooks)
    ensures forall x, y :: Joined(Join(s, g, h).hooks, x, y) <==>
              Joined(s.hooks, x, y) || (x == g && y == h) || (x == h && y == g)
  {
    hide Exact, AddPeer;
    AddPeerRecords(s, g, h);
    AddPeerExact(s, g, h);
    AddPeerExact(AddPeer(s, g, h), h, g);
  }

  lemma CoupledJoin(nodes: Nodes, hooks: Hooks, hooks': Hooks, own: set<nat>)
    requires Coupled(nodes, hooks, own, {}) && hooks'.Keys == hooks.Keys
    requires forall x :: x in hooks ==> Key(hooks'[x]) == Key(hooks[x]) && hooks'[x].valid == hooks[x].valid
    ensures Coupled(nodes, hooks', own, {})
  {
  }

  lemma JoinInv(s: State, g: nat, h: nat)
    requires Inv(s) && Joinable(s, g, h)
    ensures Inv(Join(s, g, h))
    ensures LinkOf(s.hooks[g], s.hooks[h]) !in Links(s.hooks)
    ensures Links(Join(s, g, h).hooks) == Links(s.hooks) + {LinkOf(s.hooks[g], s.hooks[h])}
  {
    hide Exact, Coupled, AddPeer, Links;
    AddPeerRecords(s, g, h);
    AddPeerRecords(AddPeer(s, g, h), h, g);
    JoinExact(s, g, h);
    CoupledJoin(s.nodes, s.hooks, Join(s, g, h).hooks, s.own);
    hide Symmetric;
    JoinLinks(s, g, h);
  }

  lemma JoinLinks(s: State, g: nat, h: nat)
    requires Inv(s) && Joinable(s, g, h) && Exact(Join(s, g, h)) && Symmetric(Join(s, g, h).hooks)
    ensures LinkOf(s.hooks[g], s.hooks[h]) !in Links(s.hooks)
    ensures Links(Join(s, g, h).hooks) == Links(s.hooks) + {LinkOf(s.hooks[g], s.hooks[h])}
  {
    hide Exact, Coupled, AddPeer, Links, Joined;
    AddPeerRecords(s, g, h);
    AddPeerRecords(AddPeer(s, g, h), h, g);
    JoinExact(s, g, h);
    ExactLists(s);
    ExactLists(Join(s, g, h));
    assert !Joined(s.hooks, h, g);
    hide PeerLists, HookLists, Names, Symmetric, Join;
    LinkJoined(s.hooks, Join(s, g, h).hooks, s.own, g, h);
  }

  lemma LinkJoined(hooks: Hooks, hooks': Hooks, own: set<nat>, g: nat, h: nat)
    requires Names(hooks) && PeerLists(hooks, own) && Names(hooks') && PeerLists(hooks', own)
    requires hooks'.Keys == hooks.Keys
    requires g in hooks && h in hooks && hooks[g].dir.Out? && hooks[h].dir.In?
    requires !Joined(hooks, g, h) && !Joined(hooks, h, g)
    requires forall x, y :: Joined(hooks', x, y) <==> Joined(hooks, x, y) || (x == g && y == h) || (x == h && y == g)
    requires forall x :: x in hooks ==> Key(hooks'[x]) == Key(hooks[x])
    ensures LinkOf(hooks[g], hooks[h]) !in Links(hooks)
    ensures Links(hooks') == Links(hooks) + {LinkOf(hooks[g], hooks[h])}
  {
    var l := LinkOf(hooks[g], hooks[h]);
    LinkIsPair(hooks, own, g, h, l);
    hide Links, PeerLists, Names, Joined;
    assert hooks'[g].dir.Out? && LinkOf(hooks'[g], hooks'[h]) == l;
    OneLink(hooks, hooks', own, g, h);
  }

  // ---- dmm_node_connect ----

  /** How the steps of a connection that are not the runtime's own turn out. */
  datatype Outcomes = Outcomes(
    srcMemory: bool, srcVerdict: Errno, dstMemory: bool, dstVerdict: Errno, entryMemory: bool, backMemory: bool)

  /** When a connection is made, and what stops it otherwise. */
  ghost function ConnectResult(s: State, src: nat, srchook: string, dst: nat, dsthook: string, o: Outcomes): Errno
    requires src in s.nodes && dst in s.nodes
  {
    var first := GetResult(s, src, Out, srchook, o.srcMemory, o.srcVerdict);
    var second := GetResult(s, dst, In, dsthook, o.dstMemory, o.dstVerdict);
    if first != Ok then first
    else if second != Ok then second
    else if Link(src, srchook, dst, dsthook) in Links(s.hooks) then EEXIST
    else if o.entryMemory && o.backMemory then Ok
    else ENOMEM
  }

  lemma BumpInv(s: State, a: nat)
    requires Inv(s) && a >= s.lastaddress
    ensures Inv(s.(lastaddress := a))
  {
    hide NodeCounts, HookCounts, EventCounts, HookLists, PeerLists, Names, Subscriptions, Symmetric, Coupled;
  }

  lemma FoundResult(s: State, t: State, n: nat, d: Dir, name: string, h: nat, memory: bool, verdict: Errno)
    requires n in s.nodes && h in s.hooks && Got(s, t, n, d, name, h)
    ensures GetResult(s, n, d, name, memory, verdict) == Ok
  {
  }

  lemma NotFound(s: State, n: nat, d: Dir, name: string)
    requires n in s.nodes && forall h :: h in s.hooks && Key(s.hooks[h]) == (n, d, name) ==> !s.hooks[h].valid
    requires forall h :: h in s.hooks && s.hooks[h].node == n ==> s.hooks[h].valid == s.nodes[n].valid
    ensures s.nodes[n].valid ==> NameFree(s.hooks, n, d, name)
    ensures !exists h :: h in s.hooks && s.hooks[h].valid && Key(s.hooks[h]) == (n, d, name)
  {
  }

  lemma GotWidens(s: State, t: State, n: nat, d: Dir, name: string, h: nat)
    requires Got(s, t, n, d, name, h)
    ensures Widened(s, t) && t.hookHolds == s.hookHolds + multiset{h} && t.hooks.Keys == s.hooks.Keys + {h}
  {
    if h in s.hooks {
      RefWidens(s, h);
    } else {
      NewWidens(s, n, d, name);
    }
    hide Widened, NameFree, NewHook, RefHook;
  }

  lemma RefWidens(s: State, h: nat)
    requires h in s.hooks
    ensures var t := RefHook(s, h);
            Widened(s, t) && t.hookHolds == s.hookHolds + multiset{h} && t.hooks.Keys == s.hooks.Keys
  {
  }

  lemma NewWidens(s: State, n: nat, d: Dir, name: string)
    requires n in s.nodes && s.lastaddress + 1 !in s.hooks
    ensures var t, h := NewHook(s, n, d, name), s.lastaddress + 1;
            Widened(s, t) && t.hookHolds == s.hookHolds + multiset{h} && t.hooks.Keys == s.hooks.Keys + {h}
  {
  }

  lemma ConnectGrows(s: State, s1: State, s2: State, src: nat, srchook: string, g: nat, dst: nat, dsthook: string,
                     h: nat)
    requires Got(s, s1, src, Out, srchook, g) && Got(s1, s2, dst, In, dsthook, h) && g in s2.hooks && h in s2.hooks
    ensures PeersGrown(s.hooks, Join(s2, g, h).hooks)
  {
    GotGrows(s, s1, src, Out, srchook, g);
    GotGrows(s1, s2, dst, In, dsthook, h);
    JoinGrows(s2, g, h);
    hide Got, PeersGrown, Join;
    GrownTwice(s.hooks, s1.hooks, s2.hooks);
    GrownTwice(s.hooks, s2.hooks, Join(s2, g, h).hooks);
  }

  lemma LetGoGrows(s: State, h: nat)
    requires Inv(s) && h in s.hookHolds
    ensures Live(s, h) && PeersGrown(s.hooks, DropHook(s, h).hooks)
  {
    DropHookInv(s, h);
    HeldAlone(s, h);
    hide Inv;
    DropGrows(s.hooks, h);
    hide PeersGrown, UnrefHook, UnrefHookNodes;
  }

  lemma SameFound(a: Hooks, b: Hooks, g: nat, n: nat, d: Dir, name: string)
    requires HooksGrown(a, b) && b.Keys == a.Keys + {g} && Key(b[g]) != (n, d, name)
    ensures (exists h :: h in b && b[h].valid && Key(b[h]) == (n, d, name)) <==>
            (exists h :: h in a && a[h].valid && Key(a[h]) == (n, d, name))
  {
    if h :| h in a && a[h].valid && Key(a[h]) == (n, d, name) {
      assert h in b && b[h].valid && Key(b[h]) == (n, d, name);
    }
    if h :| h in b && b[h].valid && Key(b[h]) == (n, d, name) {
      assert h in a && a[h].valid && Key(a[h]) == (n, d, name);
    }
  }

  /** Getting the out hook changes nothing that getting the in hook asks about. */
  lemma SecondGet(s: State, s1: State, src: nat, srchook: string, g: nat, dst: nat, dsthook: string, o: Outcomes)
    requires Got(s, s1, src, Out, srchook, g) && src in s.nodes && dst in s.nodes
    ensures dst in s1.nodes
    ensures GetResult(s1, dst, In, dsthook, o.dstMemory, o.dstVerdict) ==
              GetResult(s, dst, In, dsthook, o.dstMemory, o.dstVerdict)
  {
    GotRecord(s, s1, src, Out, srchook, g);
    GotWidens(s, s1, src, Out, srchook, g);
    hide Got, GoodName, HooksGrown, SameRest;
    SameFound(s.hooks, s1.hooks, g, dst, In, dsthook);
  }

  /** Both hooks are held by the caller and belong to nodes not removed. */
  ghost predicate Ends(s: State, g: nat, h: nat, l: Link) {
    && g in s.hookHolds && h in s.hookHolds
    && g in s.hooks && h in s.hooks && s.hooks[g].dir == Out && s.hooks[h].dir == In
    && s.hooks[g].node in s.own && s.hooks[h].node in s.own
    && LinkOf(s.hooks[g], s.hooks[h]) == l
  }

  lemma BothGot(s: State, s1: State, s2: State, src: nat, srchook: string, g: nat, dst: nat, dsthook: string, h: nat)
    requires Inv(s) && Got(s, s1, src, Out, srchook, g) && Got(s1, s2, dst, In, dsthook, h)
    ensures Inv(s2) && Links(s2.hooks) == Links(s.hooks)
    ensures Ends(s2, g, h, Link(src, srchook, dst, dsthook))
  {
    hide Inv, Got, Links, Joined;
    GotInv(s, s1, src, Out, srchook, g);
    GotInv(s1, s2, dst, In, dsthook, h);
    GotRecord(s, s1, src, Out, srchook, g);
    GotRecord(s1, s2, dst, In, dsthook, h);
    GotWidens(s1, s2, dst, In, dsthook, h);
    hide SameRest, NodesSame, HooksGrown;
    ValidOwned(s2, g);
    ValidOwned(s2, h);
  }

  /** Whether the two hooks are joined is whether the link is there. */
  lemma EndsJoined(s: State, g: nat, h: nat, l: Link)
    requires Inv(s) && Ends(s, g, h, l)
    ensures Joined(s.hooks, g, h) <==> l in Links(s.hooks)
  {
    ExactLists(s);
    hide Inv, Joined, Links, HookLists, PeerLists, Names;
    LinkIsPair(s.hooks, s.own, g, h, l);
  }

  lemma InvExact(s: State)
    requires Inv(s)
    ensures Exact(s) && Symmetric(s.hooks)
  {
  }

  lemma DropHolds(t: State, h: nat)
    requires Live(t, h)
    ensures DropHook(t, h).hookHolds == t.hookHolds - multiset{h}
    ensures DropHook(t, h).nodeHolds == t.nodeHolds && DropHook(t, h).eventHolds == t.eventHolds
    ensures t.hooks[h].refs > 1 ==> Widened(t, DropHook(t, h))
    ensures forall x :: x in t.hooks && x != h ==> x in DropHook(t, h).hooks && DropHook(t, h).hooks[x] == t.hooks[x]
  {
  }

  /** A pair just joined is referenced by more than its holder. */
  lemma JoinWidens(s: State, g: nat, h: nat)
    requires g in s.hooks && h in s.hooks && g != h && s.hooks[g].refs > 0 && s.hooks[h].refs > 0
    ensures var t := Join(s, g, h);
            && Widened(s, t) && t.hookHolds == s.hookHolds && t.hooks.Keys == s.hooks.Keys
            && t.hooks[g].refs > 1 && t.hooks[h].refs > 1
  {
  }

  lemma GotFirst(s: State, s1: State, src: nat, srchook: string, g: nat, dst: nat, dsthook: string, o: Outcomes)
    requires Inv(s) && Got(s, s1, src, Out, srchook, g) && src in s.nodes && dst in s.nodes
    ensures Inv(s1) && dst in s1.nodes && g in s1.hookHolds && s1.lastaddress >= s.lastaddress
    ensures GetResult(s1, dst, In, dsthook, o.dstMemory, o.dstVerdict) ==
              GetResult(s, dst, In, dsthook, o.dstMemory, o.dstVerdict)
  {
    hide Inv, Got, GetResult, SameRest, HooksGrown, NodesSame;
    GotInv(s, s1, src, Out, srchook, g);
    GotWidens(s, s1, src, Out, srchook, g);
    SecondGet(s, s1, src, srchook, g, dst, dsthook, o);
  }

  /** Letting go of both hooks when they could not be joined takes back all that getting them did. */
  lemma NotConnected(s: State, s1: State, s2: State, src: nat, srchook: string, g: nat,
                     dst: nat, dsthook: string, h: nat)
    requires Inv(s) && Got(s, s1, src, Out, srchook, g) && Got(s1, s2, dst, In, dsthook, h)
    ensures Live(s2, h) && Live(DropHook(s2, h), g)
    ensures h in s2.hookHolds && g in DropHook(s2, h).hookHolds
    ensures DropHook(DropHook(s2, h), g) == s.(lastaddress := s2.lastaddress)
  {
    hide Inv, Got, DropHook, Live;
    GotInv(s, s1, src, Out, srchook, g);
    GotWidens(s, s1, src, Out, srchook, g);
    GotWidens(s1, s2, dst, In, dsthook, h);
    Unget(s1, s2, dst, In, dsthook, h, s2.lastaddress);
    Unget(s, s1, src, Out, srchook, g, s2.lastaddress);
    assert s2.(lastaddress := s2.lastaddress) == s2;
  }

  lemma Joins(s: State, g: nat, h: nat)
    requires Inv(s) && Joinable(s, g, h) && g in s.hookHolds && h in s.hookHolds
    ensures var t := Join(s, g, h);
            && Inv(t) && Widened(s, t) && t.hookHolds == s.hookHolds && g in t.hooks && h in t.hooks && g != h
            && t.hooks[g].refs > 1 && t.hooks[h].refs > 1
    ensures Links(Join(s, g, h).hooks) == Links(s.hooks) + {LinkOf(s.hooks[g], s.hooks[h])}
  {
    hide Exact, Symmetric, Coupled, Widened, Join, Links;
    JoinInv(s, g, h);
    LiveHook(s, g);
    LiveHook(s, h);
    JoinWidens(s, g, h);
    hide Inv;
  }

  lemma Connected(s: State, s1: State, s2: State, src: nat, srchook: string, g: nat, dst: nat, dsthook: string, h: nat)
    requires Inv(s) && Got(s, s1, src, Out, srchook, g) && Got(s1, s2, dst, In, dsthook, h)
    requires g in s2.hooks && h in s2.hooks && Joinable(s2, g, h)
    ensures var t := Join(s2, g, h);
            && Inv(t) && Links(t.hooks) == Links(s.hooks) + {Link(src, srchook, dst, dsthook)}
            && h in t.hookHolds && Live(t, h) && g in DropHook(t, h).hookHolds && Live(DropHook(t, h), g)
            && DropHook(DropHook(t, h), g).hookHolds == s.hookHolds
            && Widened(s, DropHook(DropHook(t, h), g))
  {
    hide Inv, Got, DropHook, Live, Widened, Join, Links, Joinable;
    BothGot(s, s1, s2, src, srchook, g, dst, dsthook, h);
    Joins(s2, g, h);
    GotBoth(s, s1, s2, src, srchook, g, dst, dsthook, h);
    var t := Join(s2, g, h);
    LetBothGo(t, g, h);
    WidenedTwice(s, s2, t);
    WidenedTwice(s, t, DropHook(DropHook(t, h), g));
    assert s.hookHolds + multiset{g, h} - multiset{g, h} == s.hookHolds;
  }

  lemma GotBoth(s: State, s1: State, s2: State, src: nat, srchook: string, g: nat, dst: nat, dsthook: string, h: nat)
    requires Got(s, s1, src, Out, srchook, g) && Got(s1, s2, dst, In, dsthook, h)
    ensures Widened(s, s2) && s2.hookHolds == s.hookHolds + multiset{g, h} && s2.nodeHolds == s.nodeHolds
  {
    hide Got, HooksGrown, NodesSame;
    GotWidens(s, s1, src, Out, srchook, g);
    GotWidens(s1, s2, dst, In, dsthook, h);
    WidenedTwice(s, s1, s2);
  }

  lemma LetBothGo(t: State, g: nat, h: nat)
    requires Inv(t) && g in t.hookHolds && h in t.hookHolds && g != h && g in t.hooks && h in t.hooks
    requires t.hooks[g].refs > 1 && t.hooks[h].refs > 1
    ensures Live(t, h) && g in DropHook(t, h).hookHolds && Live(DropHook(t, h), g)
    ensures DropHook(DropHook(t, h), g).hookHolds == t.hookHolds - multiset{g, h}
    ensures Widened(t, DropHook(DropHook(t, h), g))
  {
    hide Inv, DropHook, Live, Widened;
    DropHookInv(t, h);
    DropHolds(t, h);
    DropHookInv(DropHook(t, h), g);
    DropHolds(DropHook(t, h), g);
    WidenedTwice(t, DropHook(t, h), DropHook(DropHook(t, h), g));
  }

  // ---- dmm_node_disconnect ----

  /** When a connection is taken apart, and what stops it otherwise. */
  ghost function DisconnectResult(s: State, src: nat, srchook: string, dst: nat, dsthook: string): Errno
    requires src in s.nodes && dst in s.nodes
  {
    if !s.nodes[src].valid || !s.nodes[dst].valid then EINVAL
    else if Link(src, srchook, dst, dsthook) in Links(s.hooks) then Ok
    else ENOENT
  }

  lemma NoHookNoLink(s: State, l: Link)
    requires Inv(s) && (NoSuch(s.hooks, l.src, Out, l.srchook) || NoSuch(s.hooks, l.dst, In, l.dsthook))
    ensures l !in Links(s.hooks)
  {
    InLinks(s.hooks, l);
    ExactLists(s);
    if l in Links(s.hooks) {
      var g, h :| Linked(s.hooks, g, h, l);
      assert Key(s.hooks[g]) == (l.src, Out, l.srchook) && Key(s.hooks[h]) == (l.dst, In, l.dsthook);
      assert Joined(s.hooks, h, g);
      hide Exact;
      ValidIffOwned(s, g);
      ValidIffOwned(s, h);
    }
  }

  lemma InvalidNoLink(s: State, l: Link)
    requires Inv(s) && l.src in s.nodes && l.dst in s.nodes && (!s.nodes[l.src].valid || !s.nodes[l.dst].valid)
    ensures l !in Links(s.hooks)
  {
    ValidHooks(s, l.src);
    ValidHooks(s, l.dst);
    NoHookNoLink(s, l);
  }

  ghost predicate NoSuch(hooks: Hooks, n: nat, d: Dir, name: string) {
    forall h :: h in hooks && Key(hooks[h]) == (n, d, name) ==> !hooks[h].valid
  }

  lemma ValidIffOwned(s: State, h: nat)
    requires Inv(s) && h in s.hooks
    ensures s.hooks[h].valid <==> s.hooks[h].node in s.own
  {
    ExactLists(s);
    hide Exact;
  }

  /** Two held hooks that are joined are parted; both survive, being held. */
  lemma PartHeld(s: State, g: nat, h: nat)
    requires Inv(s) && Joined(s.hooks, g, h) && g in s.hookHolds && h in s.hookHolds
    requires g in s.hooks && s.hooks[g].dir.Out?
    ensures CanPart(s, h, g)
    ensures var s1 := RmPeer(s, g, h);
            && Exact(s1) && g in s1.hooks && h in s1.hooks && Joined(s1.hooks, h, g) && s1.hooks[g].node in s1.own
            && (s1.hooks[g].refs == 1 ==> s1.hooks[g].peers == [])
    ensures h in s.hooks && s.hooks[h].node in s.own && s.hooks[h].refs > 1
    ensures Inv(Part(s, h, g)) && Part(s, h, g).hookHolds == s.hookHolds
    ensures LinkOf(s.hooks[g], s.hooks[h]) in Links(s.hooks)
    ensures Links(Part(s, h, g).hooks) == Links(s.hooks) - {LinkOf(s.hooks[g], s.hooks[h])}
    ensures Shrunk(s, Part(s, h, g), In)
  {
    InvExact(s);
    ExactLists(s);
    hide Exact, Shrunk, Part, RmPeer, Links;
    assert Pair(s, h, g);
    PairCanPart(s, h, g);
    PartExact(s, h, g);
    var t := Part(s, h, g);
    ExactLists(t);
    CoupledShrinks(s, t, In);
    ShrunkKeys(s, t, In);
    hide HookLists, Coupled;
    OneLink(t.hooks, s.hooks, s.own, g, h);
  }

  lemma ShrunkKeys(s: State, t: State, d: Dir)
    requires Shrunk(s, t, d)
    ensures forall x :: x in t.hooks ==> x in s.hooks && Key(t.hooks[x]) == Key(s.hooks[x])
    ensures t.own == s.own
  {
  }

  lemma CoupledShrinks(s: State, t: State, d: Dir)
    requires Coupled(s.nodes, s.hooks, s.own, {}) && Shrunk(s, t, d) && HookLists(t.nodes, t.hooks)
    ensures Coupled(t.nodes, t.hooks, t.own, {})
  {
    CoupledDrop(s.nodes, t.nodes, s.hooks, t.hooks, s.own, {});
  }

  lemma NotJoined(s: State, g: nat, h: nat)
    requires Inv(s) && !Joined(s.hooks, g, h)
    ensures !Joined(s.hooks, h, g)
  {
    hide Exact, Coupled;
  }

  // ---- Holding nodes between operations ----

  lemma CoupledCounts(a: Nodes, b: Nodes, hooks: Hooks, own: set<nat>)
    requires Coupled(a, hooks, own, {}) && HookLists(b, hooks) && b.Keys <= a.Keys
    requires forall n :: n in b ==> b[n].valid == a[n].valid && b[n].events == a[n].events
    ensures Coupled(b, hooks, own, {})
  {
  }

  lemma RefNodeInv(s: State, n: nat)
    requires Inv(s) && n in s.nodes
    ensures Inv(RefNode(s, n))
  {
    hide Exact, Coupled, Symmetric;
    RefNodeExact(s, n);
    ExactLists(RefNode(s, n));
    CoupledCounts(s.nodes, RefNode(s, n).nodes, s.hooks, s.own);
  }

  lemma DropNodeInv(s: State, n: nat)
    requires Inv(s) && n in s.nodeHolds
    ensures n in s.nodes && s.nodes[n].refs > 0
    ensures Inv(DropNode(s, n))
  {
    hide Exact, Coupled, Symmetric;
    DropNodeExact(s, n);
    ExactLists(DropNode(s, n));
    CoupledCounts(s.nodes, DropNode(s, n).nodes, s.hooks, s.own);
  }
}
