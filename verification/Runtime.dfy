/** The running system: nodes joined by hooks, and nodes subscribed to events, reclaimed by count alone. */
module Runtimes {
  import opened Errors
  import opened Lists
  import opened GraphState
  import opened GraphSteps
  import opened GraphRemoval
  import opened GraphLinks
  import opened GraphConnect
  import opened GraphEvents
  import opened GraphNodes

  /** Each subscriber of an event has a record of its own. */
  ghost predicate CellsOf(events: Events, cells: map<nat, seq<nat>>, lastcell: nat) {
    forall e :: e in events ==>
                  && e in cells && |cells[e]| == |events[e].nodes| && NoDup(cells[e])
                  && forall c :: c in cells[e] ==> c <= lastcell
  }

  /** The records of other events are as they were. */
  ghost predicate OnlyCells(a: map<nat, seq<nat>>, b: map<nat, seq<nat>>, e: nat) {
    forall x :: x != e ==> (x in b <==> x in a) && (x in b ==> b[x] == a[x])
  }

  lemma OnlyCellsTwice(a: map<nat, seq<nat>>, b: map<nat, seq<nat>>, c: map<nat, seq<nat>>, e: nat)
    requires OnlyCells(a, b, e) && OnlyCells(b, c, e)
    ensures OnlyCells(a, c, e)
  {
  }

  lemma CellTaken(events: Events, cells: map<nat, seq<nat>>, lastcell: nat, e: nat, i: nat, ens: seq<nat>)
    requires CellsOf(events, cells, lastcell) && e in events && i < |events[e].nodes|
    requires |ens| == |events[e].nodes| - 1
    ensures e in cells && |cells[e]| == |events[e].nodes|
    ensures CellsOf(events[e := events[e].(nodes := ens)], cells[e := cells[e][..i] + cells[e][i + 1..]], lastcell)
  {
    var xs, ys := cells[e], cells[e][..i] + cells[e][i + 1..];
    assert forall k :: 0 <= k < |ys| ==> ys[k] == xs[if k < i then k else k + 1];
    assert NoDup(ys) && forall c :: c in ys ==> c in xs;
    hide NoDup;
  }

  lemma CellsAt(events: Events, cells: map<nat, seq<nat>>, lastcell: nat, e: nat)
    requires CellsOf(events, cells, lastcell) && e in events
    ensures e in cells && |cells[e]| == |events[e].nodes|
  {
  }

  lemma CellAdded(events: Events, cells: map<nat, seq<nat>>, lastcell: nat, e: nat, n: nat, refs: nat)
    requires CellsOf(events, cells, lastcell) && e in events
    ensures e in cells
    ensures CellsOf(events[e := Event(events[e].nodes + [n], refs)], cells[e := cells[e] + [lastcell + 1]],
                    lastcell + 1)
  {
    assert cells[e][..] == cells[e] && forall i :: 0 <= i < |cells[e]| ==> cells[e][i] in cells[e];
    assert NoDup(cells[e] + [lastcell + 1]);
    hide NoDup;
  }

  lemma CellsStay(events: Events, cells: map<nat, seq<nat>>, lastcell: nat, e: nat)
    requires CellsOf(events, cells, lastcell) && e in events && events[e].refs > 0
    ensures CellsOf(UnrefEvent(events, e), cells, lastcell)
    ensures CellsOf(events[e := events[e].(refs := events[e].refs + 1)], cells, lastcell)
  {
  }

  lemma UnrefOnly(events: Events, e: nat)
    requires e in events && events[e].refs > 0
    ensures OnlyEvent(events, UnrefEvent(events, e), e)
    ensures e in UnrefEvent(events, e) ==> UnrefEvent(events, e)[e].nodes == events[e].nodes
  {
  }

  lemma SameRecords(events: Events, cells: map<nat, seq<nat>>, lastcell: nat, e: nat)
    ensures OnlyEvent(events, events, e) && OnlyCells(cells, cells, e)
    ensures CellsOf(events, cells, lastcell) && e in events ==> e in cells
  {
  }

  lemma CellsSet(a: map<nat, seq<nat>>, e: nat, xs: seq<nat>)
    ensures OnlyCells(a, a[e := xs], e)
  {
  }

  lemma AddSubRecords(s: State, e: nat, n: nat)
    requires e in s.events && n in s.nodes
    ensures var t := AddSub(s, e, n);
            && e in t.events && n in t.nodes && t.events[e].nodes == s.events[e].nodes + [n]
            && t.nodes[n].events == [e] + s.nodes[n].events && OnlyEvent(s.events, t.events, e)
  {
  }

  /** Putting both records in is AddSub. */
  lemma RecordsIn(s: State, e: nat, n: nat, ens: seq<nat>, nes: seq<nat>)
    requires e in s.events && n in s.nodes && ens == s.events[e].nodes + [n] && nes == [e] + s.nodes[n].events
    ensures AddSub(s, e, n) ==
            s.(events := s.events[e := Event(ens, s.events[e].refs + 1)],
               nodes := s.nodes[n := s.nodes[n].(events := nes, refs := s.nodes[n].refs + 1)])
  {
  }

  /** Taking both records out is TakeSub, their references being held afterwards. */
  lemma Unlinked(s: State, e: nat, n: nat, ens: seq<nat>, nes: seq<nat>)
    requires e in s.events && n in s.nodes
    requires ens == Without(s.events[e].nodes, n) && nes == Without(s.nodes[n].events, e)
    ensures TakeSub(s, e, n) ==
            s.(events := s.events[e := s.events[e].(nodes := ens)], nodes := s.nodes[n := s.nodes[n].(events := nes)],
               eventHolds := s.eventHolds + multiset{e}, nodeHolds := s.nodeHolds + multiset{n})
  {
  }

  class Runtime {
    var nodes: Nodes
    var hooks: Hooks
    var events: Events
    var lastnodeid: nat
    var lastaddress: nat
    var lasteventid: nat

    ghost var own: set<nat>
    ghost var nodeHolds: multiset<nat>
    ghost var hookHolds: multiset<nat>
    ghost var eventHolds: multiset<nat>
    var creators: set<nat> // events their creator has not removed: its reference is among eventHolds
    var registered: set<nat> // those on the trigger list, which has a reference of its own among eventHolds

    // the addresses of the records in ev_nodes, beside the nodes they name; none is used twice
    var cells: map<nat, seq<nat>>
    var lastcell: nat

    ghost function S(): State
      reads this
    {
      State(nodes, hooks, events, lastnodeid, lastaddress, lasteventid, own, nodeHolds, hookHolds, eventHolds)
    }

    ghost predicate Celled()
      reads this
    {
      CellsOf(events, cells, lastcell)
    }

    /** Before the first node is created. */
    constructor ()
      ensures Celled() && Inv(S()) && nodes == map[] && hooks == map[] && events == map[]
      ensures creators == {} && registered == {}
      ensures nodeHolds == multiset{} && hookHolds == multiset{} && eventHolds == multiset{}
    {
      nodes, hooks, events := map[], map[], map[];
      lastnodeid, lastaddress, lasteventid := 0, 0, 0;
      own, creators, registered := {}, {}, {};
      cells, lastcell := map[], 0;
      nodeHolds, hookHolds, eventHolds := multiset{}, multiset{}, multiset{};
      new;
      hide Inv;
      NothingYet();
    }

    // ---- References ----

    method NodeRef(n: nat)
      requires Exact(S()) && n in nodes
      modifies this`nodes, this`nodeHolds
      ensures Exact(S()) && S() == RefNode(old(S()), n)
    {
      hide Exact;
      RefNodeExact(S(), n);
      nodes := nodes[n := nodes[n].(refs := nodes[n].refs + 1)];
      nodeHolds := nodeHolds + multiset{n};
    }

    /** The assertions are the source's: a node that goes has no hooks. */
    method NodeUnref(n: nat)
      requires Exact(S()) && n in nodeHolds
      modifies this`nodes, this`nodeHolds
      ensures Exact(S()) && S() == DropNode(old(S()), n)
    {
      hide Exact;
      DropNodeExact(S(), n);
      var refs := nodes[n].refs - 1;
      if refs == 0 {
        assert nodes[n].inhooks == [];
        assert nodes[n].outhooks == [];
        nodes := nodes - {n};
      } else {
        nodes := nodes[n := nodes[n].(refs := refs)];
      }
      nodeHolds := nodeHolds - multiset{n};
    }

    method HookRef(h: nat)
      requires Exact(S()) && h in hooks
      modifies this`hooks, this`hookHolds
      ensures Exact(S()) && S() == RefHook(old(S()), h)
    {
      hide Exact;
      RefHookExact(S(), h);
      hooks := hooks[h := hooks[h].(refs := hooks[h].refs + 1)];
      hookHolds := hookHolds + multiset{h};
    }

    /** Unlink a hook without references from its node and free it; its reference to the node is now ours. */
    method HookFree(h: nat)
      requires Exact(S()) && h in hookHolds && h in hooks && hooks[h].refs == 1 && hooks[h].peers == []
      modifies this`nodes, this`hooks, this`nodeHolds, this`hookHolds
      ensures old(hooks)[h].node in old(nodes)
      ensures Exact(S()) && S() == FreeHook(old(S()), h)
    {
      hide Exact, Unlisted;
      FreeHookExact(S(), h);
      var k := hooks[h];
      nodes := Unlisted(nodes, k, h);
      hooks := hooks - {h};
      hookHolds := hookHolds - multiset{h};
      nodeHolds := nodeHolds + multiset{k.node};
    }

    /** A hook that goes has no peers, and gives back its reference to its node. */
    method HookUnref(h: nat)
      requires Exact(S()) && h in hookHolds
      requires h in hooks && hooks[h].refs == 1 ==> hooks[h].peers == []
      modifies this`nodes, this`hooks, this`nodeHolds, this`hookHolds
      ensures Exact(S()) && S() == DropHook(old(S()), h)
    {
      hide Exact, DropHook, DropNode, UnrefHook, UnrefHookNodes, Unlisted;
      HeldHook(S(), h);
      DropHookExact(S(), h);
      LastOrNot(S(), h);
      var k := hooks[h];
      if k.refs == 1 {
        assert k.peers == [];
        HookFree(h);
        NodeUnref(k.node);
      } else {
        hooks := hooks[h := k.(refs := k.refs - 1)];
        hookHolds := hookHolds - multiset{h};
      }
    }

    // ---- Peers ----

    /** Add h to the peers of g, unless it is one already or there is no memory for the entry. */
    method HookAddPeer(g: nat, h: nat, memory: bool) returns (err: Errno)
      requires Exact(S()) && g in hooks && h in hooks
      requires hooks[g].dir != hooks[h].dir && hooks[g].node in own
      modifies this`hooks
      ensures err == if Joined(old(hooks), g, h) then EEXIST else if !memory then ENOMEM else Ok
      ensures Exact(S()) && S() == if err == Ok then AddPeer(old(S()), g, h) else old(S())
    {
      hide Exact;
      var peers := hooks[g].peers;
      var i := 0;
      while i < |peers|
        invariant 0 <= i <= |peers| && h !in peers[..i]
      {
        if peers[i] == h {
          return EEXIST;
        }
        i := i + 1;
      }
      if !memory {
        return ENOMEM;
      }
      AddPeerExact(S(), g, h);
      hooks := hooks[g := hooks[g].(peers := [h] + peers)];
      hooks := hooks[h := hooks[h].(refs := hooks[h].refs + 1)];
      assert hooks == AddPeer(old(S()), g, h).hooks;
      return Ok;
    }

    /** Remove h from the peers of g, and give back the reference the entry held. */
    method HookRmPeer(g: nat, h: nat) returns (err: Errno)
      requires Exact(S()) && g in hooks && h in hooks
      requires Joined(hooks, g, h) ==>
                 hooks[h].node in own && (hooks[h].refs == 1 ==> hooks[h].peers == [])
      modifies this`nodes, this`hooks, this`nodeHolds, this`hookHolds
      ensures err == if Joined(old(hooks), g, h) then Ok else ENOENT
      ensures err != Ok ==> S() == old(S())
      ensures err == Ok ==> CanRmPeer(old(S()), g, h) && Exact(S()) && S() == RmPeer(old(S()), g, h)
    {
      hide Exact, DropHook;
      var peers := hooks[g].peers;
      var i := 0;
      while i < |peers| && peers[i] != h
        invariant 0 <= i <= |peers| && h !in peers[..i]
      {
        i := i + 1;
      }
      if i == |peers| {
        return ENOENT;
      }
      PeersDiffer(S(), g, h);
      TakePeerExact(S(), g, h);
      RmPeerExact(S(), g, h);
      WithoutAt(peers, h, i);
      hooks := hooks[g := hooks[g].(peers := peers[..i] + peers[i + 1..])];
      hookHolds := hookHolds + multiset{h};
      assert S() == TakePeer(old(S()), g, h);
      HookUnref(h);
      return Ok;
    }

    // ---- Hooks ----

    /** Remove hook h from all its peers, and all its peers from h, walking the list that loses its cells. */
    method HookRm(h: nat)
      requires Exact(S()) && Symmetric(hooks) && h in hooks && hooks[h].node in own
      modifies this`nodes, this`hooks, this`nodeHolds, this`hookHolds
      ensures HookRemoved(old(S()), S(), h)
    {
      hide Exact, Symmetric, Parting, RmPeer, HookRemoved, Live;
      PartingBegins(S(), h);
      HookRef(h);
      hooks := hooks[h := hooks[h].(valid := false)];
      ghost var s1 := S();
      assert s1 == Invalidate(RefHook(old(S()), h), h);
      hide RefHook, Invalidate, CanRmPeer, CanPart, Joined;
      // `rest` is the list from the saved next entry on: the removals must leave it as it is
      var rest := hooks[h].peers;
      while rest != []
        invariant Parting(s1, S(), h, rest)
        decreases |rest|
      {
        var p, saved := rest[0], rest[1..];
        assert rest == [p] + saved;
        ghost var t := S();
        PartingStep(s1, t, h, p, saved);
        PartExact(t, h, p);
        PairCanPart(t, h, p);
        var _ := HookRmPeer(p, h);
        var _ := HookRmPeer(h, p);
        assert S() == Part(t, h, p);
        rest := saved;
      }
      PartingEnds(old(S()), S(), h);
      HookUnref(h);
    }

    /** Find the valid hook of node n with this direction and name, and take a reference to it. */
    method HookFind(n: nat, d: Dir, name: string) returns (r: Option<nat>)
      requires Inv(S()) && n in nodes
      modifies this`hooks, this`hookHolds
      ensures r.Some? ==> r.value in old(hooks) && Got(old(S()), S(), n, d, name, r.value)
      ensures r.None? ==> S() == old(S())
      ensures r.None? ==> forall h :: h in hooks && Key(hooks[h]) == (n, d, name) ==> !hooks[h].valid
    {
      hide Symmetric, Coupled, NodeCounts, HookCounts, EventCounts, PeerLists, Names, Subscriptions, NoDup;
      var list := nodes[n].Hooks(d);
      assert forall x :: x in list <==> x in hooks && hooks[x].node == n && hooks[x].dir == d;
      hide Exact, HookLists;
      var i := 0;
      while i < |list| && hooks[list[i]].name != name
        invariant 0 <= i <= |list|
        invariant forall j :: 0 <= j < i ==> hooks[list[j]].name != name
      {
        i := i + 1;
      }
      if i == |list| {
        return None;
      }
      UniqueName(S(), n, d, name, list[i]);
      if !hooks[list[i]].valid {
        return None;
      }
      HookRef(list[i]);
      return Some(list[i]);
    }

    /** Create a hook in node n with a temporary reference. `memory` and `verdict` are the outcome of the
        allocation and what the node's newhook callback returned. */
    method HookCreate(n: nat, d: Dir, name: string, memory: bool, verdict: Errno) returns (err: Errno, h: nat)
      requires Inv(S()) && n in nodes
      requires nodes[n].valid ==> NameFree(hooks, n, d, name)
      modifies this`nodes, this`hooks, this`hookHolds, this`lastaddress
      ensures err == if !old(nodes)[n].valid || name == "" || |name| >= 32 || '[' in name || ']' in name then EINVAL
                     else if !memory then ENOMEM else verdict
      ensures err == Ok ==> Got(old(S()), S(), n, d, name, h)
      ensures err != Ok ==> S() == old(S()).(lastaddress := lastaddress) && lastaddress >= old(lastaddress)
    {
      hide Exact, Symmetric, Coupled;
      h := 0;
      if !nodes[n].valid || name == "" {
        return EINVAL, h;
      }
      var i := 0;
      while i < 31 && i < |name| && name[i] != '[' && name[i] != ']'
        invariant 0 <= i <= 31 && i <= |name|
        invariant '[' !in name[..i] && ']' !in name[..i]
      {
        i := i + 1;
      }
      if i < |name| {
        assert |name| >= 32 || name[i] == '[' || name[i] == ']';
        return EINVAL, h;
      }
      assert name[..i] == name;
      if !memory {
        return ENOMEM, h;
      }
      FreshIds(S());
      lastaddress := lastaddress + 1;
      h := lastaddress;
      if verdict != Ok {
        return verdict, h; // freed at once: the hook was never listed
      }
      var k := Hook(name, d, true, n, [], 1);
      nodes := Listed(nodes, k, h);
      hooks := hooks[h := k];
      hookHolds := hookHolds + multiset{h};
      return Ok, h;
    }

    /** Find an existing hook or create a new one. */
    method HookGet(n: nat, d: Dir, name: string, memory: bool, verdict: Errno) returns (err: Errno, h: nat)
      requires Inv(S()) && n in nodes
      modifies this`nodes, this`hooks, this`hookHolds, this`lastaddress
      ensures err == GetResult(old(S()), n, d, name, memory, verdict)
      ensures err == Ok ==> Got(old(S()), S(), n, d, name, h)
      ensures err != Ok ==> S() == old(S()).(lastaddress := lastaddress) && lastaddress >= old(lastaddress)
    {
      hide Inv, Got, Key;
      ValidHooks(S(), n);
      var r := HookFind(n, d, name);
      if r.Some? {
        FoundResult(old(S()), S(), n, d, name, r.value, memory, verdict);
        return Ok, r.value;
      }
      NotFound(S(), n, d, name);
      err, h := HookCreate(n, d, name, memory, verdict);
    }

    // ---- Connections ----

    /** Join two held hooks both ways, or neither: the entry made first is taken back if the second cannot be. */
    method ConnectHooks(g: nat, h: nat, entryMemory: bool, backMemory: bool) returns (err: Errno)
      requires Inv(S()) && g in hookHolds && h in hookHolds && g in hooks && h in hooks
      requires hooks[g].dir == Out && hooks[h].dir == In && hooks[g].node in own && hooks[h].node in own
      modifies this`nodes, this`hooks, this`nodeHolds, this`hookHolds
      ensures err == if Joined(old(hooks), g, h) then EEXIST
                     else if entryMemory && backMemory then Ok else ENOMEM
      ensures err != Ok ==> S() == old(S())
      ensures nodeHolds == old(nodeHolds)
      ensures err == Ok ==> Joinable(old(S()), g, h) && S() == Join(old(S()), g, h)
    {
      InvExact(S());
      HeldAlone(S(), h);
      LiveHook(S(), h);
      hide Inv, Exact, Symmetric, AddPeer, RmPeer, Live, Joined;
      ghost var s := S();
      err := HookAddPeer(g, h, entryMemory);
      if err == Ok {
        JoinExact(s, g, h);
        AddPeerRecords(s, g, h);
        err := HookAddPeer(h, g, backMemory);
        if err != Ok {
          UndoAddPeer(s, g, h);
          var _ := HookRmPeer(g, h);
          assert S() == s;
        }
      }
    }

    /** Connect out hook `srchook` of node src to in hook `dsthook` of node dst, creating the hooks that do
        not exist. `o` says how the allocations and the newhook callbacks on the way turn out. */
    method NodeConnect(src: nat, srchook: string, dst: nat, dsthook: string, o: Outcomes) returns (err: Errno)
      requires Inv(S()) && src in nodes && dst in nodes
      modifies this`nodes, this`hooks, this`nodeHolds, this`hookHolds, this`lastaddress
      ensures err == ConnectResult(old(S()), src, srchook, dst, dsthook, o)
      ensures Inv(S()) && hookHolds == old(hookHolds) && nodeHolds == old(nodeHolds)
      ensures err != Ok ==> S() == old(S()).(lastaddress := lastaddress)
      ensures err == Ok ==>
                && Links(hooks) == old(Links(hooks)) + {Link(src, srchook, dst, dsthook)}
                && Link(src, srchook, dst, dsthook) !in old(Links(hooks))
                && Widened(old(S()), S()) && PeersGrown(old(hooks), hooks)
    {
      hide Inv, Exact, Got, Links, Widened, GetResult, Join, DropHook, Live, PeersGrown;
      ghost var s := S();
      var g, h;
      err, g := HookGet(src, Out, srchook, o.srcMemory, o.srcVerdict);
      if err != Ok {
        BumpInv(s, lastaddress);
        return;
      }
      ghost var s1 := S();
      GotFirst(s, s1, src, srchook, g, dst, dsthook, o);
      err, h := HookGet(dst, In, dsthook, o.dstMemory, o.dstVerdict);
      if err != Ok {
        BumpInv(s1, lastaddress);
        BumpInv(s, lastaddress);
        Unget(s, s1, src, Out, srchook, g, lastaddress);
        LetGo(g);
        return;
      }
      err := ConnectGot(s, s1, src, srchook, g, dst, dsthook, h, o.entryMemory, o.backMemory);
    }

    /** The rest of a connection once both hooks are held. */
    method ConnectGot(ghost s: State, ghost s1: State, ghost src: nat, ghost srchook: string, g: nat,
                      ghost dst: nat, ghost dsthook: string, h: nat, entryMemory: bool, backMemory: bool)
      returns (err: Errno)
      requires Inv(s) && Got(s, s1, src, Out, srchook, g) && Got(s1, S(), dst, In, dsthook, h)
      modifies this`nodes, this`hooks, this`nodeHolds, this`hookHolds
      ensures err == if Link(src, srchook, dst, dsthook) in Links(s.hooks) then EEXIST
                     else if entryMemory && backMemory then Ok else ENOMEM
      ensures Inv(S()) && hookHolds == s.hookHolds && nodeHolds == s.nodeHolds
      ensures err != Ok ==> S() == s.(lastaddress := lastaddress)
      ensures err == Ok ==>
                && Links(hooks) == Links(s.hooks) + {Link(src, srchook, dst, dsthook)} && Widened(s, S())
                && PeersGrown(s.hooks, hooks)
    {
      hide Inv, Exact, Got, Links, Widened, Join, DropHook, Live, Joined, PeersGrown;
      ghost var l := Link(src, srchook, dst, dsthook);
      ghost var s2 := S();
      BothGot(s, s1, s2, src, srchook, g, dst, dsthook, h);
      EndsJoined(s2, g, h, l);
      err := ConnectHooks(g, h, entryMemory, backMemory);
      GotBoth(s, s1, s2, src, srchook, g, dst, dsthook, h);
      if err == Ok {
        Connected(s, s1, s2, src, srchook, g, dst, dsthook, h);
        ConnectGrows(s, s1, s2, src, srchook, g, dst, dsthook, h);
      } else {
        NotConnected(s, s1, s2, src, srchook, g, dst, dsthook, h);
      }
      ghost var joined := hooks;
      LetGo(h);
      ghost var between := hooks;
      LetGo(g);
      GrownTwice(joined, between, hooks);
      if err == Ok {
        GrownTwice(s.hooks, joined, hooks);
      }
    }

    /** Take apart the connection between two named hooks. */
    method NodeDisconnect(src: nat, srchook: string, dst: nat, dsthook: string) returns (err: Errno)
      requires Inv(S()) && src in nodes && dst in nodes
      modifies this`nodes, this`hooks, this`nodeHolds, this`hookHolds
      ensures err == DisconnectResult(old(S()), src, srchook, dst, dsthook)
      ensures Inv(S()) && hookHolds == old(hookHolds) && nodeHolds == old(nodeHolds)
      ensures err != Ok ==> S() == old(S())
      ensures Links(hooks) == old(Links(hooks)) - {Link(src, srchook, dst, dsthook)}
    {
      hide Inv, Exact, Got, Links, DropHook, Live;
      ghost var s := S();
      ghost var l := Link(src, srchook, dst, dsthook);
      if !nodes[src].valid || !nodes[dst].valid {
        InvalidNoLink(s, l);
        return EINVAL;
      }
      var g := HookFind(src, Out, srchook);
      if g.None? {
        NoHookNoLink(s, l);
        return ENOENT;
      }
      ghost var s1 := S();
      GotInv(s, s1, src, Out, srchook, g.value);
      GotWidens(s, s1, src, Out, srchook, g.value);
      var h := HookFind(dst, In, dsthook);
      if h.None? {
        NoHookNoLink(s1, l);
        Unget(s, s1, src, Out, srchook, g.value, lastaddress);
        LetGo(g.value);
        return ENOENT;
      }
      err := DisconnectHooks(s, s1, src, srchook, g.value, dst, dsthook, h.value);
    }

    /** Part two held hooks, if they are joined. */
    method PartHooks(g: nat, h: nat) returns (err: Errno)
      requires Inv(S()) && g in hookHolds && h in hookHolds && g in hooks && h in hooks && hooks[g].dir.Out?
      modifies this`nodes, this`hooks, this`nodeHolds, this`hookHolds
      ensures err == if Joined(old(hooks), g, h) then Ok else ENOENT
      ensures Inv(S()) && hookHolds == old(hookHolds) && nodeHolds == old(nodeHolds)
      ensures err != Ok ==> S() == old(S())
      ensures err == Ok ==> Links(hooks) == old(Links(hooks)) - {LinkOf(old(hooks)[g], old(hooks)[h])}
    {
      InvExact(S());
      hide Inv, Exact, Symmetric, RmPeer, CanRmPeer, Joined, Shrunk, Links, Live;
      ghost var s := S();
      if Joined(s.hooks, g, h) {
        PartHeld(s, g, h);
      } else {
        NotJoined(s, g, h);
      }
      err := HookRmPeer(g, h);
      err := HookRmPeer(h, g);
    }

    /** The rest of a disconnection once both hooks are held. */
    method DisconnectHooks(ghost s: State, ghost s1: State, ghost src: nat, ghost srchook: string, g: nat,
                           ghost dst: nat, ghost dsthook: string, h: nat)
      returns (err: Errno)
      requires Inv(s) && Got(s, s1, src, Out, srchook, g) && Got(s1, S(), dst, In, dsthook, h)
      modifies this`nodes, this`hooks, this`nodeHolds, this`hookHolds
      ensures err == if Link(src, srchook, dst, dsthook) in Links(s.hooks) then Ok else ENOENT
      ensures Inv(S()) && hookHolds == s.hookHolds && nodeHolds == s.nodeHolds
      ensures err != Ok ==> S() == s.(lastaddress := lastaddress)
      ensures Links(hooks) == Links(s.hooks) - {Link(src, srchook, dst, dsthook)}
    {
      hide Inv, Exact, Got, Links, DropHook, Live, Joined, Widened;
      ghost var l := Link(src, srchook, dst, dsthook);
      ghost var s2 := S();
      BothGot(s, s1, s2, src, srchook, g, dst, dsthook, h);
      EndsJoined(s2, g, h, l);
      GotBoth(s, s1, s2, src, srchook, g, dst, dsthook, h);
      NotConnected(s, s1, s2, src, srchook, g, dst, dsthook, h);
      hide Ends;
      err := PartHooks(g, h);
      assert s.hookHolds + multiset{g, h} - multiset{h} - multiset{g} == s.hookHolds;
      LetGo(h);
      LetGo(g);
    }

    /** DMM_HOOK_UNREF between operations. */
    method LetGo(h: nat)
      requires Inv(S()) && h in hookHolds
      modifies this`nodes, this`hooks, this`nodeHolds, this`hookHolds
      ensures Live(old(S()), h) && S() == DropHook(old(S()), h)
      ensures Inv(S()) && Links(hooks) == old(Links(hooks))
      ensures hookHolds == old(hookHolds) - multiset{h} && nodeHolds == old(nodeHolds)
      ensures PeersGrown(old(hooks), hooks)
    {
      LetGoGrows(S(), h);
      hide Inv, Exact, Links, DropHook, Live, PeersGrown;
      DropHookInv(S(), h);
      DropHolds(S(), h);
      InvExact(S());
      HookUnref(h);
    }

    // ---- Events ----

    /** Initialize an event; its creator holds the one reference. */
    method EventInit() returns (e: nat)
      requires Inv(S())
      modifies this`events, this`lasteventid, this`eventHolds, this`creators, this`cells
      ensures old(Celled()) ==> Celled()
      ensures Inv(S()) && S() == NewEvent(old(S())) && e == lasteventid
      ensures creators == old(creators) + {e} && e !in old(events) && cells == old(cells)[e := []]
    {
      hide Inv;
      NewEventInv(S());
      lasteventid := lasteventid + 1;
      e := lasteventid;
      events := events[e := Event([], 1)];
      cells := cells[e := []];
      eventHolds := eventHolds + multiset{e};
      creators := creators + {e};
    }

    method EventRef(e: nat)
      requires Exact(S()) && e in events
      modifies this`events, this`eventHolds
      ensures Exact(S()) && S() == RefEvent(old(S()), e)
    {
      hide Exact;
      RefEventExact(S(), e);
      events := events[e := events[e].(refs := events[e].refs + 1)];
      eventHolds := eventHolds + multiset{e};
    }

    /** The assertion is the source's: an event that goes has no subscribers. */
    method EventUnref(e: nat)
      requires Exact(S()) && e in eventHolds
      modifies this`events, this`eventHolds
      ensures Exact(S()) && S() == DropEvent(old(S()), e)
    {
      hide Exact;
      DropEventExact(S(), e);
      var refs := events[e].refs - 1;
      if refs == 0 {
        assert events[e].nodes == [];
        events := events - {e}; // the event's destructor frees it
      } else {
        events := events[e := events[e].(refs := refs)];
      }
      eventHolds := eventHolds - multiset{e};
    }

    method IsSubscribed(e: nat, n: nat) returns (r: bool)
      requires Exact(S()) && e in events && n in nodes
      ensures r <==> Sub(events, e, n) > 0
    {
      BothRecords(S(), e, n);
      hide Exact;
      var list := nodes[n].events;
      var i := 0;
      while i < |list|
        invariant 0 <= i <= |list| && e !in list[..i]
      {
        if list[i] == e {
          return true;
        }
        i := i + 1;
      }
      return false;
    }

    /** Subscribe without asking whether the node already is. */
    method EventSubscribe(e: nat, n: nat, eventMemory: bool, nodeMemory: bool) returns (err: Errno)
      requires Inv(S()) && Celled() && e in events && n in nodes && nodes[n].valid
      modifies this`nodes, this`events, this`cells, this`lastcell
      ensures Celled() && e in old(cells) && e in events && n in nodes
      ensures err == Ok ==> lastcell == old(lastcell) + 1 && cells == old(cells)[e := old(cells)[e] + [lastcell]]
      ensures err == Ok ==>
                events[e].nodes == old(events)[e].nodes + [n] && nodes[n].events == [e] + old(nodes)[n].events
      ensures OnlyEvent(old(events), events, e) && (err != Ok ==> cells == old(cells) && lastcell == old(lastcell))
      ensures err == if eventMemory && nodeMemory then Ok else ENOMEM
      ensures Inv(S()) && S() == if err == Ok then AddSub(old(S()), e, n) else old(S())
    {
      hide Inv, CellsOf, OnlyEvent, AddSub;
      SameRecords(events, cells, lastcell, e);
      if !eventMemory {
        return ENOMEM;
      }
      if !nodeMemory {
        return ENOMEM;
      }
      AddSubRecords(S(), e, n);
      MakeRecords(e, n);
      return Ok;
    }

    /** Both records and their references. */
    method MakeRecords(e: nat, n: nat)
      requires Inv(S()) && Celled() && e in events && n in nodes && nodes[n].valid && e in cells
      modifies this`nodes, this`events, this`cells, this`lastcell
      ensures lastcell == old(lastcell) + 1 && cells == old(cells)[e := old(cells)[e] + [lastcell]]
      ensures Celled() && Inv(S()) && S() == AddSub(old(S()), e, n)
    {
      hide Inv, CellsOf;
      AddSubInv(S(), e, n);
      CellAdded(events, cells, lastcell, e, n, events[e].refs + 1);
      var ev, nd := events[e], nodes[n];
      var ens, nes := ev.nodes + [n], [e] + nd.events;
      RecordsIn(S(), e, n, ens, nes);
      hide AddSub;
      events := events[e := Event(ens, ev.refs + 1)];
      lastcell := lastcell + 1;
      cells := cells[e := cells[e] + [lastcell]];
      nodes := nodes[n := nd.(events := nes, refs := nd.refs + 1)];
    }

    /** Subscribe unless the node already is. */
    method EventCheckedSubscribe(e: nat, n: nat, eventMemory: bool, nodeMemory: bool) returns (err: Errno)
      requires Inv(S()) && Celled() && e in events && n in nodes && nodes[n].valid
      modifies this`nodes, this`events, this`cells, this`lastcell
      ensures Celled() && e in old(cells) && e in events
      ensures old(Sub(events, e, n)) == 0 && err == Ok ==>
                && lastcell == old(lastcell) + 1 && cells == old(cells)[e := old(cells)[e] + [lastcell]]
                && events[e].nodes == old(events)[e].nodes + [n]
      ensures old(Sub(events, e, n)) > 0 || err != Ok ==> cells == old(cells) && lastcell == old(lastcell)
      ensures OnlyEvent(old(events), events, e)
      ensures err == if old(Sub(events, e, n)) > 0 || (eventMemory && nodeMemory) then Ok else ENOMEM
      ensures Inv(S())
      ensures S() == if old(Sub(events, e, n)) > 0 || err != Ok then old(S()) else AddSub(old(S()), e, n)
    {
      InvExact(S());
      hide Inv, Exact, CellsOf, OnlyEvent, AddSub;
      SameRecords(events, cells, lastcell, e);
      var subscribed := IsSubscribed(e, n);
      if subscribed {
        return Ok;
      }
      err := EventSubscribe(e, n, eventMemory, nodeMemory);
    }

    /** Remove one subscription from both records, and give back the two references it held. */
    method EventUnsubscribe(e: nat, n: nat) returns (err: Errno)
      requires Exact(S()) && Celled() && e in events && n in nodes
      modifies this`nodes, this`events, this`nodeHolds, this`eventHolds, this`cells
      ensures Celled()
      ensures err == if old(Sub(events, e, n)) > 0 then Ok else ENOENT
      ensures err != Ok ==> S() == old(S()) && cells == old(cells)
      ensures err == Ok ==> CanUnsub(old(S()), e, n) && Exact(S()) && S() == Unsub(old(S()), e, n)
      ensures err == Ok ==> OnlyEvent(old(events), events, e) && OnlyCells(old(cells), cells, e)
      ensures err == Ok && e in events ==> events[e].nodes == Without(old(events)[e].nodes, n)
    {
      hide Exact, DropNode, UnrefEvent, CellsOf, NoDup, OnlyEvent, OnlyCells, Without;
      BothRecords(S(), e, n);
      var i := Search(events[e].nodes, n);
      if i == |events[e].nodes| {
        return ENOENT;
      }
      var j := Search(nodes[n].events, e);
      assert j < |nodes[n].events|;
      UnsubExact(S(), e, n);
      TakeRecords(e, n, i, j);
      CellsStay(events, cells, lastcell, e);
      UnrefOnly(events, e);
      OnlyEventTwice(old(events), events, UnrefEvent(events, e), e);
      EventUnref(e);
      NodeUnref(n);
      return Ok;
    }

    /** The first place of x in a list, or its end. */
    static method Search(xs: seq<nat>, x: nat) returns (i: nat)
      ensures i <= |xs| && x !in xs[..i] && (i < |xs| ==> xs[i] == x)
      ensures i == |xs| ==> x !in xs
    {
      i := 0;
      while i < |xs| && xs[i] != x
        invariant i <= |xs| && x !in xs[..i]
      {
        i := i + 1;
      }
    }

    /** Unlink the records found, the i-th of the event and the j-th of the node; their references are now ours. */
    method TakeRecords(e: nat, n: nat, i: nat, j: nat)
      requires e in events && n in nodes && Celled()
      requires i < |events[e].nodes| && events[e].nodes[i] == n && n !in events[e].nodes[..i]
      requires j < |nodes[n].events| && nodes[n].events[j] == e && e !in nodes[n].events[..j]
      modifies this`nodes, this`events, this`nodeHolds, this`eventHolds, this`cells
      ensures Celled() && S() == TakeSub(old(S()), e, n)
      ensures events == old(events)[e := old(events)[e].(nodes := Without(old(events)[e].nodes, n))]
      ensures OnlyEvent(old(events), events, e) && OnlyCells(old(cells), cells, e)
    {
      hide CellsOf, Without, NoDup, OnlyEvent, OnlyCells;
      var ens, nes := events[e].nodes, nodes[n].events;
      var ens', nes' := ens[..i] + ens[i + 1..], nes[..j] + nes[j + 1..];
      CellTaken(events, cells, lastcell, e, i, ens');
      WithoutAt(ens, n, i);
      WithoutAt(nes, e, j);
      Unlinked(S(), e, n, ens', nes');
      EventSet(events, e, events[e].(nodes := ens'));
      CellsSet(cells, e, cells[e][..i] + cells[e][i + 1..]);
      hide TakeSub;
      events := events[e := events[e].(nodes := ens')];
      cells := cells[e := cells[e][..i] + cells[e][i + 1..]];
      nodes := nodes[n := nodes[n].(events := nes')];
      eventHolds := eventHolds + multiset{e};
      nodeHolds := nodeHolds + multiset{n};
    }

    /** One subscription goes, and nothing of other events has changed since the state given. */
    method UnsubscribeHead(ghost was: Events, ghost wasCells: map<nat, seq<nat>>, e: nat, n: nat)
      requires Exact(S()) && Celled() && e in events && n in nodes && Sub(events, e, n) > 0
      requires OnlyEvent(was, events, e) && OnlyCells(wasCells, cells, e)
      modifies this`nodes, this`events, this`nodeHolds, this`eventHolds, this`cells
      ensures Celled() && CanUnsub(old(S()), e, n) && S() == Unsub(old(S()), e, n)
      ensures OnlyEvent(was, events, e) && OnlyCells(wasCells, cells, e)
    {
      hide Exact, Unsub, CanUnsub, Sub, CellsOf, OnlyEvent, OnlyCells, Without;
      ghost var before, beforeCells := events, cells;
      var _ := EventUnsubscribe(e, n);
      OnlyEventTwice(was, before, events, e);
      OnlyCellsTwice(wasCells, beforeCells, cells, e);
    }

    /** Remove every subscription of event e. The caller holds the event; the walk removes the cell it is on. */
    method EventUnsubscribeAll(e: nat)
      requires Inv(S()) && Celled() && e in eventHolds && e in events
      modifies this`nodes, this`events, this`nodeHolds, this`eventHolds, this`cells
      ensures Celled() && Emptying(old(S()), S(), e, [])
      ensures OnlyEvent(old(events), events, e) && OnlyCells(old(cells), cells, e)
    {
      hide Inv, Exact, Emptying, Unsub, CanUnsub, Sub, CellsOf, OnlyEvent, OnlyCells, Without;
      SameRecords(events, cells, lastcell, e);
      EmptyingBegins(S(), e);
      ghost var s := S();
      var rest := events[e].nodes;
      while rest != []
        invariant Celled() && Emptying(s, S(), e, rest)
        invariant OnlyEvent(old(events), events, e) && OnlyCells(old(cells), cells, e)
        decreases |rest|
      {
        var n, saved := rest[0], rest[1..];
        assert rest == [n] + saved;
        EmptyingStep(s, S(), e, n, saved);
        EmptyingCells(s, S(), e, n, saved);
        UnsubscribeHead(old(events), old(cells), e, n);
        rest := saved;
      }
    }

    /** Remove every subscription of node n, which has not given up its creation reference. */
    method NodeUnsubscribeAllEvents(n: nat)
      requires Exact(S()) && Celled() && n in own && n in nodes
      modifies this`nodes, this`events, this`nodeHolds, this`eventHolds, this`cells
      ensures Celled() && Unsubscribing(old(S()), S(), n, [])
    {
      hide Exact, Unsubscribing, Unsub, CanUnsub, Sub, CellsOf;
      UnsubscribingBegins(S(), n);
      ghost var s := S();
      var rest := nodes[n].events;
      while rest != []
        invariant Celled() && Unsubscribing(s, S(), n, rest)
        decreases |rest|
      {
        var e, saved := rest[0], rest[1..];
        assert rest == [e] + saved;
        UnsubscribingStep(s, S(), n, e, saved);
        UnsubscribingCells(s, S(), n, e, saved);
        var _ := EventUnsubscribe(e, n);
        rest := saved;
      }
    }

    // ---- Nodes ----

    /** Create a node. `known` says the type exists; `memory` and `ctor` are the outcome of the allocation
        and of the type's constructor. */
    method NodeCreate(known: bool, memory: bool, ctor: Errno) returns (err: Errno, n: nat)
      requires Inv(S())
      modifies this`nodes, this`lastnodeid, this`own
      ensures err == if !known then EINVAL else if !memory then ENOMEM else ctor
      ensures Inv(S())
      ensures err == Ok ==> S() == NewNode(old(S())) && n == lastnodeid && n !in old(nodes)
      ensures err != Ok ==> S() == old(S()).(lastnodeid := lastnodeid)
    {
      hide Inv;
      n := 0;
      if !known {
        return EINVAL, n;
      }
      if !memory {
        return ENOMEM, n;
      }
      NewNodeInv(S());
      BumpNodeInv(S());
      lastnodeid := lastnodeid + 1;
      n := lastnodeid;
      if ctor != Ok {
        return ctor, n; // freed at once: the node was never listed
      }
      nodes := nodes[n := Node(true, [], [], [], 1)];
      own := own + {n};
      return Ok, n;
    }

    /** Walk the hooks of node n of one direction, removing each; the saved next hook must stay live. */
    method NodeRmHooks(ghost s: State, n: nat, d: Dir) returns (ghost visited: seq<nat>)
      requires Clearing(s, S(), n) && n in nodes
      modifies this`nodes, this`hooks, this`nodeHolds, this`hookHolds
      ensures visited == old(nodes[n].Hooks(d)) && NoDup(visited)
      ensures Clearing(s, S(), n) && n in nodes && Cleared(hooks, n, d, [])
      ensures old(Cleared(hooks, n, Opposite(d), [])) ==> Cleared(hooks, n, Opposite(d), [])
    {
      hide Exact, Symmetric, Clearing, HookRemoved, Cleared, Suffix, CellsOf, NoDup;
      ghost var before := Cleared(hooks, n, Opposite(d), []);
      WalkBegins(s, S(), n, d);
      var rest := nodes[n].Hooks(d);
      ClearingOwn(s, S(), n);
      ListNoDup(S(), n, d);
      visited := [];
      while rest != []
        invariant visited + rest == old(nodes[n].Hooks(d))
        invariant Clearing(s, S(), n) && n in nodes && Suffix(nodes[n].Hooks(d), rest)
        invariant Cleared(hooks, n, d, rest)
        invariant before ==> Cleared(hooks, n, Opposite(d), [])
        decreases |rest|
      {
        var h, saved := rest[0], rest[1..];
        assert rest == [h] + saved;
        ghost var t := S();
        WalkCell(s, t, n, d, h, saved);
        HookRm(h);
        ClearingStep(s, t, S(), n, d, h, saved);
        visited := visited + [h];
        rest := saved;
      }
    }

    /** Remove a node: its hooks, its subscriptions, its creation reference. */
    method NodeRm(n: nat)
      requires Inv(S()) && Celled() && n in nodes && nodes[n].valid
      modifies this`nodes, this`hooks, this`events, this`own, this`cells
      modifies this`nodeHolds, this`hookHolds, this`eventHolds
      ensures Celled() && NodeRemoved(old(S()), S(), n)
    {
      hide Inv, Exact, Clearing, Cleared, Unsubscribing, NodeRemoved, DropNode, CellsOf, NoDup;
      ghost var s := S();
      ClearingBegins(s, n);
      nodes := nodes[n := nodes[n].(valid := false)];
      ghost var s1 := S();
      ghost var _ := NodeRmHooks(s1, n, In);
      ghost var _ := NodeRmHooks(s1, n, Out);
      ghost var t := S();
      ClearingOwn(s1, t, n);
      NodeUnsubscribeAllEvents(n);
      ghost var u := S();
      RemovalEnds(s, t, u, n);
      own := own - {n};
      nodeHolds := nodeHolds + multiset{n};
      NodeUnref(n);
    }
  }
}
