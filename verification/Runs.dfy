/** Whole runs: messages to nodes, data along connections and events, with handlers that do the same. */
module Runs {
  import opened Errors
  import Lists
  import opened GraphState
  import opened GraphSteps
  import opened GraphRemoval
  import opened GraphLinks
  import opened GraphConnect
  import opened GraphEvents
  import opened GraphNodes
  import opened Runtimes
  import opened RunSteps
  import opened RunFacts

  ghost function W(rt: Runtime): World
    reads rt
  {
    World(rt.S(), rt.cells, rt.lastcell, rt.creators, rt.registered)
  }

  ghost predicate Sound(rt: Runtime)
    reads rt
  {
    SoundWorld(W(rt))
  }

  ghost function Held(rt: Runtime): (multiset<nat>, multiset<nat>, multiset<nat>)
    reads rt
  {
    HeldIn(W(rt))
  }

  /** What an event's count is made of, in every state of every run: its creator until it is removed, the trigger list
      while it is registered, the subscribers, and who holds it at the moment. */
  lemma EventReferences(rt: Runtime, e: nat)
    requires Sound(rt) && e in rt.events
    ensures rt.events[e].refs == (if e in rt.creators then 1 else 0) + (if e in rt.registered then 1 else 0)
                                 + |rt.events[e].nodes| + Held(rt).2[e]
  {
    EventCount(rt.S(), e);
    hide Inv, CellsOf;
    assert Kept(rt.creators, rt.registered)[e] <= rt.eventHolds[e];
  }

  // ---- Messages ----

  method HoldNode(rt: Runtime, n: nat)
    requires Sound(rt) && n in rt.nodes
    modifies rt`nodes, rt`nodeHolds
    ensures Sound(rt) && W(rt) == old(W(rt)).(s := RefNode(old(rt.S()), n))
  {
    hide Inv, Exact, CellsOf, Kept;
    InvExact(rt.S());
    RefNodeInv(rt.S(), n);
    rt.NodeRef(n);
  }

  method LetNodeGo(rt: Runtime, n: nat)
    requires Sound(rt) && n in rt.nodeHolds
    modifies rt`nodes, rt`nodeHolds
    ensures Sound(rt) && NodeFreed(old(W(rt)), n, W(rt)) && rt.nodeHolds == old(rt.nodeHolds) - multiset{n}
  {
    hide Inv, Exact, DropNode, CellsOf, Kept;
    InvExact(rt.S());
    DropNodeInv(rt.S(), n);
    DropNodeHooks(rt.S(), n);
    HeldNodeLive(rt.S(), n);
    rt.NodeUnref(n);
  }

  /** Deliver a message by node id: dmm_msg_send_id and dmm_msg_apply. */
  method Deliver(rt: Runtime, n: nat, action: Action) returns (ghost turns: seq<Turn>)
    requires Sound(rt)
    modifies rt
    ensures Steady(old(W(rt)), W(rt)) && Delivered(old(W(rt)), n, action, turns, W(rt))
    decreases action, 1
  {
    hide Inv, CellsOf, Kept, Acted, Chain;
    turns := [];
    if n !in rt.nodes {
      return;
    }
    ghost var a := W(rt);
    RefNodeFacts(a.s, n);
    HoldNode(rt, n);
    ghost var start, ds := W(rt), [];
    if rt.nodes[n].valid {
      ds := Apply(rt, n, action);
    }
    ghost var end := W(rt);
    LetNodeGo(rt, n);
    TakenBack(a.s.nodeHolds, n);
    if a.s.nodes[n].valid {
      if action.Handle? {
        turns := [Turn(n, 0, a, start, ds, end, W(rt))];
      } else {
        ActedHeld(a, n, action, end, W(rt));
      }
    }
  }

  /** A generic command, or the node's own handler, for a node that is held. */
  method Apply(rt: Runtime, n: nat, action: Action) returns (ghost ds: seq<Done>)
    requires Sound(rt) && n in rt.nodes && rt.nodes[n].valid && n in rt.nodeHolds
    modifies rt
    ensures Steady(old(W(rt)), W(rt)) && n in rt.nodeHolds
    ensures if action.Handle? then Chain(ds, action.body, old(W(rt)), W(rt)) else Acted(old(W(rt)), n, action, W(rt))
    ensures action.Connect? && action.dst in old(rt.nodes)
            && ConnectResult(old(rt.S()), n, action.srchook, action.dst, action.dsthook, action.o) == Ok ==>
              Links(rt.hooks) == old(Links(rt.hooks)) + {Link(n, action.srchook, action.dst, action.dsthook)}
    ensures action.Disconnect? && action.dst in old(rt.nodes) ==>
              Links(rt.hooks) == old(Links(rt.hooks)) - {Link(n, action.srchook, action.dst, action.dsthook)}
    ensures action.Rm? ==>
              && n !in rt.own
              && Links(rt.hooks) == (set l | l in old(Links(rt.hooks)) && l.src != n && l.dst != n)
    decreases action, 0
  {
    hide Inv, CellsOf, Kept, Acted, Links, Chain, ConnectResult;
    ds := [];
    match action {
      case Rm =>
        RemoveNode(rt, n);
      case Connect(srchook, dst, dsthook, o) =>
        ConnectTo(rt, n, srchook, dst, dsthook, o);
      case Disconnect(srchook, dst, dsthook) =>
        DisconnectFrom(rt, n, srchook, dst, dsthook);
      case Subscribe(e, checked, eventMemory, nodeMemory) =>
        SubscribeOne(rt, e, n, checked, eventMemory, nodeMemory);
      case Unsubscribe(e) =>
        UnsubscribeOne(rt, e, n);
      case Handle(body) =>
        ds := RunAll(rt, body);
    }
  }

  method RemoveNode(rt: Runtime, n: nat)
    requires Sound(rt) && n in rt.nodes && rt.nodes[n].valid
    modifies rt
    ensures Steady(old(W(rt)), W(rt)) && Acted(old(W(rt)), n, Rm, W(rt))
    ensures n !in rt.own && Links(rt.hooks) == (set l | l in old(Links(rt.hooks)) && l.src != n && l.dst != n)
  {
    hide Inv, Exact, Links, CellsOf, Kept, Sub;
    rt.NodeRm(n);
    RemovedInvalid(old(rt.S()), rt.S(), n);
  }

  method ConnectTo(rt: Runtime, n: nat, srchook: string, dst: nat, dsthook: string, o: Outcomes)
    requires Sound(rt) && n in rt.nodes
    modifies rt
    ensures Steady(old(W(rt)), W(rt)) && Acted(old(W(rt)), n, Connect(srchook, dst, dsthook, o), W(rt))
    ensures dst in old(rt.nodes) && ConnectResult(old(rt.S()), n, srchook, dst, dsthook, o) == Ok ==>
              Links(rt.hooks) == old(Links(rt.hooks)) + {Link(n, srchook, dst, dsthook)}
  {
    hide Inv, Exact, Links, CellsOf, Kept, ConnectResult, PeersGrown, Widened;
    SameGrown(rt.hooks);
    assert Links(rt.hooks) + {} == Links(rt.hooks);
    if dst in rt.nodes {
      var _ := rt.NodeConnect(n, srchook, dst, dsthook, o);
    }
  }

  method DisconnectFrom(rt: Runtime, n: nat, srchook: string, dst: nat, dsthook: string)
    requires Sound(rt) && n in rt.nodes
    modifies rt
    ensures Steady(old(W(rt)), W(rt)) && Acted(old(W(rt)), n, Disconnect(srchook, dst, dsthook), W(rt))
    ensures dst in old(rt.nodes) ==> Links(rt.hooks) == old(Links(rt.hooks)) - {Link(n, srchook, dst, dsthook)}
  {
    hide Inv, Exact, Links, CellsOf, Kept, DisconnectResult;
    assert Links(rt.hooks) - {} == Links(rt.hooks);
    if dst in rt.nodes {
      var _ := rt.NodeDisconnect(n, srchook, dst, dsthook);
    }
  }

  method SubscribeOne(rt: Runtime, e: nat, n: nat, checked: bool, eventMemory: bool, nodeMemory: bool)
    requires Sound(rt) && n in rt.nodes && rt.nodes[n].valid
    modifies rt`nodes, rt`events, rt`cells, rt`lastcell
    ensures Steady(old(W(rt)), W(rt))
    ensures Acted(old(W(rt)), n, RunSteps.Subscribe(e, checked, eventMemory, nodeMemory), W(rt))
    ensures e in old(rt.events) ==>
              e in rt.events
              && rt.events[e].nodes == old(rt.events)[e].nodes +
                   if eventMemory && nodeMemory && !(checked && n in old(rt.events)[e].nodes) then [n] else []
  {
    hide SoundWorld, HeldIn, Acted;
    AddOne(rt, e, n, checked, eventMemory, nodeMemory);
    if e in old(rt.events) {
      AddedOne(old(W(rt)), e, n, checked, eventMemory, nodeMemory, W(rt));
    }
  }

  lemma AddedOne(a: World, e: nat, n: nat, checked: bool, eventMemory: bool, nodeMemory: bool, b: World)
    requires Acted(a, n, RunSteps.Subscribe(e, checked, eventMemory, nodeMemory), b) && e in a.s.events
    ensures e in b.s.events
    ensures b.s.events[e].nodes == a.s.events[e].nodes +
              if eventMemory && nodeMemory && !(checked && n in a.s.events[e].nodes) then [n] else []
  {
  }

  method AddOne(rt: Runtime, e: nat, n: nat, checked: bool, eventMemory: bool, nodeMemory: bool)
    requires Sound(rt) && n in rt.nodes && rt.nodes[n].valid
    modifies rt`nodes, rt`events, rt`cells, rt`lastcell
    ensures Steady(old(W(rt)), W(rt))
    ensures Acted(old(W(rt)), n, RunSteps.Subscribe(e, checked, eventMemory, nodeMemory), W(rt))
  {
    hide Inv, AddSub, CellsOf, Kept, OnlyEvent;
    if e in rt.events {
      SubPositive(rt.events, e, n);
      hide Sub;
      if checked {
        var _ := rt.EventCheckedSubscribe(e, n, eventMemory, nodeMemory);
      } else {
        var _ := rt.EventSubscribe(e, n, eventMemory, nodeMemory);
      }
    }
  }

  method UnsubscribeOne(rt: Runtime, e: nat, n: nat)
    requires Sound(rt) && n in rt.nodes
    modifies rt`nodes, rt`events, rt`nodeHolds, rt`eventHolds, rt`cells
    ensures Steady(old(W(rt)), W(rt)) && Acted(old(W(rt)), n, Unsubscribe(e), W(rt))
    ensures e in old(rt.events) && n in old(rt.events)[e].nodes && e in rt.events ==>
              rt.events[e].nodes == Lists.Without(old(rt.events)[e].nodes, n)
  {
    hide Inv, Exact, Unsub, CanUnsub, CellsOf, Kept, OnlyEvent, OnlyCells, Lists.Without;
    if e in rt.events {
      ghost var s := rt.S();
      InvExact(s);
      SubPositive(rt.events, e, n);
      hide Sub;
      if n in s.events[e].nodes {
        UnsubInv(s, e, n);
      }
      var _ := rt.EventUnsubscribe(e, n);
    }
  }

  // ---- Runs ----

  /** Every run, from every state between operations, whatever the handlers do on the way: every command is run, in
      order. */
  method RunAll(rt: Runtime, commands: seq<Command>) returns (ghost ds: seq<Done>)
    requires Sound(rt)
    modifies rt
    ensures Steady(old(W(rt)), W(rt)) && Chain(ds, commands, old(W(rt)), W(rt))
    ensures |ds| == |commands| && forall i :: 0 <= i < |ds| ==> ds[i].command == commands[i] && Did(ds[i])
    decreases commands, 1
  {
    hide SoundWorld, HeldIn, Did, Chain;
    ds := [];
    ChainBegins(W(rt));
    assert commands[..0] == [];
    var i := 0;
    while i < |commands|
      invariant 0 <= i <= |commands|
      invariant Steady(old(W(rt)), W(rt)) && Chain(ds, commands[..i], old(W(rt)), W(rt))
    {
      ghost var d := Run(rt, commands[i]);
      ChainMore(ds, commands, i, old(W(rt)), d);
      ds := ds + [d];
      i := i + 1;
    }
    assert commands[..i] == commands;
    ChainIs(ds, commands, old(W(rt)), W(rt));
  }

  method Run(rt: Runtime, c: Command) returns (ghost d: Done)
    requires Sound(rt)
    modifies rt
    ensures Steady(old(W(rt)), W(rt))
    ensures d.command == c && d.before == old(W(rt)) && d.after == W(rt) && Did(d)
    decreases c, 0
  {
    hide SoundWorld, HeldIn, Passed, Triggered, Delivered, Changed;
    ghost var a := W(rt);
    ghost var turns: seq<Turn> := [];
    match c {
      case Message(dst, action) =>
        turns := Deliver(rt, dst, action);
      case Send(hook, replies) =>
        if hook in rt.hooks && rt.hooks[hook].dir.Out? && rt.hooks[hook].valid {
          var passed;
          passed, turns := Send(rt, hook, replies);
        }
      case Trigger(e, handlers) =>
        if e in rt.events {
          var told;
          told, turns := Trigger(rt, e, handlers);
        }
      case _ =>
        Change(rt, c);
    }
    d := Done(c, a, W(rt), turns);
  }

  /** The commands that make nobody handle anything. */
  method Change(rt: Runtime, c: Command)
    requires Sound(rt)
    modifies rt
    ensures Steady(old(W(rt)), W(rt)) && Changed(old(W(rt)), c, W(rt))
  {
    hide Inv, Exact, CellsOf, Kept, OnlyEvent, OnlyCells, NewNode, NewEvent, RefEvent, DropEvent;
    match c {
      case Create(known, memory, ctor) =>
        CreateNode(rt, known, memory, ctor);
      case CreateEvent =>
        NewEventHeld(rt);
      case RemoveEvent(e) =>
        if e in rt.creators {
          RemoveEvent(rt, e);
        }
      case Register(e) =>
        if e in rt.creators && e !in rt.registered {
          RegisterEvent(rt, e);
        }
      case Deregister(e) =>
        if e in rt.registered {
          DeregisterEvent(rt, e);
        }
      case _ =>
    }
  }

  method CreateNode(rt: Runtime, known: bool, memory: bool, ctor: Errno)
    requires Sound(rt)
    modifies rt
    ensures Steady(old(W(rt)), W(rt)) && Changed(old(W(rt)), Create(known, memory, ctor), W(rt))
  {
    hide Inv, CellsOf, Kept, NewNode;
    NewNodeHolds(rt.S());
    var _, _ := rt.NodeCreate(known, memory, ctor);
  }

  lemma NoneKept(rt: Runtime, e: nat)
    requires Sound(rt) && e == rt.lasteventid + 1
    ensures e !in rt.creators
  {
    FreshIds(rt.S());
    assert forall c :: c in rt.creators ==> Kept(rt.creators, rt.registered)[c] > 0;
  }

  // ---- Events and their references ----

  method NewEventHeld(rt: Runtime)
    requires Sound(rt)
    modifies rt`events, rt`lasteventid, rt`eventHolds, rt`creators, rt`cells
    ensures Steady(old(W(rt)), W(rt)) && Changed(old(W(rt)), CreateEvent, W(rt))
  {
    hide Inv, CellsOf, Kept, NewEvent;
    ghost var s, id := rt.S(), rt.lasteventid + 1;
    ghost var kept, kept' := Kept(rt.creators, rt.registered), Kept(rt.creators + {id}, rt.registered);
    NoneKept(rt, id);
    KeptMore(rt.creators, rt.registered, id);
    NewEventHolds(s);
    RestSame(s.eventHolds, kept, id);
    var e := rt.EventInit();
    assert e == id && rt.eventHolds == s.eventHolds + multiset{id};
    assert rt.eventHolds - kept' == s.eventHolds - kept;
  }

  /** The trigger list takes a reference to an event that has not been removed. */
  method RegisterEvent(rt: Runtime, e: nat)
    requires Sound(rt) && e in rt.creators && e !in rt.registered
    modifies rt`events, rt`eventHolds, rt`registered
    ensures Steady(old(W(rt)), W(rt)) && e in old(rt.events)
    ensures W(rt) == old(W(rt)).(s := RefEvent(old(rt.S()), e), registered := old(rt.registered) + {e})
  {
    hide Inv, CellsOf, Kept, RefEvent;
    KeptLive(rt, e);
    RefEventHolds(rt.S(), e);
    RestSame(rt.eventHolds, Kept(rt.creators, rt.registered), e);
    KeptMore(rt.creators, rt.registered, e);
    TakeEvent(rt, e);
    rt.registered := rt.registered + {e};
  }

  /** The trigger list gives its reference back; the event stays, as its creator has not let go. */
  method DeregisterEvent(rt: Runtime, e: nat)
    requires Sound(rt) && e in rt.registered
    modifies rt`events, rt`eventHolds, rt`registered
    ensures Steady(old(W(rt)), W(rt)) && rt.registered == old(rt.registered) - {e} && e in rt.events
    ensures EventFreed(old(W(rt)), e, W(rt).(registered := old(rt.registered)))
    ensures OnlyEvent(old(rt.events), rt.events, e) && rt.events[e].nodes == old(rt.events)[e].nodes
  {
    hide Inv, CellsOf, Kept, DropEvent, OnlyEvent;
    KeptLive(rt, e);
    KeptLess(rt.creators, rt.registered, e);
    RestSameLess(rt.eventHolds, Kept(rt.creators, rt.registered - {e}), e);
    LetEventGo(rt, e);
    rt.registered := rt.registered - {e};
    KeptLive(rt, e);
  }

  lemma KeptLive(rt: Runtime, e: nat)
    requires Sound(rt) && e in rt.creators
    ensures e in rt.events && e in rt.eventHolds
  {
    assert Kept(rt.creators, rt.registered)[e] > 0;
    HeldEventStays(rt.S(), e);
    hide Inv, CellsOf, Kept;
  }

  /** A creator lets go of its event for good: it leaves the trigger list and every subscription goes first, as when a
      timer is removed. */
  method RemoveEvent(rt: Runtime, e: nat)
    requires Sound(rt) && e in rt.creators
    modifies rt
    ensures Steady(old(W(rt)), W(rt)) && Changed(old(W(rt)), RunSteps.RemoveEvent(e), W(rt))
    ensures rt.creators == old(rt.creators) - {e} && rt.registered == old(rt.registered) - {e}
  {
    hide SoundWorld, HeldIn, OnlyEvent, OnlyCells, EventFreed, Changed;
    NothingElse(W(rt), e);
    if e in rt.registered {
      DeregisterEvent(rt, e);
    }
    ghost var was, cells := rt.events, rt.cells;
    KeptLive(rt, e);
    UnsubscribeEverybody(rt, e);
    OnlyEventTwice(old(rt.events), was, rt.events, e);
    was := rt.events;
    CreatorLetsGo(rt, e);
    OnlyEventTwice(old(rt.events), was, rt.events, e);
    RemovedIs(old(W(rt)), e, W(rt));
  }

  method UnsubscribeEverybody(rt: Runtime, e: nat)
    requires Sound(rt) && e in rt.events && e in rt.eventHolds
    modifies rt`nodes, rt`events, rt`nodeHolds, rt`eventHolds, rt`cells
    ensures Steady(old(W(rt)), W(rt)) && e in rt.events && rt.events[e].nodes == []
    ensures OnlyEvent(old(rt.events), rt.events, e) && OnlyCells(old(rt.cells), rt.cells, e)
  {
    hide Inv, Exact, FewerSubs, Sub, CellsOf, Kept, OnlyEvent, OnlyCells;
    rt.EventUnsubscribeAll(e);
    EmptiedHolds(old(rt.S()), rt.S(), e);
  }

  method CreatorLetsGo(rt: Runtime, e: nat)
    requires Sound(rt) && e in rt.creators && e !in rt.registered
    modifies rt`events, rt`eventHolds, rt`creators
    ensures Steady(old(W(rt)), W(rt)) && rt.creators == old(rt.creators) - {e} && e in old(rt.events)
    ensures OnlyEvent(old(rt.events), rt.events, e)
    ensures e in rt.events ==> rt.events[e].nodes == old(rt.events)[e].nodes
  {
    hide Inv, CellsOf, Kept, OnlyEvent, DropEvent;
    KeptLive(rt, e);
    KeptLess(rt.creators, rt.registered, e);
    RestSameLess(rt.eventHolds, Kept(rt.creators - {e}, rt.registered), e);
    LetEventGo(rt, e);
    rt.creators := rt.creators - {e};
  }

  lemma EmptiedHolds(s: State, t: State, e: nat)
    requires Emptying(s, t, e, [])
    ensures Inv(t) && (t.nodeHolds, t.hookHolds, t.eventHolds) == (s.nodeHolds, s.hookHolds, s.eventHolds)
    ensures e in t.events && t.events[e].nodes == []
  {
    hide Inv, Sub;
  }

  method LetEventGo(rt: Runtime, e: nat)
    requires Inv(rt.S()) && rt.Celled() && e in rt.eventHolds
    modifies rt`events, rt`eventHolds
    ensures Inv(rt.S()) && rt.Celled() && rt.eventHolds == old(rt.eventHolds) - multiset{e}
    ensures e in old(rt.events) && old(rt.events)[e].refs > 0 && rt.S() == DropEvent(old(rt.S()), e)
    ensures OnlyEvent(old(rt.events), rt.events, e)
    ensures e in rt.events ==> rt.events[e].nodes == old(rt.events)[e].nodes
  {
    hide Inv, Exact, CellsOf, Kept, UnrefEvent, OnlyEvent;
    InvExact(rt.S());
    DropEventInv(rt.S(), e);
    HeldEventStays(rt.S(), e);
    EventLive(rt.S(), e);
    UnrefOnly(rt.events, e);
    CellsStay(rt.events, rt.cells, rt.lastcell, e);
    rt.EventUnref(e);
  }

  lemma EventLive(s: State, e: nat)
    requires Inv(s) && e in s.events
    ensures s.events[e].refs > 0
  {
  }

  method LetTemporaryGo(rt: Runtime, e: nat)
    requires Sound(rt) && e in Held(rt).2
    modifies rt`events, rt`eventHolds
    ensures Sound(rt) && Held(rt) == (old(rt.nodeHolds), old(rt.hookHolds), old(Held(rt)).2 - multiset{e})
    ensures EventFreed(old(W(rt)), e, W(rt))
  {
    hide Inv, CellsOf, Kept, DropEvent;
    LetEventGo(rt, e);
    ghost var kept := Kept(rt.creators, rt.registered);
    assert rt.eventHolds - kept == old(rt.eventHolds) - kept - multiset{e};
  }

  method HoldEvent(rt: Runtime, e: nat)
    requires Sound(rt) && e in rt.events
    modifies rt`events, rt`eventHolds
    ensures Sound(rt) && Held(rt) == (old(rt.nodeHolds), old(rt.hookHolds), old(Held(rt)).2 + multiset{e})
    ensures W(rt) == old(W(rt)).(s := RefEvent(old(rt.S()), e))
    ensures e in rt.events && rt.events[e].nodes == old(rt.events)[e].nodes
  {
    hide Inv, CellsOf, Kept, RefEvent;
    RefEventHolds(rt.S(), e);
    TakeEvent(rt, e);
    ghost var kept := Kept(rt.creators, rt.registered);
    assert rt.eventHolds - kept == old(rt.eventHolds) - kept + multiset{e};
  }

  method TakeEvent(rt: Runtime, e: nat)
    requires Inv(rt.S()) && rt.Celled() && e in rt.events
    modifies rt`events, rt`eventHolds
    ensures Inv(rt.S()) && rt.Celled() && rt.S() == RefEvent(old(rt.S()), e)
    ensures e in rt.events && rt.events[e].nodes == old(rt.events)[e].nodes
  {
    hide Inv, Exact, CellsOf, Kept;
    InvExact(rt.S());
    RefEventInv(rt.S(), e);
    EventLive(rt.S(), e);
    CellsStay(rt.events, rt.cells, rt.lastcell, e);
    rt.EventRef(e);
  }

  // ---- Turns ----

  method HoldHook(rt: Runtime, h: nat)
    requires Sound(rt) && h in rt.hooks
    modifies rt`hooks, rt`hookHolds
    ensures Sound(rt) && W(rt) == old(W(rt)).(s := RefHook(old(rt.S()), h))
  {
    hide Inv, Exact, Links, CellsOf, Kept;
    InvExact(rt.S());
    RefHookInv(rt.S(), h);
    rt.HookRef(h);
  }

  method LetHookGo(rt: Runtime, h: nat)
    requires Sound(rt) && h in rt.hookHolds
    modifies rt`nodes, rt`hooks, rt`nodeHolds, rt`hookHolds
    ensures Sound(rt) && HookFreed(old(W(rt)), h, W(rt))
    ensures rt.hookHolds == old(rt.hookHolds) - multiset{h} && rt.nodeHolds == old(rt.nodeHolds)
  {
    hide Inv, Exact, Links, DropHook, Live, CellsOf, Kept, PeersGrown;
    rt.LetGo(h);
  }

  /** The receiver's data function runs while its in hook is held: dmm_data_passtohook. An invalid one is skipped. */
  method PassToHook(rt: Runtime, p: nat, replies: seq<Script>, k: nat) returns (ghost turn: Turn)
    requires Sound(rt) && p in rt.hooks
    modifies rt
    ensures Steady(old(W(rt)), W(rt)) && HookTurn(turn, ScriptAt(replies, k))
    ensures turn.who == p && turn.before == old(W(rt)) && turn.after == W(rt)
    ensures old(rt.hooks)[p].valid && k < |replies| ==> Chain(turn.body, replies[k].commands, turn.start, turn.end)
    decreases replies, 2
  {
    hide Inv, CellsOf, Kept, Chain, RefHook, HookFreed;
    ghost var a := W(rt);
    if !rt.hooks[p].valid {
      turn := Turn(p, 0, a, a, [], a, a);
      return;
    }
    RefHookFacts(a.s, p);
    HoldHook(rt, p);
    ghost var start, ds := W(rt), [];
    ChainBegins(start);
    if k < |replies| {
      ds := RunAll(rt, replies[k].commands);
    }
    ghost var end := W(rt);
    LetHookGo(rt, p);
    TakenBack(a.s.hookHolds, p);
    turn := Turn(p, 0, a, start, ds, end, W(rt));
  }

  /** The subscriber's message function runs while the node is held; not if it was removed. */
  method HandleHeld(rt: Runtime, n: nat, cell: nat, handlers: seq<Script>, k: nat) returns (ghost turn: Turn)
    requires Sound(rt) && n in rt.nodes
    modifies rt
    ensures Steady(old(W(rt)), W(rt)) && NodeTurn(turn, ScriptAt(handlers, k))
    ensures turn.who == n && turn.cell == cell && turn.before == old(W(rt)) && turn.after == W(rt)
    ensures old(rt.nodes)[n].valid && k < |handlers| ==> Chain(turn.body, handlers[k].commands, turn.start, turn.end)
    decreases handlers, 2
  {
    hide Inv, CellsOf, Kept, Chain, RefNode, NodeFreed;
    ghost var a := W(rt);
    if !rt.nodes[n].valid {
      turn := Turn(n, cell, a, a, [], a, a);
      return;
    }
    RefNodeFacts(a.s, n);
    HoldNode(rt, n);
    ghost var start, ds := W(rt), [];
    ChainBegins(start);
    if k < |handlers| {
      ds := RunAll(rt, handlers[k].commands);
    }
    ghost var end := W(rt);
    LetNodeGo(rt, n);
    TakenBack(a.s.nodeHolds, n);
    turn := Turn(n, cell, a, start, ds, end, W(rt));
  }

  /** Pass data along every connection of an out hook, holding it: dmm_data_send. When no handler takes a connection
      or a node away, the in hooks passed to are all that were connected, each once and in the order of the list. */
  method Send(rt: Runtime, h: nat, replies: seq<Script>) returns (passed: seq<nat>, ghost turns: seq<Turn>)
    requires Sound(rt) && h in rt.hooks
    modifies rt
    ensures old(rt.hooks)[h].peers == [] ==> passed == []
    ensures old(rt.hooks)[h].peers != [] ==> passed != [] && passed[0] == old(rt.hooks)[h].peers[0]
    ensures PartNothing(replies) ==> passed == old(rt.hooks)[h].peers
    ensures Steady(old(W(rt)), W(rt)) && passed == Who(turns)
    ensures Passed(old(W(rt)), h, replies, turns, W(rt))
    decreases replies, 5
  {
    hide Passed, PeerWalk, PartNothing, SoundWorld, HeldIn, RefHook, HookFreed, Last, Who;
    ghost var a := W(rt);
    RefHookIs(a.s, h);
    HoldHook(rt, h);
    ghost var start := W(rt);
    passed, turns := SendToPeers(rt, h, replies);
    ghost var end := W(rt);
    LetHookGo(rt, h);
    HookHeldBack(a, h, start, end, W(rt));
    PassedIs(a, h, replies, turns, start, end, W(rt));
  }

  /** The walk over the peers reads the next entry from the current one: it goes on only while the current
      peer is still connected. */
  method SendToPeers(rt: Runtime, h: nat, replies: seq<Script>) returns (passed: seq<nat>, ghost turns: seq<Turn>)
    requires Sound(rt) && h in rt.hookHolds && h in rt.hooks
    modifies rt
    ensures Steady(old(W(rt)), W(rt)) && h in rt.hookHolds
    ensures PeerWalk(turns, h, replies, old(W(rt)), None, W(rt)) && W(rt) == Last(turns, old(W(rt)))
    ensures passed == Who(turns)
    decreases replies, 4
  {
    hide SoundWorld, PeerWalk, NextPeer, Who, HookTurn, ToPass, ScriptAt;
    passed, turns := [], [];
    PeerWalkBegins(W(rt), h, replies);
    var peer := if rt.hooks[h].peers == [] then None else Some(rt.hooks[h].peers[0]);
    while peer.Some?
      invariant Steady(old(W(rt)), W(rt)) && h in rt.hooks && h in rt.hookHolds
      invariant PeerWalk(turns, h, replies, old(W(rt)), peer, W(rt)) && W(rt) == Last(turns, old(W(rt)))
      invariant passed == Who(turns) && |passed| == |turns|
      invariant peer.Some? ==> peer.value in rt.hooks[h].peers
      decreases if |passed| < |replies| then |replies| - |passed| else 0, ToPass(W(rt), h, peer)
    {
      var p := peer.value;
      ghost var w := W(rt);
      ghost var turn;
      peer, turn := PassOne(rt, h, p, replies, |passed|);
      PeerWalkMore(turns, h, replies, old(W(rt)), turn, w);
      IdleHook(turn, ScriptAt(replies, |passed|), h);
      ScriptPast(replies, |passed|);
      WhoMore(turns, turn);
      passed, turns := passed + [p], turns + [turn];
    }
  }

  /** One turn of the walk: the data is passed, and then the next entry is read. */
  method PassOne(rt: Runtime, h: nat, p: nat, replies: seq<Script>, k: nat)
    returns (next: Option<nat>, ghost turn: Turn)
    requires Sound(rt) && h in rt.hookHolds && h in rt.hooks && p in rt.hooks[h].peers
    modifies rt
    ensures Steady(old(W(rt)), W(rt)) && h in rt.hookHolds && h in rt.hooks
    ensures HookTurn(turn, ScriptAt(replies, k))
    ensures turn.who == p && turn.before == old(W(rt)) && turn.after == W(rt)
    ensures next == NextPeer(turn, h) && (next.Some? ==> next.value in rt.hooks[h].peers)
    decreases replies, 3
  {
    hide SoundWorld, HookTurn, NextEntries, ScriptAt;
    PeerLive(W(rt), h, p);
    turn := PassToHook(rt, p, replies, k);
    HeldStays(W(rt), h);
    next := None;
    if p in rt.hooks[h].peers && NextEntries(rt.hooks[h].peers, p) != [] {
      next := Some(NextEntries(rt.hooks[h].peers, p)[0]);
    }
  }

  /** Send each subscriber its message, holding the event. The first subscriber is told first, and its handler runs;
      each later one is that of the record saved before. When no handler changes the subscriptions of the event, all
      are told, each once and in order. */
  method Trigger(rt: Runtime, e: nat, handlers: seq<Script>) returns (told: seq<nat>, ghost turns: seq<Turn>)
    requires Sound(rt) && e in rt.events
    modifies rt
    ensures old(rt.events)[e].nodes == [] ==> told == []
    ensures old(rt.events)[e].nodes != [] ==> told != [] && told[0] == old(rt.events)[e].nodes[0]
    ensures LeaveSubs(handlers, e) ==> told == old(rt.events)[e].nodes
    ensures FirstRan(old(W(rt)), handlers, turns)
    ensures Steady(old(W(rt)), W(rt)) && told == Who(turns)
    ensures Triggered(old(W(rt)), e, handlers, turns, W(rt))
    decreases handlers, 5
  {
    hide Triggered, EventWalk, LeaveSubs, SoundWorld, RefEvent, EventFreed, Last, FirstRan;
    ghost var a := W(rt);
    HoldEvent(rt, e);
    ghost var start := W(rt);
    told, turns := TellSubscribers(rt, e, handlers);
    ghost var end := W(rt);
    LetTemporaryGo(rt, e);
    TakenBack(HeldIn(a).2, e);
    TriggeredIs(a, e, handlers, turns, start, end, W(rt));
  }

  method TellSubscribers(rt: Runtime, e: nat, handlers: seq<Script>) returns (told: seq<nat>, ghost turns: seq<Turn>)
    requires Sound(rt) && e in rt.events && e in Held(rt).2
    modifies rt
    ensures Steady(old(W(rt)), W(rt))
    ensures EventWalk(turns, e, handlers, old(W(rt)), None, W(rt)) && W(rt) == Last(turns, old(W(rt)))
    ensures told == Who(turns)
    decreases handlers, 4
  {
    hide SoundWorld, HeldIn, EventWalk, NextRecord, Who, EventTurn, ToTell, ScriptAt;
    EventRecords(W(rt), e);
    told, turns := [], [];
    EventWalkBegins(W(rt), e, handlers);
    var cell := if rt.cells[e] == [] then None else Some(rt.cells[e][0]);
    while cell.Some?
      invariant Steady(old(W(rt)), W(rt))
      invariant EventWalk(turns, e, handlers, old(W(rt)), cell, W(rt)) && W(rt) == Last(turns, old(W(rt)))
      invariant told == Who(turns) && |told| == |turns|
      invariant e in rt.events && e in rt.cells && (cell.Some? ==> cell.value in rt.cells[e])
      decreases if |told| < |handlers| then |handlers| - |told| else 0, ToTell(W(rt), e, cell)
    {
      ghost var w := W(rt);
      var n;
      ghost var turn;
      n, cell, turn := TellOne(rt, e, cell.value, handlers, |told|);
      EventWalkMore(turns, e, handlers, old(W(rt)), turn, w);
      IdleEvent(turn, ScriptAt(handlers, |told|), e);
      ScriptPast(handlers, |told|);
      WhoMore(turns, turn);
      told, turns := told + [n], turns + [turn];
    }
  }

  /** One turn of the walk: the record after the current one is saved, then the node is told. Handlers may add and take
      records as they like, but the walk goes on only while the saved one is still there. */
  method TellOne(rt: Runtime, e: nat, cell: nat, handlers: seq<Script>, k: nat)
    returns (n: nat, next: Option<nat>, ghost turn: Turn)
    requires Sound(rt) && e in Held(rt).2 && e in rt.events && e in rt.cells && cell in rt.cells[e]
    modifies rt
    ensures forall i :: 0 <= i < |old(rt.cells)[e]| && old(rt.cells)[e][i] == cell ==>
                          i < |old(rt.events)[e].nodes| && n == old(rt.events)[e].nodes[i]
    ensures Steady(old(W(rt)), W(rt)) && e in rt.events && e in rt.cells
    ensures turn.who == n && turn.cell == cell && turn.before == old(W(rt)) && turn.after == W(rt)
    ensures EventTurn(turn, e, ScriptAt(handlers, k))
    ensures next == NextRecord(turn, e) && (next.Some? ==> next.value in rt.cells[e])
    decreases handlers, 3
  {
    hide SoundWorld, HeldIn, NodeTurn, NodeOf, NextCell, ScriptAt, EventTurn;
    ghost var w := W(rt);
    SubscriberAt(w, e, cell);
    n := NodeOf(rt.events[e].nodes, rt.cells[e], cell);
    next := NextCell(rt.cells[e], cell);
    turn := HandleHeld(rt, n, cell, handlers, k);
    HeldRecords(W(rt), e);
    EventTurnIs(turn, e, ScriptAt(handlers, k));
    if next.Some? && next.value !in rt.cells[e] {
      next := None;
    }
  }

  // ---- Nothing is left over ----

  lemma {:induction false} PeersCounted(peers: seq<nat>, s: set<nat>)
    requires Lists.NoDup(peers) && forall g :: g in s <==> g in peers
    ensures |s| == |peers|
  {
    if peers == [] {
      assert s == {};
    } else {
      var rest := peers[1..];
      assert peers[0] in s;
      forall g ensures g in s - {peers[0]} <==> g in rest {
        if g in rest {
          var i :| 0 <= i < |rest| && rest[i] == g;
          assert peers[i + 1] == g;
        }
      }
      PeersCounted(rest, s - {peers[0]});
    }
  }

  lemma PeersAreNamers(s: State, h: nat)
    requires Inv(s) && h in s.hooks
    ensures |NamedBy(s.hooks, h)| == |s.hooks[h].peers|
  {
    hide HookLists, Names, Subscriptions, Coupled, NodeCounts, EventCounts;
    forall g ensures g in NamedBy(s.hooks, h) <==> g in s.hooks[h].peers {
      assert Joined(s.hooks, g, h) <==> Joined(s.hooks, h, g);
    }
    PeersCounted(s.hooks[h].peers, NamedBy(s.hooks, h));
  }

  lemma HookConnected(s: State, h: nat)
    requires Inv(s) && h in s.hooks && s.hookHolds == multiset{}
    ensures s.hooks[h].peers != [] && s.hooks[h].refs == |s.hooks[h].peers| && s.hooks[h].node in s.own
  {
    PeersAreNamers(s, h);
    hide HookLists, Names, Subscriptions, Coupled, NodeCounts, EventCounts, Symmetric;
    assert Joined(s.hooks, h, s.hooks[h].peers[0]);
  }

  /** With no temporary reference outstanding, only nodes that were not removed are left, every hook is part of a
      connection, and the counts are those of the graph alone. An event whose creator has let go has a subscriber. */
  lemma NothingLeftOver(s: State)
    requires Inv(s) && s.nodeHolds == multiset{} && s.hookHolds == multiset{}
    ensures s.nodes.Keys == s.own && forall n :: n in s.nodes ==> s.nodes[n].valid
    ensures forall h :: h in s.hooks ==>
                          s.hooks[h].valid && s.hooks[h].peers != [] && s.hooks[h].refs == |s.hooks[h].peers|
    ensures forall n :: n in s.nodes ==>
                          s.nodes[n].refs == 1 + |s.nodes[n].inhooks| + |s.nodes[n].outhooks| + |s.nodes[n].events|
    ensures forall e :: e in s.events && e !in s.eventHolds ==> s.events[e].nodes != []
  {
    forall h | h in s.hooks
      ensures s.hooks[h].peers != [] && s.hooks[h].refs == |s.hooks[h].peers| && s.hooks[h].node in s.own
    {
      HookConnected(s, h);
    }
    hide Symmetric, PeerLists, Names, Subscriptions, HookCounts;
    forall n | n in s.nodes ensures n in s.own {
      var d := s.nodes[n];
      assert ListOf(d.inhooks, s.hooks, n, In) && ListOf(d.outhooks, s.hooks, n, Out);
      if d.inhooks != [] {
        assert d.inhooks[0] in d.inhooks;
      } else if d.outhooks != [] {
        assert d.outhooks[0] in d.outhooks;
      }
    }
  }
}
