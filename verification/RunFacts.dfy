/** Facts about runs: what walks tell, and what handlers that leave subscriptions or connections alone keep. */
module RunFacts {
  import opened Errors
  import opened Lists
  import opened GraphState
  import opened GraphSteps
  import opened GraphLinks
  import opened GraphConnect
  import opened GraphEvents
  import opened GraphNodes
  import opened Runtimes
  import opened RunSteps

  // ---- References ----

  lemma KeptMore(creators: set<nat>, registered: set<nat>, e: nat)
    ensures e !in creators ==> Kept(creators + {e}, registered) == Kept(creators, registered) + multiset{e}
    ensures e !in registered ==> Kept(creators, registered + {e}) == Kept(creators, registered) + multiset{e}
  {
  }

  lemma KeptLess(creators: set<nat>, registered: set<nat>, e: nat)
    ensures e in creators ==> Kept(creators, registered) == Kept(creators - {e}, registered) + multiset{e}
    ensures e in registered ==> Kept(creators, registered) == Kept(creators, registered - {e}) + multiset{e}
  {
  }

  /** A reference more that is kept, or one less, leaves the temporary ones. */
  lemma RestSame(holds: multiset<nat>, kept: multiset<nat>, e: nat)
    requires kept <= holds
    ensures holds + multiset{e} - (kept + multiset{e}) == holds - kept && kept + multiset{e} <= holds + multiset{e}
  {
  }

  lemma RestSameLess(holds: multiset<nat>, kept: multiset<nat>, e: nat)
    requires kept + multiset{e} <= holds
    ensures holds - multiset{e} - kept == holds - (kept + multiset{e}) && kept <= holds - multiset{e}
  {
  }

  lemma TakenBack(holds: multiset<nat>, e: nat)
    ensures holds + multiset{e} - multiset{e} == holds
  {
  }

  lemma EventCount(s: State, e: nat)
    requires Inv(s) && e in s.events
    ensures s.events[e].refs == |s.events[e].nodes| + s.eventHolds[e]
  {
    hide HookLists, PeerLists, HookCounts, NodeCounts, Symmetric, Coupled, Subscriptions, Names;
  }

  lemma HeldEventStays(s: State, e: nat)
    requires Inv(s) && e in s.eventHolds
    ensures e in s.events
  {
  }

  lemma NewEventHolds(s: State)
    ensures NewEvent(s).eventHolds == s.eventHolds + multiset{s.lasteventid + 1}
    ensures NewEvent(s).nodeHolds == s.nodeHolds && NewEvent(s).hookHolds == s.hookHolds
    ensures NewEvent(s).lasteventid == s.lasteventid + 1
  {
  }

  lemma NewNodeHolds(s: State)
    ensures var t := NewNode(s);
            && (t.nodeHolds, t.hookHolds, t.eventHolds) == (s.nodeHolds, s.hookHolds, s.eventHolds)
            && t.events == s.events
  {
  }

  lemma RefEventHolds(s: State, e: nat)
    requires e in s.events
    ensures var t := RefEvent(s, e);
            && t.eventHolds == s.eventHolds + multiset{e} && (t.nodeHolds, t.hookHolds) == (s.nodeHolds, s.hookHolds)
            && t.hooks == s.hooks && e in t.events && t.events[e].nodes == s.events[e].nodes
            && OnlyEvent(s.events, t.events, e)
  {
  }

  /** A node is held and let go: it is as it was. */
  lemma RefNodeFacts(s: State, n: nat)
    requires Inv(s) && n in s.nodes
    ensures var t := RefNode(s, n);
            && n in t.nodes && t.nodes[n].refs > 0 && DropNode(t, n) == s && t.nodes[n].valid == s.nodes[n].valid
            && n in t.nodeHolds && t.nodeHolds == s.nodeHolds + multiset{n}
            && (t.hooks, t.events, t.own) == (s.hooks, s.events, s.own)
            && (t.hookHolds, t.eventHolds) == (s.hookHolds, s.eventHolds)
  {
    NodeLive(s, n);
    hide Inv;
    RefDropNode(s, n);
  }

  lemma NodeLive(s: State, n: nat)
    requires Inv(s) && n in s.nodes
    ensures s.nodes[n].refs > 0
  {
    hide HookLists, PeerLists, HookCounts, EventCounts, Symmetric, Coupled, Subscriptions, Names;
  }

  lemma HeldNodeLive(s: State, n: nat)
    requires Inv(s) && n in s.nodeHolds
    ensures n in s.nodes && s.nodes[n].refs > 0
  {
    hide HookLists, PeerLists, HookCounts, EventCounts, Symmetric, Coupled, Subscriptions, Names;
  }

  lemma RefDropNode(s: State, n: nat)
    requires n in s.nodes && s.nodes[n].refs > 0
    ensures DropNode(RefNode(s, n), n) == s
  {
    assert s.nodeHolds + multiset{n} - multiset{n} == s.nodeHolds;
    assert DropNode(RefNode(s, n), n).nodes == s.nodes;
  }

  lemma RefDropHook(s: State, h: nat)
    requires Live(s, h)
    ensures Live(RefHook(s, h), h) && DropHook(RefHook(s, h), h) == s
  {
    assert s.hookHolds + multiset{h} - multiset{h} == s.hookHolds;
    assert DropHook(RefHook(s, h), h).hooks == s.hooks;
  }

  lemma RefHookFacts(s: State, h: nat)
    requires Inv(s) && h in s.hooks
    ensures var t := RefHook(s, h);
            && h in t.hooks && Live(t, h) && DropHook(t, h) == s && t.hooks[h].peers == s.hooks[h].peers
            && h in t.hookHolds && t.hookHolds == s.hookHolds + multiset{h}
            && (t.nodes, t.events, t.own) == (s.nodes, s.events, s.own)
            && (t.nodeHolds, t.eventHolds) == (s.nodeHolds, s.eventHolds)
            && PeersGrown(s.hooks, t.hooks)
  {
    InvExact(s);
    LiveHook(s, h);
    hide Inv, Exact, PeersGrown;
    RefGrows(s, h);
    RefDropHook(s, h);
    RefHookIs(s, h);
    hide RefHook, DropHook, Live;
  }

  lemma RefHookIs(s: State, h: nat)
    requires h in s.hooks
    ensures var t := RefHook(s, h);
            && h in t.hooks && t.hooks[h].peers == s.hooks[h].peers
            && h in t.hookHolds && t.hookHolds == s.hookHolds + multiset{h}
            && (t.nodes, t.events, t.own) == (s.nodes, s.events, s.own)
            && (t.nodeHolds, t.eventHolds) == (s.nodeHolds, s.eventHolds)
  {
  }

  // ---- Commands ----

  lemma ConnectResultHeld(s: State, n: nat, srchook: string, dst: nat, dsthook: string, o: Outcomes)
    requires n in s.nodes && dst in s.nodes
    ensures ConnectResult(RefNode(s, n), n, srchook, dst, dsthook, o) == ConnectResult(s, n, srchook, dst, dsthook, o)
  {
    hide Links;
  }

  /** Holding the receiver does not show in what a command does. */
  lemma ActedHeld(a: World, n: nat, action: Action, end: World, b: World)
    requires n in a.s.nodes && !action.Handle?
    requires Acted(a.(s := RefNode(a.s, n)), n, action, end) && NodeFreed(end, n, b)
    ensures Acted(a, n, action, b)
  {
    hide Links, Sub, PeersGrown, OnlyEvent, OnlyCells, ConnectResult, Without;
    if action.Connect? && action.dst in a.s.nodes {
      ConnectResultHeld(a.s, n, action.srchook, action.dst, action.dsthook, action.o);
    }
  }

  lemma RemovedInvalid(s: State, t: State, n: nat)
    requires NodeRemoved(s, t, n)
    ensures Inv(t) && (t.nodeHolds, t.hookHolds, t.eventHolds) == (s.nodeHolds, s.hookHolds, s.eventHolds)
    ensures n !in t.own && (n in t.nodes ==> !t.nodes[n].valid)
    ensures t.own == s.own - {n} && Links(t.hooks) == (set l | l in Links(s.hooks) && l.src != n && l.dst != n)
    ensures forall e, m :: Sub(t.events, e, m) == if m == n then 0 else Sub(s.events, e, m)
  {
    hide Links, Sub, HookLists, PeerLists, HookCounts, NodeCounts, Symmetric, Subscriptions, Names, EventCounts;
  }

  lemma SubPositive(events: Events, e: nat, n: nat)
    requires e in events
    ensures Sub(events, e, n) > 0 <==> n in events[e].nodes
  {
  }

  lemma RemovedIs(a: World, e: nat, b: World)
    requires e in a.creators && b.creators == a.creators - {e} && b.registered == a.registered - {e}
    requires SameGraph(a, b) && OnlyEvent(a.s.events, b.s.events, e) && OnlyCells(a.cells, b.cells, e)
    requires e in b.s.events ==> b.s.events[e].nodes == []
    ensures Changed(a, RemoveEvent(e), b)
  {
    hide OnlyEvent, OnlyCells;
  }

  lemma SameGrown(hooks: Hooks)
    ensures PeersGrown(hooks, hooks)
  {
  }

  lemma NothingElse(w: World, e: nat)
    ensures OnlyEvent(w.s.events, w.s.events, e) && OnlyCells(w.cells, w.cells, e)
  {
  }

  // ---- Chains ----

  lemma ChainBegins(a: World)
    ensures Chain([], [], a, a)
  {
  }

  lemma ChainMore(ds: seq<Done>, commands: seq<Command>, i: nat, a: World, d: Done)
    requires i < |commands| && Chain(ds, commands[..i], a, d.before) && d.command == commands[i] && Did(d)
    ensures Chain(ds + [d], commands[..i + 1], a, d.after)
  {
    hide Did;
    var ds' := ds + [d];
    assert forall k :: 0 <= k < i ==> ds'[k] == ds[k] && commands[..i + 1][k] == commands[..i][k];
    assert ds'[i] == d && commands[..i + 1][i] == commands[i];
  }

  lemma ChainRest(ds: seq<Done>, commands: seq<Command>, a: World, b: World)
    requires Chain(ds, commands, a, b) && ds != []
    ensures commands != [] && ds[0].command == commands[0] && ds[0].before == a && Did(ds[0])
    ensures Chain(ds[1..], commands[1..], ds[0].after, b)
  {
    hide Did;
    assert forall k :: 0 <= k < |ds| - 1 ==> ds[1..][k] == ds[k + 1] && commands[1..][k] == commands[k + 1];
  }

  lemma ChainIs(ds: seq<Done>, commands: seq<Command>, a: World, b: World)
    requires Chain(ds, commands, a, b)
    ensures |ds| == |commands| && forall i :: 0 <= i < |ds| ==> ds[i].command == commands[i] && Did(ds[i])
  {
    hide Did;
  }

  ghost function Who(turns: seq<Turn>): (r: seq<nat>)
    ensures |r| == |turns| && forall i :: 0 <= i < |turns| ==> r[i] == turns[i].who
  {
    if turns == [] then [] else Who(turns[..|turns| - 1]) + [turns[|turns| - 1].who]
  }

  lemma WhoMore(turns: seq<Turn>, turn: Turn)
    ensures Who(turns + [turn]) == Who(turns) + [turn.who]
  {
    assert (turns + [turn])[..|turns|] == turns;
  }

  lemma ScriptPast(scripts: seq<Script>, k: nat)
    ensures k >= |scripts| ==> ScriptAt(scripts, k) == []
  {
  }

  // ---- The walk over subscribers ----

  /** The node of a record: en_node. */
  function NodeOf(nodes: seq<nat>, cells: seq<nat>, c: nat): (n: nat)
    requires |nodes| == |cells| && c in cells
    ensures n in nodes
  {
    if cells[0] == c then nodes[0] else NodeOf(nodes[1..], cells[1..], c)
  }

  lemma {:induction false} NodeOfAt(nodes: seq<nat>, cells: seq<nat>, i: nat)
    requires |nodes| == |cells| && NoDup(cells) && i < |cells|
    ensures NodeOf(nodes, cells, cells[i]) == nodes[i]
  {
    if i > 0 {
      assert cells[0] != cells[i] && cells[1..][i - 1] == cells[i];
      NodeOfAt(nodes[1..], cells[1..], i - 1);
    }
  }

  lemma EventRecords(w: World, e: nat)
    requires SoundWorld(w) && e in w.s.events
    ensures e in w.cells && |w.cells[e]| == |w.s.events[e].nodes| && NoDup(w.cells[e])
  {
    CellsAt(w.s.events, w.cells, w.lastcell, e);
    hide Inv;
  }

  /** The record names a node that is there, the one at its place; the next record is that of the next place. */
  lemma SubscriberAt(w: World, e: nat, cell: nat)
    requires SoundWorld(w) && e in w.s.events && e in w.cells && cell in w.cells[e]
    ensures |w.cells[e]| == |w.s.events[e].nodes|
    ensures NodeOf(w.s.events[e].nodes, w.cells[e], cell) in w.s.nodes
    ensures forall i :: 0 <= i < |w.cells[e]| && w.cells[e][i] == cell ==>
              && NodeOf(w.s.events[e].nodes, w.cells[e], cell) == w.s.events[e].nodes[i]
              && NextCell(w.cells[e], cell) == if i + 1 < |w.cells[e]| then Some(w.cells[e][i + 1]) else None
  {
    EventRecords(w, e);
    SubscriberLive(w.s, e, NodeOf(w.s.events[e].nodes, w.cells[e], cell));
    hide Inv, CellsOf, NodeOf, NextCell, NoDup;
    forall i | 0 <= i < |w.cells[e]| && w.cells[e][i] == cell
      ensures NodeOf(w.s.events[e].nodes, w.cells[e], cell) == w.s.events[e].nodes[i]
      ensures NextCell(w.cells[e], cell) == if i + 1 < |w.cells[e]| then Some(w.cells[e][i + 1]) else None
    {
      NodeOfAt(w.s.events[e].nodes, w.cells[e], i);
      NextCellAt(w.cells[e], i);
    }
  }

  lemma SubscriberLive(s: State, e: nat, n: nat)
    requires Inv(s) && e in s.events && n in s.events[e].nodes
    ensures n in s.nodes
  {
    hide HookLists, PeerLists, HookCounts, NodeCounts, Symmetric, Coupled;
  }

  lemma EventTurnIs(t: Turn, e: nat, script: seq<Command>)
    requires NodeTurn(t, script) && e in t.before.s.events && e in t.before.cells && t.cell in t.before.cells[e]
    requires forall i :: 0 <= i < |t.before.cells[e]| && t.before.cells[e][i] == t.cell ==>
               i < |t.before.s.events[e].nodes| && t.before.s.events[e].nodes[i] == t.who
    ensures EventTurn(t, e, script)
  {
    hide NodeTurn;
  }

  /** An event that is held is there, with its records. */
  lemma HeldRecords(w: World, e: nat)
    requires SoundWorld(w) && e in HeldIn(w).2
    ensures e in w.s.events && e in w.cells
  {
    HeldEventStays(w.s, e);
    EventRecords(w, e);
    hide Inv, CellsOf;
  }

  lemma EventWalkBegins(w: World, e: nat, handlers: seq<Script>)
    ensures EventWalk([], e, handlers, w, FirstRecord(w, e), w)
  {
  }

  lemma EventWalkMore(turns: seq<Turn>, e: nat, handlers: seq<Script>, a: World, turn: Turn, w: World)
    requires EventWalk(turns, e, handlers, a, Some(turn.cell), w) && turn.before == w
    requires EventTurn(turn, e, ScriptAt(handlers, |turns|))
    ensures EventWalk(turns + [turn], e, handlers, a, NextRecord(turn, e), turn.after)
  {
    hide EventTurn, NextRecord, FirstRecord, ScriptAt;
    var turns' := turns + [turn];
    assert forall i :: 0 <= i < |turns| ==> turns'[i] == turns[i];
    assert turns'[|turns|] == turn;
  }

  /** The handler of the first one told has run, unless that node was removed before. */
  ghost predicate FirstRan(a: World, handlers: seq<Script>, turns: seq<Turn>) {
    turns != [] && handlers != [] && turns[0].who in a.s.nodes && a.s.nodes[turns[0].who].valid ==>
      Chain(turns[0].body, handlers[0].commands, turns[0].start, turns[0].end)
  }

  /** The first told is the first subscriber. */
  lemma EventWalkFirst(turns: seq<Turn>, e: nat, handlers: seq<Script>, a: World, b: World)
    requires SoundWorld(a) && e in a.s.events && EventWalk(turns, e, handlers, a, None, b)
    ensures a.s.events[e].nodes == [] <==> turns == []
    ensures turns != [] ==> turns[0].who == a.s.events[e].nodes[0]
    ensures FirstRan(a, handlers, turns)
  {
    FirstTurn(turns, e, handlers, a, b);
    EventRecords(a, e);
    hide SoundWorld, EventTurn, NoDup, FirstRan, EventWalk, ScriptAt;
    if turns != [] {
      FirstNode(turns[0], e, ScriptAt(handlers, 0));
    }
  }

  lemma FirstNode(t: Turn, e: nat, script: seq<Command>)
    requires EventTurn(t, e, script)
    ensures t.cell == t.before.cells[e][0] ==>
              t.before.s.events[e].nodes != [] && t.who == t.before.s.events[e].nodes[0]
  {
    hide NodeTurn;
  }

  lemma FirstTurn(turns: seq<Turn>, e: nat, handlers: seq<Script>, a: World, b: World)
    requires EventWalk(turns, e, handlers, a, None, b)
    ensures turns == [] ==> FirstRecord(a, e) == None
    ensures turns != [] ==>
              && turns[0].before == a && FirstRecord(a, e) == Some(turns[0].cell)
              && EventTurn(turns[0], e, ScriptAt(handlers, 0))
    ensures FirstRan(a, handlers, turns)
  {
    hide Chain, Steady, SoundWorld, NextRecord;
    if turns != [] {
      assert EventTurn(turns[0], e, ScriptAt(handlers, 0));
    }
  }

  /** How many records a walk has before it. */
  ghost function ToTell(w: World, e: nat, cell: Option<nat>): nat {
    if cell.Some? && e in w.cells && cell.value in w.cells[e] then Remaining(w.cells[e], cell.value) else 0
  }

  ghost function Remaining(cells: seq<nat>, c: nat): (r: nat)
    requires c in cells
    ensures r > 0
  {
    if cells[0] == c then |cells| else Remaining(cells[1..], c)
  }

  lemma {:induction false} RemainingLess(cells: seq<nat>, c: nat)
    requires c in cells && NoDup(cells)
    ensures NextCell(cells, c).Some? ==> Remaining(cells, NextCell(cells, c).value) < Remaining(cells, c)
  {
    if cells[0] == c {
      if |cells| > 1 {
        assert cells[0] != cells[1] && cells[1..][0] == cells[1];
      }
    } else {
      assert forall i :: 0 <= i < |cells| - 1 ==> cells[1..][i] == cells[i + 1];
      RemainingLess(cells[1..], c);
      if NextCell(cells, c).Some? {
        assert NextCell(cells, c).value in cells[1..] && cells[0] !in cells[1..];
      }
    }
  }

  /** A handler that does nothing leaves the world as it was. */
  lemma IdleNode(t: Turn)
    requires NodeTurn(t, [])
    ensures t.after.cells == t.before.cells
    ensures t.after.s.hooks == t.before.s.hooks && t.after.s.events == t.before.s.events
  {
    hide SoundWorld;
  }

  lemma IdleEvent(t: Turn, script: seq<Command>, e: nat)
    requires EventTurn(t, e, script) && SoundWorld(t.before)
    ensures script == [] ==> ToTell(t.after, e, NextRecord(t, e)) < ToTell(t.before, e, Some(t.cell))
  {
    EventRecords(t.before, e);
    if script == [] {
      IdleNode(t);
      RemainingLess(t.before.cells[e], t.cell);
    }
    hide SoundWorld, NodeTurn, NoDup, NextCell, Remaining;
  }

  // ---- The walk over peers ----

  lemma PeerLive(w: World, h: nat, p: nat)
    requires SoundWorld(w) && h in w.s.hooks && p in w.s.hooks[h].peers
    ensures p in w.s.hooks && NoDup(w.s.hooks[h].peers)
  {
    assert Joined(w.s.hooks, h, p);
  }

  lemma HeldStays(w: World, h: nat)
    requires SoundWorld(w) && h in w.s.hookHolds
    ensures h in w.s.hooks
  {
  }

  lemma PeerWalkBegins(w: World, h: nat, replies: seq<Script>)
    ensures PeerWalk([], h, replies, w, FirstPeer(w, h), w)
  {
  }

  lemma PeerWalkMore(turns: seq<Turn>, h: nat, replies: seq<Script>, a: World, turn: Turn, w: World)
    requires PeerWalk(turns, h, replies, a, Some(turn.who), w) && turn.before == w
    requires HookTurn(turn, ScriptAt(replies, |turns|))
    ensures PeerWalk(turns + [turn], h, replies, a, NextPeer(turn, h), turn.after)
  {
    hide HookTurn, NextPeer, FirstPeer, ScriptAt;
    var turns' := turns + [turn];
    assert forall i :: 0 <= i < |turns| ==> turns'[i] == turns[i];
    assert turns'[|turns|] == turn;
  }

  lemma PeerWalkFirst(turns: seq<Turn>, h: nat, replies: seq<Script>, a: World, b: World)
    requires h in a.s.hooks && PeerWalk(turns, h, replies, a, None, b)
    ensures a.s.hooks[h].peers == [] <==> turns == []
    ensures turns != [] ==> turns[0].who == a.s.hooks[h].peers[0]
  {
    hide HookTurn, NextPeer;
  }

  /** How many entries a walk has before it. */
  ghost function ToPass(w: World, h: nat, peer: Option<nat>): nat {
    if peer.Some? && h in w.s.hooks && peer.value in w.s.hooks[h].peers then
      1 + |NextEntries(w.s.hooks[h].peers, peer.value)|
    else 0
  }

  lemma {:induction false} EntriesLess(list: seq<nat>, p: nat)
    requires p in list && NoDup(list) && NextEntries(list, p) != []
    ensures NextEntries(list, p)[0] in list
    ensures |NextEntries(list, NextEntries(list, p)[0])| < |NextEntries(list, p)|
  {
    var i :| 0 <= i < |list| && list[i] == p;
    NextEntriesAt(list, i);
    NextEntriesAt(list, i + 1);
  }

  lemma IdleHookSame(t: Turn)
    requires HookTurn(t, []) && SoundWorld(t.before)
    ensures t.after.s.hooks == t.before.s.hooks && t.after.cells == t.before.cells
  {
    RefHookFacts(t.before.s, t.who);
    hide SoundWorld, RefHook, DropHook, Live, PeersGrown;
  }

  lemma IdleHook(t: Turn, script: seq<Command>, h: nat)
    requires HookTurn(t, script) && SoundWorld(t.before) && h in t.before.s.hooks && t.who in t.before.s.hooks[h].peers
    ensures script == [] ==> ToPass(t.after, h, NextPeer(t, h)) < ToPass(t.before, h, Some(t.who))
  {
    if script == [] {
      PeerLive(t.before, h, t.who);
      IdleHookSame(t);
      hide SoundWorld, HookTurn;
      FewerToPass(t, h);
    }
  }

  lemma FewerToPass(t: Turn, h: nat)
    requires t.after.s.hooks == t.before.s.hooks && h in t.before.s.hooks
    requires NoDup(t.before.s.hooks[h].peers) && t.who in t.before.s.hooks[h].peers
    ensures ToPass(t.after, h, NextPeer(t, h)) < ToPass(t.before, h, Some(t.who))
  {
    if NextEntries(t.before.s.hooks[h].peers, t.who) != [] {
      EntriesLess(t.before.s.hooks[h].peers, t.who);
    }
    hide NextEntries, NoDup;
  }

  // ---- Handlers that leave the subscriptions of an event alone ----

  predicate LeavesSubs(c: Command, e: nat)
    decreases c, 0
  {
    match c
    case Message(_, action) => ActionLeavesSubs(action, e)
    case Send(_, replies) => LeaveSubs(replies, e)
    case RemoveEvent(x) => x != e
    case Trigger(_, handlers) => LeaveSubs(handlers, e)
    case _ => true
  }

  predicate ActionLeavesSubs(action: Action, e: nat)
    decreases action, 0
  {
    match action
    case Rm => false
    case Subscribe(x, _, _, _) => x != e
    case Unsubscribe(x) => x != e
    case Handle(body) => AllLeaveSubs(body, e)
    case _ => true
  }

  predicate AllLeaveSubs(commands: seq<Command>, e: nat)
    decreases commands, 0
  {
    forall i :: 0 <= i < |commands| ==> LeavesSubs(commands[i], e)
  }

  predicate LeaveSubs(scripts: seq<Script>, e: nat)
    decreases scripts, 0
  {
    forall i :: 0 <= i < |scripts| ==> AllLeaveSubs(scripts[i].commands, e)
  }

  /** The event has the same subscribers, with the same records. */
  ghost predicate KeepsEvent(a: World, b: World, e: nat) {
    && e in a.s.events && e in b.s.events && e in a.cells && e in b.cells
    && b.cells[e] == a.cells[e] && b.s.events[e].nodes == a.s.events[e].nodes
  }

  ghost predicate HeldEvent(w: World, e: nat) {
    SoundWorld(w) && e in HeldIn(w).2
  }

  lemma KeepsSelf(w: World, e: nat)
    requires HeldEvent(w, e)
    ensures KeepsEvent(w, w, e)
  {
    HeldRecords(w, e);
    hide SoundWorld, HeldIn;
  }

  lemma StaysHeld(a: World, b: World, e: nat)
    requires Steady(a, b) && HeldEvent(a, e)
    ensures HeldEvent(b, e) && KeepsEvent(a, a, e) && KeepsEvent(b, b, e)
  {
    KeepsSelf(a, e);
    hide SoundWorld, HeldIn;
    KeepsSelf(b, e);
  }

  lemma SteadySelf(w: World)
    requires SoundWorld(w)
    ensures Steady(w, w)
  {
  }

  lemma HeldSound(w: World, e: nat)
    requires HeldEvent(w, e)
    ensures Steady(w, w)
  {
  }

  lemma SteadyTwice(a: World, b: World, c: World)
    requires Steady(a, b) && Steady(b, c)
    ensures Steady(a, c)
  {
  }

  lemma DoneSteady(d: Done)
    requires Did(d)
    ensures Steady(d.before, d.after)
  {
    hide Steady, Delivered, Passed, Triggered, Changed;
  }

  lemma LeaveRest(commands: seq<Command>, e: nat)
    requires AllLeaveSubs(commands, e) && commands != []
    ensures LeavesSubs(commands[0], e) && AllLeaveSubs(commands[1..], e)
  {
    hide LeavesSubs;
    assert forall i :: 0 <= i < |commands| - 1 ==> commands[1..][i] == commands[i + 1];
  }

  lemma ActedKeeps(a: World, n: nat, action: Action, b: World, e: nat)
    requires Acted(a, n, action, b) && KeepsEvent(a, a, e) && e in b.s.events && e in b.cells
    requires !action.Handle? && ActionLeavesSubs(action, e)
    ensures KeepsEvent(a, b, e)
  {
    hide Links, PeersGrown, Sub;
  }

  lemma ChangedKeeps(a: World, c: Command, b: World, e: nat)
    requires Changed(a, c, b) && KeepsEvent(a, a, e) && e in b.s.events && e in b.cells && SoundWorld(a)
    requires !c.Message? && !c.Send? && !c.Trigger? && LeavesSubs(c, e)
    ensures KeepsEvent(a, b, e)
  {
    hide SoundWorld, NewNode, NewEvent, RefEvent, DropEvent;
    if c.Create? {
      NewNodeHolds(a.s);
    } else if c.CreateEvent? {
      CreateKeeps(a, b, e);
    } else if c.RemoveEvent? {
    } else if c.Register? {
      if c.e in a.s.events {
        RefEventHolds(a.s, c.e);
      }
    } else if c.Deregister? {
      if c.e in a.registered {
        FreedKeeps(a, c.e, b.(registered := a.registered), e);
      }
    }
  }

  lemma CreateKeeps(a: World, b: World, e: nat)
    requires Changed(a, CreateEvent, b) && KeepsEvent(a, a, e) && SoundWorld(a)
    ensures KeepsEvent(a, b, e)
  {
    NewEventKeeps(a.s, e);
    hide SoundWorld, NewEvent;
  }

  lemma NewEventKeeps(s: State, e: nat)
    requires Inv(s) && e in s.events
    ensures e != s.lasteventid + 1 && e in NewEvent(s).events && NewEvent(s).events[e] == s.events[e]
  {
    FreshIds(s);
    hide Inv;
  }

  lemma FreedKeeps(w: World, x: nat, r: World, e: nat)
    requires EventFreed(w, x, r) && KeepsEvent(w, w, e) && e in r.s.events
    ensures KeepsEvent(w, r, e)
  {
    UnrefOnly(w.s.events, x);
  }

  lemma DidMessage(d: Done, e: nat)
    requires Did(d) && d.command.Message?
    ensures Delivered(d.before, d.command.dst, d.command.action, d.turns, d.after)
    ensures LeavesSubs(d.command, e) ==> ActionLeavesSubs(d.command.action, e)
    ensures PartsNothing(d.command) ==> ActionPartsNothing(d.command.action)
  {
    hide Steady, Delivered, Passed, Triggered, Changed, ActionLeavesSubs, ActionPartsNothing;
  }

  lemma DidSend(d: Done, e: nat)
    requires Did(d) && d.command.Send?
    ensures Passed(d.before, d.command.hook, d.command.replies, d.turns, d.after) || d.after == d.before
    ensures LeavesSubs(d.command, e) ==> LeaveSubs(d.command.replies, e)
    ensures PartsNothing(d.command) ==> PartNothing(d.command.replies)
  {
    hide Steady, Delivered, Passed, Triggered, Changed, LeaveSubs, PartNothing;
  }

  lemma DidTrigger(d: Done, e: nat)
    requires Did(d) && d.command.Trigger?
    ensures Triggered(d.before, d.command.e, d.command.handlers, d.turns, d.after) || d.after == d.before
    ensures LeavesSubs(d.command, e) ==> LeaveSubs(d.command.handlers, e)
    ensures PartsNothing(d.command) ==> PartNothing(d.command.handlers)
  {
    hide Steady, Delivered, Passed, Triggered, Changed, LeaveSubs, PartNothing;
  }

  lemma DidChange(d: Done)
    requires Did(d) && !d.command.Message? && !d.command.Send? && !d.command.Trigger?
    ensures Changed(d.before, d.command, d.after)
  {
    hide Steady, Delivered, Passed, Triggered, Changed;
  }

  lemma {:induction false} SubsDone(d: Done, e: nat)
    requires Did(d) && LeavesSubs(d.command, e) && HeldEvent(d.before, e)
    ensures KeepsEvent(d.before, d.after, e)
    decreases d, 4
  {
    hide Did, LeavesSubs, Steady, HeldEvent, KeepsEvent, Delivered, Passed, Triggered, Changed;
    DoneSteady(d);
    StaysHeld(d.before, d.after, e);
    if d.command.Message? {
      DidMessage(d, e);
      SubsDelivered(d.before, d.command.dst, d.command.action, d.turns, d.after, e);
    } else if d.command.Send? {
      DidSend(d, e);
      if d.before != d.after {
        SubsPassed(d.before, d.command.hook, d.command.replies, d.turns, d.after, e);
      }
    } else if d.command.Trigger? {
      DidTrigger(d, e);
      if d.before != d.after {
        SubsTriggered(d.before, d.command.e, d.command.handlers, d.turns, d.after, e);
      }
    } else {
      DidChange(d);
      EventThere(d.before, d.after, e);
      ChangedKeeps(d.before, d.command, d.after, e);
    }
  }

  lemma EventThere(a: World, b: World, e: nat)
    requires HeldEvent(a, e) && KeepsEvent(b, b, e)
    ensures e in b.s.events && e in b.cells && SoundWorld(a)
  {
    hide SoundWorld, HeldIn;
  }

  /** A message is nothing for a node that was removed, a turn, or a generic command. */
  lemma DeliveredCases(a: World, n: nat, action: Action, turns: seq<Turn>, b: World)
    requires Delivered(a, n, action, turns, b)
    ensures || b == a
            || (action.Handle? && |turns| == 1 && turns[0].before == a && turns[0].after == b
                && NodeTurn(turns[0], action.body))
            || (!action.Handle? && Acted(a, n, action, b))
  {
    hide NodeTurn, Acted;
  }

  lemma {:induction false} SubsDelivered(a: World, n: nat, action: Action, turns: seq<Turn>, b: World, e: nat)
    requires Delivered(a, n, action, turns, b) && ActionLeavesSubs(action, e)
    requires HeldEvent(a, e) && KeepsEvent(a, a, e) && KeepsEvent(b, b, e)
    ensures KeepsEvent(a, b, e)
    decreases turns, 3
  {
    hide Delivered, HeldEvent, KeepsEvent, NodeTurn, Acted, AllLeaveSubs;
    EventThere(a, b, e);
    DeliveredCases(a, n, action, turns, b);
    if a != b {
      if action.Handle? {
        SubsTurn(turns[0], action.body, e);
      } else {
        ActedKeeps(a, n, action, b, e);
      }
    }
  }

  lemma {:induction false} SubsChain(ds: seq<Done>, commands: seq<Command>, a: World, b: World, e: nat)
    requires Chain(ds, commands, a, b) && AllLeaveSubs(commands, e) && HeldEvent(a, e)
    ensures KeepsEvent(a, b, e) && Steady(a, b)
    decreases ds, 0
  {
    if ds == [] {
      KeepsSelf(a, e);
      SteadySelf(a);
    } else {
      ChainRest(ds, commands, a, b);
      hide Chain, Did, HeldEvent, KeepsEvent, Steady, AllLeaveSubs, LeavesSubs;
      LeaveRest(commands, e);
      DoneSteady(ds[0]);
      StaysHeld(a, ds[0].after, e);
      SubsDone(ds[0], e);
      SubsChain(ds[1..], commands[1..], ds[0].after, b, e);
      KeepsTwice(a, ds[0].after, b, e);
      SteadyTwice(a, ds[0].after, b);
    }
  }

  lemma {:induction false} SubsTurn(t: Turn, script: seq<Command>, e: nat)
    requires NodeTurn(t, script) && AllLeaveSubs(script, e) && HeldEvent(t.before, e)
    ensures KeepsEvent(t.before, t.after, e) && Steady(t.before, t.after)
    decreases t, 0
  {
    KeepsSelf(t.before, e);
    if t.before.s.nodes[t.who].valid {
      RefNodeFacts(t.before.s, t.who);
      assert HeldEvent(t.start, e);
      assert KeepsEvent(t.before, t.end, e) ==> KeepsEvent(t.before, t.after, e);
      assert KeepsEvent(t.before, t.start, e);
      hide HeldEvent, KeepsEvent, Chain, AllLeaveSubs, RefNode, Steady, NodeFreed;
      SubsChain(t.body, script, t.start, t.end, e);
      KeepsTwice(t.before, t.start, t.end, e);
    }
  }

  lemma {:induction false} SubsHookTurn(t: Turn, script: seq<Command>, e: nat)
    requires HookTurn(t, script) && AllLeaveSubs(script, e) && HeldEvent(t.before, e)
    ensures KeepsEvent(t.before, t.after, e) && Steady(t.before, t.after)
    decreases t, 0
  {
    KeepsSelf(t.before, e);
    if t.before.s.hooks[t.who].valid {
      RefHookFacts(t.before.s, t.who);
      hide RefHook, PeersGrown, Live;
      assert HeldEvent(t.start, e);
      assert KeepsEvent(t.before, t.end, e) ==> KeepsEvent(t.before, t.after, e);
      assert KeepsEvent(t.before, t.start, e);
      hide HeldEvent, KeepsEvent, Chain, AllLeaveSubs, Steady, HookFreed;
      SubsChain(t.body, script, t.start, t.end, e);
      KeepsTwice(t.before, t.start, t.end, e);
    }
  }

  lemma AtScript(scripts: seq<Script>, k: nat, e: nat)
    requires LeaveSubs(scripts, e)
    ensures AllLeaveSubs(ScriptAt(scripts, k), e)
  {
  }

  /** The worlds of a walk. */
  ghost function At(turns: seq<Turn>, a: World, i: nat): World
    requires i <= |turns|
  {
    if i == 0 then a else turns[i - 1].after
  }

  lemma KeepsTwice(a: World, b: World, c: World, e: nat)
    requires KeepsEvent(a, b, e) && KeepsEvent(b, c, e)
    ensures KeepsEvent(a, c, e)
  {
  }

  /** The k-th turn begins where the one before ended. */
  lemma EventTurnAt(turns: seq<Turn>, e: nat, handlers: seq<Script>, a: World, cell: Option<nat>, b: World, k: nat)
    requires EventWalk(turns, e, handlers, a, cell, b) && k < |turns|
    ensures EventTurn(turns[k], e, ScriptAt(handlers, k)) && NodeTurn(turns[k], ScriptAt(handlers, k))
    ensures turns[k].before == At(turns, a, k) && turns[k].after == At(turns, a, k + 1)
  {
    hide NodeTurn, NextRecord, ScriptAt;
    assert k > 0 ==> turns[k].before == turns[k - 1].after;
  }

  lemma PeerTurnAt(turns: seq<Turn>, h: nat, replies: seq<Script>, a: World, peer: Option<nat>, b: World, k: nat)
    requires PeerWalk(turns, h, replies, a, peer, b) && k < |turns|
    ensures HookTurn(turns[k], ScriptAt(replies, k))
    ensures turns[k].before == At(turns, a, k) && turns[k].after == At(turns, a, k + 1)
  {
    hide HookTurn, NextPeer, ScriptAt;
    assert k > 0 ==> turns[k].before == turns[k - 1].after;
  }

  lemma {:induction false} SubsEventWalk(turns: seq<Turn>, x: nat, handlers: seq<Script>, a: World, cell: Option<nat>,
                                         b: World, e: nat, k: nat)
    requires EventWalk(turns, x, handlers, a, cell, b) && LeaveSubs(handlers, e) && k <= |turns| && HeldEvent(a, e)
    ensures KeepsEvent(a, At(turns, a, k), e) && Steady(a, At(turns, a, k))
    decreases turns, 1, k
  {
    hide EventWalk, KeepsEvent, LeaveSubs, ScriptAt, AllLeaveSubs, EventTurn, NodeTurn, HeldEvent, Steady, At;
    AtFirst(turns, a);
    if k == 0 {
      KeepsSelf(a, e);
      HeldSound(a, e);
    } else {
      var t := turns[k - 1];
      EventTurnAt(turns, x, handlers, a, cell, b, k - 1);
      AtScript(handlers, k - 1, e);
      SubsEventWalk(turns, x, handlers, a, cell, b, e, k - 1);
      StaysHeld(a, t.before, e);
      SubsTurn(t, ScriptAt(handlers, k - 1), e);
      KeepsTwice(a, t.before, t.after, e);
      SteadyTwice(a, t.before, t.after);
    }
  }

  lemma {:induction false} SubsPeerWalk(turns: seq<Turn>, h: nat, replies: seq<Script>, a: World, peer: Option<nat>,
                                        b: World, e: nat, k: nat)
    requires PeerWalk(turns, h, replies, a, peer, b) && LeaveSubs(replies, e) && k <= |turns| && HeldEvent(a, e)
    ensures KeepsEvent(a, At(turns, a, k), e) && Steady(a, At(turns, a, k))
    decreases turns, 1, k
  {
    hide PeerWalk, KeepsEvent, LeaveSubs, ScriptAt, AllLeaveSubs, HookTurn, HeldEvent, Steady, At;
    AtFirst(turns, a);
    if k == 0 {
      KeepsSelf(a, e);
      HeldSound(a, e);
    } else {
      var t := turns[k - 1];
      PeerTurnAt(turns, h, replies, a, peer, b, k - 1);
      AtScript(replies, k - 1, e);
      SubsPeerWalk(turns, h, replies, a, peer, b, e, k - 1);
      StaysHeld(a, t.before, e);
      SubsHookTurn(t, ScriptAt(replies, k - 1), e);
      KeepsTwice(a, t.before, t.after, e);
      SteadyTwice(a, t.before, t.after);
    }
  }

  lemma AtFirst(turns: seq<Turn>, a: World)
    ensures At(turns, a, 0) == a
  {
  }

  lemma LastAt(turns: seq<Turn>, a: World)
    ensures Last(turns, a) == At(turns, a, |turns|)
  {
  }

  lemma TriggerStart(a: World, x: nat, e: nat)
    requires x in a.s.events && HeldEvent(a, e) && SoundWorld(a.(s := RefEvent(a.s, x)))
    ensures HeldEvent(a.(s := RefEvent(a.s, x)), e) && KeepsEvent(a, a.(s := RefEvent(a.s, x)), e)
  {
    KeepsSelf(a, e);
    RefEventHolds(a.s, x);
    hide SoundWorld, RefEvent;
  }

  lemma {:induction false} SubsTriggered(a: World, x: nat, handlers: seq<Script>, turns: seq<Turn>, b: World, e: nat)
    requires Triggered(a, x, handlers, turns, b) && LeaveSubs(handlers, e)
    requires HeldEvent(a, e) && KeepsEvent(b, b, e)
    ensures KeepsEvent(a, b, e)
    decreases turns, 3
  {
    var start := a.(s := RefEvent(a.s, x));
    var end := Last(turns, start);
    TriggerStart(a, x, e);
    EventThere(a, b, e);
    LastAt(turns, start);
    hide HeldEvent, KeepsEvent, EventWalk, LeaveSubs, RefEvent, EventFreed, Last, At, SoundWorld;
    SubsEventWalk(turns, x, handlers, start, None, end, e, |turns|);
    KeepsTwice(a, start, end, e);
    KeptThere(a, end, e);
    FreedKeeps(end, x, b, e);
    KeepsTwice(a, end, b, e);
  }

  lemma KeptThere(a: World, b: World, e: nat)
    requires KeepsEvent(a, b, e)
    ensures KeepsEvent(b, b, e)
  {
  }

  lemma SendStart(a: World, h: nat, e: nat)
    requires h in a.s.hooks && HeldEvent(a, e) && SoundWorld(a.(s := RefHook(a.s, h)))
    ensures HeldEvent(a.(s := RefHook(a.s, h)), e) && KeepsEvent(a, a.(s := RefHook(a.s, h)), e)
  {
    KeepsSelf(a, e);
    RefHookFacts(a.s, h);
    hide SoundWorld, RefHook, PeersGrown, Live;
  }

  lemma {:induction false} SubsPassed(a: World, h: nat, replies: seq<Script>, turns: seq<Turn>, b: World, e: nat)
    requires Passed(a, h, replies, turns, b) && LeaveSubs(replies, e) && HeldEvent(a, e)
    ensures KeepsEvent(a, b, e)
    decreases turns, 3
  {
    var start := a.(s := RefHook(a.s, h));
    var end := Last(turns, start);
    SendStart(a, h, e);
    LastAt(turns, start);
    assert KeepsEvent(a, end, e) ==> KeepsEvent(a, b, e);
    hide HeldEvent, KeepsEvent, PeerWalk, LeaveSubs, RefHook, HookFreed, Last, At, SoundWorld;
    SubsPeerWalk(turns, h, replies, start, None, end, e, |turns|);
    KeepsTwice(a, start, end, e);
  }

  /** When no handler changes the subscriptions of the event, a whole walk tells every subscriber, once and in order. */
  lemma ToldAll(turns: seq<Turn>, e: nat, handlers: seq<Script>, a: World, b: World)
    requires EventWalk(turns, e, handlers, a, None, b) && LeaveSubs(handlers, e)
    requires HeldEvent(a, e) && e in a.s.events && e in a.cells && |a.cells[e]| == |a.s.events[e].nodes|
    ensures Who(turns) == a.s.events[e].nodes
  {
    hide LeaveSubs, HeldEvent, EventWalk, NextRecord, FirstRecord;
    RecordsAt(turns, e, handlers, a, b, 0);
    for k := 0 to |turns|
      invariant k <= |a.cells[e]| && (k < |turns| ==> k < |a.cells[e]| && turns[k].cell == a.cells[e][k])
      invariant k == |turns| ==> k == |a.cells[e]|
      invariant forall i :: 0 <= i < k ==> turns[i].who == a.s.events[e].nodes[i]
    {
      TurnAt(turns, e, handlers, a, b, k);
      RecordsAt(turns, e, handlers, a, b, k + 1);
    }
  }

  /** Where the walk stands after k turns. */
  lemma RecordsAt(turns: seq<Turn>, e: nat, handlers: seq<Script>, a: World, b: World, k: nat)
    requires EventWalk(turns, e, handlers, a, None, b) && k <= |turns| && e in a.cells
    ensures k == 0 ==> if turns == [] then a.cells[e] == [] else a.cells[e] != [] && turns[0].cell == a.cells[e][0]
    ensures k > 0 ==> NextRecord(turns[k - 1], e) == if k < |turns| then Some(turns[k].cell) else None
  {
    hide EventTurn, NextRecord;
  }

  lemma TurnAt(turns: seq<Turn>, e: nat, handlers: seq<Script>, a: World, b: World, k: nat)
    requires EventWalk(turns, e, handlers, a, None, b) && LeaveSubs(handlers, e) && HeldEvent(a, e)
    requires e in a.s.events && e in a.cells && |a.cells[e]| == |a.s.events[e].nodes|
    requires k < |turns| && k < |a.cells[e]| && turns[k].cell == a.cells[e][k]
    ensures turns[k].who == a.s.events[e].nodes[k]
    ensures NextRecord(turns[k], e) == if k + 1 < |a.cells[e]| then Some(a.cells[e][k + 1]) else None
  {
    OwnRecords(a, e);
    EventTurnAt(turns, e, handlers, a, None, b, k);
    hide HeldEvent, EventWalk, EventTurn, NodeTurn, NextCell, NoDup, LeaveSubs, KeepsEvent, NextRecord, At, Steady;
    SubsEventWalk(turns, e, handlers, a, None, b, e, k);
    SubsEventWalk(turns, e, handlers, a, None, b, e, k + 1);
    KeptTurn(turns[k], e, ScriptAt(handlers, k), a, k);
  }

  lemma OwnRecords(w: World, e: nat)
    requires HeldEvent(w, e)
    ensures e in w.s.events && e in w.cells && NoDup(w.cells[e]) && |w.cells[e]| == |w.s.events[e].nodes|
  {
    HeldRecords(w, e);
    EventRecords(w, e);
    hide SoundWorld, HeldIn, NoDup;
  }

  lemma KeptTurn(t: Turn, e: nat, script: seq<Command>, a: World, k: nat)
    requires EventTurn(t, e, script) && KeepsEvent(a, t.before, e) && KeepsEvent(a, t.after, e)
    requires NoDup(a.cells[e]) && k < |a.cells[e]| == |a.s.events[e].nodes| && t.cell == a.cells[e][k]
    ensures t.who == a.s.events[e].nodes[k]
    ensures NextRecord(t, e) == if k + 1 < |a.cells[e]| then Some(a.cells[e][k + 1]) else None
  {
    NextCellAt(a.cells[e], k);
    hide NodeTurn, NextCell, NoDup;
    assert t.before.cells[e][k] == t.cell;
    assert k + 1 < |a.cells[e]| ==> a.cells[e][k + 1] in a.cells[e];
  }

  // ---- Handlers that take no connection away ----

  predicate PartsNothing(c: Command)
    decreases c, 0
  {
    match c
    case Message(_, action) => ActionPartsNothing(action)
    case Send(_, replies) => PartNothing(replies)
    case Trigger(_, handlers) => PartNothing(handlers)
    case _ => true
  }

  predicate ActionPartsNothing(action: Action)
    decreases action, 0
  {
    match action
    case Rm => false
    case Disconnect(_, _, _) => false
    case Handle(body) => AllPartNothing(body)
    case _ => true
  }

  predicate AllPartNothing(commands: seq<Command>)
    decreases commands, 0
  {
    forall i :: 0 <= i < |commands| ==> PartsNothing(commands[i])
  }

  predicate PartNothing(scripts: seq<Script>)
    decreases scripts, 0
  {
    forall i :: 0 <= i < |scripts| ==> AllPartNothing(scripts[i].commands)
  }

  ghost predicate Grown(a: World, b: World) {
    PeersGrown(a.s.hooks, b.s.hooks)
  }

  lemma GrownAgain(a: World, b: World, c: World)
    requires Grown(a, b) && Grown(b, c)
    ensures Grown(a, c)
  {
    GrownTwice(a.s.hooks, b.s.hooks, c.s.hooks);
  }

  lemma ActedGrows(a: World, n: nat, action: Action, b: World)
    requires Acted(a, n, action, b) && !action.Handle? && ActionPartsNothing(action)
    ensures Grown(a, b)
  {
    SameGrown(a.s.hooks);
    hide PeersGrown, OnlyEvent, OnlyCells, Links, Sub;
  }

  lemma ChangedGrows(a: World, c: Command, b: World)
    requires Changed(a, c, b) && !c.Message? && !c.Send? && !c.Trigger?
    ensures Grown(a, b)
  {
    SameGrown(a.s.hooks);
    hide PeersGrown, OnlyEvent, OnlyCells;
  }

  lemma GrownSelf(w: World)
    ensures Grown(w, w)
  {
    SameGrown(w.s.hooks);
  }

  lemma {:induction false} GrownDone(d: Done)
    requires Did(d) && PartsNothing(d.command)
    ensures Grown(d.before, d.after)
    decreases d, 4
  {
    hide Did, PartsNothing, Delivered, Passed, Triggered, Changed, Grown, NodeTurn, Acted, AllPartNothing;
    GrownSelf(d.before);
    if d.command.Message? {
      DidMessage(d, 0);
      DeliveredCases(d.before, d.command.dst, d.command.action, d.turns, d.after);
      if d.before != d.after {
        if d.command.action.Handle? {
          GrownTurn(d.turns[0], d.command.action.body);
        } else {
          ActedGrows(d.before, d.command.dst, d.command.action, d.after);
        }
      }
    } else if d.command.Send? {
      DidSend(d, 0);
      if d.before != d.after {
        GrownPassed(d.before, d.command.hook, d.command.replies, d.turns, d.after);
      }
    } else if d.command.Trigger? {
      DidTrigger(d, 0);
      if d.before != d.after {
        GrownTriggered(d.before, d.command.e, d.command.handlers, d.turns, d.after);
      }
    } else {
      DidChange(d);
      ChangedGrows(d.before, d.command, d.after);
    }
  }

  lemma PartRest(commands: seq<Command>)
    requires AllPartNothing(commands) && commands != []
    ensures PartsNothing(commands[0]) && AllPartNothing(commands[1..])
  {
    hide PartsNothing;
    assert forall i :: 0 <= i < |commands| - 1 ==> commands[1..][i] == commands[i + 1];
  }

  lemma {:induction false} GrownChain(ds: seq<Done>, commands: seq<Command>, a: World, b: World)
    requires Chain(ds, commands, a, b) && AllPartNothing(commands)
    ensures Grown(a, b)
    decreases ds, 0
  {
    if ds == [] {
      SameGrown(a.s.hooks);
    } else {
      ChainRest(ds, commands, a, b);
      hide Chain, Did, PartsNothing, AllPartNothing, Grown;
      PartRest(commands);
      GrownDone(ds[0]);
      GrownChain(ds[1..], commands[1..], ds[0].after, b);
      GrownAgain(a, ds[0].after, b);
    }
  }

  lemma {:induction false} GrownTurn(t: Turn, script: seq<Command>)
    requires NodeTurn(t, script) && AllPartNothing(script)
    ensures Grown(t.before, t.after)
    decreases t, 0
  {
    SameGrown(t.before.s.hooks);
    hide SoundWorld, Chain, AllPartNothing, PeersGrown;
    if t.before.s.nodes[t.who].valid {
      GrownChain(t.body, script, t.start, t.end);
    }
  }

  lemma {:induction false} GrownHookTurn(t: Turn, script: seq<Command>)
    requires HookTurn(t, script) && AllPartNothing(script)
    ensures Grown(t.before, t.after)
    decreases t, 0
  {
    SameGrown(t.before.s.hooks);
    if t.before.s.hooks[t.who].valid {
      RefGrows(t.before.s, t.who);
      LetGoGrows(t.end.s, t.who);
      hide SoundWorld, Chain, AllPartNothing, RefHook, DropHook, Live, PeersGrown;
      GrownChain(t.body, script, t.start, t.end);
      GrownAgain(t.before, t.start, t.end);
      GrownAgain(t.before, t.end, t.after);
    }
  }

  lemma AtPart(scripts: seq<Script>, k: nat)
    requires PartNothing(scripts)
    ensures AllPartNothing(ScriptAt(scripts, k))
  {
  }

  lemma {:induction false} GrownEventWalk(turns: seq<Turn>, x: nat, handlers: seq<Script>, a: World, cell: Option<nat>,
                                          b: World, k: nat)
    requires EventWalk(turns, x, handlers, a, cell, b) && PartNothing(handlers) && k <= |turns|
    ensures Grown(a, At(turns, a, k))
    decreases turns, 1, k
  {
    hide EventWalk, PartNothing, ScriptAt, AllPartNothing, Grown, NodeTurn, EventTurn, At;
    AtFirst(turns, a);
    GrownSelf(a);
    if k > 0 {
      var t := turns[k - 1];
      EventTurnAt(turns, x, handlers, a, cell, b, k - 1);
      AtPart(handlers, k - 1);
      GrownEventWalk(turns, x, handlers, a, cell, b, k - 1);
      GrownTurn(t, ScriptAt(handlers, k - 1));
      GrownAgain(a, t.before, t.after);
    }
  }

  lemma {:induction false} GrownPeerWalk(turns: seq<Turn>, h: nat, replies: seq<Script>, a: World, peer: Option<nat>,
                                         b: World, k: nat)
    requires PeerWalk(turns, h, replies, a, peer, b) && PartNothing(replies) && k <= |turns|
    ensures Grown(a, At(turns, a, k))
    decreases turns, 1, k
  {
    hide PeerWalk, PartNothing, ScriptAt, AllPartNothing, Grown, HookTurn, At;
    AtFirst(turns, a);
    GrownSelf(a);
    if k > 0 {
      var t := turns[k - 1];
      PeerTurnAt(turns, h, replies, a, peer, b, k - 1);
      AtPart(replies, k - 1);
      GrownPeerWalk(turns, h, replies, a, peer, b, k - 1);
      GrownHookTurn(t, ScriptAt(replies, k - 1));
      GrownAgain(a, t.before, t.after);
    }
  }

  lemma {:induction false} GrownTriggered(a: World, x: nat, handlers: seq<Script>, turns: seq<Turn>, b: World)
    requires Triggered(a, x, handlers, turns, b) && PartNothing(handlers)
    ensures Grown(a, b)
    decreases turns, 3
  {
    var start := a.(s := RefEvent(a.s, x));
    RefEventHolds(a.s, x);
    hide SoundWorld, EventWalk, PartNothing, RefEvent, PeersGrown;
    GrownEventWalk(turns, x, handlers, start, None, Last(turns, start), |turns|);
  }

  lemma {:induction false} GrownPassed(a: World, h: nat, replies: seq<Script>, turns: seq<Turn>, b: World)
    requires Passed(a, h, replies, turns, b) && PartNothing(replies)
    ensures Grown(a, b)
    decreases turns, 3
  {
    var start := a.(s := RefHook(a.s, h));
    var end := Last(turns, start);
    RefGrows(a.s, h);
    LetGoGrows(end.s, h);
    hide SoundWorld, PeerWalk, PartNothing, RefHook, DropHook, Live, PeersGrown;
    GrownPeerWalk(turns, h, replies, start, None, end, |turns|);
    GrownAgain(a, start, end);
    GrownAgain(a, end, b);
  }

  /** When no handler takes a connection or a node away, a whole walk passes the data to every in hook connected, once
      and in order; new connections are made in front of the walk. */
  lemma PassedToAll(turns: seq<Turn>, h: nat, replies: seq<Script>, a: World, b: World)
    requires PeerWalk(turns, h, replies, a, None, b) && PartNothing(replies) && h in a.s.hooks
    ensures Who(turns) == a.s.hooks[h].peers
  {
    hide PartNothing, PeerWalk, NextPeer, FirstPeer;
    var peers := a.s.hooks[h].peers;
    PeersAt(turns, h, replies, a, b, 0);
    for k := 0 to |turns|
      invariant k <= |peers| && (k < |turns| ==> k < |peers| && turns[k].who == peers[k])
      invariant k == |turns| ==> k == |peers|
      invariant forall i :: 0 <= i < k ==> turns[i].who == peers[i]
    {
      PassAt(turns, h, replies, a, b, k);
      PeersAt(turns, h, replies, a, b, k + 1);
    }
  }

  lemma PeersAt(turns: seq<Turn>, h: nat, replies: seq<Script>, a: World, b: World, k: nat)
    requires PeerWalk(turns, h, replies, a, None, b) && k <= |turns| && h in a.s.hooks
    ensures k == 0 ==>
              if turns == [] then a.s.hooks[h].peers == []
              else a.s.hooks[h].peers != [] && turns[0].who == a.s.hooks[h].peers[0]
    ensures k > 0 ==> NextPeer(turns[k - 1], h) == if k < |turns| then Some(turns[k].who) else None
  {
    hide HookTurn, NextPeer;
  }

  lemma PassAt(turns: seq<Turn>, h: nat, replies: seq<Script>, a: World, b: World, k: nat)
    requires PeerWalk(turns, h, replies, a, None, b) && PartNothing(replies) && h in a.s.hooks
    requires k < |turns| && k < |a.s.hooks[h].peers| && turns[k].who == a.s.hooks[h].peers[k]
    ensures NextPeer(turns[k], h) ==
              if k + 1 < |a.s.hooks[h].peers| then Some(a.s.hooks[h].peers[k + 1]) else None
  {
    PeerTurnAt(turns, h, replies, a, None, b, k);
    HookSteady(turns[k], ScriptAt(replies, k));
    GrownPeerWalk(turns, h, replies, a, None, b, k + 1);
    hide HookTurn, PeerWalk, PartNothing, SoundWorld, At, NextPeer;
    NextGrown(turns[k], h, a, k);
  }

  lemma HookSteady(t: Turn, script: seq<Command>)
    requires HookTurn(t, script)
    ensures SoundWorld(t.after)
  {
    hide SoundWorld, Chain;
  }

  lemma EndsAt(xs: seq<nat>, ys: seq<nat>, k: nat)
    requires EndsWith(xs, ys) && k < |ys|
    ensures xs[|xs| - |ys| + k] == ys[k]
  {
    assert xs[|xs| - |ys|..][k] == xs[|xs| - |ys| + k];
  }

  lemma NextGrown(t: Turn, h: nat, a: World, k: nat)
    requires SoundWorld(t.after) && Grown(a, t.after) && h in a.s.hooks
    requires k < |a.s.hooks[h].peers| && t.who == a.s.hooks[h].peers[k]
    ensures NextPeer(t, h) == if k + 1 < |a.s.hooks[h].peers| then Some(a.s.hooks[h].peers[k + 1]) else None
  {
    hide SoundWorld, NextEntries, NoDup, EndsWith;
    var peers := a.s.hooks[h].peers;
    assert h in t.after.s.hooks && EndsWith(t.after.s.hooks[h].peers, peers);
    hide Grown, PeersGrown;
    var grown := t.after.s.hooks[h].peers;
    EndsShort(grown, peers);
    var i := |grown| - |peers| + k;
    EndsAt(grown, peers, k);
    PeerLive(t.after, h, grown[i]);
    NextEntriesAt(grown, i);
    if k + 1 < |peers| {
      EndsAt(grown, peers, k + 1);
      assert grown[i + 1..][0] == grown[i + 1];
    }
  }

  lemma EndsShort(xs: seq<nat>, ys: seq<nat>)
    requires EndsWith(xs, ys)
    ensures |ys| <= |xs|
  {
  }

  // ---- What the walks come to ----

  lemma HookHeldBack(a: World, h: nat, start: World, end: World, b: World)
    requires SoundWorld(a) && h in a.s.hooks && start == a.(s := RefHook(a.s, h)) && Steady(start, end)
    requires HookFreed(end, h, b) && SoundWorld(b)
    ensures Steady(a, b)
  {
    RefHookIs(a.s, h);
    TakenBack(a.s.hookHolds, h);
    hide SoundWorld, RefHook, Live, UnrefHook, UnrefHookNodes;
  }

  /** Holding a hook while data is passed, and what that promises. */
  lemma PassedIs(a: World, h: nat, replies: seq<Script>, turns: seq<Turn>, start: World, end: World, b: World)
    requires SoundWorld(a) && h in a.s.hooks && start == a.(s := RefHook(a.s, h)) && SoundWorld(start)
    requires Steady(start, end) && PeerWalk(turns, h, replies, start, None, end) && end == Last(turns, start)
    requires h in end.s.hookHolds && HookFreed(end, h, b)
    ensures Passed(a, h, replies, turns, b)
    ensures a.s.hooks[h].peers == [] <==> turns == []
    ensures turns != [] ==> turns[0].who == a.s.hooks[h].peers[0]
    ensures PartNothing(replies) ==> Who(turns) == a.s.hooks[h].peers
  {
    RefHookIs(a.s, h);
    hide SoundWorld, HeldIn, RefHook, PeerWalk, Last, PartNothing, Who, HookFreed;
    PeerWalkFirst(turns, h, replies, start, end);
    if PartNothing(replies) {
      PassedToAll(turns, h, replies, start, end);
    }
  }

  /** The same for an event. */
  lemma TriggeredIs(a: World, e: nat, handlers: seq<Script>, turns: seq<Turn>, start: World, end: World, b: World)
    requires SoundWorld(a) && e in a.s.events && start == a.(s := RefEvent(a.s, e)) && SoundWorld(start)
    requires e in HeldIn(start).2
    requires Steady(start, end) && EventWalk(turns, e, handlers, start, None, end) && end == Last(turns, start)
    requires EventFreed(end, e, b)
    ensures Triggered(a, e, handlers, turns, b)
    ensures a.s.events[e].nodes == [] <==> turns == []
    ensures turns != [] ==> turns[0].who == a.s.events[e].nodes[0]
    ensures LeaveSubs(handlers, e) ==> Who(turns) == a.s.events[e].nodes
    ensures FirstRan(a, handlers, turns)
  {
    RefEventHolds(a.s, e);
    hide RefEvent, EventWalk, Last, LeaveSubs, Who, EventFreed, SoundWorld, HeldIn;
    EventRecords(start, e);
    EventWalkFirst(turns, e, handlers, start, end);
    if LeaveSubs(handlers, e) {
      ToldAll(turns, e, handlers, start, end);
    }
  }
}
