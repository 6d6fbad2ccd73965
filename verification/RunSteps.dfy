/** What runs do, step by step: messages, data along connections and events, with everything their handlers do. */
module RunSteps {
  import opened Errors
  import opened Lists
  import opened GraphState
  import opened GraphSteps
  import opened GraphLinks
  import opened GraphConnect
  import opened GraphEvents
  import opened GraphNodes
  import opened Runtimes

  /** What a message makes its receiver do: one of the generic commands, or its own handler, which may
      issue any commands itself while the message still holds the node. */
  datatype Action =
    | Rm
    | Connect(srchook: string, dst: nat, dsthook: string, o: Outcomes)
    | Disconnect(srchook: string, dst: nat, dsthook: string)
    | Subscribe(e: nat, checked: bool, eventMemory: bool, nodeMemory: bool)
    | Unsubscribe(e: nat)
    | Handle(body: seq<Command>)

  /** One thing the runtime is made to do. Handlers are given as what they do: `replies[k]` is what the
      k-th receiver's data function does, `handlers[k]` what the k-th subscriber's message function does;
      later ones do nothing. */
  datatype Command =
    | Create(known: bool, memory: bool, ctor: Errno)
    | Message(dst: nat, action: Action)
    | Send(hook: nat, replies: seq<Script>)
    | CreateEvent
    | RemoveEvent(e: nat)
    | Register(e: nat)
    | Deregister(e: nat)
    | Trigger(e: nat, handlers: seq<Script>)

  datatype Script = Script(commands: seq<Command>)

  function ScriptAt(scripts: seq<Script>, k: nat): seq<Command> {
    if k < |scripts| then scripts[k].commands else []
  }

  // ---- Worlds ----

  /** The graph with the records of subscriptions, and who has references to events for good. */
  datatype World = World(s: State, cells: map<nat, seq<nat>>, lastcell: nat, creators: set<nat>, registered: set<nat>)

  /** The references that creators have, and the trigger list. */
  ghost function Kept(creators: set<nat>, registered: set<nat>): multiset<nat> {
    multiset(creators) + multiset(registered)
  }

  /** The invariant, a record for each subscription, and neither a creator nor the trigger list gives its reference to
      an event back twice. Only events that have not been removed are on the trigger list. */
  ghost predicate SoundWorld(w: World) {
    && Inv(w.s) && CellsOf(w.s.events, w.cells, w.lastcell)
    && w.registered <= w.creators && Kept(w.creators, w.registered) <= w.s.eventHolds
  }

  /** The outstanding temporary references: those that are neither a creator's, nor the trigger list's, nor part of the
      graph. */
  ghost function HeldIn(w: World): (multiset<nat>, multiset<nat>, multiset<nat>) {
    (w.s.nodeHolds, w.s.hookHolds, w.s.eventHolds - Kept(w.creators, w.registered))
  }

  ghost predicate Steady(a: World, b: World) {
    SoundWorld(a) && SoundWorld(b) && HeldIn(b) == HeldIn(a)
  }

  ghost predicate SameSubs(a: World, b: World) {
    b.s.events == a.s.events && b.cells == a.cells && b.lastcell == a.lastcell
  }

  ghost predicate SameGraph(a: World, b: World) {
    b.s.hooks == a.s.hooks && b.s.own == a.s.own
  }

  // ---- What is done, and what that is made of ----

  /** A command that has been run: the worlds before and after, and the turns of the nodes and hooks that were made to
      handle something. */
  datatype Done = Done(command: Command, before: World, after: World, turns: seq<Turn>)

  /** One receiver's turn: `who` is a node, told for the record `cell` of a subscription, or a hook. From `start` to
      `end` it is held and its handler runs. */
  datatype Turn = Turn(who: nat, cell: nat, before: World, start: World, body: seq<Done>, end: World, after: World)

  /** These commands have been run, all of them and in this order. */
  ghost predicate Chain(ds: seq<Done>, commands: seq<Command>, a: World, b: World)
    decreases ds, 0
  {
    && |ds| == |commands|
    && (forall i :: 0 <= i < |ds| ==> ds[i].command == commands[i] && Did(ds[i]))
    && (forall i :: 0 <= i < |ds| - 1 ==> ds[i].after == ds[i + 1].before)
    && if ds == [] then b == a else ds[0].before == a && ds[|ds| - 1].after == b
  }

  /** A node has its turn: nothing if it was removed. */
  ghost predicate NodeTurn(t: Turn, script: seq<Command>)
    decreases t, 0
  {
    && t.who in t.before.s.nodes && Steady(t.before, t.after)
    && if t.before.s.nodes[t.who].valid then
         && t.start == t.before.(s := RefNode(t.before.s, t.who))
         && SoundWorld(t.start) && Chain(t.body, script, t.start, t.end) && SoundWorld(t.end)
         && t.who in t.end.s.nodeHolds && NodeFreed(t.end, t.who, t.after)
       else t.after == t.before
  }

  ghost predicate NodeFreed(w: World, n: nat, r: World) {
    n in w.s.nodes && w.s.nodes[n].refs > 0 && r == w.(s := DropNode(w.s, n))
  }

  /** An in hook has its turn. */
  ghost predicate HookTurn(t: Turn, script: seq<Command>)
    decreases t, 0
  {
    && t.who in t.before.s.hooks && Steady(t.before, t.after)
    && if t.before.s.hooks[t.who].valid then
         && t.start == t.before.(s := RefHook(t.before.s, t.who))
         && SoundWorld(t.start) && Chain(t.body, script, t.start, t.end) && SoundWorld(t.end)
         && t.who in t.end.s.hookHolds && HookFreed(t.end, t.who, t.after)
       else t.after == t.before
  }

  ghost predicate HookFreed(w: World, h: nat, r: World) {
    Live(w.s, h) && r == w.(s := DropHook(w.s, h))
  }

  /** A subscriber's turn: the node told is the one its record names. */
  ghost predicate EventTurn(t: Turn, e: nat, script: seq<Command>)
    decreases t, 1
  {
    && e in t.before.s.events && e in t.before.cells && t.cell in t.before.cells[e]
    && (forall i :: 0 <= i < |t.before.cells[e]| && t.before.cells[e][i] == t.cell ==>
          i < |t.before.s.events[e].nodes| && t.before.s.events[e].nodes[i] == t.who)
    && NodeTurn(t, script)
  }

  /** The record after c: TAILQ_NEXT. */
  function NextCell(cells: seq<nat>, c: nat): (r: Option<nat>)
    requires c in cells
    ensures r.Some? ==> r.value in cells
  {
    if cells[0] == c then (if |cells| == 1 then None else Some(cells[1])) else NextCell(cells[1..], c)
  }

  lemma {:induction false} NextCellAt(cells: seq<nat>, i: nat)
    requires NoDup(cells) && i < |cells|
    ensures NextCell(cells, cells[i]) == if i + 1 < |cells| then Some(cells[i + 1]) else None
  {
    if i > 0 {
      assert cells[0] != cells[i] && cells[1..][i - 1] == cells[i];
      NextCellAt(cells[1..], i - 1);
    }
  }

  /** The entries after p's: LIST_NEXT. */
  function NextEntries(list: seq<nat>, p: nat): (rest: seq<nat>)
    requires p in list
    ensures forall x :: x in rest ==> x in list
  {
    if list[0] == p then list[1..] else NextEntries(list[1..], p)
  }

  lemma {:induction false} NextEntriesAt(list: seq<nat>, i: nat)
    requires NoDup(list) && i < |list|
    ensures list[i] in list && NextEntries(list, list[i]) == list[i + 1..]
  {
    if i > 0 {
      assert list[0] != list[i] && list[1..][i - 1] == list[i];
      NextEntriesAt(list[1..], i - 1);
    }
  }

  ghost function FirstRecord(w: World, e: nat): Option<nat> {
    if e in w.cells && w.cells[e] != [] then Some(w.cells[e][0]) else None
  }

  /** Where the walk over subscribers goes: to the record saved before the handler ran, while it is still there. */
  ghost function NextRecord(t: Turn, e: nat): Option<nat> {
    if e in t.before.cells && t.cell in t.before.cells[e] then
      var saved := NextCell(t.before.cells[e], t.cell);
      if saved.Some? && e in t.after.cells && saved.value in t.after.cells[e] then saved else None
    else None
  }

  /** A walk over the subscribers of e from a, which has come to b and stands on `cell`. */
  ghost predicate EventWalk(turns: seq<Turn>, e: nat, handlers: seq<Script>, a: World, cell: Option<nat>, b: World)
    decreases turns, 2
  {
    && (forall i :: 0 <= i < |turns| ==> EventTurn(turns[i], e, ScriptAt(handlers, i)))
    && (forall i :: 0 <= i < |turns| - 1 ==>
          turns[i + 1].before == turns[i].after && NextRecord(turns[i], e) == Some(turns[i + 1].cell))
    && if turns == [] then b == a && cell == FirstRecord(a, e)
       else
         && turns[0].before == a && FirstRecord(a, e) == Some(turns[0].cell)
         && turns[|turns| - 1].after == b && cell == NextRecord(turns[|turns| - 1], e)
  }

  ghost function FirstPeer(w: World, h: nat): Option<nat> {
    if h in w.s.hooks && w.s.hooks[h].peers != [] then Some(w.s.hooks[h].peers[0]) else None
  }

  /** Where the walk over peers goes: to the entry after the current one, if that is still there. */
  ghost function NextPeer(t: Turn, h: nat): Option<nat> {
    if h in t.after.s.hooks && t.who in t.after.s.hooks[h].peers then
      var rest := NextEntries(t.after.s.hooks[h].peers, t.who);
      if rest == [] then None else Some(rest[0])
    else None
  }

  /** A walk over the peers of h from a, which has come to b and stands on `peer`. */
  ghost predicate PeerWalk(turns: seq<Turn>, h: nat, replies: seq<Script>, a: World, peer: Option<nat>, b: World)
    decreases turns, 2
  {
    && (forall i :: 0 <= i < |turns| ==> HookTurn(turns[i], ScriptAt(replies, i)))
    && (forall i :: 0 <= i < |turns| - 1 ==>
          turns[i + 1].before == turns[i].after && NextPeer(turns[i], h) == Some(turns[i + 1].who))
    && if turns == [] then b == a && peer == FirstPeer(a, h)
       else
         && turns[0].before == a && FirstPeer(a, h) == Some(turns[0].who)
         && turns[|turns| - 1].after == b && peer == NextPeer(turns[|turns| - 1], h)
  }

  ghost function Last(turns: seq<Turn>, a: World): World {
    if turns == [] then a else turns[|turns| - 1].after
  }

  /** An event triggered: held meanwhile. */
  ghost predicate Triggered(a: World, e: nat, handlers: seq<Script>, turns: seq<Turn>, b: World)
    decreases turns, 3
  {
    && e in a.s.events
    && var start := a.(s := RefEvent(a.s, e));
       var end := Last(turns, start);
       && SoundWorld(start) && SoundWorld(end) && EventWalk(turns, e, handlers, start, None, end)
       && EventFreed(end, e, b)
  }

  ghost predicate EventFreed(w: World, e: nat, r: World) {
    e in w.s.events && w.s.events[e].refs > 0 && r == w.(s := DropEvent(w.s, e))
  }

  /** Data sent along the connections of a hook: held meanwhile. */
  ghost predicate Passed(a: World, h: nat, replies: seq<Script>, turns: seq<Turn>, b: World)
    decreases turns, 3
  {
    && h in a.s.hooks
    && var start := a.(s := RefHook(a.s, h));
       var end := Last(turns, start);
       && SoundWorld(start) && SoundWorld(end) && PeerWalk(turns, h, replies, start, None, end)
       && h in end.s.hookHolds && HookFreed(end, h, b)
  }

  /** What a generic command does for the valid node n. */
  ghost predicate Acted(a: World, n: nat, action: Action, b: World) {
    && b.creators == a.creators && b.registered == a.registered
    && match action
       case Rm =>
         && b.s.own == a.s.own - {n} && (n in b.s.nodes ==> !b.s.nodes[n].valid)
         && Links(b.s.hooks) == (set l | l in Links(a.s.hooks) && l.src != n && l.dst != n)
         && (forall e, m :: Sub(b.s.events, e, m) == if m == n then 0 else Sub(a.s.events, e, m))
       case Connect(srchook, dst, dsthook, o) =>
         && SameSubs(a, b) && b.s.own == a.s.own && n in a.s.nodes && PeersGrown(a.s.hooks, b.s.hooks)
         && Links(b.s.hooks) == Links(a.s.hooks) +
              (if dst in a.s.nodes && ConnectResult(a.s, n, srchook, dst, dsthook, o) == Ok
               then {Link(n, srchook, dst, dsthook)} else {})
       case Disconnect(srchook, dst, dsthook) =>
         && SameSubs(a, b) && b.s.own == a.s.own
         && Links(b.s.hooks) == Links(a.s.hooks) - (if dst in a.s.nodes then {Link(n, srchook, dst, dsthook)} else {})
       case Subscribe(e, checked, eventMemory, nodeMemory) =>
         && SameGraph(a, b)
         && if e in a.s.events && eventMemory && nodeMemory && !(checked && n in a.s.events[e].nodes) then
              && OnlyEvent(a.s.events, b.s.events, e) && e in b.s.events && e in a.cells
              && b.s.events[e].nodes == a.s.events[e].nodes + [n]
              && b.lastcell == a.lastcell + 1 && b.cells == a.cells[e := a.cells[e] + [b.lastcell]]
            else SameSubs(a, b)
       case Unsubscribe(e) =>
         && SameGraph(a, b) && b.lastcell == a.lastcell
         && if e in a.s.events && n in a.s.events[e].nodes then
              && OnlyEvent(a.s.events, b.s.events, e) && OnlyCells(a.cells, b.cells, e)
              && (e in b.s.events ==> b.s.events[e].nodes == Without(a.s.events[e].nodes, n))
            else SameSubs(a, b)
       case Handle(_) => true
  }

  /** What a command does that makes nobody handle anything. */
  ghost predicate Changed(a: World, c: Command, b: World) {
    match c
    case Create(known, memory, ctor) =>
      b == a.(s := if known && memory && ctor == Ok then NewNode(a.s) else a.s.(lastnodeid := b.s.lastnodeid))
    case CreateEvent =>
      var e := a.s.lasteventid + 1;
      b == a.(s := NewEvent(a.s), cells := a.cells[e := []], creators := a.creators + {e})
    case RemoveEvent(e) =>
      if e in a.creators then
        && b.creators == a.creators - {e} && b.registered == a.registered - {e} && SameGraph(a, b)
        && OnlyEvent(a.s.events, b.s.events, e) && OnlyCells(a.cells, b.cells, e)
        && (e in b.s.events ==> b.s.events[e].nodes == [])
      else b == a
    case Register(e) =>
      if e in a.creators && e !in a.registered then
        e in a.s.events && b == a.(s := RefEvent(a.s, e), registered := a.registered + {e})
      else b == a
    case Deregister(e) =>
      if e in a.registered then
        b.registered == a.registered - {e} && EventFreed(a, e, b.(registered := a.registered))
      else b == a
    case _ => true
  }

  /** A message delivered: nothing for a node that was removed. */
  ghost predicate Delivered(a: World, n: nat, action: Action, turns: seq<Turn>, b: World)
    decreases turns, 3
  {
    if n !in a.s.nodes || !a.s.nodes[n].valid then b == a
    else if action.Handle? then
      && |turns| == 1 && turns[0].who == n && turns[0].before == a && turns[0].after == b
      && NodeTurn(turns[0], action.body)
    else Acted(a, n, action, b)
  }

  /** What a command does. */
  ghost predicate Did(d: Done)
    decreases d, 4
  {
    Steady(d.before, d.after) &&
    match d.command
    case Message(dst, action) => Delivered(d.before, dst, action, d.turns, d.after)
    case Send(h, replies) =>
      if h in d.before.s.hooks && d.before.s.hooks[h].dir.Out? && d.before.s.hooks[h].valid then
        Passed(d.before, h, replies, d.turns, d.after)
      else d.after == d.before
    case Trigger(e, handlers) =>
      if e in d.before.s.events then Triggered(d.before, e, handlers, d.turns, d.after) else d.after == d.before
    case _ => Changed(d.before, d.command, d.after)
  }
}
