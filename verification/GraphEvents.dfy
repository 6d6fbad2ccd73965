/** Subscriptions: each is recorded on the event and on the node, and holds a reference to both. */
module GraphEvents {
  import opened Lists
  import opened GraphState
  import opened GraphSteps
  import opened GraphRemoval
  import opened GraphConnect

  /** How many times node n is subscribed to event e. */
  function Sub(events: Events, e: nat, n: nat): nat {
    if e in events then multiset(events[e].nodes)[n] else 0
  }

  /** No event but e has changed. */
  ghost predicate OnlyEvent(a: Events, b: Events, e: nat) {
    forall x :: x != e ==> (x in b <==> x in a) && (x in b ==> b[x] == a[x])
  }

  lemma OnlyEventTwice(a: Events, b: Events, c: Events, e: nat)
    requires OnlyEvent(a, b, e) && OnlyEvent(b, c, e)
    ensures OnlyEvent(a, c, e)
  {
  }

  lemma EventSet(a: Events, e: nat, ev: Event)
    ensures OnlyEvent(a, a[e := ev], e) && OnlyEvent(a, a - {e}, e)
  {
  }

  function AddSub(s: State, e: nat, n: nat): State
    requires e in s.events && n in s.nodes
  {
    var ev := s.events[e];
    var nd := s.nodes[n];
    s.(events := s.events[e := Event(ev.nodes + [n], ev.refs + 1)],
       nodes := s.nodes[n := nd.(events := [e] + nd.events, refs := nd.refs + 1)])
  }

  /** Both records are unlinked; the references they held are in the hands of the caller. */
  function TakeSub(s: State, e: nat, n: nat): State
    requires e in s.events && n in s.nodes
  {
    s.(events := s.events[e := s.events[e].(nodes := Without(s.events[e].nodes, n))],
       nodes := s.nodes[n := s.nodes[n].(events := Without(s.nodes[n].events, e))],
       eventHolds := s.eventHolds + multiset{e}, nodeHolds := s.nodeHolds + multiset{n})
  }

  // ---- The parts of the invariant ----

  lemma CountAppended(xs: seq<nat>, x: nat)
    ensures multiset(xs + [x]) == multiset(xs) + multiset{x}
    ensures multiset([x] + xs) == multiset(xs) + multiset{x}
  {
  }

  lemma AddSubCounts(s: State, e: nat, n: nat)
    requires NodeCounts(s.nodes, s.own, s.nodeHolds) && EventCounts(s.events, s.eventHolds)
    requires e in s.events && n in s.nodes
    ensures var t := AddSub(s, e, n); NodeCounts(t.nodes, t.own, t.nodeHolds) && EventCounts(t.events, t.eventHolds)
  {
  }

  lemma AddSubSubscriptions(s: State, e: nat, n: nat)
    requires Subscriptions(s.nodes, s.events) && e in s.events && n in s.nodes
    ensures var t := AddSub(s, e, n); Subscriptions(t.nodes, t.events)
    ensures forall e', n' :: Sub(AddSub(s, e, n).events, e', n') ==
              Sub(s.events, e', n') + if e' == e && n' == n then 1 else 0
  {
    CountAppended(s.events[e].nodes, n);
    CountAppended(s.nodes[n].events, e);
    AddSubLive(s, e, n);
    AddSubAgrees(s, e, n);
  }

  lemma AddSubAgrees(s: State, e: nat, n: nat)
    requires Subscriptions(s.nodes, s.events) && e in s.events && n in s.nodes
    ensures var t := AddSub(s, e, n);
            forall e', n' :: e' in t.events && n' in t.nodes ==>
              multiset(t.events[e'].nodes)[n'] == multiset(t.nodes[n'].events)[e']
  {
    CountAppended(s.events[e].nodes, n);
    CountAppended(s.nodes[n].events, e);
  }

  lemma AddSubLive(s: State, e: nat, n: nat)
    requires Subscriptions(s.nodes, s.events) && e in s.events && n in s.nodes
    ensures var t := AddSub(s, e, n);
            && (forall e', n' :: e' in t.events && n' in t.events[e'].nodes ==> n' in t.nodes)
            && (forall n', e' :: n' in t.nodes && e' in t.nodes[n'].events ==> e' in t.events)
  {
  }

  lemma TakeSubCounts(s: State, e: nat, n: nat)
    requires NodeCounts(s.nodes, s.own, s.nodeHolds) && EventCounts(s.events, s.eventHolds)
    requires e in s.events && n in s.nodes && n in s.events[e].nodes && e in s.nodes[n].events
    ensures var t := TakeSub(s, e, n); NodeCounts(t.nodes, t.own, t.nodeHolds) && EventCounts(t.events, t.eventHolds)
  {
    WithoutCounts(s.events[e].nodes, n);
    WithoutCounts(s.nodes[n].events, e);
  }

  lemma TakenRecords(xs: seq<nat>, x: nat)
    requires x in xs
    ensures multiset(Without(xs, x)) == multiset(xs) - multiset{x}
    ensures forall y :: y in Without(xs, x) ==> y in xs
  {
    WithoutCounts(xs, x);
    forall y | y in Without(xs, x) ensures y in xs {
      assert y in multiset(Without(xs, x));
    }
  }

  lemma TakeSubSubscriptions(s: State, e: nat, n: nat)
    requires Subscriptions(s.nodes, s.events) && e in s.events && n in s.nodes && n in s.events[e].nodes
    ensures var t := TakeSub(s, e, n); Subscriptions(t.nodes, t.events)
  {
    assert e in s.nodes[n].events by {
      assert multiset(s.events[e].nodes)[n] == multiset(s.nodes[n].events)[e];
    }
    hide Without, Subscriptions;
    TakenRecords(s.events[e].nodes, n);
    TakenRecords(s.nodes[n].events, e);
    OneLess(s.nodes, s.events, e, n, Without(s.events[e].nodes, n), Without(s.nodes[n].events, e));
  }

  lemma OneLess(nodes: Nodes, events: Events, e: nat, n: nat, ens: seq<nat>, nes: seq<nat>)
    requires Subscriptions(nodes, events) && e in events && n in nodes
    requires n in events[e].nodes && e in nodes[n].events
    requires multiset(ens) == multiset(events[e].nodes) - multiset{n} && forall y :: y in ens ==> y in events[e].nodes
    requires multiset(nes) == multiset(nodes[n].events) - multiset{e} && forall y :: y in nes ==> y in nodes[n].events
    ensures Subscriptions(nodes[n := nodes[n].(events := nes)], events[e := events[e].(nodes := ens)])
  {
    var nodes', events' := nodes[n := nodes[n].(events := nes)], events[e := events[e].(nodes := ens)];
    forall x, y | x in events' && y in nodes'
      ensures multiset(events'[x].nodes)[y] == multiset(nodes'[y].events)[x]
    {
      PairLess(nodes, events, e, n, ens, nes, x, y);
    }
    OnlyKnown(nodes, events, e, n, ens, nes);
  }

  lemma OnlyKnown(nodes: Nodes, events: Events, e: nat, n: nat, ens: seq<nat>, nes: seq<nat>)
    requires Subscriptions(nodes, events) && e in events && n in nodes
    requires forall y :: y in ens ==> y in events[e].nodes
    requires forall y :: y in nes ==> y in nodes[n].events
    ensures var nodes', events' := nodes[n := nodes[n].(events := nes)], events[e := events[e].(nodes := ens)];
            && (forall x, y :: x in events' && y in events'[x].nodes ==> y in nodes')
            && (forall y, x :: y in nodes' && x in nodes'[y].events ==> x in events')
  {
  }

  lemma PairLess(nodes: Nodes, events: Events, e: nat, n: nat, ens: seq<nat>, nes: seq<nat>, x: nat, y: nat)
    requires e in events && n in nodes && x in events && y in nodes
    requires multiset(events[x].nodes)[y] == multiset(nodes[y].events)[x]
    requires multiset(events[e].nodes)[n] == multiset(nodes[n].events)[e] > 0
    requires multiset(ens) == multiset(events[e].nodes) - multiset{n}
    requires multiset(nes) == multiset(nodes[n].events) - multiset{e}
    ensures multiset(events[e := events[e].(nodes := ens)][x].nodes)[y]
         == multiset(nodes[n := nodes[n].(events := nes)][y].events)[x]
  {
    if x == e && y == n {
    } else if x == e {
    } else if y == n {
    } else {
    }
  }

  lemma TakeSubCount(s: State, e: nat, n: nat)
    requires e in s.events && n in s.nodes && n in s.events[e].nodes
    ensures forall e', n' :: Sub(TakeSub(s, e, n).events, e', n') ==
              Sub(s.events, e', n') - if e' == e && n' == n then 1 else 0
  {
    hide Without;
    TakenRecords(s.events[e].nodes, n);
  }

  lemma SameHooksLists(nodes: Nodes, nodes': Nodes, hooks: Hooks)
    requires HookLists(nodes, hooks) && nodes'.Keys == nodes.Keys
    requires forall n :: n in nodes ==> nodes'[n].inhooks == nodes[n].inhooks && nodes'[n].outhooks == nodes[n].outhooks
    ensures HookLists(nodes', hooks)
  {
  }

  lemma AddSubExact(s: State, e: nat, n: nat)
    requires Exact(s) && e in s.events && n in s.nodes
    ensures Exact(AddSub(s, e, n))
    ensures forall e', n' :: Sub(AddSub(s, e, n).events, e', n') ==
              Sub(s.events, e', n') + if e' == e && n' == n then 1 else 0
  {
    hide NodeCounts, HookCounts, EventCounts, HookLists, PeerLists, Names, Subscriptions, Sub;
    AddSubCounts(s, e, n);
    AddSubSubscriptions(s, e, n);
    SameHooksLists(s.nodes, AddSub(s, e, n).nodes, s.hooks);
  }

  lemma BothRecords(s: State, e: nat, n: nat)
    requires Exact(s) && e in s.events && n in s.nodes
    ensures n in s.events[e].nodes <==> e in s.nodes[n].events
  {
    assert multiset(s.events[e].nodes)[n] == multiset(s.nodes[n].events)[e];
  }

  lemma TakeSubExact(s: State, e: nat, n: nat)
    requires Exact(s) && e in s.events && n in s.nodes && n in s.events[e].nodes
    ensures Exact(TakeSub(s, e, n)) && e in s.nodes[n].events
    ensures forall e', n' :: Sub(TakeSub(s, e, n).events, e', n') ==
              Sub(s.events, e', n') - if e' == e && n' == n then 1 else 0
  {
    hide NodeCounts, HookCounts, EventCounts, HookLists, PeerLists, Names, Subscriptions, Sub, Without;
    BothRecords(s, e, n);
    TakeSubCount(s, e, n);
    TakeSubCounts(s, e, n);
    TakeSubSubscriptions(s, e, n);
    SameHooksLists(s.nodes, TakeSub(s, e, n).nodes, s.hooks);
  }

  // ---- Unsubscribing ----

  predicate CanUnsub(s: State, e: nat, n: nat) {
    e in s.events && n in s.nodes && s.events[e].refs > 0 && s.nodes[n].refs > 0
  }

  /** One dmm_event_unsubscribe that finds its records. */
  function Unsub(s: State, e: nat, n: nat): State
    requires CanUnsub(s, e, n)
  {
    DropNode(DropEvent(TakeSub(s, e, n), e), n)
  }

  lemma UnrefEventSubs(events: Events, e: nat)
    requires e in events && events[e].refs > 0 && (events[e].refs == 1 ==> events[e].nodes == [])
    ensures forall e', n' :: Sub(UnrefEvent(events, e), e', n') == Sub(events, e', n')
  {
  }

  /** Hooks, creation references and outstanding references are the same; nodes keep flags and hooks, and
      none that has not been removed has gone; subscriptions and events may have gone. */
  ghost predicate FewerSubs(s: State, t: State) {
    && (t.hooks, t.own) == (s.hooks, s.own)
    && (t.nodeHolds, t.hookHolds, t.eventHolds) == (s.nodeHolds, s.hookHolds, s.eventHolds)
    && (t.lastnodeid, t.lastaddress, t.lasteventid) == (s.lastnodeid, s.lastaddress, s.lasteventid)
    && FewerNodes(s.nodes, t.nodes)
    && t.events.Keys <= s.events.Keys
  }

  ghost predicate FewerNodes(a: Nodes, b: Nodes) {
    && b.Keys <= a.Keys
    && (forall n :: n in b ==>
          && b[n].valid == a[n].valid && b[n].inhooks == a[n].inhooks && b[n].outhooks == a[n].outhooks
          && |b[n].events| <= |a[n].events|)
  }

  lemma FewerTwice(s: State, t: State, u: State)
    requires FewerSubs(s, t) && FewerSubs(t, u)
    ensures FewerSubs(s, u)
  {
  }

  lemma UnsubNodes(nodes: Nodes, n: nat, e: nat)
    requires n in nodes && nodes[n].refs > 0
    ensures var taken := nodes[n := nodes[n].(events := Without(nodes[n].events, e))];
            && FewerNodes(nodes, UnrefNode(taken, n))
            && (nodes[n].refs > 1 ==> n in UnrefNode(taken, n)
                                      && UnrefNode(taken, n)[n].events == Without(nodes[n].events, e))
  {
    WithoutCounts(nodes[n].events, e);
  }

  lemma UnsubFewer(s: State, e: nat, n: nat)
    requires CanUnsub(s, e, n)
    ensures FewerSubs(s, Unsub(s, e, n))
    ensures s.nodes[n].refs > 1 ==>
              n in Unsub(s, e, n).nodes && Unsub(s, e, n).nodes[n].events == Without(s.nodes[n].events, e)
    ensures s.events[e].refs > 1 ==>
              e in Unsub(s, e, n).events && Unsub(s, e, n).events[e].nodes == Without(s.events[e].nodes, n)
  {
    hide FewerNodes, UnrefNode, Without;
    UnsubNodes(s.nodes, n, e);
    assert s.nodeHolds + multiset{n} - multiset{n} == s.nodeHolds;
    assert s.eventHolds + multiset{e} - multiset{e} == s.eventHolds;
  }

  lemma UnsubExact(s: State, e: nat, n: nat)
    requires Exact(s) && e in s.events && n in s.nodes && n in s.events[e].nodes
    ensures CanUnsub(s, e, n) && Exact(Unsub(s, e, n)) && FewerSubs(s, Unsub(s, e, n))
    ensures var s1 := TakeSub(s, e, n); Exact(s1) && Exact(DropEvent(s1, e)) && n in DropEvent(s1, e).nodeHolds
    ensures forall e', n' :: Sub(Unsub(s, e, n).events, e', n') ==
              Sub(s.events, e', n') - if e' == e && n' == n then 1 else 0
  {
    hide Exact, Sub, Without, FewerSubs;
    TakeSubExact(s, e, n);
    var s1 := TakeSub(s, e, n);
    DropEventExact(s1, e);
    UnrefEventSubs(s1.events, e);
    var s2 := DropEvent(s1, e);
    DropNodeExact(s2, n);
    UnsubFewer(s, e, n);
  }

  // ---- Between operations ----

  lemma CoupledSubs(a: Nodes, b: Nodes, hooks: Hooks, own: set<nat>)
    requires Coupled(a, hooks, own, {}) && HookLists(b, hooks) && b.Keys <= a.Keys
    requires forall n :: n in b ==> b[n].valid == a[n].valid && (b[n].valid || |b[n].events| <= |a[n].events|)
    ensures Coupled(b, hooks, own, {})
  {
  }

  lemma AddSubInv(s: State, e: nat, n: nat)
    requires Inv(s) && e in s.events && n in s.nodes && s.nodes[n].valid
    ensures Inv(AddSub(s, e, n))
    ensures forall e', n' :: Sub(AddSub(s, e, n).events, e', n') ==
              Sub(s.events, e', n') + if e' == e && n' == n then 1 else 0
  {
    hide Exact, Symmetric, Coupled, Sub;
    AddSubExact(s, e, n);
    ExactLists(AddSub(s, e, n));
    hide HookLists, PeerLists, Names;
    CoupledSubs(s.nodes, AddSub(s, e, n).nodes, s.hooks, s.own);
  }

  lemma UnsubInv(s: State, e: nat, n: nat)
    requires Inv(s) && e in s.events && n in s.nodes && n in s.events[e].nodes
    ensures CanUnsub(s, e, n) && Inv(Unsub(s, e, n)) && FewerSubs(s, Unsub(s, e, n))
    ensures forall e', n' :: Sub(Unsub(s, e, n).events, e', n') ==
              Sub(s.events, e', n') - if e' == e && n' == n then 1 else 0
  {
    hide Exact, Symmetric, Coupled, Sub, Unsub;
    UnsubExact(s, e, n);
    ExactLists(Unsub(s, e, n));
    hide HookLists, PeerLists, Names;
    CoupledSubs(s.nodes, Unsub(s, e, n).nodes, s.hooks, s.own);
  }

  // ---- The loop over the subscribers of an event ----

  /** Part way through dmm_event_unsubscribeall(e), which began in s: only `rest` is left. */
  ghost predicate Emptying(s: State, t: State, e: nat, rest: seq<nat>) {
    && Inv(t) && FewerSubs(s, t) && e in t.eventHolds && e in t.events && t.events[e].nodes == rest
    && (forall e', m :: e' != e ==> Sub(t.events, e', m) == Sub(s.events, e', m))
  }

  lemma HeldOutlives(s: State, e: nat)
    requires Exact(s) && e in s.eventHolds && e in s.events && s.events[e].nodes != []
    ensures s.events[e].refs > 1
    ensures s.events[e].nodes[0] in s.nodes
  {
    assert s.events[e].nodes[0] in s.events[e].nodes;
  }

  lemma EmptyingStep(s: State, t: State, e: nat, n: nat, rest: seq<nat>)
    requires Emptying(s, t, e, [n] + rest)
    ensures n in t.nodes && CanUnsub(t, e, n) && Exact(t)
    ensures Emptying(s, Unsub(t, e, n), e, rest)
  {
    assert Without([n] + rest, n) == rest;
    InvExact(t);
    hide Inv, Exact, FewerSubs, Sub;
    HeldOutlives(t, e);
    UnsubInv(t, e, n);
    UnsubFewer(t, e, n);
    FewerTwice(s, t, Unsub(t, e, n));
    FewerHolds(t, Unsub(t, e, n));
    hide Unsub;
  }

  lemma FewerHolds(s: State, t: State)
    requires FewerSubs(s, t)
    ensures t.eventHolds == s.eventHolds
  {
  }

  lemma EmptyingBegins(s: State, e: nat)
    requires Inv(s) && e in s.eventHolds && e in s.events
    ensures Emptying(s, s, e, s.events[e].nodes)
  {
    hide Inv;
  }

  lemma EmptyingCells(s: State, t: State, e: nat, n: nat, rest: seq<nat>)
    requires Emptying(s, t, e, [n] + rest)
    ensures Exact(t) && e in t.events && n in t.nodes && Sub(t.events, e, n) > 0
  {
    InvExact(t);
    hide Inv, Exact;
    HeldOutlives(t, e);
  }
}
