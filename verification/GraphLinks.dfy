/** The graph as its users see it: named connections between nodes. */
module GraphLinks {
  import opened Lists
  import opened GraphState
  import opened GraphSteps
  import opened GraphRemoval

  /** Out hook `srchook` of node `src` feeds in hook `dsthook` of node `dst`. */
  datatype Link = Link(src: nat, srchook: string, dst: nat, dsthook: string)

  function LinkOf(g: Hook, h: Hook): Link {
    Link(g.node, g.name, h.node, h.name)
  }

  ghost function Links(hooks: Hooks): set<Link> {
    set g, h | g in hooks && hooks[g].dir.Out? && h in hooks[g].peers && h in hooks :: LinkOf(hooks[g], hooks[h])
  }

  ghost predicate Linked(hooks: Hooks, g: nat, h: nat, l: Link) {
    Joined(hooks, g, h) && h in hooks && hooks[g].dir.Out? && LinkOf(hooks[g], hooks[h]) == l
  }

  lemma InLinks(hooks: Hooks, l: Link)
    ensures l in Links(hooks) <==> exists g, h :: Linked(hooks, g, h, l)
  {
    if l in Links(hooks) {
      var g, h :| && g in hooks && hooks[g].dir.Out? && h in hooks[g].peers && h in hooks
                  && LinkOf(hooks[g], hooks[h]) == l;
      assert Linked(hooks, g, h, l);
    }
  }

  /** Names are unique, so a link is one pair of hooks. */
  lemma LinkIsPair(hooks: Hooks, own: set<nat>, g: nat, h: nat, l: Link)
    requires Names(hooks) && PeerLists(hooks, own)
    requires g in hooks && h in hooks && hooks[g].dir.Out? && hooks[h].dir.In? && LinkOf(hooks[g], hooks[h]) == l
    ensures l in Links(hooks) <==> Joined(hooks, g, h)
    ensures forall x, y :: Linked(hooks, x, y, l) ==> x == g && y == h
  {
    InLinks(hooks, l);
    forall x, y | Linked(hooks, x, y, l) ensures x == g && y == h {
      assert Key(hooks[x]) == Key(hooks[g]);
      assert Key(hooks[y]) == Key(hooks[h]);
    }
    if Joined(hooks, g, h) {
      assert Linked(hooks, g, h, l);
    }
  }

  /** Hooks that keep their key and their connections keep the links. */
  lemma SameLinks(hooks: Hooks, hooks': Hooks)
    requires forall x, y :: Joined(hooks', x, y) <==> Joined(hooks, x, y)
    requires forall x :: x in hooks && x in hooks' ==> Key(hooks'[x]) == Key(hooks[x])
    requires forall x, y :: Joined(hooks, x, y) ==> y in hooks
    requires forall x, y :: Joined(hooks', x, y) ==> y in hooks'
    ensures Links(hooks') == Links(hooks)
  {
    forall l ensures l in Links(hooks') <==> l in Links(hooks) {
      InLinks(hooks, l);
      InLinks(hooks', l);
      assert forall x, y :: Linked(hooks', x, y, l) <==> Linked(hooks, x, y, l);
    }
  }

  lemma PeersLive(hooks: Hooks, own: set<nat>)
    requires PeerLists(hooks, own)
    ensures forall x, y :: Joined(hooks, x, y) ==> y in hooks
  {
  }

  /** Joining or parting one pair changes exactly the one link. */
  lemma OneLink(without: Hooks, with: Hooks, own: set<nat>, g: nat, h: nat)
    requires Names(with) && PeerLists(with, own) && PeerLists(without, own)
    requires Joined(with, g, h) && h in with && with[g].dir.Out?
    requires forall x, y :: Joined(without, x, y) <==>
               Joined(with, x, y) && !(x == g && y == h) && !(x == h && y == g)
    requires forall x :: x in with && x in without ==> Key(without[x]) == Key(with[x])
    ensures LinkOf(with[g], with[h]) in Links(with)
    ensures Links(without) == Links(with) - {LinkOf(with[g], with[h])}
  {
    var l := LinkOf(with[g], with[h]);
    LinkIsPair(with, own, g, h, l);
    PeersLive(with, own);
    PeersLive(without, own);
    forall m ensures m in Links(without) <==> m in Links(with) && m != l {
      InLinks(without, m);
      InLinks(with, m);
      assert forall x, y :: Linked(without, x, y, m) ==> Linked(with, x, y, m) && !(x == g && y == h);
      assert forall x, y :: Linked(with, x, y, m) && m != l ==> Linked(without, x, y, m);
    }
  }
}
