/** Waves over a net of wavebuf nodes: what a finish sends, in which order it visits, and what it leaves behind. */
module WaveState {
  import Datanodes
  import Wavebufs

  type Message = seq<Datanodes.Datanode>

  /** Where the message of a wavebuf gets to: the wavebufs it reaches, in the order of delivery, and what the
      nodes in between make of it. No wavebuf reaches itself: ranks fall along the way. */
  datatype Net = Net(out: map<nat, seq<nat>>, via: (nat, nat, Message) -> Message, rank: nat -> nat) {
    function Out(b: nat): seq<nat> { if b in out then out[b] else [] }

    ghost predicate Layered() {
      forall b :: b in out ==> Below(out[b], rank(b))
    }

    ghost predicate Below(ts: seq<nat>, r: nat) {
      forall i :: 0 <= i < |ts| ==> rank(ts[i]) < r
    }
  }

  /** `bufs` holds what each wavebuf keeps, `nodes` the subscribers of the current wave still to be told,
      `got` what each wavebuf kept at the start of the wave and got since, `gone` what it has sent since. */
  datatype Wave = Wave(
    bufs: map<nat, seq<Message>>, nodes: seq<nat>, got: map<nat, Message>, gone: map<nat, seq<Message>>)

  ghost predicate Known(w: Wave, ts: seq<nat>) {
    forall i :: 0 <= i < |ts| ==> ts[i] in w.bufs && ts[i] in w.got
  }

  /** The net and the histories speak of the same wavebufs. */
  ghost predicate Covers(net: Net, w: Wave) {
    && net.Layered()
    && (forall b :: b in net.out ==> b in w.bufs && Known(w, net.out[b]))
    && w.got.Keys == w.bufs.Keys && w.gone.Keys == w.bufs.Keys
  }

  // ---- Steps ----

  /** wavebuf's rcvdata: subscribe with the first message. */
  function Receive(w: Wave, b: nat, m: Message): Wave
    requires b in w.bufs && b in w.got
  {
    w.(bufs := w.bufs[b := w.bufs[b] + [m]],
       nodes := if w.bufs[b] == [] then w.nodes + [b] else w.nodes,
       got := w.got[b := w.got[b] + m])
  }

  ghost function Forward(net: Net, w: Wave, b: nat, ts: seq<nat>, m: Message): (r: Wave)
    requires Known(w, ts)
    ensures r.bufs.Keys == w.bufs.Keys && r.got.Keys == w.got.Keys && r.gone == w.gone
    ensures w.nodes <= r.nodes
    decreases |ts|
  {
    if ts == [] then w else Forward(net, Receive(w, ts[0], net.via(b, ts[0], m)), b, ts[1..], m)
  }

  /** wavebuf's answer to the finish: everything it keeps leaves as one message. */
  function Flush(w: Wave, b: nat): Wave
    requires b in w.bufs && b in w.gone
  {
    w.(bufs := w.bufs[b := []], gone := w.gone[b := w.gone[b] + [Wavebufs.Concat(w.bufs[b])]])
  }

  /** Telling the next subscriber; one that is no wavebuf sends nothing to wavebufs. */
  ghost function TellNext(net: Net, w: Wave): (r: Wave)
    requires Covers(net, w) && w.nodes != []
    ensures Covers(net, r) && r.bufs.Keys == w.bufs.Keys && w.nodes[1..] <= r.nodes
  {
    var b, v := w.nodes[0], w.(nodes := w.nodes[1..]);
    if b in w.bufs then Forward(net, Flush(v, b), b, net.Out(b), Wavebufs.Concat(w.bufs[b])) else v
  }

  // ---- The walk ends ----

  ghost function Weight(net: Net, b: nat): (r: nat)
    requires net.Layered()
    decreases net.rank(b), 1, 0
  {
    1 + Weights(net, net.Out(b), net.rank(b))
  }

  ghost function Weights(net: Net, ts: seq<nat>, r: nat): nat
    requires net.Layered() && net.Below(ts, r)
    decreases r, 0, |ts|
  {
    if ts == [] then 0 else Weight(net, ts[0]) + Weights(net, ts[1..], r)
  }

  ghost function Total(net: Net, ts: seq<nat>): nat
    requires net.Layered()
  {
    if ts == [] then 0 else Weight(net, ts[0]) + Total(net, ts[1..])
  }

  lemma {:induction false} WeightsTotal(net: Net, ts: seq<nat>, r: nat)
    requires net.Layered() && net.Below(ts, r)
    ensures Weights(net, ts, r) == Total(net, ts)
  {
    if ts != [] {
      WeightsTotal(net, ts[1..], r);
    }
  }

  lemma {:induction false} TotalSnoc(net: Net, ts: seq<nat>, t: nat)
    requires net.Layered()
    ensures Total(net, ts + [t]) == Total(net, ts) + Weight(net, t)
  {
    if ts == [] {
      assert [] + [t] == [t] && [t][1..] == [];
    } else {
      assert (ts + [t])[0] == ts[0] && (ts + [t])[1..] == ts[1..] + [t];
      TotalSnoc(net, ts[1..], t);
    }
  }

  lemma {:induction false} ForwardTotal(net: Net, w: Wave, b: nat, ts: seq<nat>, m: Message)
    requires net.Layered() && Known(w, ts)
    ensures Total(net, Forward(net, w, b, ts, m).nodes) <= Total(net, w.nodes) + Total(net, ts)
    decreases |ts|
  {
    if ts != [] {
      TotalSnoc(net, w.nodes, ts[0]);
      ForwardTotal(net, Receive(w, ts[0], net.via(b, ts[0], m)), b, ts[1..], m);
    }
  }

  /** Telling a subscriber costs more than the subscriptions it causes. */
  lemma TellShrinks(net: Net, w: Wave)
    requires Covers(net, w) && w.nodes != []
    ensures Total(net, TellNext(net, w).nodes) < Total(net, w.nodes)
  {
    var b, v := w.nodes[0], w.(nodes := w.nodes[1..]);
    WeightsTotal(net, net.Out(b), net.rank(b));
    if b in w.bufs {
      ForwardTotal(net, Flush(v, b), b, net.Out(b), Wavebufs.Concat(v.bufs[b]));
    }
  }

  /** The walk over the subscribers. The next one is fixed before one is told, so whoever subscribes while the last
      one is told comes too late, and is dropped with all others when the walk is over. */
  ghost function Walk(net: Net, w: Wave): (r: Wave)
    requires Covers(net, w)
    ensures Covers(net, r) && r.bufs.Keys == w.bufs.Keys && r.nodes == []
    decreases Total(net, w.nodes)
  {
    if w.nodes == [] then w else
      TellShrinks(net, w);
      var next := TellNext(net, w);
      if |w.nodes| == 1 then next.(nodes := []) else Walk(net, next)
  }

  // ---- The order of visits, without the data ----

  /** Those of `ts` that are not subscribed yet subscribe, one after another; the wavebufs in `stuck` keep something
      without being subscribed, and never subscribe again. */
  function Push(nodes: seq<nat>, ts: seq<nat>, stuck: set<nat>): (r: seq<nat>)
    ensures nodes <= r
    decreases |ts|
  {
    if ts == [] then nodes
    else Push(if ts[0] in nodes || ts[0] in stuck then nodes else nodes + [ts[0]], ts[1..], stuck)
  }

  lemma {:induction false} PushTotal(net: Net, nodes: seq<nat>, ts: seq<nat>, stuck: set<nat>)
    requires net.Layered()
    ensures Total(net, Push(nodes, ts, stuck)) <= Total(net, nodes) + Total(net, ts)
    decreases |ts|
  {
    if ts != [] {
      TotalSnoc(net, nodes, ts[0]);
      PushTotal(net, if ts[0] in nodes || ts[0] in stuck then nodes else nodes + [ts[0]], ts[1..], stuck);
    }
  }

  lemma PushShrinks(net: Net, nodes: seq<nat>, stuck: set<nat>)
    requires net.Layered() && nodes != []
    ensures Total(net, Push(nodes[1..], net.Out(nodes[0]), stuck)) < Total(net, nodes)
  {
    WeightsTotal(net, net.Out(nodes[0]), net.rank(nodes[0]));
    PushTotal(net, nodes[1..], net.Out(nodes[0]), stuck);
  }

  /** Who is told, in which order, when these are the subscribers at the finish of a wave. */
  ghost function Visits(net: Net, nodes: seq<nat>, stuck: set<nat>): (r: seq<nat>)
    requires net.Layered()
    ensures nodes != [] ==> r != []
    decreases Total(net, nodes)
  {
    if nodes == [] then [] else
      PushShrinks(net, nodes, stuck);
      [nodes[0]] + if |nodes| == 1 then [] else Visits(net, Push(nodes[1..], net.Out(nodes[0]), stuck), stuck)
  }

  /** Who gets a message when it is too late to subscribe: the wavebufs behind the last one told. */
  ghost function TooLateFor(net: Net, nodes: seq<nat>, stuck: set<nat>): seq<nat>
    requires net.Layered()
  {
    if nodes == [] then [] else net.Out(Visits(net, nodes, stuck)[|Visits(net, nodes, stuck)| - 1])
  }

  // ---- A buffer holds something exactly when its node is subscribed, once ----

  ghost predicate TidyAt(w: Wave, b: nat) {
    b in w.bufs && multiset(w.nodes)[b] == if w.bufs[b] == [] then 0 else 1
  }

  /** A wavebuf that keeps something and is not subscribed. */
  ghost predicate Stuck(w: Wave, b: nat) {
    b in w.bufs && w.bufs[b] != [] && b !in w.nodes
  }

  /** All wavebufs are tidy but those that are stuck. */
  ghost predicate Tidy(w: Wave, stuck: set<nat>) {
    forall b :: b in w.bufs ==> if b in stuck then Stuck(w, b) else TidyAt(w, b)
  }

  ghost predicate AllSent(w: Wave) {
    forall b :: b in w.bufs ==> w.bufs[b] == []
  }

  lemma ReceiveTidy(w: Wave, b: nat, m: Message, stuck: set<nat>)
    requires b in w.bufs && b in w.got && Tidy(w, stuck)
    ensures Tidy(Receive(w, b, m), stuck)
    ensures Receive(w, b, m).nodes == if b in w.nodes || b in stuck then w.nodes else w.nodes + [b]
  {
    assert b in w.nodes <==> multiset(w.nodes)[b] > 0;
  }

  lemma {:induction false} ForwardTidy(net: Net, w: Wave, b: nat, ts: seq<nat>, m: Message, stuck: set<nat>)
    requires Tidy(w, stuck) && Known(w, ts)
    ensures Tidy(Forward(net, w, b, ts, m), stuck) && Forward(net, w, b, ts, m).nodes == Push(w.nodes, ts, stuck)
    decreases |ts|
  {
    if ts != [] {
      ReceiveTidy(w, ts[0], net.via(b, ts[0], m), stuck);
      hide Tidy;
      ForwardTidy(net, Receive(w, ts[0], net.via(b, ts[0], m)), b, ts[1..], m, stuck);
    }
  }

  lemma FlushTidy(w: Wave, stuck: set<nat>)
    requires w.nodes != [] && Tidy(w, stuck) && w.nodes[0] in w.bufs && w.nodes[0] in w.gone
    ensures Tidy(Flush(w.(nodes := w.nodes[1..]), w.nodes[0]), stuck)
  {
    var b, v := w.nodes[0], w.(nodes := w.nodes[1..]);
    assert w.nodes == [b] + v.nodes;
    assert forall x :: multiset(w.nodes)[x] == multiset([b])[x] + multiset(v.nodes)[x];
  }

  lemma OtherTidy(w: Wave, stuck: set<nat>)
    requires w.nodes != [] && Tidy(w, stuck) && w.nodes[0] !in w.bufs
    ensures Tidy(w.(nodes := w.nodes[1..]), stuck)
  {
    var b, v := w.nodes[0], w.(nodes := w.nodes[1..]);
    assert w.nodes == [b] + v.nodes;
    assert forall x :: multiset(w.nodes)[x] == multiset([b])[x] + multiset(v.nodes)[x];
  }

  lemma TellTidy(net: Net, w: Wave, stuck: set<nat>)
    requires Covers(net, w) && Tidy(w, stuck) && w.nodes != []
    ensures var r := TellNext(net, w);
            Tidy(r, stuck) && r.nodes == Push(w.nodes[1..], net.Out(w.nodes[0]), stuck)
  {
    var b, v := w.nodes[0], w.(nodes := w.nodes[1..]);
    if b in w.bufs {
      FlushTidy(w, stuck);
      hide Tidy;
      ForwardTidy(net, Flush(v, b), b, net.Out(b), Wavebufs.Concat(v.bufs[b]), stuck);
    } else {
      OtherTidy(w, stuck);
    }
  }

  lemma {:induction false} PushExactly(nodes: seq<nat>, ts: seq<nat>, stuck: set<nat>, x: nat)
    ensures x in Push(nodes, ts, stuck) <==> x in nodes || (x in ts && x !in stuck)
    decreases |ts|
  {
    if ts != [] {
      PushExactly(if ts[0] in nodes || ts[0] in stuck then nodes else nodes + [ts[0]], ts[1..], stuck, x);
    }
  }

  lemma OutKnown(net: Net, w: Wave, b: nat, t: nat)
    requires Covers(net, w) && t in net.Out(b)
    ensures b in w.bufs && t in w.bufs && net.rank(t) < net.rank(b)
  {
    var i :| 0 <= i < |net.Out(b)| && net.Out(b)[i] == t;
  }

  /** Exactly what a finish leaves behind in a wavebuf that was not stuck before: something, if the last subscriber told
      forwards to it, whatever the state of the others. */
  lemma {:induction false} FinishLeaves(net: Net, w: Wave, stuck: set<nat>, c: nat)
    requires Covers(net, w) && Tidy(w, stuck) && c in w.bufs && c !in stuck
    ensures Walk(net, w).bufs[c] != [] <==> c in TooLateFor(net, w.nodes, stuck)
    decreases Total(net, w.nodes)
  {
    if w.nodes == [] {
      assert TidyAt(w, c);
    } else {
      hide TellNext, Covers;
      TellTidy(net, w, stuck);
      TellShrinks(net, w);
      var next := TellNext(net, w);
      if |w.nodes| == 1 {
        assert w.nodes[1..] == [];
        PushExactly([], net.Out(w.nodes[0]), stuck, c);
        assert TidyAt(next, c);
        assert c in next.nodes <==> multiset(next.nodes)[c] > 0;
      } else {
        hide Tidy;
        FinishLeaves(net, next, stuck, c);
      }
    }
  }

  // ---- What one sends is what the others get ----

  /** What t gets of a message g of b that is passed along ts: once for each time t is there. */
  ghost function Into(net: Net, b: nat, ts: seq<nat>, g: Message, t: nat): seq<Message> {
    if ts == [] then [] else (if ts[0] == t then [net.via(b, t, g)] else []) + Into(net, b, ts[1..], g, t)
  }

  lemma {:induction false} IntoOnce(net: Net, b: nat, ts: seq<nat>, g: Message, t: nat)
    ensures |Into(net, b, ts, g, t)| == multiset(ts)[t]
    ensures forall i :: 0 <= i < |Into(net, b, ts, g, t)| ==> Into(net, b, ts, g, t)[i] == net.via(b, t, g)
  {
    if ts != [] {
      assert ts == [ts[0]] + ts[1..];
      IntoOnce(net, b, ts[1..], g, t);
    }
  }

  lemma ReceiveBrings(w: Wave, c: nat, m: Message, t: nat)
    requires c in w.bufs && c in w.got && t in w.bufs && t in w.got
    ensures Receive(w, c, m).bufs[t] == w.bufs[t] + if c == t then [m] else []
    ensures Receive(w, c, m).got[t] == w.got[t] + if c == t then m else []
  {
  }

  lemma {:induction false} ForwardBrings(net: Net, w: Wave, b: nat, ts: seq<nat>, g: Message, t: nat)
    requires Known(w, ts) && t in w.bufs && t in w.got
    ensures var r := Forward(net, w, b, ts, g);
            && r.bufs[t] == w.bufs[t] + Into(net, b, ts, g, t)
            && r.got[t] == w.got[t] + Wavebufs.Concat(Into(net, b, ts, g, t))
    decreases |ts|
  {
    if ts == [] {
      assert w.bufs[t] + [] == w.bufs[t] && w.got[t] + [] == w.got[t];
    } else {
      var m := net.via(b, ts[0], g);
      var v, rest := Receive(w, ts[0], m), Into(net, b, ts[1..], g, t);
      assert Known(v, ts[1..]);
      ReceiveBrings(w, ts[0], m, t);
      assert Forward(net, w, b, ts, g) == Forward(net, v, b, ts[1..], g);
      assert Into(net, b, ts, g, t) == (if ts[0] == t then [m] else []) + rest;
      hide Receive, Forward, Known, Into, Wavebufs.Concat;
      ForwardBrings(net, v, b, ts[1..], g, t);
      if ts[0] == t {
        Wavebufs.ConcatCons(m, rest);
        Joining(w.bufs[t], [m], rest);
        Joining(w.got[t], m, Wavebufs.Concat(rest));
      } else {
        assert w.bufs[t] + [] == w.bufs[t] && w.got[t] + [] == w.got[t] && [] + rest == rest;
      }
    }
  }

  lemma Joining<T>(a: seq<T>, b: seq<T>, c: seq<T>)
    ensures (a + b) + c == a + (b + c)
  {
  }

  /** A wavebuf that is told sends what it kept, in one message, and that is what those behind it get. */
  lemma TellBrings(net: Net, w: Wave, b: nat, t: nat)
    requires Covers(net, w) && b in w.bufs && t in w.bufs
    ensures Known(Flush(w, b), net.Out(b))
    ensures var g := Wavebufs.Concat(w.bufs[b]);
            var r := Forward(net, Flush(w, b), b, net.Out(b), g);
            && r.gone == w.gone[b := w.gone[b] + [g]]
            && r.bufs[t] == (if t == b then [] else w.bufs[t]) + Into(net, b, net.Out(b), g, t)
            && r.got[t] == w.got[t] + Wavebufs.Concat(Into(net, b, net.Out(b), g, t))
  {
    FlushBrings(net, w, b, t);
    hide Wavebufs.Concat, Covers, Flush, Known, Into, Forward;
    ForwardBrings(net, Flush(w, b), b, net.Out(b), Wavebufs.Concat(w.bufs[b]), t);
  }

  lemma FlushBrings(net: Net, w: Wave, b: nat, t: nat)
    requires Covers(net, w) && b in w.bufs && t in w.bufs
    ensures b in w.gone && Known(Flush(w, b), net.Out(b)) && t in w.got
    ensures var v := Flush(w, b);
            && v.gone == w.gone[b := w.gone[b] + [Wavebufs.Concat(w.bufs[b])]] && v.got == w.got
            && t in v.bufs && v.bufs[t] == if t == b then [] else w.bufs[t]
  {
  }

  /** Each of those behind it once: with what came in between, as it was sent; no others get anything. */
  lemma BringsOnce(net: Net, w: Wave, b: nat, g: Message, t: nat)
    requires Covers(net, w)
    ensures multiset(net.Out(b))[t] == 0 ==> Into(net, b, net.Out(b), g, t) == []
    ensures multiset(net.Out(b))[t] == 1 ==> Into(net, b, net.Out(b), g, t) == [net.via(b, t, g)] && t != b
    ensures Wavebufs.Concat([net.via(b, t, g)]) == net.via(b, t, g)
  {
    IntoOnce(net, b, net.Out(b), g, t);
    if multiset(net.Out(b))[t] == 1 {
      OutKnown(net, w, b, t);
    }
    Wavebufs.ConcatCons(net.via(b, t, g), []);
    assert [net.via(b, t, g)] + [] == [net.via(b, t, g)];
  }

  /** A message that a wavebuf sent. */
  datatype Sent = Sent(from: nat, message: Message)

  /** The messages sent during a finish, in order. */
  ghost function Sends(net: Net, w: Wave): seq<Sent>
    requires Covers(net, w)
    decreases Total(net, w.nodes)
  {
    if w.nodes == [] then [] else
      TellShrinks(net, w);
      SendsOf(w) + if |w.nodes| == 1 then [] else Sends(net, TellNext(net, w))
  }

  ghost function SendsOf(w: Wave): seq<Sent>
    requires w.nodes != []
  {
    if w.nodes[0] in w.bufs then [Sent(w.nodes[0], Wavebufs.Concat(w.bufs[w.nodes[0]]))] else []
  }

  /** Those of them that a sent. */
  ghost function By(sends: seq<Sent>, a: nat): seq<Message> {
    if sends == [] then [] else (if sends[0].from == a then [sends[0].message] else []) + By(sends[1..], a)
  }

  /** What t gets of them. */
  ghost function Through(net: Net, sends: seq<Sent>, t: nat): seq<Message> {
    if sends == [] then []
    else Into(net, sends[0].from, net.Out(sends[0].from), sends[0].message, t) + Through(net, sends[1..], t)
  }

  /** Who sent them. */
  ghost function Senders(sends: seq<Sent>): seq<nat> {
    if sends == [] then [] else [sends[0].from] + Senders(sends[1..])
  }

  function Wavebuffed(bufs: map<nat, seq<Message>>, nodes: seq<nat>): seq<nat> {
    if nodes == [] then [] else (if nodes[0] in bufs then [nodes[0]] else []) + Wavebuffed(bufs, nodes[1..])
  }

  /** Each has sent just what is in its history since. */
  lemma {:induction false} SendsAreGone(net: Net, w: Wave, a: nat)
    requires Covers(net, w) && a in w.bufs
    ensures Walk(net, w).gone[a] == w.gone[a] + By(Sends(net, w), a)
    decreases Total(net, w.nodes)
  {
    if w.nodes != [] {
      TellShrinks(net, w);
      TellSends(net, w, a);
      var next := TellNext(net, w);
      if |w.nodes| > 1 {
        assert Sends(net, w) == SendsOf(w) + Sends(net, next);
        assert Walk(net, w) == Walk(net, next);
        hide TellNext, Covers, SendsOf, Sends, Walk, By;
        SendsAreGone(net, next, a);
        ByBoth(SendsOf(w), Sends(net, next), a);
        Joining(w.gone[a], By(SendsOf(w), a), By(Sends(net, next), a));
      } else {
        assert Sends(net, w) == SendsOf(w);
      }
    }
  }

  lemma TellSends(net: Net, w: Wave, a: nat)
    requires Covers(net, w) && w.nodes != [] && a in w.bufs
    ensures TellNext(net, w).gone[a] == w.gone[a] + By(SendsOf(w), a)
    ensures TellNext(net, w).got[a] == w.got[a] + Wavebufs.Concat(Through(net, SendsOf(w), a))
  {
    var b, v := w.nodes[0], w.(nodes := w.nodes[1..]);
    assert w.got[a] + [] == w.got[a] && w.gone[a] + [] == w.gone[a];
    if b in w.bufs {
      TellBrings(net, v, b, a);
      var s := SendsOf(w);
      assert s[1..] == [] && Through(net, s, a) == Into(net, b, net.Out(b), s[0].message, a) + [];
      assert Into(net, b, net.Out(b), s[0].message, a) + [] == Into(net, b, net.Out(b), s[0].message, a);
    }
  }

  lemma {:induction false} ByBoth(x: seq<Sent>, y: seq<Sent>, a: nat)
    ensures By(x + y, a) == By(x, a) + By(y, a)
  {
    if x == [] {
      assert x + y == y;
    } else {
      assert (x + y)[0] == x[0] && (x + y)[1..] == x[1..] + y;
      ByBoth(x[1..], y, a);
    }
  }

  lemma {:induction false} ThroughBoth(net: Net, x: seq<Sent>, y: seq<Sent>, t: nat)
    ensures Through(net, x + y, t) == Through(net, x, t) + Through(net, y, t)
  {
    if x == [] {
      assert x + y == y;
    } else {
      assert (x + y)[0] == x[0] && (x + y)[1..] == x[1..] + y;
      ThroughBoth(net, x[1..], y, t);
    }
  }

  /** What a wavebuf gets during a finish is what those before it send, in the order in which they do. */
  lemma {:induction false} WalkBrings(net: Net, w: Wave, t: nat)
    requires Covers(net, w) && t in w.bufs
    ensures Walk(net, w).got[t] == w.got[t] + Wavebufs.Concat(Through(net, Sends(net, w), t))
    decreases Total(net, w.nodes)
  {
    if w.nodes != [] {
      TellShrinks(net, w);
      TellSends(net, w, t);
      var next := TellNext(net, w);
      if |w.nodes| > 1 {
        assert Sends(net, w) == SendsOf(w) + Sends(net, next);
        assert Walk(net, w) == Walk(net, next);
        hide TellNext, Covers, SendsOf, Sends, Walk, Through, Wavebufs.Concat;
        WalkBrings(net, next, t);
        var x, y := Through(net, SendsOf(w), t), Through(net, Sends(net, next), t);
        ThroughBoth(net, SendsOf(w), Sends(net, next), t);
        Wavebufs.ConcatAppend(x, y);
        Joining(w.got[t], Wavebufs.Concat(x), Wavebufs.Concat(y));
      } else {
        assert Sends(net, w) == SendsOf(w);
      }
    }
  }

  /** They send in the order in which they are told. */
  lemma {:induction false} SendersAreTold(net: Net, w: Wave, stuck: set<nat>)
    requires Covers(net, w) && Tidy(w, stuck)
    ensures Senders(Sends(net, w)) == Wavebuffed(w.bufs, Visits(net, w.nodes, stuck))
    decreases Total(net, w.nodes)
  {
    if w.nodes != [] {
      TellTidy(net, w, stuck);
      TellShrinks(net, w);
      var next := TellNext(net, w);
      if |w.nodes| > 1 {
        assert net.Layered();
        var rest := Visits(net, next.nodes, stuck);
        assert Sends(net, w) == SendsOf(w) + Sends(net, next);
        assert Visits(net, w.nodes, stuck) == [w.nodes[0]] + rest;
        hide Tidy, Covers, TellNext, Visits, Sends;
        SendersAreTold(net, next, stuck);
        SameWavebufs(w.bufs, next.bufs, rest);
        TheFirst(w, Sends(net, next), rest);
      }
    }
  }

  lemma TheFirst(w: Wave, sends: seq<Sent>, rest: seq<nat>)
    requires w.nodes != [] && Senders(sends) == Wavebuffed(w.bufs, rest)
    ensures Senders(SendsOf(w) + sends) == Wavebuffed(w.bufs, [w.nodes[0]] + rest)
  {
    assert ([w.nodes[0]] + rest)[1..] == rest;
    if w.nodes[0] in w.bufs {
      assert (SendsOf(w) + sends)[1..] == sends;
    } else {
      assert SendsOf(w) + sends == sends;
    }
  }

  lemma {:induction false} SameWavebufs(a: map<nat, seq<Message>>, b: map<nat, seq<Message>>, nodes: seq<nat>)
    requires a.Keys == b.Keys
    ensures Wavebuffed(a, nodes) == Wavebuffed(b, nodes)
  {
    if nodes != [] {
      SameWavebufs(a, b, nodes[1..]);
      assert nodes[0] in a.Keys <==> nodes[0] in b.Keys;
    }
  }

  // ---- Nothing is lost, repeated or put out of order ----

  ghost predicate Flows(w: Wave) {
    && w.got.Keys == w.bufs.Keys && w.gone.Keys == w.bufs.Keys
    && (forall b :: b in w.bufs ==> Wavebufs.Concat(w.gone[b]) + Wavebufs.Concat(w.bufs[b]) == w.got[b])
  }

  lemma ReceiveFlows(w: Wave, b: nat, m: Message)
    requires b in w.bufs && Flows(w)
    ensures Flows(Receive(w, b, m))
  {
    Wavebufs.ConcatSnoc(w.bufs[b], m);
    assert w.got[b] + m == Wavebufs.Concat(w.gone[b]) + (Wavebufs.Concat(w.bufs[b]) + m);
  }

  lemma {:induction false} ForwardFlows(net: Net, w: Wave, b: nat, ts: seq<nat>, m: Message)
    requires Flows(w) && Known(w, ts)
    ensures Flows(Forward(net, w, b, ts, m))
    decreases |ts|
  {
    if ts != [] {
      ReceiveFlows(w, ts[0], net.via(b, ts[0], m));
      ForwardFlows(net, Receive(w, ts[0], net.via(b, ts[0], m)), b, ts[1..], m);
    }
  }

  lemma FlushFlows(w: Wave, b: nat)
    requires b in w.bufs && Flows(w)
    ensures Flows(Flush(w, b))
  {
    Wavebufs.ConcatSnoc(w.gone[b], Wavebufs.Concat(w.bufs[b]));
  }

  lemma TellFlows(net: Net, w: Wave)
    requires Covers(net, w) && Flows(w) && w.nodes != []
    ensures Flows(TellNext(net, w))
  {
    var b, v := w.nodes[0], w.(nodes := w.nodes[1..]);
    if b in w.bufs {
      FlushFlows(v, b);
      hide Flows;
      ForwardFlows(net, Flush(v, b), b, net.Out(b), Wavebufs.Concat(v.bufs[b]));
    }
  }

  /** Through a whole finish, for each wavebuf: what it has sent, and behind it what it still keeps, is what it got. */
  lemma {:induction false} WalkFlows(net: Net, w: Wave)
    requires Covers(net, w) && Flows(w)
    ensures Flows(Walk(net, w))
    decreases Total(net, w.nodes)
  {
    if w.nodes != [] {
      TellShrinks(net, w);
      TellFlows(net, w);
      if |w.nodes| > 1 {
        hide Flows, TellNext;
        WalkFlows(net, TellNext(net, w));
      }
    }
  }

  /** A wavebuf sends one message for each time it is told. */
  lemma {:induction false} OneMessageAVisit(net: Net, w: Wave, stuck: set<nat>, b: nat)
    requires Covers(net, w) && Tidy(w, stuck) && b in w.bufs
    ensures |Walk(net, w).gone[b]| == |w.gone[b]| + multiset(Visits(net, w.nodes, stuck))[b]
    decreases Total(net, w.nodes)
  {
    if w.nodes != [] {
      TellTidy(net, w, stuck);
      TellShrinks(net, w);
      var next := TellNext(net, w);
      assert |next.gone[b]| == |w.gone[b]| + if w.nodes[0] == b then 1 else 0;
      if |w.nodes| > 1 {
        hide TellNext, Tidy;
        OneMessageAVisit(net, next, stuck, b);
      }
    }
  }

  /** No wavebuf sends to it. */
  ghost predicate Unfed(net: Net, b: nat) {
    forall a :: b !in net.Out(a)
  }

  lemma {:induction false} PushCount(nodes: seq<nat>, ts: seq<nat>, stuck: set<nat>, x: nat)
    requires x !in ts
    ensures multiset(Push(nodes, ts, stuck))[x] == multiset(nodes)[x]
    decreases |ts|
  {
    if ts != [] {
      PushCount(if ts[0] in nodes || ts[0] in stuck then nodes else nodes + [ts[0]], ts[1..], stuck, x);
    }
  }

  /** Such a wavebuf is told as often as it is subscribed when the wave finishes. */
  lemma {:induction false} UnfedVisits(net: Net, nodes: seq<nat>, stuck: set<nat>, b: nat)
    requires net.Layered() && Unfed(net, b)
    ensures multiset(Visits(net, nodes, stuck))[b] == multiset(nodes)[b]
    decreases Total(net, nodes)
  {
    if nodes != [] {
      var rest := Push(nodes[1..], net.Out(nodes[0]), stuck);
      assert nodes == [nodes[0]] + nodes[1..];
      PushShrinks(net, nodes, stuck);
      PushCount(nodes[1..], net.Out(nodes[0]), stuck, b);
      if |nodes| > 1 {
        UnfedVisits(net, rest, stuck, b);
      }
    }
  }
}
