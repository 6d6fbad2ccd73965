/** The wave counter, the wave-finish events and the wavebuf nodes that wait for them. */
module WaveRuntime {
  import opened Errors
  import opened WaveState
  import opened WaveRuns
  import Datanodes
  import Wavebufs

  /** A wave-finish event: its wave and its subscribers. */
  datatype Cell = Cell(waveId: nat, nodes: seq<nat>)

  function Find(cells: seq<Cell>, id: nat): (i: nat)
    ensures i <= |cells| && (i < |cells| ==> cells[i].waveId == id)
    ensures forall j :: 0 <= j < i ==> cells[j].waveId != id
  {
    if cells == [] || cells[0].waveId == id then 0 else 1 + Find(cells[1..], id)
  }

  /** Subscribers of the finish of a wave. */
  function Pending(cells: seq<Cell>, id: nat): seq<nat> {
    if Find(cells, id) < |cells| then cells[Find(cells, id)].nodes else []
  }

  /** At most one event a wave, none of a wave to come, each with a subscriber. */
  ghost predicate CellsOk(cells: seq<Cell>, waveId: nat) {
    && (forall i, j :: 0 <= i < j < |cells| ==> cells[i].waveId != cells[j].waveId)
    && (forall i :: 0 <= i < |cells| ==> cells[i].waveId <= waveId && cells[i].nodes != [])
  }

  /** The new subscriber joins the event of the wave, or the wave gets an event in front of all others. */
  function Joined(cells: seq<Cell>, waveId: nat, n: nat): seq<Cell> {
    var i := Find(cells, waveId);
    if i < |cells| then cells[i := Cell(waveId, cells[i].nodes + [n])] else [Cell(waveId, [n])] + cells
  }

  class Waves {
    const net: Net
    var waveId: nat
    var cells: seq<Cell>
    var bufs: map<nat, seq<Message>>
    ghost var got: map<nat, Message>
    ghost var gone: map<nat, seq<Message>>

    /** The current wave from its k-th subscriber on. */
    ghost function From(k: nat): Wave
      reads this
      requires k <= |Pending(cells, waveId)|
    {
      Wave(bufs, Pending(cells, waveId)[k..], got, gone)
    }

    ghost predicate Valid()
      reads this
    {
      CellsOk(cells, waveId) && Covers(net, From(0))
    }

    /** No wave yet, nothing kept: the wavebufs of a net in which they send to each other only downwards. */
    constructor (n: Net, ids: set<nat>)
      requires n.Layered()
      requires forall b :: b in n.out ==> b in ids && forall i :: 0 <= i < |n.out[b]| ==> n.out[b][i] in ids
      ensures Valid() && net == n && waveId == 0 && bufs.Keys == ids && AllSent(From(0)) && From(0).nodes == []
    {
      net := n;
      waveId := 0;
      cells := [];
      bufs := map b | b in ids :: [];
      got := map b | b in ids :: [];
      gone := map b | b in ids :: [];
    }

    method Start()
      requires Valid()
      modifies this`waveId, this`got, this`gone
      ensures Valid() && waveId == old(waveId) + 1
      ensures From(0) == Do(net, old(From(0)), WaveRuns.Start)
    {
      waveId := waveId + 1;
      got := map b | b in bufs :: Wavebufs.Concat(bufs[b]);
      gone := map b | b in bufs :: [];
      assert Pending(cells, waveId) == [];
    }

    /** dmm_wavefinish_subscribe: join the event of the current wave, or make one. An event that got no
        subscriber for lack of memory is gone again. */
    method Subscribe(n: nat, cellMemory: bool, recordMemory: bool) returns (err: Errno)
      requires CellsOk(cells, waveId)
      modifies this`cells
      ensures CellsOk(cells, waveId)
      ensures err == if recordMemory && (cellMemory || old(Pending(cells, waveId)) != []) then Ok else ENOMEM
      ensures cells == if err == Ok then Joined(old(cells), waveId, n) else old(cells)
      ensures err == Ok ==> Pending(cells, waveId) == old(Pending(cells, waveId)) + [n]
    {
      hide CellsOk, Pending;
      var i := FindCell();
      CellNodes(cells, waveId);
      if i < |cells| {
        if !recordMemory {
          return ENOMEM;
        }
        Joins(cells, waveId, n);
        cells := cells[i := Cell(waveId, cells[i].nodes + [n])];
        return Ok;
      }
      if !cellMemory {
        return ENOMEM;
      }
      ghost var was := cells;
      cells := [Cell(waveId, [])] + cells;
      if recordMemory {
        Joins(was, waveId, n);
        cells := cells[0 := Cell(waveId, cells[0].nodes + [n])];
        assert [] + [n] == [n];
        assert cells == Joined(was, waveId, n);
        return Ok;
      }
      // the last reference goes, and the destructor unlinks the event
      cells := cells[1..];
      return ENOMEM;
    }

    /** dmm_wavefinish_id2ref for the current wave. */
    method FindCell() returns (i: nat)
      ensures i == Find(cells, waveId)
    {
      i := 0;
      while i < |cells| && cells[i].waveId != waveId
        invariant i <= Find(cells, waveId)
      {
        i := i + 1;
      }
    }

    /** rcvdata of a wavebuf. */
    method RcvData(b: nat, m: Message)
      requires Valid() && b in bufs && b in got
      modifies this`cells, this`bufs, this`got
      ensures Valid() && From(0) == Receive(old(From(0)), b, m)
    {
      hide CellsOk, Pending, Joined, Covers;
      CoversReceive(net, From(0), b, m);
      if bufs[b] == [] {
        var _ := Subscribe(b, true, true);
      }
      bufs := bufs[b := bufs[b] + [m]];
      got := got[b := got[b] + m];
    }

    /** A subscriber is told; a wavebuf sends all it keeps as one message, which the wavebufs behind it get. */
    method Tell(b: nat)
      requires Valid()
      modifies this`cells, this`bufs, this`got, this`gone
      ensures Valid() && From(0) == Told(net, old(From(0)), b)
      ensures b !in old(bufs) ==> From(0) == old(From(0))
      ensures b in old(bufs) ==>
                var g := Wavebufs.Concat(old(bufs)[b]);
                && b in old(gone) && gone == old(gone)[b := old(gone)[b] + [g]] && b in bufs && bufs[b] == []
                && forall t :: t in old(bufs) && t != b ==>
                     && t in bufs && t in got && t in old(got)
                     && (multiset(net.Out(b))[t] == 0 ==> bufs[t] == old(bufs)[t] && got[t] == old(got)[t])
                     && (multiset(net.Out(b))[t] == 1 ==>
                           bufs[t] == old(bufs)[t] + [net.via(b, t, g)] && got[t] == old(got)[t] + net.via(b, t, g))
    {
      hide CellsOk, Pending, Covers, Forward;
      if b !in bufs {
        return;
      }
      ToldBrings(net, From(0), b);
      OutsKnown(net, From(0), b);
      var content := Wavebufs.Concat(bufs[b]);
      bufs := bufs[b := []];
      gone := gone[b := gone[b] + [content]];
      CoversFlush(net, old(From(0)), b);
      ghost var start := From(0);
      assert start == Flush(old(From(0)), b);
      var ts := net.Out(b);
      while ts != []
        invariant Valid() && Known(From(0), ts)
        invariant Forward(net, From(0), b, ts, content) == Forward(net, start, b, net.Out(b), content)
        decreases |ts|
      {
        ForwardOne(net, From(0), b, ts, content);
        var t := ts[0];
        RcvData(t, net.via(b, t, content));
        ts := ts[1..];
      }
      ForwardNone(net, From(0), b, content);
    }

    /** dmm_event_sendsubscribed on the event of the current wave. */
    method SendSubscribed()
      requires Valid() && Pending(cells, waveId) != []
      modifies this`cells, this`bufs, this`got, this`gone
      ensures Valid() && Pending(cells, waveId) != []
      ensures From(0).(nodes := []) == Walk(net, old(From(0)))
    {
      assert net.Layered();
      hide CellsOk, Pending, Covers, Walk, Told, TellNext, Total;
      var en: Option<nat> := Some(0);
      assert From(0).nodes == Pending(cells, waveId);
      while en.Some?
        invariant Valid() && Pending(cells, waveId) != []
        invariant en.Some? ==>
                    && en.value < |Pending(cells, waveId)| && Covers(net, From(en.value))
                    && Walk(net, From(en.value)) == Walk(net, old(From(0)))
        invariant en.None? ==> From(0).(nodes := []) == Walk(net, old(From(0)))
        decreases if en.Some? then 1 + Total(net, From(en.value).nodes) else 0
      {
        var i := en.value;
        var n := Pending(cells, waveId)[i];
        var saved := if i + 1 < |Pending(cells, waveId)| then Some(i + 1) else None;
        ghost var whole := From(0);
        ghost var w := From(i);
        assert w == whole.(nodes := whole.nodes[i..]) && w.nodes[0] == n;
        Tell(n);
        NextSuffix(net, whole, i);
        assert From(0).nodes == Pending(cells, waveId);
        assert TellNext(net, w) == From(i + 1);
        WalkStep(net, w);
        TellShrinks(net, w);
        en := saved;
      }
    }

    /** dmm_wave_finish: tell all subscribers of the current wave, if there is memory for the message, then drop
        them and the event. The next subscriber is looked up before one is told. */
    method Finish(memory: bool) returns (err: Errno)
      requires Valid()
      modifies this`cells, this`bufs, this`got, this`gone
      ensures err == if old(Pending(cells, waveId)) != [] && !memory then ENOMEM else Ok
      ensures Valid() && From(0) == Do(net, old(From(0)), WaveRuns.Finish(memory))
      ensures memory ==>
                forall t :: t in old(bufs) ==>
                  && t in got && t in old(got)
                  && got[t] == old(got)[t] + Wavebufs.Concat(Through(net, Sends(net, old(From(0))), t))
    {
      hide CellsOk, Pending, Covers, Walk, Told, TellNext, Through, Sends, Wavebufs.Concat;
      if memory {
        AllBrought(net, From(0));
      }
      var at := FindCell();
      CellNodes(cells, waveId);
      err := Ok;
      if at < |cells| {
        if memory {
          SendSubscribed();
        } else {
          err := ENOMEM;
        }
        at := FindCell();
        CellNodes(cells, waveId);
        Dropped(cells, waveId);
        CoversNodes(net, From(0), []);
        cells := cells[..at] + cells[at + 1..];
      } else {
        WalkNone(net, From(0));
      }
    }
  }

  /** What telling a node does, wherever the walk is. */
  ghost function Told(net: Net, w: Wave, b: nat): Wave
    requires Covers(net, w)
  {
    if b in w.bufs then Forward(net, Flush(w, b), b, net.Out(b), Wavebufs.Concat(w.bufs[b])) else w
  }

  lemma ToldBrings(net: Net, w: Wave, b: nat)
    requires Covers(net, w) && b in w.bufs
    ensures var g, r := Wavebufs.Concat(w.bufs[b]), Told(net, w, b);
            && b in w.gone && r.gone == w.gone[b := w.gone[b] + [g]] && b in r.bufs && r.bufs[b] == []
            && forall t :: t in w.bufs && t != b ==>
                 && t in r.bufs && t in r.got && t in w.got
                 && (multiset(net.Out(b))[t] == 0 ==> r.bufs[t] == w.bufs[t] && r.got[t] == w.got[t])
                 && (multiset(net.Out(b))[t] == 1 ==>
                       r.bufs[t] == w.bufs[t] + [net.via(b, t, g)] && r.got[t] == w.got[t] + net.via(b, t, g))
  {
    var g, r := Wavebufs.Concat(w.bufs[b]), Told(net, w, b);
    SameKeys(net, w);
    TellBrings(net, w, b, b);
    SelfUntold(net, w, b, g);
    var none: seq<Message> := [];
    assert none + none == none;
    forall t | t in w.bufs && t != b
      ensures t in r.bufs && t in r.got && t in w.got
      ensures multiset(net.Out(b))[t] == 0 ==> r.bufs[t] == w.bufs[t] && r.got[t] == w.got[t]
      ensures multiset(net.Out(b))[t] == 1 ==>
                r.bufs[t] == w.bufs[t] + [net.via(b, t, g)] && r.got[t] == w.got[t] + net.via(b, t, g)
    {
      hide Covers, Flush, Forward, Into, Wavebufs.Concat;
      TellBrings(net, w, b, t);
      BringsOnce(net, w, b, g, t);
      Wavebufs.ConcatNone<Datanodes.Datanode>();
    }
  }

  lemma SelfUntold(net: Net, w: Wave, b: nat, g: Message)
    requires Covers(net, w)
    ensures Into(net, b, net.Out(b), g, b) == []
  {
    if b in net.Out(b) {
      OutKnown(net, w, b, b);
    }
    BringsOnce(net, w, b, g, b);
  }

  lemma AllBrought(net: Net, w: Wave)
    requires Covers(net, w)
    ensures forall t :: t in w.bufs ==>
              && t in w.got && t in Walk(net, w).got
              && Walk(net, w).got[t] == w.got[t] + Wavebufs.Concat(Through(net, Sends(net, w), t))
  {
    SameKeys(net, w);
    SameKeys(net, Walk(net, w));
    hide Walk, Covers, Through, Sends, Wavebufs.Concat;
    forall t | t in w.bufs
      ensures Walk(net, w).got[t] == w.got[t] + Wavebufs.Concat(Through(net, Sends(net, w), t))
    {
      WalkBrings(net, w, t);
    }
  }

  lemma {:induction false} ForwardSuffix(net: Net, w: Wave, b: nat, ts: seq<nat>, m: Message, k: nat)
    requires Known(w, ts) && k <= |w.nodes|
    ensures var r := Forward(net, w, b, ts, m);
            k <= |r.nodes| && Forward(net, w.(nodes := w.nodes[k..]), b, ts, m) == r.(nodes := r.nodes[k..])
    decreases |ts|
  {
    if ts != [] {
      var v := Receive(w, ts[0], net.via(b, ts[0], m));
      assert v.nodes[k..] == if w.bufs[ts[0]] == [] then w.nodes[k..] + [ts[0]] else w.nodes[k..];
      ForwardSuffix(net, v, b, ts[1..], m, k);
    }
  }

  /** Where the walk is in the list of subscribers makes no difference to what telling one does. */
  lemma NextSuffix(net: Net, w: Wave, i: nat)
    requires Covers(net, w) && i < |w.nodes| && Covers(net, w.(nodes := w.nodes[i..]))
    ensures var r := Told(net, w, w.nodes[i]);
            |r.nodes| > i && TellNext(net, w.(nodes := w.nodes[i..])) == r.(nodes := r.nodes[i + 1..])
    ensures w.nodes <= Told(net, w, w.nodes[i]).nodes
  {
    var b := w.nodes[i];
    assert w.nodes[i..][0] == b && w.nodes[i..][1..] == w.nodes[i + 1..];
    if b in w.bufs {
      OutsKnown(net, w, b);
      var u := Flush(w, b);
      assert Known(u, net.Out(b));
      ForwardSuffix(net, u, b, net.Out(b), Wavebufs.Concat(w.bufs[b]), i + 1);
    }
  }

  lemma WalkStep(net: Net, w: Wave)
    requires Covers(net, w) && w.nodes != []
    ensures Walk(net, w) == if |w.nodes| == 1 then TellNext(net, w).(nodes := []) else Walk(net, TellNext(net, w))
  {
  }

  lemma WalkNone(net: Net, w: Wave)
    requires Covers(net, w) && w.nodes == []
    ensures Walk(net, w) == w
  {
  }

  lemma CoversNodes(net: Net, w: Wave, nodes: seq<nat>)
    requires Covers(net, w)
    ensures Covers(net, w.(nodes := nodes))
  {
  }

  /** The event of a wave unlinked: no subscriber of this wave is left, and no other event is touched. */
  lemma Dropped(cells: seq<Cell>, waveId: nat)
    requires CellsOk(cells, waveId) && Find(cells, waveId) < |cells|
    ensures var i := Find(cells, waveId);
            var r := cells[..i] + cells[i + 1..];
            CellsOk(r, waveId) && Pending(r, waveId) == []
  {
    var i := Find(cells, waveId);
    var r := cells[..i] + cells[i + 1..];
    forall k | 0 <= k < |r| ensures r[k] == cells[if k < i then k else k + 1] {
    }
    OthersOk(cells, waveId, i, r);
    hide CellsOk;
    forall k | 0 <= k < |r| ensures r[k].waveId != waveId {
      OtherCell(cells, waveId, i, if k < i then k else k + 1);
    }
  }

  lemma OthersOk(cells: seq<Cell>, waveId: nat, i: nat, r: seq<Cell>)
    requires CellsOk(cells, waveId) && i < |cells| && |r| == |cells| - 1
    requires forall k :: 0 <= k < |r| ==> r[k] == cells[if k < i then k else k + 1]
    ensures CellsOk(r, waveId)
  {
  }

  lemma OtherCell(cells: seq<Cell>, waveId: nat, i: nat, j: nat)
    requires CellsOk(cells, waveId) && i < |cells| && j < |cells| && i != j
    ensures cells[i].waveId != cells[j].waveId
  {
  }

  lemma CoversReceive(net: Net, w: Wave, b: nat, m: Message)
    requires Covers(net, w) && b in w.bufs && b in w.got
    ensures Covers(net, Receive(w, b, m))
  {
  }

  lemma CoversFlush(net: Net, w: Wave, b: nat)
    requires Covers(net, w) && b in w.bufs && b in w.gone
    ensures Covers(net, Flush(w, b))
  {
  }

  lemma OutsKnown(net: Net, w: Wave, b: nat)
    requires Covers(net, w) && b in w.bufs
    ensures Known(w, net.Out(b)) && b in w.gone && b in w.got
  {
  }

  lemma ForwardOne(net: Net, w: Wave, b: nat, ts: seq<nat>, m: Message)
    requires Known(w, ts) && ts != []
    ensures ts[0] in w.bufs && ts[0] in w.got
    ensures var r := Receive(w, ts[0], net.via(b, ts[0], m));
            Known(r, ts[1..]) && Forward(net, w, b, ts, m) == Forward(net, r, b, ts[1..], m)
  {
  }

  lemma ForwardNone(net: Net, w: Wave, b: nat, m: Message)
    ensures Forward(net, w, b, [], m) == w
  {
  }

  lemma {:induction false} SameFinds(a: seq<Cell>, b: seq<Cell>, id: nat)
    requires |a| == |b| && forall i :: 0 <= i < |a| ==> a[i].waveId == b[i].waveId
    ensures Find(a, id) == Find(b, id)
  {
    if a != [] {
      SameFinds(a[1..], b[1..], id);
    }
  }

  lemma CellNodes(cells: seq<Cell>, waveId: nat)
    requires CellsOk(cells, waveId)
    ensures Find(cells, waveId) < |cells| <==> Pending(cells, waveId) != []
  {
  }

  lemma Joins(cells: seq<Cell>, waveId: nat, n: nat)
    requires CellsOk(cells, waveId)
    ensures CellsOk(Joined(cells, waveId, n), waveId)
    ensures Pending(Joined(cells, waveId, n), waveId) == Pending(cells, waveId) + [n]
  {
    var i, r := Find(cells, waveId), Joined(cells, waveId, n);
    if i < |cells| {
      SameFinds(cells, r, waveId);
    } else {
      assert r[0].waveId == waveId;
      assert forall k :: 0 < k < |r| ==> r[k] == cells[k - 1];
    }
  }
}
