/** Whole runs of waves: what a wave delivers, and what becomes of a wavebuf that subscribed too late. */
module WaveRuns {
  import opened WaveState
  import Wavebufs

  datatype Step =
    | Start
    | Data(node: nat, message: Message)
    | Subscribe(other: nat) // a node that is no wavebuf asks to be told
    | Finish(memory: bool)

  ghost function Do(net: Net, w: Wave, step: Step): (r: Wave)
    requires Covers(net, w)
    ensures Covers(net, r) && r.bufs.Keys == w.bufs.Keys
  {
    match step
    case Start =>
      Wave(w.bufs, [], map b | b in w.bufs :: Wavebufs.Concat(w.bufs[b]), map b | b in w.bufs :: [])
    case Data(b, m) => if b in w.bufs then Receive(w, b, m) else w
    case Subscribe(n) => if n in w.bufs then w else w.(nodes := w.nodes + [n])
    case Finish(memory) => if memory then Walk(net, w) else w.(nodes := [])
  }

  ghost function Run(net: Net, w: Wave, steps: seq<Step>): (r: Wave)
    requires Covers(net, w)
    ensures Covers(net, r) && r.bufs.Keys == w.bufs.Keys
    decreases |steps|
  {
    if steps == [] then w else Run(net, Do(net, w, steps[0]), steps[1..])
  }

  // ---- Too late ----

  /** It sends nothing, and what comes is put behind what it keeps. */
  ghost predicate StaysStuck(w: Wave, r: Wave, b: nat) {
    && Stuck(w, b) && Stuck(r, b) && b in w.gone && b in r.gone
    && w.bufs[b] <= r.bufs[b] && (r.gone[b] == w.gone[b] || r.gone[b] == [])
  }

  lemma {:induction false} StuckForward(net: Net, w: Wave, from: nat, ts: seq<nat>, m: Message, b: nat)
    requires Known(w, ts) && Stuck(w, b) && b in w.gone
    ensures StaysStuck(w, Forward(net, w, from, ts, m), b)
    decreases |ts|
  {
    if ts != [] {
      StuckForward(net, Receive(w, ts[0], net.via(from, ts[0], m)), from, ts[1..], m, b);
    }
  }

  lemma StuckTell(net: Net, w: Wave, b: nat)
    requires Covers(net, w) && w.nodes != [] && Stuck(w, b)
    ensures StaysStuck(w, TellNext(net, w), b)
  {
    var n, v := w.nodes[0], w.(nodes := w.nodes[1..]);
    if n in w.bufs {
      StuckForward(net, Flush(v, n), n, net.Out(n), Wavebufs.Concat(v.bufs[n]), b);
    }
  }

  lemma {:induction false} StuckWalk(net: Net, w: Wave, b: nat)
    requires Covers(net, w) && Stuck(w, b)
    ensures StaysStuck(w, Walk(net, w), b)
    decreases Total(net, w.nodes)
  {
    SameKeys(net, w);
    hide TellNext, Covers, Total;
    if w.nodes != [] {
      StuckTell(net, w, b);
      TellShrinks(net, w);
      if |w.nodes| > 1 {
        StuckWalk(net, TellNext(net, w), b);
        StuckTwice(w, TellNext(net, w), Walk(net, TellNext(net, w)), b);
        hide StaysStuck;
      }
    }
  }

  lemma StuckTwice(w: Wave, v: Wave, r: Wave, b: nat)
    requires StaysStuck(w, v, b) && StaysStuck(v, r, b)
    ensures StaysStuck(w, r, b)
  {
  }

  /** A wavebuf that is stuck stays so whatever happens: it never sends anything again. */
  lemma {:induction false} StuckForever(net: Net, w: Wave, steps: seq<Step>, b: nat)
    requires Covers(net, w) && Stuck(w, b)
    ensures StaysStuck(w, Run(net, w, steps), b)
    decreases |steps|
  {
    if steps != [] {
      var v := Do(net, w, steps[0]);
      if steps[0] == Finish(true) {
        StuckWalk(net, w, b);
      }
      assert StaysStuck(w, v, b);
      StuckForever(net, v, steps[1..], b);
    }
  }

  /** A wavebuf that the last subscriber told forwards to never sends again. */
  lemma TooLate(net: Net, w: Wave, stuck: set<nat>, b: nat, steps: seq<Step>)
    requires Covers(net, w) && Tidy(w, stuck) && b in w.bufs && b !in stuck && b in TooLateFor(net, w.nodes, stuck)
    ensures StaysStuck(Walk(net, w), Run(net, Walk(net, w), steps), b)
  {
    FinishLeaves(net, w, stuck, b);
    StuckForever(net, Walk(net, w), steps, b);
  }

  /** What is kept when a wave starts, because it came outside of a wave or an earlier finish left it behind, is never
      sent: whatever follows, the wavebuf sends nothing. */
  lemma StartSticks(net: Net, w: Wave, b: nat, steps: seq<Step>)
    requires Covers(net, w) && b in w.bufs && w.bufs[b] != []
    ensures var r := Run(net, Do(net, w, Start), steps);
            b in r.bufs && b in r.gone && w.bufs[b] <= r.bufs[b] && r.gone[b] == []
  {
    StuckForever(net, Do(net, w, Start), steps, b);
  }

  /** Without memory for the message that tells of the finish, no wavebuf that kept something sends it, then or later.
      */
  lemma UntoldStick(net: Net, w: Wave, b: nat, steps: seq<Step>)
    requires Covers(net, w) && b in w.bufs && w.bufs[b] != []
    ensures var v := Do(net, w, Finish(false));
            Covers(net, v) && StaysStuck(v, Run(net, v, steps), b) && w.bufs[b] <= Run(net, v, steps).bufs[b]
  {
    StuckForever(net, Do(net, w, Finish(false)), steps, b);
  }

  /** Two wavebufs in a row are enough: data for the first one leaves the second stuck. */
  lemma ChainSticks(net: Net, w: Wave, a: nat, b: nat, m: Message)
    requires Covers(net, w) && net.Out(a) == [b] && a in w.bufs && w.bufs[a] == []
    ensures Stuck(Do(net, Do(net, Do(net, w, Start), Data(a, m)), Finish(true)), b)
  {
    var v := ChainStarts(net, w, a, m);
    ChainWalk(net, v, a, b);
  }

  lemma ChainStarts(net: Net, w: Wave, a: nat, m: Message) returns (v: Wave)
    requires Covers(net, w) && a in w.bufs && w.bufs[a] == []
    ensures v == Do(net, Do(net, w, Start), Data(a, m))
    ensures Covers(net, v) && v.nodes == [a] && a in v.bufs
  {
    v := Do(net, Do(net, w, Start), Data(a, m));
  }

  lemma ChainWalk(net: Net, v: Wave, a: nat, b: nat)
    requires Covers(net, v) && v.nodes == [a] && a in v.bufs && net.Out(a) == [b]
    ensures Do(net, v, Finish(true)) == Walk(net, v) && Stuck(Walk(net, v), b)
  {
    var u, m := Flush(v.(nodes := []), a), Wavebufs.Concat(v.bufs[a]);
    assert [b][1..] == [] && v.nodes[1..] == [];
    OutKnown(net, v, a, b);
    var x := Receive(u, b, net.via(a, b, m));
    assert Forward(net, u, a, [b], m) == Forward(net, x, a, [], m) == x;
    assert TellNext(net, v) == x;
    assert x.bufs[b] != [];
    hide TellNext, Forward;
    assert Walk(net, v) == x.(nodes := []);
  }

  // ---- A whole wave ----

  /** What happens within a wave: data arrives, and others subscribe. */
  predicate Busy(steps: seq<Step>) {
    forall i :: 0 <= i < |steps| ==> steps[i].Data? || steps[i].Subscribe?
  }

  /** What arrives at a wavebuf, in order. */
  function Arriving(steps: seq<Step>, b: nat): Message
    decreases |steps|
  {
    if steps == [] then []
    else (if steps[0].Data? && steps[0].node == b then steps[0].message else []) + Arriving(steps[1..], b)
  }

  lemma StepKeeps(net: Net, w: Wave, step: Step, stuck: set<nat>)
    requires Covers(net, w) && Tidy(w, stuck) && Flows(w) && (step.Data? || step.Subscribe?)
    ensures Tidy(Do(net, w, step), stuck) && Flows(Do(net, w, step)) && Do(net, w, step).gone == w.gone
  {
    match step
    case Data(b, m) =>
      if b in w.bufs {
        ReceiveTidy(w, b, m, stuck);
        ReceiveFlows(w, b, m);
      }
    case Subscribe(n) =>
      if n !in w.bufs {
        SubscribeTidy(w, n, stuck);
      }
  }

  lemma SubscribeTidy(w: Wave, n: nat, stuck: set<nat>)
    requires Tidy(w, stuck) && n !in w.bufs
    ensures Tidy(w.(nodes := w.nodes + [n]), stuck)
  {
  }

  lemma {:induction false} BusyKeeps(net: Net, w: Wave, steps: seq<Step>, stuck: set<nat>)
    requires Covers(net, w) && Tidy(w, stuck) && Flows(w) && Busy(steps)
    ensures Tidy(Run(net, w, steps), stuck) && Flows(Run(net, w, steps)) && Run(net, w, steps).gone == w.gone
    decreases |steps|
  {
    if steps != [] {
      StepKeeps(net, w, steps[0], stuck);
      hide Tidy, Flows, Covers, Do;
      BusyKeeps(net, Do(net, w, steps[0]), steps[1..], stuck);
    }
  }

  lemma GotStep(net: Net, w: Wave, step: Step, b: nat)
    requires Covers(net, w) && b in w.bufs && (step.Data? || step.Subscribe?)
    ensures b in w.got && b in Do(net, w, step).got
    ensures Do(net, w, step).got[b] == w.got[b] + if step.Data? && step.node == b then step.message else []
  {
  }

  lemma {:induction false} BusyGot(net: Net, w: Wave, steps: seq<Step>, b: nat)
    requires Covers(net, w) && b in w.bufs && Busy(steps)
    ensures b in w.got && b in Run(net, w, steps).got
    ensures Run(net, w, steps).got[b] == w.got[b] + Arriving(steps, b)
    decreases |steps|
  {
    hide Do, Covers;
    SameKeys(net, w);
    if steps != [] {
      assert Busy(steps[1..]) && (steps[0].Data? || steps[0].Subscribe?);
      hide Busy;
      GotStep(net, w, steps[0], b);
      BusyGot(net, Do(net, w, steps[0]), steps[1..], b);
    }
  }

  lemma SameKeys(net: Net, w: Wave)
    requires Covers(net, w)
    ensures w.got.Keys == w.gone.Keys == w.bufs.Keys
  {
  }

  /** Nothing a wavebuf got is taken away again; one that no wavebuf sends to gets nothing during the finish. */
  lemma {:induction false} ForwardGot(net: Net, w: Wave, from: nat, ts: seq<nat>, m: Message, b: nat)
    requires Known(w, ts) && b in w.got
    ensures w.got[b] <= Forward(net, w, from, ts, m).got[b]
    ensures b !in ts ==> Forward(net, w, from, ts, m).got[b] == w.got[b]
    decreases |ts|
  {
    if ts != [] {
      ForwardGot(net, Receive(w, ts[0], net.via(from, ts[0], m)), from, ts[1..], m, b);
    }
  }

  lemma TellGot(net: Net, w: Wave, b: nat)
    requires Covers(net, w) && b in w.bufs && w.nodes != []
    ensures w.got[b] <= TellNext(net, w).got[b] && (Unfed(net, b) ==> TellNext(net, w).got[b] == w.got[b])
    ensures b in TellNext(net, w).bufs
  {
    var n, v := w.nodes[0], w.(nodes := w.nodes[1..]);
    if n in w.bufs {
      ForwardGot(net, Flush(v, n), n, net.Out(n), Wavebufs.Concat(v.bufs[n]), b);
    }
  }

  lemma {:induction false} WalkGot(net: Net, w: Wave, b: nat)
    requires Covers(net, w) && b in w.bufs
    ensures w.got[b] <= Walk(net, w).got[b]
    ensures Unfed(net, b) ==> Walk(net, w).got[b] == w.got[b]
    decreases Total(net, w.nodes)
  {
    hide TellNext, Covers, Total, Unfed;
    if w.nodes != [] {
      TellShrinks(net, w);
      TellGot(net, w, b);
      if |w.nodes| > 1 {
        WalkGot(net, TellNext(net, w), b);
      }
    }
  }

  /** What a wavebuf has at the end of a wave: all that arrived, or more if wavebufs send to it; and what it sent. */
  ghost predicate Delivered(net: Net, steps: seq<Step>, visits: seq<nat>, r: Wave, b: nat) {
    && b in r.bufs && b in r.got && b in r.gone
    && Arriving(steps, b) <= r.got[b] && (Unfed(net, b) ==> r.got[b] == Arriving(steps, b))
    && |r.gone[b]| == multiset(visits)[b]
    && Wavebufs.Concat(r.gone[b]) + Wavebufs.Concat(r.bufs[b]) == r.got[b]
    && (r.bufs[b] == [] && |r.gone[b]| == 1 ==> r.gone[b] == [r.got[b]])
  }

  /** The state just before a wave finishes. */
  ghost function Fed(net: Net, w: Wave, steps: seq<Step>): (r: Wave)
    requires Covers(net, w)
    ensures Covers(net, r) && r.bufs.Keys == w.bufs.Keys
  {
    Run(net, Do(net, w, Start), steps)
  }

  /** The wavebufs that keep something: those that a new wave finds stuck. */
  function Kept(w: Wave): set<nat> {
    set b | b in w.bufs && w.bufs[b] != []
  }

  /** The wavebufs that the finish of a wave leaves stuck. */
  ghost function Missed(net: Net, w: Wave, steps: seq<Step>): seq<nat>
    requires Covers(net, w)
  {
    TooLateFor(net, Fed(net, w, steps).nodes, Kept(w))
  }

  /** A wave, from any state of the net. Each wavebuf that begins it with an empty buffer has sent, after the finish,
      what it got in this wave, in order, in as many messages as it was told times, and keeps something exactly if the
      last one told forwards to it. */
  lemma WaveDelivers(net: Net, w: Wave, steps: seq<Step>, b: nat)
    requires Covers(net, w) && Busy(steps) && b in w.bufs && w.bufs[b] == []
    ensures var fed := Fed(net, w, steps);
            && Delivered(net, steps, Visits(net, fed.nodes, Kept(w)), Walk(net, fed), b)
            && (Walk(net, fed).bufs[b] != [] <==> b in Missed(net, w, steps))
  {
    var fed := Begun(net, w, steps);
    hide Walk, Visits, Do, Fed, Tidy, Covers, Delivered, Flows;
    FinishLeaves(net, fed, Kept(w), b);
    NodeDelivers(net, fed, steps, Kept(w), b);
  }

  /** The wavebufs that keep something after a wave are those that did before and those it came too late for. */
  lemma WaveLeaves(net: Net, w: Wave, steps: seq<Step>)
    requires Covers(net, w) && Busy(steps)
    ensures Kept(Walk(net, Fed(net, w, steps))) ==
            Kept(w) + set b | b in Missed(net, w, steps) && b in w.bufs
  {
    var r := Walk(net, Fed(net, w, steps));
    forall b ensures b in Kept(r) <==> b in w.bufs && (b in Kept(w) || b in Missed(net, w, steps)) {
      if b in w.bufs {
        if w.bufs[b] == [] {
          WaveDelivers(net, w, steps, b);
        } else {
          StillKept(net, w, steps, b);
        }
      }
    }
  }

  lemma StillKept(net: Net, w: Wave, steps: seq<Step>, b: nat)
    requires Covers(net, w) && b in w.bufs && w.bufs[b] != []
    ensures Walk(net, Fed(net, w, steps)).bufs[b] != []
  {
    StuckForever(net, Do(net, w, Start), steps, b);
    StuckWalk(net, Fed(net, w, steps), b);
  }

  /** A wavebuf that no wavebuf sends to: whatever state the others are in, it sends everything that arrived in the
      wave, in order, in one message, if anything came at all, and keeps nothing. */
  lemma UnfedDelivers(net: Net, w: Wave, steps: seq<Step>, b: nat)
    requires Covers(net, w) && Busy(steps) && b in w.bufs && w.bufs[b] == [] && Unfed(net, b)
    ensures var r := Walk(net, Fed(net, w, steps));
            && r.bufs[b] == [] && b in r.gone
            && r.gone[b] == if b in Fed(net, w, steps).nodes then [Arriving(steps, b)] else []
  {
    var fed := Begun(net, w, steps);
    WaveDelivers(net, w, steps, b);
    UnfedVisits(net, fed.nodes, Kept(w), b);
    assert TidyAt(fed, b);
    hide Walk, Visits, Fed, Covers, Arriving;
    assert multiset(fed.nodes)[b] == if b in fed.nodes then 1 else 0;
    assert b !in Missed(net, w, steps);
  }

  lemma Starts(net: Net, w: Wave)
    requires Covers(net, w)
    ensures var s := Do(net, w, Start);
            Tidy(s, Kept(w)) && Flows(s)
            && forall b :: b in s.bufs ==> s.gone[b] == [] && s.got[b] == Wavebufs.Concat(w.bufs[b])
  {
  }

  lemma Begun(net: Net, w: Wave, steps: seq<Step>) returns (fed: Wave)
    requires Covers(net, w) && Busy(steps)
    ensures fed == Fed(net, w, steps)
    ensures Covers(net, fed) && Tidy(fed, Kept(w)) && Flows(fed) && fed.bufs.Keys == w.bufs.Keys
    ensures fed.got.Keys == fed.gone.Keys == fed.bufs.Keys
    ensures forall b :: b in fed.bufs && w.bufs[b] == [] ==> fed.gone[b] == [] && fed.got[b] == Arriving(steps, b)
  {
    hide Arriving, Do, Run, Tidy, Covers, Flows, Busy;
    Starts(net, w);
    BusyKeeps(net, Do(net, w, Start), steps, Kept(w));
    fed := Fed(net, w, steps);
    SameKeys(net, fed);
    hide Fed;
    forall b | b in fed.bufs && w.bufs[b] == [] ensures fed.gone[b] == [] && fed.got[b] == Arriving(steps, b) {
      BegunAt(net, w, steps, b);
    }
  }

  lemma BegunAt(net: Net, w: Wave, steps: seq<Step>, b: nat)
    requires Covers(net, w) && Busy(steps) && b in w.bufs && w.bufs[b] == []
    ensures var fed := Fed(net, w, steps);
            b in fed.gone && b in fed.got && fed.gone[b] == [] && fed.got[b] == Arriving(steps, b)
  {
    hide Arriving, Do, Run, Tidy, Covers, Flows, Busy;
    Starts(net, w);
    var s := Do(net, w, Start);
    SameKeys(net, s);
    BusyKeeps(net, s, steps, Kept(w));
    BusyGot(net, s, steps, b);
    assert s.got[b] == [];
  }

  lemma NodeDelivers(net: Net, w: Wave, steps: seq<Step>, stuck: set<nat>, b: nat)
    requires Covers(net, w) && Tidy(w, stuck) && Flows(w) && b in w.bufs && b in w.gone && b in w.got
    requires w.gone[b] == [] && w.got[b] == Arriving(steps, b)
    ensures Delivered(net, steps, Visits(net, w.nodes, stuck), Walk(net, w), b)
  {
    WalkFlows(net, w);
    WalkGot(net, w, b);
    OneMessageAVisit(net, w, stuck, b);
    hide Walk, Visits, Covers, Tidy, Unfed, Arriving, Wavebufs.Concat;
    SentOnce(Walk(net, w), b);
  }

  lemma SentOnce(r: Wave, b: nat)
    requires Flows(r) && b in r.bufs
    ensures r.bufs[b] == [] && |r.gone[b]| == 1 ==> r.gone[b] == [r.got[b]]
  {
    var g := r.gone[b];
    if r.bufs[b] == [] && |g| == 1 {
      Wavebufs.ConcatSnoc([], g[0]);
      assert g == [] + [g[0]];
      assert Wavebufs.Concat(g) == g[0];
    }
  }

  // ---- Every state of every run ----

  /** It is subscribed exactly if it keeps something, once, or it is stuck. */
  ghost predicate Orderly(w: Wave, b: nat) {
    b in w.bufs && (TidyAt(w, b) || Stuck(w, b))
  }

  lemma ReceiveOrderly(w: Wave, c: nat, m: Message, b: nat)
    requires c in w.bufs && c in w.got && Orderly(w, b)
    ensures Orderly(Receive(w, c, m), b)
  {
    assert c in w.nodes <==> multiset(w.nodes)[c] > 0;
  }

  lemma StepOrderly(net: Net, w: Wave, step: Step, b: nat)
    requires Covers(net, w) && Orderly(w, b)
    ensures Orderly(Do(net, w, step), b)
  {
    SameKeys(net, w);
    hide Covers, Receive, Walk;
    match step
    case Data(c, m) =>
      if c in w.bufs {
        hide Orderly;
        ReceiveOrderly(w, c, m, b);
      }
    case Subscribe(n) =>
    case _ =>
      assert Do(net, w, step).nodes == [];
  }

  /** In every state of every run, with or without memory, in or outside of a wave, and whatever happens to the
      others. */
  lemma {:induction false} RunOrderly(net: Net, w: Wave, steps: seq<Step>, b: nat)
    requires Covers(net, w) && Orderly(w, b)
    ensures Orderly(Run(net, w, steps), b)
    decreases |steps|
  {
    if steps != [] {
      StepOrderly(net, w, steps[0], b);
      hide Covers, Do, Orderly;
      RunOrderly(net, Do(net, w, steps[0]), steps[1..], b);
    }
  }

  // ---- Wave after wave ----

  function OneWave(steps: seq<Step>): seq<Step> {
    [Start] + steps + [Finish(true)]
  }

  /** The steps of wave after wave. */
  function Steps(waves: seq<seq<Step>>): seq<Step> {
    if waves == [] then [] else OneWave(waves[0]) + Steps(waves[1..])
  }

  predicate AllBusy(waves: seq<seq<Step>>) {
    forall i :: 0 <= i < |waves| ==> Busy(waves[i])
  }

  ghost function After(net: Net, w: Wave, waves: seq<seq<Step>>): (r: Wave)
    requires Covers(net, w)
    ensures Covers(net, r) && r.bufs.Keys == w.bufs.Keys
    decreases |waves|
  {
    if waves == [] then w else After(net, Walk(net, Fed(net, w, waves[0])), waves[1..])
  }

  /** No finish on the way comes too late for this wavebuf. */
  ghost predicate Spared(net: Net, w: Wave, waves: seq<seq<Step>>, b: nat)
    requires Covers(net, w)
    decreases |waves|
  {
    waves != [] ==>
      b !in Missed(net, w, waves[0]) && Spared(net, Walk(net, Fed(net, w, waves[0])), waves[1..], b)
  }

  lemma {:induction false} RunTwice(net: Net, w: Wave, a: seq<Step>, b: seq<Step>)
    requires Covers(net, w)
    ensures Run(net, w, a + b) == Run(net, Run(net, w, a), b)
    decreases |a|
  {
    if a == [] {
      assert a + b == b;
    } else {
      assert (a + b)[0] == a[0] && (a + b)[1..] == a[1..] + b;
      hide Do, Covers;
      RunTwice(net, Do(net, w, a[0]), a[1..], b);
    }
  }

  lemma RunOne(net: Net, w: Wave, step: Step)
    requires Covers(net, w)
    ensures Run(net, w, [step]) == Do(net, w, step)
  {
    assert [step][1..] == [];
  }

  lemma OneWaveRun(net: Net, w: Wave, steps: seq<Step>)
    requires Covers(net, w)
    ensures Run(net, w, OneWave(steps)) == Walk(net, Fed(net, w, steps))
  {
    hide Do, Covers, Run, Walk;
    RunTwice(net, w, [Start] + steps, [Finish(true)]);
    RunTwice(net, w, [Start], steps);
    RunOne(net, w, Start);
    RunOne(net, Fed(net, w, steps), Finish(true));
    FinishIsWalk(net, Fed(net, w, steps));
  }

  lemma FinishIsWalk(net: Net, w: Wave)
    requires Covers(net, w)
    ensures Do(net, w, Finish(true)) == Walk(net, w)
  {
  }

  /** Wave after wave is a run. */
  lemma {:induction false} AfterIsRun(net: Net, w: Wave, waves: seq<seq<Step>>)
    requires Covers(net, w)
    ensures After(net, w, waves) == Run(net, w, Steps(waves))
    decreases |waves|
  {
    hide Do, Covers, Walk, Fed, OneWave;
    if waves != [] {
      OneWaveRun(net, w, waves[0]);
      RunTwice(net, w, OneWave(waves[0]), Steps(waves[1..]));
      AfterIsRun(net, Walk(net, Fed(net, w, waves[0])), waves[1..]);
    }
  }

  /** Any number of waves, from any state of the net, leave nothing behind in a wavebuf exactly when it began empty
      and no finish came too late for it: what one finish leaves behind no later one sends. */
  lemma {:induction false} WavesLeave(net: Net, w: Wave, waves: seq<seq<Step>>, b: nat)
    requires Covers(net, w) && AllBusy(waves) && b in w.bufs
    ensures After(net, w, waves).bufs[b] == [] <==> w.bufs[b] == [] && Spared(net, w, waves, b)
    decreases |waves|
  {
    hide Walk, Fed, Covers, Delivered, Visits, Missed;
    if waves != [] {
      var r := Walk(net, Fed(net, w, waves[0]));
      WavesLeave(net, r, waves[1..], b);
      if w.bufs[b] == [] {
        WaveDelivers(net, w, waves[0], b);
      } else {
        StillKept(net, w, waves[0], b);
      }
    }
  }

  /** All of them leave nothing behind anywhere exactly when that holds of every wavebuf. */
  lemma WavesSendAll(net: Net, w: Wave, waves: seq<seq<Step>>)
    requires Covers(net, w) && AllBusy(waves)
    ensures AllSent(After(net, w, waves)) <==>
            forall b :: b in w.bufs ==> w.bufs[b] == [] && Spared(net, w, waves, b)
  {
    hide After, Covers, Spared;
    forall b | b in w.bufs
      ensures After(net, w, waves).bufs[b] == [] <==> w.bufs[b] == [] && Spared(net, w, waves, b)
    {
      WavesLeave(net, w, waves, b);
    }
  }

  /** The k-th of any number of waves, for a wavebuf that no finish before it came too late for, whatever happened to
      the others: what it got in that wave it has sent, in order, in as many messages as it was told times, and it
      keeps something exactly if the last one told in that wave forwards to it. */
  lemma WavesDeliver(net: Net, w: Wave, waves: seq<seq<Step>>, k: nat, b: nat)
    requires Covers(net, w) && AllBusy(waves) && k < |waves| && b in w.bufs && w.bufs[b] == []
    requires Spared(net, w, waves[..k], b)
    ensures var v := After(net, w, waves[..k]);
            var fed := Fed(net, v, waves[k]);
            && Walk(net, fed) == After(net, w, waves[..k + 1])
            && Delivered(net, waves[k], Visits(net, fed.nodes, Kept(v)), Walk(net, fed), b)
            && (Walk(net, fed).bufs[b] != [] <==> b in Missed(net, v, waves[k]))
  {
    hide Walk, Fed, Covers, Delivered, Visits, Missed, Spared, After;
    WavesLeave(net, w, waves[..k], b);
    WaveDelivers(net, After(net, w, waves[..k]), waves[k], b);
    AfterOneMore(net, w, waves, k);
  }

  lemma {:induction false} AfterOneMore(net: Net, w: Wave, waves: seq<seq<Step>>, k: nat)
    requires Covers(net, w) && k < |waves|
    ensures After(net, w, waves[..k + 1]) == Walk(net, Fed(net, After(net, w, waves[..k]), waves[k]))
    decreases k
  {
    hide Do, Covers, Walk, Fed;
    assert waves[..k + 1][0] == waves[0] && waves[..k + 1][1..] == waves[1..][..k];
    if k > 0 {
      assert waves[..k][0] == waves[0] && waves[..k][1..] == waves[1..][..k - 1];
      AfterOneMore(net, Walk(net, Fed(net, w, waves[0])), waves[1..], k - 1);
    }
  }

  lemma {:induction false} UnfedIsSpared(net: Net, w: Wave, waves: seq<seq<Step>>, b: nat)
    requires Covers(net, w) && Unfed(net, b)
    ensures Spared(net, w, waves, b)
    decreases |waves|
  {
    hide Covers, Walk, Fed, Visits;
    if waves != [] {
      assert b !in Missed(net, w, waves[0]);
      UnfedIsSpared(net, Walk(net, Fed(net, w, waves[0])), waves[1..], b);
    }
  }

  /** A wavebuf that no wavebuf sends to sends, in every wave of every run, all that arrived in it, in order, in one
      message, and keeps nothing, though others may be stuck. */
  lemma UnfedWaves(net: Net, w: Wave, waves: seq<seq<Step>>, k: nat, b: nat)
    requires Covers(net, w) && AllBusy(waves) && k < |waves| && b in w.bufs && w.bufs[b] == [] && Unfed(net, b)
    ensures var fed := Fed(net, After(net, w, waves[..k]), waves[k]);
            && Walk(net, fed).bufs[b] == [] && b in Walk(net, fed).gone
            && Walk(net, fed).gone[b] == if b in fed.nodes then [Arriving(waves[k], b)] else []
  {
    hide Walk, Fed, Covers, After, Spared, Unfed, Arriving;
    UnfedIsSpared(net, w, waves[..k], b);
    WavesLeave(net, w, waves[..k], b);
    UnfedDelivers(net, After(net, w, waves[..k]), waves[k], b);
  }

  /** Where no wavebuf forwards to another, this holds of all of them. */
  lemma FlatWaves(net: Net, w: Wave, waves: seq<seq<Step>>, k: nat)
    requires Covers(net, w) && AllSent(w) && AllBusy(waves) && k < |waves| && forall b :: net.Out(b) == []
    ensures var fed := Fed(net, After(net, w, waves[..k]), waves[k]);
            && AllSent(Walk(net, fed))
            && (forall b :: b in w.bufs ==>
                  && b in Walk(net, fed).gone
                  && Walk(net, fed).gone[b] == if b in fed.nodes then [Arriving(waves[k], b)] else [])
  {
    hide Walk, Fed, Covers, After, Arriving, Busy;
    var fed := Fed(net, After(net, w, waves[..k]), waves[k]);
    forall b | b in w.bufs
      ensures Walk(net, fed).bufs[b] == [] && b in Walk(net, fed).gone
      ensures Walk(net, fed).gone[b] == if b in fed.nodes then [Arriving(waves[k], b)] else []
    {
      assert Unfed(net, b);
      UnfedWaves(net, w, waves, k, b);
    }
  }

  /** A wavebuf that no finish comes too late for is tidy throughout: in every state of the waves its buffer holds
      something exactly when it is subscribed to the finish of the current wave, once. */
  lemma TidyThroughout(net: Net, w: Wave, waves: seq<seq<Step>>, i: nat, b: nat)
    requires Covers(net, w) && AllBusy(waves) && i <= |Steps(waves)|
    requires b in w.bufs && w.bufs[b] == [] && b !in w.nodes && Spared(net, w, waves, b)
    ensures TidyAt(Run(net, w, Steps(waves)[..i]), b)
  {
    hide Walk, Fed, Covers, Spared, After, Run, Steps, Missed;
    WavesLeave(net, w, waves, b);
    AfterIsRun(net, w, waves);
    var v := Run(net, w, Steps(waves)[..i]);
    RunOrderly(net, w, Steps(waves)[..i], b);
    assert Steps(waves) == Steps(waves)[..i] + Steps(waves)[i..];
    RunTwice(net, w, Steps(waves)[..i], Steps(waves)[i..]);
    if Stuck(v, b) {
      StuckForever(net, v, Steps(waves)[i..], b);
    }
  }

  /** No finish comes too late for one that no wavebuf sends to. */
  lemma UnfedTidy(net: Net, w: Wave, waves: seq<seq<Step>>, i: nat, b: nat)
    requires Covers(net, w) && AllBusy(waves) && i <= |Steps(waves)|
    requires b in w.bufs && w.bufs[b] == [] && b !in w.nodes && Unfed(net, b)
    ensures TidyAt(Run(net, w, Steps(waves)[..i]), b)
  {
    hide Covers, Spared, Run, Steps, Unfed;
    UnfedIsSpared(net, w, waves, b);
    TidyThroughout(net, w, waves, i, b);
  }
}
