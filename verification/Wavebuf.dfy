/** The wavebuf node: keeps the messages of a wave and sends them as one message when the wave finishes. */
module Wavebufs {
  import opened Errors
  import opened Datanodes
  import opened Buffers

  // ---- Concatenation ----

  function Concat<T>(ss: seq<seq<T>>): seq<T> {
    if ss == [] then [] else ss[0] + Concat(ss[1..])
  }

  lemma {:induction false} ConcatAppend<T>(a: seq<seq<T>>, b: seq<seq<T>>)
    ensures Concat(a + b) == Concat(a) + Concat(b)
  {
    if a == [] {
      assert a + b == b;
    } else {
      assert (a + b)[0] == a[0] && (a + b)[1..] == a[1..] + b;
      ConcatAppend(a[1..], b);
    }
  }

  lemma ConcatSnoc<T>(ss: seq<seq<T>>, s: seq<T>)
    ensures Concat(ss + [s]) == Concat(ss) + s
  {
    ConcatAppend(ss, [s]);
    assert Concat([s]) == s + Concat([]) == s;
  }

  lemma ConcatNone<T>()
    ensures Concat<T>([]) == []
  {
  }

  lemma ConcatCons<T>(s: seq<T>, ss: seq<seq<T>>)
    ensures Concat([s] + ss) == s + Concat(ss)
  {
    assert ([s] + ss)[1..] == ss;
  }

  ghost predicate AllHeld(inputs: seq<seq<Datanode>>) {
    forall i :: 0 <= i < |inputs| ==> AllFit(inputs[i])
  }

  /** Bytes of all datanodes of these messages, without terminators. */
  ghost function Joined(inputs: seq<seq<Datanode>>): seq<byte>
    requires AllHeld(inputs)
  {
    ConcatFits(inputs);
    EncodeAll(Concat(inputs))
  }

  lemma {:induction false} ConcatFits(inputs: seq<seq<Datanode>>)
    requires AllHeld(inputs)
    ensures AllFit(Concat(inputs))
  {
    if inputs != [] {
      ConcatFits(inputs[1..]);
      var a, b := inputs[0], Concat(inputs[1..]);
      assert Concat(inputs) == a + b;
      EncodeAppend(a, b);
    }
  }

  lemma JoinedNext(inputs: seq<seq<Datanode>>, i: nat)
    requires AllHeld(inputs) && i < |inputs|
    ensures Joined(inputs[..i + 1]) == Joined(inputs[..i]) + EncodeAll(inputs[i])
  {
    assert inputs[..i + 1] == inputs[..i] + [inputs[i]];
    ConcatSnoc(inputs[..i], inputs[i]);
    ConcatFits(inputs[..i]);
    EncodeAppend(Concat(inputs[..i]), inputs[i]);
  }

  lemma {:induction false} JoinedGrows(inputs: seq<seq<Datanode>>, i: nat, j: nat)
    requires AllHeld(inputs) && i <= j <= |inputs|
    ensures |Joined(inputs[..i])| <= |Joined(inputs[..j])|
    decreases j - i
  {
    if i < j {
      JoinedGrows(inputs, i, j - 1);
      JoinedNext(inputs, j - 1);
    }
  }

  // ---- The node ----

  datatype Datalist = Datalist(data: array<byte>, dnsumlen: nat)

  class WavebufNode {
    var hook: Option<nat>
    var databuf: seq<Datalist>

    /** The datanodes of each kept message. */
    ghost var inputs: seq<seq<Datanode>>

    ghost predicate Valid()
      reads this, set i | 0 <= i < |databuf| :: databuf[i].data
    {
      && |inputs| == |databuf| && AllHeld(inputs)
      && (forall i :: 0 <= i < |databuf| ==> Holds(databuf[i].data[..], inputs[i]))
    }

    constructor ()
      ensures Valid() && hook == None && databuf == []
    {
      hook := None;
      databuf := [];
      inputs := [];
    }

    method NewHook(input: bool, isOut: bool, h: nat) returns (err: Errno)
      modifies this`hook
      ensures err == if input || isOut then Ok else EINVAL
      ensures hook == if input || !isOut then old(hook) else Some(h)
    {
      if input {
        return Ok;
      }
      if !isOut {
        return EINVAL;
      }
      hook := Some(h);
      return Ok;
    }

    /** The loss of any hook, in or out, is taken for the loss of the out hook. */
    method RmHook(input: bool)
      modifies this`hook
      ensures hook == None
    {
      hook := None;
    }

    /** A message arrives. The node subscribes to the finish of the wave with the first one it keeps. */
    method RcvData(data: array<byte>, entry: bool, msg: bool, ghost dns: seq<Datanode>)
      returns (err: Errno, subscribe: bool)
      requires Valid() && Parse(data[..], 0) == Some(dns)
      modifies this`databuf, this`inputs
      ensures Valid()
      ensures err == if entry && (old(inputs) != [] || msg) then Ok else ENOMEM
      ensures inputs == if err == Ok then old(inputs) + [dns] else old(inputs)
      ensures subscribe <==> err == Ok && old(inputs) == []
    {
      ParseIffHolds(data[..], dns);
      hide Parse, Holds;
      if !entry {
        return ENOMEM, false;
      }
      subscribe := databuf == [];
      if subscribe && !msg {
        return ENOMEM, false;
      }
      databuf := databuf + [Datalist(data, 0)];
      inputs := inputs + [dns];
      return Ok, subscribe;
    }

    /** The offset of the terminator of a message. */
    static method EndOf(data: array<byte>, ghost dns: seq<Datanode>) returns (off: nat)
      requires Holds(data[..], dns) && AllFit(dns)
      ensures off == |EncodeAll(dns)| && off + HEADER <= data.Length && data[..off] == EncodeAll(dns)
    {
      hide IsEnd, Word, EncodeAll;
      off := 0;
      ghost var j := 0;
      OffZero(dns);
      At(data[..], dns, 0);
      while !IsEnd(data[..], off)
        invariant j <= |dns| && off == Off(dns, j) && off + HEADER <= data.Length
        invariant IsEnd(data[..], off) <==> j == |dns|
        decreases |dns| - j
      {
        At(data[..], dns, j);
        At(data[..], dns, j + 1);
        off := off + HEADER + Word(data[..], off + 4);
        j := j + 1;
      }
      assert dns[..j] == dns;
      assert data[..off] == (EncodeAll(dns) + TERMINATOR)[..off];
    }

    /** First pass: how much room the datanodes of each message take, and all of them together. */
    method Measure() returns (len: nat)
      requires Valid()
      modifies this`databuf
      ensures Valid() && |databuf| == |old(databuf)|
      ensures forall i :: 0 <= i < |databuf| ==>
                            && databuf[i].data == old(databuf)[i].data
                            && databuf[i].dnsumlen == |EncodeAll(inputs[i])| <= databuf[i].data.Length
                            && databuf[i].data[..databuf[i].dnsumlen] == EncodeAll(inputs[i])
      ensures len == |Joined(inputs)|
    {
      hide Holds, EncodeAll, Joined, AllFit;
      len := 0;
      var i := 0;
      assert Joined(inputs[..0]) == [] by { JoinedNone(); assert inputs[..0] == []; }
      while i < |databuf|
        invariant i <= |databuf| == |old(databuf)| && Valid()
        invariant forall k :: 0 <= k < |databuf| ==> databuf[k].data == old(databuf)[k].data
        invariant forall k :: 0 <= k < i ==>
                                && databuf[k].dnsumlen == |EncodeAll(inputs[k])| <= databuf[k].data.Length
                                && databuf[k].data[..databuf[k].dnsumlen] == EncodeAll(inputs[k])
        invariant len == |Joined(inputs[..i])|
      {
        var off := EndOf(databuf[i].data, inputs[i]);
        databuf := databuf[i := databuf[i].(dnsumlen := off)];
        JoinedNext(inputs, i);
        len := len + off;
        i := i + 1;
      }
      assert inputs[..i] == inputs;
    }

    /** The wave is finished. What was kept leaves as one message, or is lost if there is no out hook or no memory.
        The message holds all datanodes in the order of arrival and fills its buffer exactly. */
    method Finish(memory: bool) returns (err: Errno, sent: array?<byte>)
      requires Valid()
      modifies this`databuf, this`inputs
      ensures Valid() && databuf == [] && inputs == []
      ensures err == if hook.Some? && memory then Ok else ENOMEM
      ensures sent == null <==> err != Ok
      ensures sent != null ==>
                && fresh(sent) && sent[..] == old(Joined(inputs)) + TERMINATOR
                && Parse(sent[..], 0) == Some(old(Concat(inputs)))
    {
      hide Holds, EncodeAll, Joined, AllFit, Parse, Concat;
      var len := Measure();
      ghost var all, ins := databuf, inputs;
      if hook.None? || !memory {
        databuf, inputs := [], [];
        return ENOMEM, null;
      }
      var buf := new byte[HEADER + len];
      var dn, k := 0, 0;
      assert Joined(ins[..0]) == [] by { JoinedNone(); assert ins[..0] == []; }
      while databuf != []
        invariant k <= |all| && databuf == all[k..] && inputs == ins[k..]
        invariant dn == |Joined(ins[..k])| <= len && buf[..dn] == Joined(ins[..k])
        decreases |all| - k
      {
        var dl := databuf[0];
        assert dl == all[k];
        JoinedNext(ins, k);
        JoinedGrows(ins, k + 1, |ins|);
        assert ins[..|ins|] == ins;
        Store(buf, dn, dl.data[..dl.dnsumlen]);
        assert buf[..dn + dl.dnsumlen] == buf[..dn] + buf[dn..dn + dl.dnsumlen];
        dn := dn + dl.dnsumlen;
        databuf, inputs, k := databuf[1..], inputs[1..], k + 1;
      }
      assert ins[..k] == ins;
      MkEnd(buf, dn);
      assert buf[..] == buf[..len + HEADER];
      ConcatFits(ins);
      JoinedIs(ins);
      Written(buf[..], dn, Concat(ins));
      return Ok, buf;
    }
  }

  lemma JoinedIs(inputs: seq<seq<Datanode>>)
    requires AllHeld(inputs)
    ensures AllFit(Concat(inputs)) && Joined(inputs) == EncodeAll(Concat(inputs))
  {
    ConcatFits(inputs);
  }

  lemma JoinedNone()
    ensures Joined([]) == []
  {
  }
}
