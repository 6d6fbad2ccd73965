/** The demux node: routes a message by the value of one of its datanodes, which it takes out. */
module Demux {
  import opened Errors
  import opened Datanodes
  import opened Buffers
  import Prepend

  /** The payload as a C string: up to the first zero byte, or all of it. */
  function CString(data: seq<byte>): (s: seq<byte>)
    ensures s <= data && 0 !in s
    ensures |s| < |data| ==> data[|s|] == 0
  {
    if data == [] || data[0] == 0 then [] else [data[0]] + CString(data[1..])
  }

  /** The first datanode of a sensor. */
  ghost predicate First(dns: seq<Datanode>, id: nat, j: nat) {
    j < |dns| && dns[j].sensor == id && (forall i :: 0 <= i < j ==> dns[i].sensor != id)
  }

  /** A message with these datanodes leaves through `hook` as `out`: the first datanode of the sensor names the
      hook and is left out; the others are kept in order. */
  ghost predicate Routed(dns: seq<Datanode>, id: nat, hooks: map<seq<byte>, nat>, hook: nat, out: seq<Datanode>) {
    exists j: nat :: First(dns, id, j) && CString(dns[j].data) in hooks && hook == hooks[CString(dns[j].data)]
                && out == dns[..j] + dns[j + 1..]
  }

  // ---- The routing decision ----

  lemma RoutedBy(dns: seq<Datanode>, id: nat, hooks: map<seq<byte>, nat>, j: nat)
    requires First(dns, id, j) && CString(dns[j].data) in hooks
    ensures Routed(dns, id, hooks, hooks[CString(dns[j].data)], dns[..j] + dns[j + 1..])
  {
  }

  /** A message is routed one way at most: the first match decides. */
  lemma RoutedOneWay(dns: seq<Datanode>, id: nat, hooks: map<seq<byte>, nat>, j: nat, hook: nat, out: seq<Datanode>)
    requires First(dns, id, j) && Routed(dns, id, hooks, hook, out)
    ensures CString(dns[j].data) in hooks && hook == hooks[CString(dns[j].data)]
    ensures out == dns[..j] + dns[j + 1..]
  {
    var i: nat :| First(dns, id, i) && CString(dns[i].data) in hooks && hook == hooks[CString(dns[i].data)]
             && out == dns[..i] + dns[i + 1..];
    assert i == j;
  }

  /** The node has something to look for, finds it, and knows the hook it names. */
  ghost predicate Leaves(dns: seq<Datanode>, id: nat, hooks: map<seq<byte>, nat>) {
    id != 0 && exists j: nat :: First(dns, id, j) && CString(dns[j].data) in hooks
  }

  lemma LeavesWhenRouted(dns: seq<Datanode>, id: nat, hooks: map<seq<byte>, nat>)
    ensures Leaves(dns, id, hooks) <==> id != 0 && exists h, out :: Routed(dns, id, hooks, h, out)
  {
    if Leaves(dns, id, hooks) {
      var j: nat :| First(dns, id, j) && CString(dns[j].data) in hooks;
      RoutedBy(dns, id, hooks, j);
    }
  }

  lemma OnlyFirst(dns: seq<Datanode>, id: nat, j: nat)
    requires First(dns, id, j)
    ensures forall i: nat :: First(dns, id, i) ==> i == j
  {
  }

  /** Demux undoes prepend: with the prepended datanode's sensor for the id and a hook of the name it carries, the
      message can be routed one way only, and reads then as before. It leaves exactly when the sensor is not 0, which
      demux takes for no id at all. */
  lemma DemuxUndoesPrepend(dn: Datanode, b: seq<byte>, dns: seq<Datanode>, hooks: map<seq<byte>, nat>)
    requires Fits(dn) && Parse(b, 0) == Some(dns) && CString(dn.data) in hooks
    ensures Parse(Encode(dn) + b, 0) == Some([dn] + dns)
    ensures Leaves([dn] + dns, dn.sensor, hooks) <==> dn.sensor != 0
    ensures forall h, out :: Routed([dn] + dns, dn.sensor, hooks, h, out) <==>
                             h == hooks[CString(dn.data)] && out == dns
  {
    Prepend.PrependParses(dn, b, dns);
    hide Parse, Encode, CString;
    var all := [dn] + dns;
    assert First(all, dn.sensor, 0);
    assert all[..0] + all[1..] == dns;
    RoutedBy(all, dn.sensor, hooks, 0);
    LeavesWhenRouted(all, dn.sensor, hooks);
    forall h, out | Routed(all, dn.sensor, hooks, h, out) ensures h == hooks[CString(dn.data)] && out == dns {
      RoutedOneWay(all, dn.sensor, hooks, 0, h, out);
    }
  }

  /** The two nodes one behind the other, on any well-formed message. */
  method PrependThenDemux(pre: Prepend.PrependNode, mux: DemuxNode, data: array<byte>, ghost dns: seq<Datanode>)
    returns (sent: array?<byte>, hook: nat)
    requires pre.Valid() && pre.outhook.Some? && pre.dn.Some? && Fits(pre.dn.value)
    requires Parse(data[..], 0) == Some(dns) && data.Length >= HEADER
    requires mux.id == pre.dn.value.sensor && CString(pre.dn.value.data) in mux.hooks
    ensures sent != null <==> mux.id != 0
    ensures sent != null ==> hook == mux.hooks[CString(pre.dn.value.data)] && Parse(sent[..], 0) == Some(dns)
  {
    hide Parse, Encode, CString, Leaves, Routed, Fits;
    DemuxUndoesPrepend(pre.dn.value, data[..], dns, mux.hooks);
    var _, prepended := pre.RcvData(data, true);
    var err;
    err, sent, hook := mux.RcvData(prepended, true, [pre.dn.value] + dns);
  }

  lemma SkipSnoc(dns: seq<Datanode>, j: nat, i: nat)
    requires j < i < |dns|
    ensures dns[..j] + dns[j + 1..i] + [dns[i]] == dns[..j] + dns[j + 1..i + 1]
  {
    assert dns[j + 1..i + 1] == dns[j + 1..i] + [dns[i]];
  }

  class DemuxNode {
    var id: nat
    var hooks: map<seq<byte>, nat>

    constructor ()
      ensures id == 0 && hooks == map[]
    {
      id := 0;
      hooks := map[];
    }

    /** A hook appears: in hooks must be called "in" (here: `isIn`), out hooks are remembered by name. */
    method NewHook(input: bool, isIn: bool, name: seq<byte>, hook: nat) returns (err: Errno)
      modifies this`hooks
      ensures err == if input && !isIn then EINVAL else Ok
      ensures hooks == if input then old(hooks) else old(hooks)[name := hook]
    {
      if input {
        return if isIn then Ok else EINVAL;
      }
      hooks := hooks[name := hook];
      return Ok;
    }

    /** DMM_MSG_DEMUX_SET */
    method Set(newid: nat)
      modifies this`id
      ensures id == newid
    {
      id := newid;
    }

    method RmHook(input: bool, name: seq<byte>)
      modifies this`hooks
      ensures hooks == if input then old(hooks) else old(hooks) - {name}
    {
      if !input {
        hooks := hooks - {name};
      }
    }

    /** Walk to the first datanode of the sensor, or to the terminator. */
    method Find(data: array<byte>, ghost dns: seq<Datanode>) returns (off: nat, ghost j: nat)
      requires Holds(data[..], dns) && AllFit(dns)
      ensures j <= |dns| && off == Off(dns, j) && off + HEADER <= data.Length
      ensures IsEnd(data[..], off) <==> j == |dns|
      ensures j < |dns| ==> First(dns, id, j)
      ensures forall i :: 0 <= i < j ==> dns[i].sensor != id
    {
      hide IsEnd, Word, Holds, EncodeAll, Encode;
      off := 0;
      j := 0;
      At(data[..], dns, 0);
      OffZero(dns);
      while !IsEnd(data[..], off) && Word(data[..], off) != id
        invariant j <= |dns| && off == Off(dns, j) && off + HEADER <= data.Length
        invariant IsEnd(data[..], off) <==> j == |dns|
        invariant j < |dns| ==> Word(data[..], off) == dns[j].sensor
        invariant forall i :: 0 <= i < j ==> dns[i].sensor != id
        decreases |dns| - j
      {
        At(data[..], dns, j);
        At(data[..], dns, j + 1);
        off := off + HEADER + Word(data[..], off + 4);
        j := j + 1;
      }
    }

    /** A well-formed message arrives; if it is routed, `sent` leaves through `hook`. */
    method RcvData(data: array<byte>, memory: bool, ghost dns: seq<Datanode>)
      returns (err: Errno, sent: array?<byte>, hook: nat)
      requires Parse(data[..], 0) == Some(dns)
      ensures sent != null <==> Leaves(dns, id, hooks) && memory
      ensures err == if Leaves(dns, id, hooks) && !memory then ENOMEM else Ok
      ensures sent != null ==>
                fresh(sent) && exists out :: Routed(dns, id, hooks, hook, out) && Parse(sent[..], 0) == Some(out)
    {
      ParseIffHolds(data[..], dns);
      hide Parse, IsEnd, Word, Holds, Routed, EncodeAll, Encode, CString;
      if hooks == map[] || id == 0 {
        return Ok, null, 0;
      }
      var off, j := Find(data, dns);
      if IsEnd(data[..], off) {
        return Ok, null, 0;
      }
      OnlyFirst(dns, id, j);
      err, sent, hook := Route(data, memory, off, dns, j);
    }

    /** The match is at `off`: look up its hook and send the others there. */
    method Route(data: array<byte>, memory: bool, off: nat, ghost dns: seq<Datanode>, ghost j: nat)
      returns (err: Errno, sent: array?<byte>, hook: nat)
      requires Holds(data[..], dns) && AllFit(dns) && j < |dns| && off == Off(dns, j) && First(dns, id, j)
      ensures var leaves := CString(dns[j].data) in hooks;
              && (sent != null <==> leaves && memory)
              && err == if leaves && !memory then ENOMEM else Ok
      ensures sent != null ==>
                fresh(sent) && exists out :: Routed(dns, id, hooks, hook, out) && Parse(sent[..], 0) == Some(out)
    {
      hide Parse, IsEnd, Word, Holds, Routed, EncodeAll, Encode, CString, AllFit;
      At(data[..], dns, j);
      var len := Word(data[..], off + 4);
      var key := CString(data[off + HEADER..off + HEADER + len]);
      if key !in hooks {
        return Ok, null, 0;
      }
      if !memory {
        return ENOMEM, null, 0;
      }
      hook := hooks[key];
      RoutedBy(dns, id, hooks, j);
      sent := Remove(data, off, dns, j);
      return Ok, sent, hook;
    }

    /** Copy all datanodes but the one at `off` into a new message. */
    method Remove(data: array<byte>, off: nat, ghost dns: seq<Datanode>, ghost j: nat) returns (newdata: array<byte>)
      requires Holds(data[..], dns) && AllFit(dns) && j < |dns| && off == Off(dns, j)
      ensures fresh(newdata) && newdata.Length == data.Length - dns[j].Size()
      ensures Parse(newdata[..], 0) == Some(dns[..j] + dns[j + 1..])
    {
      hide Parse, IsEnd, Word, Holds, EncodeAll, Encode;
      At(data[..], dns, j);
      At(data[..], dns, |dns|);
      OffGrows(dns, j + 1, |dns|);
      OffZero(dns);
      var size := HEADER + Word(data[..], off + 4);
      // dmm_data_create_raw adds the header back for a terminator
      newdata := new byte[HEADER + (data.Length - size - HEADER)];
      var src: nat, tgt: nat := 0, 0;
      ghost var i := 0;
      while src != off
        invariant i <= j && src == tgt == Off(dns, i) <= newdata.Length
        invariant newdata[..tgt] == EncodeAll(dns[..i])
        decreases j - i
      {
        At(data[..], dns, i);
        OffGrows(dns, i + 1, j);
        var next := src + HEADER + Word(data[..], src + 4);
        tgt := CopyNode(data, src, newdata, tgt, dns, i, dns[..i]);
        assert dns[..i] + [dns[i]] == dns[..i + 1];
        src, i := next, i + 1;
      }
      OffGrows(dns, i, j);
      assert i == j;
      src := src + HEADER + Word(data[..], src + 4);
      CopyRest(data, src, newdata, tgt, dns, j);
    }

    /** Copy what comes behind the j-th datanode, and close the message. */
    method CopyRest(data: array<byte>, off: nat, newdata: array<byte>, at: nat, ghost dns: seq<Datanode>, ghost j: nat)
      requires data != newdata && Holds(data[..], dns) && AllFit(dns) && j < |dns| && off == Off(dns, j + 1)
      requires at + dns[j].Size() == off && newdata.Length + dns[j].Size() == data.Length
      requires at <= newdata.Length && newdata[..at] == EncodeAll(dns[..j])
      modifies newdata
      ensures Parse(newdata[..], 0) == Some(dns[..j] + dns[j + 1..])
    {
      hide Parse, IsEnd, Word, Holds, EncodeAll, Encode, Off;
      ghost var size := dns[j].Size();
      var src: nat, tgt: nat := off, at;
      ghost var i := j + 1;
      At(data[..], dns, i);
      assert dns[..j] + dns[j + 1..i] == dns[..j];
      while !IsEnd(data[..], src)
        invariant j < i <= |dns| && src == Off(dns, i) && src + HEADER <= data.Length
        invariant IsEnd(data[..], src) <==> i == |dns|
        invariant tgt + size == src && tgt + HEADER <= newdata.Length
        invariant newdata[..tgt] == EncodeAll(dns[..j] + dns[j + 1..i])
        decreases |dns| - i
      {
        At(data[..], dns, i);
        At(data[..], dns, i + 1);
        var next := src + HEADER + Word(data[..], src + 4);
        tgt := CopyNode(data, src, newdata, tgt, dns, i, dns[..j] + dns[j + 1..i]);
        SkipSnoc(dns, j, i);
        src, i := next, i + 1;
      }
      assert dns[j + 1..i] == dns[j + 1..];
      MkEnd(newdata, tgt);
      Written(newdata[..], tgt, dns[..j] + dns[j + 1..]);
    }
  }

  /** Copy the datanode at `src` behind what is already written. */
  method CopyNode(data: array<byte>, src: nat, buf: array<byte>, tgt: nat,
                  ghost dns: seq<Datanode>, ghost i: nat, ghost done: seq<Datanode>) returns (next: nat)
    requires data != buf && Holds(data[..], dns) && AllFit(dns) && i < |dns| && src == Off(dns, i)
    requires AllFit(done) && tgt + dns[i].Size() <= buf.Length && buf[..tgt] == EncodeAll(done)
    modifies buf
    ensures next == tgt + dns[i].Size()
    ensures AllFit(done + [dns[i]]) && buf[..next] == EncodeAll(done + [dns[i]])
  {
    hide IsEnd, Word, Holds, Encode, EncodeAll;
    At(data[..], dns, i);
    assert Fits(dns[i]);
    var sensor, len := Word(data[..], src), Word(data[..], src + 4);
    assert data[src + HEADER..src + HEADER + len] == data[..][src + HEADER..src + HEADER + len];
    next := Fill(buf, tgt, sensor, data[src + HEADER..src + HEADER + len]);
    assert Datanode(sensor, data[src + HEADER..src + HEADER + len]) == dns[i];
    assert buf[..next] == buf[..tgt] + buf[tgt..next];
    EncodeSnoc(done, dns[i]);
  }
}
