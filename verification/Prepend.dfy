/** The prepend node: puts one datanode in front of every message. */
module Prepend {
  import opened Errors
  import opened Datanodes
  import opened Buffers

  class PrependNode {
    var dn: Option<Datanode>
    var outhook: Option<nat>

    /** The stored datanode came out of a message, so its words fit. */
    predicate Valid()
      reads this
    {
      dn.Some? ==> dn.value.sensor < WORD && |dn.value.data| < WORD
    }

    constructor ()
      ensures Valid() && dn == None && outhook == None
    {
      dn := None;
      outhook := None;
    }

    /** A message arrives. `sent` is what leaves through the out hook, if anything does. */
    method RcvData(data: array<byte>, memory: bool) returns (err: Errno, sent: array?<byte>)
      requires Valid() && data.Length >= HEADER
      ensures err == if outhook.Some? && dn.Some? && !memory then ENOMEM else Ok
      ensures sent == null <==> outhook.None? || err != Ok
      ensures sent != null && dn.None? ==> sent == data
      ensures sent != null && dn.Some? ==> fresh(sent) && sent[..] == Encode(dn.value) + data[..]
    {
      if outhook.None? {
        return Ok, null;
      }
      if dn.None? {
        return Ok, data;
      }
      if !memory {
        return ENOMEM, null;
      }
      // dmm_data_create_raw adds the header back for a terminator
      var newdata := new byte[HEADER + (data.Length - HEADER + dn.value.Size())];
      var next := Fill(newdata, 0, dn.value.sensor, dn.value.data);
      ghost var head := newdata[..next];
      assert head == newdata[0..next];
      Store(newdata, next, data[..]);
      assert newdata[..] == newdata[..next] + newdata[next..next + data.Length];
      return Ok, newdata;
    }

    /** Replace the stored datanode. The old one is gone even when there is no memory for the new one. */
    method Set(newdn: Datanode, memory: bool) returns (err: Errno)
      requires newdn.sensor < WORD && |newdn.data| < WORD
      modifies this`dn
      ensures Valid() && err == (if memory then Ok else ENOMEM) && dn == (if memory then Some(newdn) else None)
    {
      dn := None;
      if !memory {
        return ENOMEM;
      }
      dn := Some(newdn);
      return Ok;
    }

    method Clear()
      modifies this`dn
      ensures Valid() && dn == None
    {
      dn := None;
    }
  }

  lemma ZeroIsTerminator(dn: Datanode)
    requires dn.sensor == 0 && dn.data == []
    ensures Encode(dn) == TERMINATOR
  {
  }

  /** The message that leaves has the stored datanode in front of what came, exactly when the stored
      datanode is not itself a terminator: with a terminator in front the message reads as empty. */
  lemma PrependParses(dn: Datanode, b: seq<byte>, dns: seq<Datanode>)
    requires dn.sensor < WORD && |dn.data| < WORD && Parse(b, 0) == Some(dns)
    ensures Parse(Encode(dn) + b, 0) == Some([dn] + dns) <==> !(dn.sensor == 0 && dn.data == [])
    ensures dn.sensor == 0 && dn.data == [] ==> Parse(Encode(dn) + b, 0) == Some([])
  {
    var b' := Encode(dn) + b;
    ParseIffHolds(b, dns);
    ParseIffHolds(b', [dn] + dns);
    ParseIffHolds(b', []);
    HoldsMore(dn, dns, b');
    assert b'[..dn.Size()] == Encode(dn) && b'[dn.Size()..] == b;
    hide Parse, Word, Bytes;
    if dn.sensor == 0 && dn.data == [] {
      ZeroIsTerminator(dn);
      assert EncodeAll([]) + TERMINATOR == TERMINATOR <= b';
    }
  }
}
