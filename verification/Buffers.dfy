/** Walking and writing data messages in memory. */
module Buffers {
  import opened Errors
  import opened Datanodes

  // ---- Offsets: where DMM_DN_ADVANCE leads ----

  /** The offset of the j-th datanode. */
  ghost function Off(dns: seq<Datanode>, j: nat): nat
    requires AllFit(dns) && j <= |dns|
  {
    |EncodeAll(dns[..j])|
  }

  lemma OffZero(dns: seq<Datanode>)
    requires AllFit(dns)
    ensures Off(dns, 0) == 0
  {
    assert dns[..0] == [];
  }

  lemma EncodeSnoc(dns: seq<Datanode>, dn: Datanode)
    requires AllFit(dns) && Fits(dn)
    ensures AllFit(dns + [dn]) && EncodeAll(dns + [dn]) == EncodeAll(dns) + Encode(dn)
  {
    assert AllFit([dn]) && EncodeAll([dn]) == Encode(dn);
    EncodeAppend(dns, [dn]);
  }

  lemma Advance(dns: seq<Datanode>, j: nat)
    requires AllFit(dns) && j < |dns|
    ensures EncodeAll(dns[..j + 1]) == EncodeAll(dns[..j]) + Encode(dns[j])
    ensures Off(dns, j + 1) == Off(dns, j) + dns[j].Size()
  {
    assert dns[..j + 1] == dns[..j] + [dns[j]];
    EncodeSnoc(dns[..j], dns[j]);
  }

  lemma {:induction false} OffGrows(dns: seq<Datanode>, i: nat, j: nat)
    requires AllFit(dns) && i <= j <= |dns|
    ensures Off(dns, i) <= Off(dns, j) && (i < j ==> Off(dns, i) < Off(dns, j))
    decreases j - i
  {
    if i < j {
      Advance(dns, j - 1);
      OffGrows(dns, i, j - 1);
    }
  }

  lemma HoldsFrom(b: seq<byte>, dns: seq<Datanode>, j: nat)
    requires Holds(b, dns) && j <= |dns|
    ensures Off(dns, j) <= |b| && Holds(b[Off(dns, j)..], dns[j..])
  {
    var off := Off(dns, j);
    assert dns == dns[..j] + dns[j..];
    EncodeAppend(dns[..j], dns[j..]);
    assert (EncodeAll(dns) + TERMINATOR)[off..] == EncodeAll(dns[j..]) + TERMINATOR;
    assert b[..|EncodeAll(dns) + TERMINATOR|] == EncodeAll(dns) + TERMINATOR;
  }

  /** What a walk sees at the j-th offset: the j-th datanode, or the terminator after the last. */
  lemma At(b: seq<byte>, dns: seq<Datanode>, j: nat)
    requires Holds(b, dns) && j <= |dns|
    ensures AllFit(dns) && Off(dns, j) + HEADER <= |b|
    ensures IsEnd(b, Off(dns, j)) <==> j == |dns|
    ensures j < |dns| ==>
              && Off(dns, j + 1) == Off(dns, j) + dns[j].Size() && Off(dns, j + 1) + HEADER <= |b|
              && Word(b, Off(dns, j)) == dns[j].sensor && Word(b, Off(dns, j) + 4) == |dns[j].data|
              && b[Off(dns, j) + HEADER..Off(dns, j + 1)] == dns[j].data
  {
    var off := Off(dns, j);
    HoldsFrom(b, dns, j);
    if j == |dns| {
      ReadsEnd(b, off);
    } else {
      var dn := dns[j];
      assert dns[j..] == [dn] + dns[j + 1..];
      HoldsMore(dn, dns[j + 1..], b[off..]);
      Advance(dns, j);
      Slice(b, off, dn.Size(), 0, dn.Size());
      assert b[off..][..dn.Size()] == b[off..off + dn.Size()];
      ReadsHeader(dn, b, off);
      assert Fits(dn);
    }
  }

  // ---- Writing ----

  /** memcpy of a value into a buffer. */
  method Store(buf: array<byte>, off: nat, bytes: seq<byte>)
    requires off + |bytes| <= buf.Length
    modifies buf
    ensures buf[..off] == old(buf[..off])
    ensures buf[off..off + |bytes|] == bytes
    ensures buf[off + |bytes|..] == old(buf[off + |bytes|..])
  {
    forall i | 0 <= i < |bytes| {
      buf[off + i] := bytes[i];
    }
  }

  /** DMM_DN_FILL_ADVANCE: write one datanode and move behind it. */
  method Fill(buf: array<byte>, off: nat, sensor: nat, data: seq<byte>) returns (next: nat)
    requires sensor < WORD && |data| < WORD && off + HEADER + |data| <= buf.Length
    modifies buf
    ensures next == off + HEADER + |data|
    ensures buf[..off] == old(buf[..off])
    ensures buf[off..next] == Encode(Datanode(sensor, data))
    ensures buf[next..] == old(buf[next..])
  {
    Store(buf, off, Bytes(sensor) + Bytes(|data|));
    ghost var head := buf[..off + HEADER];
    Store(buf, off + HEADER, data);
    next := off + HEADER + |data|;
    assert buf[..off + HEADER] == head;
    assert buf[off..next] == buf[..off + HEADER][off..] + buf[off + HEADER..next];
    assert buf[..off] == head[..off];
  }

  /** DMM_DN_MKEND */
  method MkEnd(buf: array<byte>, off: nat)
    requires off + HEADER <= buf.Length
    modifies buf
    ensures buf[..off + HEADER] == old(buf[..off]) + TERMINATOR
    ensures buf[off + HEADER..] == old(buf[off + HEADER..])
  {
    Store(buf, off, TERMINATOR);
    assert buf[..off + HEADER] == buf[..off] + buf[off..off + HEADER];
  }

  /** Datanodes closed by a terminator parse as themselves. */
  lemma Written(b: seq<byte>, off: nat, dns: seq<Datanode>)
    requires AllFit(dns) && off + HEADER <= |b|
    requires b[..off + HEADER] == EncodeAll(dns) + TERMINATOR
    ensures Parse(b, 0) == Some(dns)
  {
    hide Parse, EncodeAll;
    ParseIffHolds(b, dns);
  }
}
