/** The byte format of data messages: datanodes one after another, each a sensor id, a length and that many
    bytes, closed by a datanode with neither. */
module Datanodes {
  import opened Errors

  type byte = x: int | 0 <= x < 256

  const WORD: int := 0x1_0000_0000
  const HEADER: nat := 8 // sizeof(struct dmm_datanode)

  datatype Datanode = Datanode(sensor: nat, data: seq<byte>) {
    /** DMM_DN_SIZE */
    function Size(): nat { HEADER + |data| }
  }

  /** Both words fit, and the node is not the terminator. */
  predicate Fits(dn: Datanode) {
    dn.sensor < WORD && |dn.data| < WORD && !(dn.sensor == 0 && dn.data == [])
  }

  predicate AllFit(dns: seq<Datanode>) {
    forall i :: 0 <= i < |dns| ==> Fits(dns[i])
  }

  // ---- Words, least significant byte first ----

  function Bytes(w: nat): (b: seq<byte>)
    requires w < WORD
    ensures |b| == 4
  {
    [w % 256, w / 0x100 % 256, w / 0x1_0000 % 256, w / 0x100_0000]
  }

  function Word(b: seq<byte>, off: nat): nat
    requires off + 4 <= |b|
  {
    b[off] as int + 0x100 * (b[off + 1] as int) + 0x1_0000 * (b[off + 2] as int) + 0x100_0000 * (b[off + 3] as int)
  }

  lemma Digits(w: nat)
    ensures w % 256 + 0x100 * (w / 0x100 % 256) + 0x1_0000 * (w / 0x1_0000 % 256) + 0x100_0000 * (w / 0x100_0000) == w
  {
    var q, r := w / 0x100, w / 0x1_0000;
    assert w == 0x100 * q + w % 256;
    assert r == q / 0x100 && q == 0x100 * r + q % 256;
    assert w / 0x100_0000 == r / 0x100 && r == 0x100 * (r / 0x100) + r % 256;
  }

  lemma WordOfBytes(w: nat, b: seq<byte>, off: nat)
    requires w < WORD && off + 4 <= |b| && b[off..off + 4] == Bytes(w)
    ensures Word(b, off) == w
  {
    Digits(w);
    assert b[off] == b[off..off + 4][0] && b[off + 1] == b[off..off + 4][1];
    assert b[off + 2] == b[off..off + 4][2] && b[off + 3] == b[off..off + 4][3];
  }

  lemma BytesOfWord(b: seq<byte>, off: nat)
    requires off + 4 <= |b|
    ensures Word(b, off) < WORD && Bytes(Word(b, off)) == b[off..off + 4]
  {
    var w := Word(b, off);
    var b1, b2, b3 := b[off + 1] as int, b[off + 2] as int, b[off + 3] as int;
    assert w / 0x100_0000 == b3;
    assert w / 0x1_0000 == b2 + 0x100 * b3;
    assert w / 0x100 == b1 + 0x100 * b2 + 0x1_0000 * b3;
  }

  // ---- Reading: what DMM_DN_ISEND and DMM_DN_NEXT see ----

  predicate IsEnd(b: seq<byte>, off: nat)
    requires off + HEADER <= |b|
  {
    Word(b, off) == 0 && Word(b, off + 4) == 0
  }

  /** The datanodes from `off` on, if there is a terminator and everything up to it is inside the buffer. */
  function Parse(b: seq<byte>, off: nat): Option<seq<Datanode>>
    decreases |b| - off
  {
    if off + HEADER > |b| then None
    else if IsEnd(b, off) then Some([])
    else
      var len := Word(b, off + 4);
      if off + HEADER + len > |b| then None
      else
        var rest := Parse(b, off + HEADER + len);
        if rest.None? then None
        else Some([Datanode(Word(b, off), b[off + HEADER..off + HEADER + len])] + rest.value)
  }

  // ---- Writing ----

  function Encode(dn: Datanode): (b: seq<byte>)
    requires dn.sensor < WORD && |dn.data| < WORD
    ensures |b| == dn.Size()
  {
    Bytes(dn.sensor) + Bytes(|dn.data|) + dn.data
  }

  const TERMINATOR: seq<byte> := [0, 0, 0, 0, 0, 0, 0, 0]

  function EncodeAll(dns: seq<Datanode>): seq<byte>
    requires AllFit(dns)
  {
    if dns == [] then [] else Encode(dns[0]) + EncodeAll(dns[1..])
  }

  lemma {:induction false} EncodeAppend(a: seq<Datanode>, b: seq<Datanode>)
    requires AllFit(a) && AllFit(b)
    ensures AllFit(a + b) && EncodeAll(a + b) == EncodeAll(a) + EncodeAll(b)
  {
    if a == [] {
      assert a + b == b;
    } else {
      assert (a + b)[1..] == a[1..] + b && (a + b)[0] == a[0];
      EncodeAppend(a[1..], b);
      assert AllFit(a + b) by {
        forall i | 0 <= i < |a + b| ensures Fits((a + b)[i]) {
          assert (a + b)[i] == if i < |a| then a[i] else b[i - |a|];
        }
      }
    }
  }

  /** The buffer holds exactly these datanodes; what follows the terminator does not matter. */
  ghost predicate Holds(b: seq<byte>, dns: seq<Datanode>) {
    AllFit(dns) && EncodeAll(dns) + TERMINATOR <= b
  }

  // ---- Reading undoes writing, and only what was written can be read ----

  lemma Slice(b: seq<byte>, off: nat, n: nat, i: nat, j: nat)
    requires i <= j <= n && off + n <= |b|
    ensures b[off..off + n][i..j] == b[off + i..off + j]
  {
    var x, y := b[off..off + n][i..j], b[off + i..off + j];
    assert forall k :: 0 <= k < j - i ==> x[k] == b[off..off + n][i + k] == b[off + i + k] == y[k];
  }

  lemma ReadsHeader(dn: Datanode, b: seq<byte>, off: nat)
    requires dn.sensor < WORD && |dn.data| < WORD
    requires off + dn.Size() <= |b| && b[off..off + dn.Size()] == Encode(dn)
    ensures Word(b, off) == dn.sensor && Word(b, off + 4) == |dn.data|
    ensures b[off + HEADER..off + dn.Size()] == dn.data
  {
    var e := b[off..off + dn.Size()];
    Slice(b, off, dn.Size(), 0, 4);
    Slice(b, off, dn.Size(), 4, 8);
    Slice(b, off, dn.Size(), 8, dn.Size());
    assert e[0..4] == Bytes(dn.sensor) && e[4..8] == Bytes(|dn.data|) && e[8..dn.Size()] == dn.data;
    WordOfBytes(dn.sensor, b, off);
    WordOfBytes(|dn.data|, b, off + 4);
  }

  lemma HoldsMore(dn: Datanode, dns: seq<Datanode>, b: seq<byte>)
    ensures Holds(b, [dn] + dns) <==>
              Fits(dn) && dn.Size() <= |b| && b[..dn.Size()] == Encode(dn) && Holds(b[dn.Size()..], dns)
  {
    var all := [dn] + dns;
    assert all[1..] == dns && all[0] == dn;
    if AllFit(all) {
      assert Fits(all[0]) && forall i :: 0 <= i < |dns| ==> dns[i] == all[i + 1];
      assert EncodeAll(all) + TERMINATOR == Encode(dn) + (EncodeAll(dns) + TERMINATOR);
    }
    if Fits(dn) && AllFit(dns) && dn.Size() <= |b| {
      assert AllFit(all);
      assert b == b[..dn.Size()] + b[dn.Size()..];
    }
  }

  lemma ReadsEnd(b: seq<byte>, off: nat)
    requires off + HEADER <= |b|
    ensures IsEnd(b, off) <==> TERMINATOR <= b[off..]
  {
    BytesOfWord(b, off);
    BytesOfWord(b, off + 4);
    assert b[off..][..8] == b[off..off + 4] + b[off + 4..off + 8];
    if TERMINATOR <= b[off..] {
      assert forall i :: 0 <= i < 8 ==> b[off + i] == b[off..][i] == TERMINATOR[i];
    }
  }

  lemma {:induction false} ParseWritten(dns: seq<Datanode>, b: seq<byte>, off: nat)
    requires off <= |b| && Holds(b[off..], dns)
    ensures Parse(b, off) == Some(dns)
    decreases |dns|
  {
    if dns == [] {
      ReadsEnd(b, off);
    } else {
      var dn := dns[0];
      assert dns == [dn] + dns[1..];
      HoldsMore(dn, dns[1..], b[off..]);
      var next := off + dn.Size();
      assert b[off..next] == b[off..][..dn.Size()] && b[next..] == b[off..][dn.Size()..];
      ReadsHeader(dn, b, off);
      hide Encode, Holds, Word;
      ParseWritten(dns[1..], b, next);
    }
  }

  lemma {:induction false} ParsedIsWritten(dns: seq<Datanode>, b: seq<byte>, off: nat)
    requires off <= |b| && Parse(b, off) == Some(dns)
    ensures Holds(b[off..], dns)
    decreases |b| - off
  {
    if IsEnd(b, off) {
      ReadsEnd(b, off);
    } else {
      var len := Word(b, off + 4);
      var next := off + HEADER + len;
      var dn := Datanode(Word(b, off), b[off + HEADER..next]);
      assert dns == [dn] + dns[1..];
      ParsedIsWritten(dns[1..], b, next);
      HeaderIsWritten(b, off);
      hide Parse, Word, Bytes, Encode, Holds;
      assert b[next..] == b[off..][dn.Size()..];
      HoldsMore(dn, dns[1..], b[off..]);
    }
  }

  /** What stands at `off` is what writing the datanode that is read there would put there. */
  lemma HeaderIsWritten(b: seq<byte>, off: nat)
    requires off + HEADER <= |b| && off + HEADER + Word(b, off + 4) <= |b|
    ensures var dn := Datanode(Word(b, off), b[off + HEADER..off + HEADER + Word(b, off + 4)]);
            && dn.sensor < WORD && |dn.data| < WORD && b[off..][..dn.Size()] == Encode(dn)
            && (Fits(dn) <==> !IsEnd(b, off))
  {
    BytesOfWord(b, off);
    BytesOfWord(b, off + 4);
    hide Word, Bytes;
    var next := off + HEADER + Word(b, off + 4);
    assert b[off..][..next - off] == b[off..off + 4] + b[off + 4..off + 8] + b[off + HEADER..next];
  }

  /** Parsing and holding are the same thing. */
  lemma ParseIffHolds(b: seq<byte>, dns: seq<Datanode>)
    ensures Parse(b, 0) == Some(dns) <==> Holds(b, dns)
  {
    assert b[0..] == b;
    if Parse(b, 0) == Some(dns) {
      ParsedIsWritten(dns, b, 0);
    }
    if Holds(b, dns) {
      ParseWritten(dns, b, 0);
    }
  }
}
