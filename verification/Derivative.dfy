/** The derivative node: for each configured sensor sends the rates of change since its previous vector. */
module Derivatives {
  import opened Errors
  import opened Datanodes
  import opened Buffers

  const FLOAT: nat := 4 // sizeof(float)

  /** A float as stored; which float is left to the difference function. */
  type Float = f: seq<byte> | |f| == FLOAT witness [0, 0, 0, 0]

  /** What is known of a configured sensor: the rate of two elements over a time, the sensor of the output. */
  datatype Sensor = Sensor(elemSize: nat, rate: (seq<byte>, seq<byte>, int) -> Float, dst: nat)

  datatype Lastval = Lastval(ts: int, vectorSize: nat, values: seq<byte>)

  // ---- What is to be sent ----

  function Element(b: seq<byte>, size: nat, k: nat): seq<byte> {
    if (k + 1) * size <= |b| then b[k * size..(k + 1) * size] else []
  }

  /** The rates of the first n elements. */
  function Rates(s: Sensor, cur: seq<byte>, last: seq<byte>, delta: int, n: nat): (r: seq<byte>)
    ensures |r| == FLOAT * n
  {
    if n == 0 then []
    else Rates(s, cur, last, delta, n - 1)
         + s.rate(Element(cur, s.elemSize, n - 1), Element(last, s.elemSize, n - 1), delta)
  }

  /** The configuration, the stored vectors and the time when a message arrives. */
  datatype Context = Context(sensors: map<nat, Sensor>, last: map<nat, Lastval>, now: int)

  ghost predicate Configured(sensors: map<nat, Sensor>) {
    forall id :: id in sensors ==>
                   && (sensors[id].elemSize == 4 || sensors[id].elemSize == 8)
                   && 0 < sensors[id].dst < WORD
  }

  /** A stored vector takes as much room as its number of elements says. */
  ghost predicate Matching(sensors: map<nat, Sensor>, last: map<nat, Lastval>) {
    forall id :: id in last ==>
                   id in sensors && |last[id].values| == last[id].vectorSize * sensors[id].elemSize
  }

  ghost predicate Whole(sensors: map<nat, Sensor>, dns: seq<Datanode>)
    requires Configured(sensors)
  {
    forall i :: 0 <= i < |dns| ==>
                  dns[i].sensor in sensors ==> |dns[i].data| % sensors[dns[i].sensor].elemSize == 0
  }

  ghost predicate Proper(c: Context, dns: seq<Datanode>) {
    Configured(c.sensors) && Matching(c.sensors, c.last) && Whole(c.sensors, dns) && AllFit(dns)
  }

  /** The vector that is stored for a sensor when the i-th datanode is looked at: the latest one of this message
      before it, or what was stored when the message came. */
  ghost function Stored(c: Context, dns: seq<Datanode>, i: nat, id: nat): Option<Lastval>
    requires Configured(c.sensors) && i <= |dns|
  {
    if i == 0 then (if id in c.last then Some(c.last[id]) else None)
    else if dns[i - 1].sensor == id && id in c.sensors then
      Some(Lastval(c.now, |dns[i - 1].data| / c.sensors[id].elemSize, dns[i - 1].data))
    else Stored(c, dns, i - 1, id)
  }

  /** A rate is owed for a datanode of a configured sensor with a stored vector of as many elements. */
  ghost predicate Owed(c: Context, dns: seq<Datanode>, i: nat)
    requires Configured(c.sensors) && i < |dns|
  {
    && dns[i].sensor in c.sensors
    && Stored(c, dns, i, dns[i].sensor).Some?
    && Stored(c, dns, i, dns[i].sensor).value.vectorSize == |dns[i].data| / c.sensors[dns[i].sensor].elemSize
  }

  ghost function Rate(c: Context, dns: seq<Datanode>, i: nat): Datanode
    requires Configured(c.sensors) && i < |dns| && Owed(c, dns, i)
  {
    var s, v := c.sensors[dns[i].sensor], Stored(c, dns, i, dns[i].sensor).value;
    Datanode(s.dst, Rates(s, dns[i].data, v.values, c.now - v.ts, v.vectorSize))
  }

  /** What is owed for the first n datanodes, in their order. */
  ghost function Derived(c: Context, dns: seq<Datanode>, n: nat): seq<Datanode>
    requires Configured(c.sensors) && n <= |dns|
  {
    if n == 0 then []
    else if Owed(c, dns, n - 1) then Derived(c, dns, n - 1) + [Rate(c, dns, n - 1)]
    else Derived(c, dns, n - 1)
  }

  lemma {:induction false} StoredMatches(c: Context, dns: seq<Datanode>, i: nat, id: nat)
    requires Proper(c, dns) && i <= |dns| && Stored(c, dns, i, id).Some?
    ensures id in c.sensors
    ensures var v := Stored(c, dns, i, id).value; |v.values| == v.vectorSize * c.sensors[id].elemSize
  {
    if i > 0 {
      if dns[i - 1].sensor == id && id in c.sensors {
        var size := c.sensors[id].elemSize;
        assert size == 4 || size == 8;
      } else {
        StoredMatches(c, dns, i - 1, id);
      }
    }
  }

  lemma RateFits(c: Context, dns: seq<Datanode>, i: nat)
    requires Proper(c, dns) && i < |dns| && Owed(c, dns, i)
    ensures Fits(Rate(c, dns, i)) && |Rate(c, dns, i).data| <= |dns[i].data|
  {
    assert Fits(dns[i]);
    var s := c.sensors[dns[i].sensor];
    assert s.elemSize == 4 || s.elemSize == 8;
  }

  lemma {:induction false} DerivedFits(c: Context, dns: seq<Datanode>, n: nat)
    requires Proper(c, dns) && n <= |dns|
    ensures AllFit(Derived(c, dns, n))
  {
    if n > 0 {
      DerivedFits(c, dns, n - 1);
      if Owed(c, dns, n - 1) {
        RateFits(c, dns, n - 1);
      }
    }
  }

  /** Each datanode a rate is owed for has its rate in the output, behind those of the datanodes before it. */
  lemma {:induction false} DerivedAt(c: Context, dns: seq<Datanode>, i: nat, n: nat)
    requires Configured(c.sensors) && i < n <= |dns| && Owed(c, dns, i)
    ensures |Derived(c, dns, i)| < |Derived(c, dns, n)|
    ensures Derived(c, dns, n)[|Derived(c, dns, i)|] == Rate(c, dns, i)
    decreases n
  {
    if i < n - 1 {
      DerivedAt(c, dns, i, n - 1);
    }
  }

  /** And nothing else is in the output. */
  lemma {:induction false} DerivedFrom(c: Context, dns: seq<Datanode>, n: nat, p: nat)
    requires Configured(c.sensors) && n <= |dns| && p < |Derived(c, dns, n)|
    ensures exists i :: 0 <= i < n && |Derived(c, dns, i)| == p && dns[i].sensor in c.sensors
                     && Stored(c, dns, i, dns[i].sensor).Some?
                     && Stored(c, dns, i, dns[i].sensor).value.vectorSize
                        == |dns[i].data| / c.sensors[dns[i].sensor].elemSize
  {
    if p < |Derived(c, dns, n - 1)| {
      DerivedFrom(c, dns, n - 1, p);
    }
  }

  /** The vector stored when a datanode is looked at is that of the last datanode of its sensor before it in the
      message, and if there is none, the one stored before the message came. */
  lemma {:induction false} StoredLatest(c: Context, dns: seq<Datanode>, i: nat, id: nat, j: int)
    requires Configured(c.sensors) && -1 <= j < i <= |dns| && id in c.sensors
    requires forall m :: j < m < i ==> dns[m].sensor != id
    requires j >= 0 ==> dns[j].sensor == id
    ensures Stored(c, dns, i, id) ==
              if j >= 0 then Some(Lastval(c.now, |dns[j].data| / c.sensors[id].elemSize, dns[j].data))
              else if id in c.last then Some(c.last[id]) else None
  {
    if j < i - 1 {
      if i > 1 {
        StoredLatest(c, dns, i - 1, id, j);
      }
    }
  }

  /** The k-th float of a rate is the rate of the k-th elements. */
  lemma {:induction false} RatesAt(s: Sensor, cur: seq<byte>, last: seq<byte>, delta: int, n: nat, k: nat)
    requires k < n && (k + 1) * s.elemSize <= |cur| && (k + 1) * s.elemSize <= |last|
    ensures Rates(s, cur, last, delta, n)[FLOAT * k..FLOAT * (k + 1)] ==
              s.rate(cur[k * s.elemSize..(k + 1) * s.elemSize], last[k * s.elemSize..(k + 1) * s.elemSize], delta)
  {
    if k < n - 1 {
      RatesAt(s, cur, last, delta, n - 1, k);
      assert Rates(s, cur, last, delta, n)[..FLOAT * (n - 1)] == Rates(s, cur, last, delta, n - 1);
    }
  }

  /** What a message that arrives makes of one of its datanodes. When a vector of as many elements is stored for the
      sensor, the output has, behind the rates of the datanodes before, one datanode of the configured output sensor,
      with a float for each element: the rate of the k-th of the payload and the k-th stored, over the time since. */
  lemma RateOfElements(c: Context, dns: seq<Datanode>, i: nat, n: nat, v: Lastval, k: nat)
    requires Proper(c, dns) && i < n <= |dns| && dns[i].sensor in c.sensors
    requires Stored(c, dns, i, dns[i].sensor) == Some(v)
    requires v.vectorSize == |dns[i].data| / c.sensors[dns[i].sensor].elemSize && k < v.vectorSize
    ensures var s, p := c.sensors[dns[i].sensor], |Derived(c, dns, i)|;
            && p < |Derived(c, dns, n)|
            && var out := Derived(c, dns, n)[p];
               && out.sensor == s.dst && |out.data| == FLOAT * v.vectorSize
               && (k + 1) * s.elemSize <= |dns[i].data| && (k + 1) * s.elemSize <= |v.values|
               && out.data[FLOAT * k..FLOAT * (k + 1)] ==
                    s.rate(dns[i].data[k * s.elemSize..(k + 1) * s.elemSize],
                           v.values[k * s.elemSize..(k + 1) * s.elemSize], c.now - v.ts)
  {
    var s := c.sensors[dns[i].sensor];
    StoredMatches(c, dns, i, dns[i].sensor);
    DerivedAt(c, dns, i, n);
    assert s.elemSize == 4 || s.elemSize == 8;
    assert (k + 1) * s.elemSize <= v.vectorSize * s.elemSize;
    RatesAt(s, dns[i].data, v.values, c.now - v.ts, v.vectorSize, k);
  }

  /** The stored vectors when the i-th datanode is looked at. */
  ghost predicate Reached(c: Context, dns: seq<Datanode>, i: nat, last: map<nat, Lastval>)
    requires Configured(c.sensors) && i <= |dns|
  {
    forall id: nat :: (if id in last then Some(last[id]) else None) == Stored(c, dns, i, id)
  }

  function Pow2(n: nat): nat { if n == 0 then 1 else 2 * Pow2(n - 1) }

  /** A stored vector of 4-byte elements is not one of as many 8-byte elements: after such a change of type the room
      is wrong, as it is for two int32 values that were received and are then declared int64. */
  lemma RetypedMismatch(sensors: map<nat, Sensor>, last: map<nat, Lastval>, src: nat, desc: Sensor)
    requires Matching(sensors, last) && src in last && sensors[src].elemSize == 4 && desc.elemSize == 8
    ensures Matching(sensors[src := desc], last) <==> last[src].vectorSize == 0
  {
    var v := last[src];
    if v.vectorSize != 0 {
      assert |v.values| == v.vectorSize * 4;
      assert v.vectorSize * 4 != v.vectorSize * 8;
      assert sensors[src := desc][src].elemSize == 8;
    }
  }

  lemma TwoInts(s4: Sensor, s8: Sensor)
    requires s4.elemSize == 4 && s8.elemSize == 8
    ensures var last := map[1 := Lastval(0, 2, [0, 0, 0, 0, 0, 0, 0, 0])];
            Matching(map[1 := s4], last) && !Matching(map[1 := s8], last)
  {
    var last := map[1 := Lastval(0, 2, [0, 0, 0, 0, 0, 0, 0, 0])];
    assert Matching(map[1 := s4], last);
    RetypedMismatch(map[1 := s4], last, 1, s8);
    assert map[1 := s4][1 := s8] == map[1 := s8];
  }

  // ---- The output buffer ----

  /** realloc: the beginning is kept. */
  method Resize(buf: array<byte>, datalen: nat) returns (newbuf: array<byte>)
    ensures fresh(newbuf) && newbuf.Length == HEADER + datalen
    ensures forall n :: 0 <= n <= buf.Length && n <= newbuf.Length ==> newbuf[..n] == buf[..n]
  {
    newbuf := new byte[HEADER + datalen];
    forall i | 0 <= i < buf.Length && i < newbuf.Length {
      newbuf[i] := buf[i];
    }
  }

  /** Write the rates of one vector as a datanode and move behind it. */
  method WriteRates(buf: array<byte>, off: nat, s: Sensor, cur: seq<byte>, last: seq<byte>, delta: int, n: nat)
    returns (next: nat)
    requires s.dst < WORD && FLOAT * n < WORD && off + HEADER + FLOAT * n <= buf.Length
    modifies buf
    ensures next == off + HEADER + FLOAT * n
    ensures buf[..off] == old(buf[..off])
    ensures buf[off..next] == Encode(Datanode(s.dst, Rates(s, cur, last, delta, n)))
  {
    hide Bytes, Element;
    Store(buf, off, Bytes(s.dst) + Bytes(FLOAT * n));
    next := off + HEADER;
    var i := 0;
    while i < n
      invariant i <= n && next == off + HEADER + FLOAT * i
      invariant buf[..off] == old(buf[..off])
      invariant buf[off..next] == Bytes(s.dst) + Bytes(FLOAT * n) + Rates(s, cur, last, delta, i)
    {
      ghost var head := buf[..next];
      assert buf[off..next] == head[off..];
      Store(buf, next, s.rate(Element(cur, s.elemSize, i), Element(last, s.elemSize, i), delta));
      assert buf[off..next + FLOAT] == buf[..next][off..] + buf[next..next + FLOAT];
      assert buf[..off] == head[..off];
      next, i := next + FLOAT, i + 1;
    }
  }

  // ---- One message ----

  /** The bytes that datanodes take. */
  ghost function Room(dns: seq<Datanode>): nat {
    if AllFit(dns) then |EncodeAll(dns)| else 0
  }

  /** A message that reads as these datanodes and has no byte behind the terminator. */
  ghost predicate Exact(b: seq<byte>, dns: seq<Datanode>) {
    Parse(b, 0) == Some(dns) && |b| == Room(dns) + HEADER
  }

  /** The output so far: what is owed for the first i datanodes; `grown` counts the reallocations from the
      initial room `room`. */
  ghost predicate Filled(c: Context, dns: seq<Datanode>, i: nat, b: seq<byte>, off: nat, cur: nat, room: nat,
                         grown: nat)
    requires Configured(c.sensors) && i <= |dns|
  {
    && |b| == HEADER + cur && off <= cur
    && AllFit(Derived(c, dns, i)) && b[..off] == EncodeAll(Derived(c, dns, i))
    && Pow2(grown) * room <= cur
    && (grown > 0 ==> Pow2(grown - 1) * room < off)
  }

  lemma FilledMore(c: Context, dns: seq<Datanode>, i: nat, b: seq<byte>, off: nat, cur: nat, room: nat, grown: nat,
                   b': seq<byte>, off': nat, cur': nat, grown': nat)
    requires Proper(c, dns) && i < |dns| && Filled(c, dns, i, b, off, cur, room, grown)
    requires Owed(c, dns, i)
    requires off <= off' <= cur' && |b'| == HEADER + cur' && b'[..off] == b[..off]
    requires b'[off..off'] == Encode(Rate(c, dns, i)) && AllFit([Rate(c, dns, i)])
    requires Pow2(grown') * room <= cur' && (grown' > 0 ==> Pow2(grown' - 1) * room < off')
    ensures Filled(c, dns, i + 1, b', off', cur', room, grown')
  {
    hide Encode, EncodeAll, Pow2, Rate;
    assert Configured(c.sensors);
    var r := Rate(c, dns, i);
    assert Fits([r][0]);
    EncodeSnoc(Derived(c, dns, i), r);
    assert b'[..off'] == b'[..off] + b'[off..off'];
  }

  lemma ReachedMore(c: Context, dns: seq<Datanode>, i: nat, last: map<nat, Lastval>, last': map<nat, Lastval>)
    requires Configured(c.sensors) && i < |dns| && Reached(c, dns, i, last)
    requires last' == if dns[i].sensor in c.sensors
                      then last[dns[i].sensor := Lastval(c.now, |dns[i].data| / c.sensors[dns[i].sensor].elemSize,
                                                         dns[i].data)]
                      else last
    ensures Reached(c, dns, i + 1, last')
  {
  }

  class DerivativeNode {
    var outhook: Option<nat>
    var sensors: map<nat, Sensor>
    var lastValues: map<nat, Lastval>
    var lastDataSize: nat

    ghost predicate Valid()
      reads this
    {
      Configured(sensors) && Matching(sensors, lastValues)
    }

    constructor ()
      ensures Valid() && outhook == None && sensors == map[] && lastValues == map[] && lastDataSize == 0
    {
      outhook := None;
      sensors := map[];
      lastValues := map[];
      lastDataSize := 0;
    }

    /** At most one out hook. */
    method NewHook(input: bool, hook: nat) returns (err: Errno)
      modifies this`outhook
      ensures err == if !input && old(outhook).Some? then EEXIST else Ok
      ensures outhook == if !input && old(outhook).None? then Some(hook) else old(outhook)
    {
      if !input {
        if outhook.Some? {
          return EEXIST;
        }
        outhook := Some(hook);
      }
      return Ok;
    }

    method RmHook(input: bool)
      modifies this`outhook
      ensures outhook == if input then old(outhook) else None
    {
      if !input {
        outhook := None;
      }
    }

    /** Configure a sensor, or with no type take it out. Neither a zero output sensor, which would read as the end of a
        message, is refused, nor do stored vectors change: they keep matching exactly when none is stored for the sensor
        or its room is right for the new type too. */
    method MergeSensorDesc(src: nat, desc: Option<Sensor>) returns (err: Errno)
      requires Valid()
      requires desc.Some? ==> (desc.value.elemSize == 4 || desc.value.elemSize == 8) && desc.value.dst < WORD
      modifies this`sensors, this`lastValues
      ensures err == if src == 0 then EINVAL else Ok
      ensures sensors == if src == 0 then old(sensors)
                         else if desc.Some? then old(sensors)[src := desc.value] else old(sensors) - {src}
      ensures lastValues == if src == 0 || desc.Some? then old(lastValues) else old(lastValues) - {src}
      ensures Valid() <==>
              || src == 0 || desc.None?
              || (desc.value.dst != 0
                  && (src in old(lastValues) ==>
                        |old(lastValues)[src].values| == old(lastValues)[src].vectorSize * desc.value.elemSize))
    {
      if src == 0 {
        return EINVAL;
      }
      if desc.Some? {
        sensors := sensors[src := desc.value];
        assert src in sensors && sensors[src] == desc.value;
      } else {
        sensors := sensors - {src};
        lastValues := lastValues - {src};
      }
      return Ok;
    }

    /** Make room for `used` bytes and a terminator: twice as much as there was, or what is needed if that is more. */
    static method MakeRoom(buf: array<byte>, off: nat, used: nat, cur: nat, ghost room: nat, ghost grown: nat)
      returns (buf': array<byte>, cur': nat, ghost grown': nat)
      requires buf.Length == HEADER + cur && off <= cur && off < used
      requires Pow2(grown) * room <= cur && (grown > 0 ==> Pow2(grown - 1) * room < off)
      ensures buf' == buf || fresh(buf')
      ensures buf'.Length == HEADER + cur' && used <= cur' && buf'[..off] == buf[..off]
      ensures cur' == if used > cur then Max(2 * cur, used) else cur
      ensures grown' == grown + if used > cur then 1 else 0
      ensures Pow2(grown') * room <= cur' && (grown' > 0 ==> Pow2(grown' - 1) * room < used)
    {
      buf', cur', grown' := buf, cur, grown;
      if used > cur {
        cur' := cur * 2;
        if used > cur' {
          cur' := used;
        }
        buf' := Resize(buf, cur');
        grown' := grown + 1;
        Doubles(grown, room);
      }
    }

    /** One datanode of the message. */
    method Take(c: Context, sensor: nat, payload: seq<byte>, buf: array<byte>, off: nat, cur: nat,
                ghost dns: seq<Datanode>, ghost i: nat, ghost room: nat, ghost grown: nat)
      returns (buf': array<byte>, off': nat, cur': nat, ghost grown': nat)
      requires Proper(c, dns) && i < |dns| && dns[i] == Datanode(sensor, payload) && sensors == c.sensors
      requires Reached(c, dns, i, lastValues) && Filled(c, dns, i, buf[..], off, cur, room, grown)
      modifies this`lastValues, buf
      ensures buf' == buf || fresh(buf')
      ensures Reached(c, dns, i + 1, lastValues) && Filled(c, dns, i + 1, buf'[..], off', cur', room, grown')
    {
      hide Pow2, Encode, EncodeAll, Derived, Rates, Fits;
      buf', off', cur', grown' := buf, off, cur, grown;
      ghost var before := lastValues;
      if sensor !in sensors {
        ReachedMore(c, dns, i, before, lastValues);
        Skipped(c, dns, i);
        return;
      }
      var s := sensors[sensor];
      var vectorSize := |payload| / s.elemSize;
      if sensor in lastValues && lastValues[sensor].vectorSize == vectorSize {
        StoredMatches(c, dns, i, sensor);
        RateFits(c, dns, i);
        var used := off + FLOAT * vectorSize + HEADER;
        buf', cur', grown' := MakeRoom(buf, off, used, cur, room, grown);
        off' := WriteRates(buf', off, s, payload, lastValues[sensor].values, c.now - lastValues[sensor].ts, vectorSize);
        FilledMore(c, dns, i, old(buf[..]), off, cur, room, grown, buf'[..], off', cur', grown');
      } else {
        lastValues := lastValues[sensor := Lastval(c.now, vectorSize, seq(|payload|, _ => 0))];
        Skipped(c, dns, i);
      }
      var v := lastValues[sensor];
      assert |v.values| == |payload| by {
        assert s.elemSize == 4 || s.elemSize == 8;
        assert |payload| % s.elemSize == 0;
      }
      assert payload + v.values[|payload|..] == payload;
      lastValues := lastValues[sensor := Lastval(c.now, v.vectorSize, payload + v.values[|payload|..])];
      ReachedMore(c, dns, i, before, lastValues);
    }

    /** Collect what is owed for the datanodes of a message. */
    method DeriveAll(c: Context, data: array<byte>, room: nat, ghost dns: seq<Datanode>)
      returns (dst: array<byte>, off: nat, ghost grown: nat)
      requires Proper(c, dns) && Holds(data[..], dns) && sensors == c.sensors && lastValues == c.last
      modifies this`lastValues
      ensures fresh(dst) && dst.Length >= HEADER
      ensures Reached(c, dns, |dns|, lastValues)
      ensures Filled(c, dns, |dns|, dst[..], off, dst.Length - HEADER, room, grown)
    {
      hide Holds, Pow2, Encode, EncodeAll, Derived, Reached, Whole, IsEnd, Word, Matching;
      At(data[..], dns, 0);
      OffZero(dns);
      dst := new byte[HEADER + room];
      off, grown := 0, 0;
      var src: nat, cur: nat := 0, room;
      ghost var i := 0;
      Begun(c, dns, dst[..], cur, lastValues);
      while !IsEnd(data[..], src)
        invariant i <= |dns| && src == Off(dns, i) && src + HEADER <= data.Length
        invariant IsEnd(data[..], src) <==> i == |dns|
        invariant fresh(dst)
        invariant Reached(c, dns, i, lastValues)
        invariant Filled(c, dns, i, dst[..], off, cur, room, grown)
        decreases |dns| - i
      {
        At(data[..], dns, i);
        At(data[..], dns, i + 1);
        var next := src + HEADER + Word(data[..], src + 4);
        dst, off, cur, grown := Take(c, Word(data[..], src), data[src + HEADER..next], dst, off, cur,
                                     dns, i, room, grown);
        src, i := next, i + 1;
      }
      assert i == |dns|;
    }

    /** Close the message; if anything is in it, give back the room that was not needed. */
    static method Close(buf: array<byte>, off: nat, ghost owed: seq<Datanode>) returns (sent: array<byte>)
      requires off + HEADER <= buf.Length && AllFit(owed) && buf[..off] == EncodeAll(owed)
      modifies buf
      ensures sent == buf || fresh(sent)
      ensures off > 0 ==> Exact(sent[..], owed)
    {
      hide Parse, EncodeAll, AllFit;
      MkEnd(buf, off);
      sent := buf;
      if off > 0 && off < buf.Length - HEADER {
        sent := Resize(buf, off);
      }
      assert sent[..off + HEADER] == EncodeAll(owed) + TERMINATOR;
      Written(sent[..], off, owed);
      assert sent.Length == off + HEADER ==> sent[..] == sent[..off + HEADER];
    }

    /** A message arrives. One datanode leaves for each that a rate is owed for, in the same order, and the message
        that leaves fills its buffer exactly. Nothing leaves when nothing is owed. */
    method RcvData(data: array<byte>, memory: bool, now: int, ghost dns: seq<Datanode>)
      returns (err: Errno, sent: array?<byte>, ghost grown: nat)
      requires Valid() && Parse(data[..], 0) == Some(dns) && Whole(sensors, dns)
      modifies this`lastValues, this`lastDataSize
      ensures Valid() && err == if memory then Ok else ENOMEM
      ensures err != Ok ==> sent == null && unchanged(this)
      ensures err == Ok ==> Reached(old(Context(sensors, lastValues, now)), dns, |dns|, lastValues)
      ensures var owed := Derived(old(Context(sensors, lastValues, now)), dns, |dns|);
              && (sent != null <==> err == Ok && outhook.Some? && owed != [])
              && (sent != null ==> fresh(sent) && Exact(sent[..], owed))
              && (err == Ok ==> lastDataSize == Max(old(lastDataSize), Room(owed)))
              && (grown > 0 ==> Pow2(grown - 1) * InitialRoom(old(lastDataSize), data) < Room(owed))
    {
      grown := 0;
      hide Parse, Holds, Pow2, Encode, EncodeAll, Derived, Reached, Whole, IsEnd, Word, Matching;
      hide Filled, AllFit, Proper, Room, Exact;
      var c := Context(sensors, lastValues, now);
      IsProper(c, data[..], dns);
      DerivedFits(c, dns, |dns|);
      var cur := InitialRoom(lastDataSize, data);
      if !memory {
        return ENOMEM, null, 0;
      }
      var dst, off;
      dst, off, grown := DeriveAll(c, data, cur, dns);
      ghost var owed := Derived(c, dns, |dns|);
      AllFilled(c, dns, dst[..], off, dst.Length - HEADER, cur, grown);
      dst := Close(dst, off, owed);
      if off > lastDataSize {
        lastDataSize := off;
      }
      StillMatching(c, dns, lastValues);
      err := Ok;
      sent := null;
      if outhook.Some? && off > 0 {
        sent := dst;
      }
    }
  }

  lemma IsProper(c: Context, b: seq<byte>, dns: seq<Datanode>)
    requires Configured(c.sensors) && Matching(c.sensors, c.last) && Whole(c.sensors, dns) && Parse(b, 0) == Some(dns)
    ensures Proper(c, dns) && Holds(b, dns) && HEADER <= |b|
  {
    ParseIffHolds(b, dns);
  }

  lemma AllFilled(c: Context, dns: seq<Datanode>, b: seq<byte>, off: nat, cur: nat, room: nat, grown: nat)
    requires Configured(c.sensors) && Filled(c, dns, |dns|, b, off, cur, room, grown)
    ensures var owed := Derived(c, dns, |dns|);
            && off + HEADER <= |b| && AllFit(owed) && b[..off] == EncodeAll(owed) && off == Room(owed)
            && (off == 0 <==> owed == [])
            && (grown > 0 ==> Pow2(grown - 1) * room < off)
  {
  }

  function Max(a: nat, b: nat): nat { if a < b then b else a }

  /** The output of the largest message so far, or for a first message as much as came in. */
  function InitialRoom(lastDataSize: nat, data: array<byte>): nat
    requires data.Length >= HEADER
  {
    if lastDataSize > 0 then lastDataSize else data.Length - HEADER
  }

  lemma Begun(c: Context, dns: seq<Datanode>, b: seq<byte>, cur: nat, last: map<nat, Lastval>)
    requires Proper(c, dns) && |b| == HEADER + cur && last == c.last
    ensures Filled(c, dns, 0, b, 0, cur, cur, 0) && Reached(c, dns, 0, last)
  {
  }

  lemma StillMatching(c: Context, dns: seq<Datanode>, last: map<nat, Lastval>)
    requires Proper(c, dns) && Reached(c, dns, |dns|, last)
    ensures Matching(c.sensors, last)
  {
    forall id | id in last
      ensures id in c.sensors && |last[id].values| == last[id].vectorSize * c.sensors[id].elemSize
    {
      StoredMatches(c, dns, |dns|, id);
    }
  }

  lemma Doubles(n: nat, room: nat)
    ensures Pow2(n + 1) * room == 2 * (Pow2(n) * room)
  {
  }

  lemma Skipped(c: Context, dns: seq<Datanode>, i: nat)
    requires Configured(c.sensors) && i < |dns| && !Owed(c, dns, i)
    ensures Derived(c, dns, i + 1) == Derived(c, dns, i)
  {
  }
}
