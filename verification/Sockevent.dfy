/** Socket events: the list of events and the interest set of epoll. */
module Sockevents {
  import opened Errors
  import opened Lists

  // ---- Translation of masks ----

  type Mask = bv32

  const DMM_SOCKEVENT_IN: Mask := 1
  const DMM_SOCKEVENT_OUT: Mask := 2
  const DMM_SOCKEVENT_ERR: Mask := 4
  const EPOLLIN: Mask := 1
  const EPOLLOUT: Mask := 4

  function ToEpoll(sev: Mask): Mask {
    (if sev & DMM_SOCKEVENT_IN != 0 then EPOLLIN else 0) | (if sev & DMM_SOCKEVENT_OUT != 0 then EPOLLOUT else 0)
  }

  function ToSock(ev: Mask): Mask {
    (if ev & EPOLLIN != 0 then DMM_SOCKEVENT_IN else 0)
    | (if ev & EPOLLOUT != 0 then DMM_SOCKEVENT_OUT else 0)
    | (if ev & !(EPOLLIN | EPOLLOUT) != 0 then DMM_SOCKEVENT_ERR else 0)
  }

  /** What epoll reports of what a node asked for is what the node asked for, less anything but IN and OUT;
      a node hears of an error when epoll reports anything else. */
  lemma Translations(sev: Mask, ev: Mask)
    ensures ToSock(ToEpoll(sev)) == sev & (DMM_SOCKEVENT_IN | DMM_SOCKEVENT_OUT)
    ensures ToSock(ToEpoll(sev) & ev) == ToSock(ToEpoll(sev)) & ToSock(ev)
    ensures ToSock(ev) & DMM_SOCKEVENT_ERR == 0 <==> ToEpoll(ToSock(ev)) == ev
  {
  }

  /** Bit by bit: a node that asks for input or output is waited for with just that. */
  lemma AskedBits(sev: Mask)
    ensures ToEpoll(sev) & EPOLLIN != 0 <==> sev & DMM_SOCKEVENT_IN != 0
    ensures ToEpoll(sev) & EPOLLOUT != 0 <==> sev & DMM_SOCKEVENT_OUT != 0
    ensures ToEpoll(sev) & !(EPOLLIN | EPOLLOUT) == 0
  {
  }

  /** And is told of input and output as such, and of anything else as an error. */
  lemma ToldBits(ev: Mask)
    ensures ToSock(ev) & DMM_SOCKEVENT_IN != 0 <==> ev & EPOLLIN != 0
    ensures ToSock(ev) & DMM_SOCKEVENT_OUT != 0 <==> ev & EPOLLOUT != 0
    ensures ToSock(ev) & DMM_SOCKEVENT_ERR != 0 <==> ev & !(EPOLLIN | EPOLLOUT) != 0
    ensures ToSock(ev) & !(DMM_SOCKEVENT_IN | DMM_SOCKEVENT_OUT | DMM_SOCKEVENT_ERR) == 0
  {
  }

  // ---- State ----

  datatype Sockevent = Sockevent(fd: int, events: Mask, nodes: seq<nat>, refs: nat)

  /** What epoll holds for an fd: the mask and the data pointer. */
  datatype Interest = Interest(events: Mask, ptr: nat)

  datatype Sys = Sys(heap: map<nat, Sockevent>, list: seq<nat>, epoll: map<int, Interest>)

  ghost predicate Listed(list: seq<nat>, heap: map<nat, Sockevent>) {
    NoDup(list) && forall p :: p in list <==> p in heap
  }

  /** References are subscriptions and the one temporary holder; without a holder there is a subscription. No node is
      subscribed twice. */
  ghost predicate Counted(heap: map<nat, Sockevent>, held: Option<nat>) {
    forall p :: p in heap ==>
                  && heap[p].refs == |heap[p].nodes| + (if held == Some(p) then 1 else 0)
                  && (heap[p].nodes != [] || held == Some(p)) && NoDup(heap[p].nodes)
  }

  /** Each event stands behind its fd, with its mask; each data pointer is live. */
  ghost predicate Mirrored(heap: map<nat, Sockevent>, epoll: map<int, Interest>) {
    && (forall p :: p in heap ==> heap[p].fd in epoll && epoll[heap[p].fd] == Interest(ToEpoll(heap[p].events), p))
    && (forall fd :: fd in epoll ==> epoll[fd].ptr in heap && heap[epoll[fd].ptr].fd == fd)
  }

  ghost predicate Sound(s: Sys, held: Option<nat>) {
    && Listed(s.list, s.heap) && Counted(s.heap, held) && Mirrored(s.heap, s.epoll)
    && (held.Some? ==> held.value in s.heap)
  }

  /** At most one event for an fd. */
  lemma OneEventAnFd(s: Sys, held: Option<nat>, p: nat, q: nat)
    requires Sound(s, held) && p in s.list && q in s.list && s.heap[p].fd == s.heap[q].fd
    ensures p == q
  {
    assert s.epoll[s.heap[p].fd].ptr == p;
  }

  lemma PointsBack(s: Sys, p: nat)
    requires Mirrored(s.heap, s.epoll) && p in s.heap
    ensures s.heap[p].fd in s.epoll && s.epoll[s.heap[p].fd] == Interest(ToEpoll(s.heap[p].events), p)
  {
  }

  /** What is registered, seen from outside: for an fd the mask asked for last and the subscribers. */
  datatype Reg = Reg(events: Mask, nodes: seq<nat>)

  ghost function View(s: Sys): (v: map<int, Reg>)
    requires Mirrored(s.heap, s.epoll)
    ensures v.Keys == s.epoll.Keys
  {
    map fd | fd in s.epoll :: Reg(s.heap[s.epoll[fd].ptr].events, s.heap[s.epoll[fd].ptr].nodes)
  }

  // ---- Steps ----

  /** A new event, held by its maker, in front of the list. */
  function Add(s: Sys, p: nat, fd: int, events: Mask): Sys {
    Sys(s.heap[p := Sockevent(fd, events, [], 1)], [p] + s.list, s.epoll[fd := Interest(ToEpoll(events), p)])
  }

  function Change(s: Sys, p: nat, events: Mask): Sys
    requires p in s.heap
  {
    s.(heap := s.heap[p := s.heap[p].(events := events)],
       epoll := s.epoll[s.heap[p].fd := Interest(ToEpoll(events), p)])
  }

  function Ref(s: Sys, p: nat): Sys
    requires p in s.heap
  {
    s.(heap := s.heap[p := s.heap[p].(refs := s.heap[p].refs + 1)])
  }

  function Join(s: Sys, p: nat, n: nat): Sys
    requires p in s.heap
  {
    s.(heap := s.heap[p := s.heap[p].(nodes := s.heap[p].nodes + [n], refs := s.heap[p].refs + 1)])
  }

  /** One reference less; with the last one the event leaves the list and epoll. */
  function Unref(s: Sys, p: nat): Sys
    requires p in s.heap && s.heap[p].refs > 0
  {
    if s.heap[p].refs > 1 then s.(heap := s.heap[p := s.heap[p].(refs := s.heap[p].refs - 1)])
    else Sys(s.heap - {p}, Without(s.list, p), s.epoll - {s.heap[p].fd})
  }

  /** One subscription less; the event is held, so it stays. */
  function Leave(s: Sys, p: nat, n: nat): Sys
    requires p in s.heap && s.heap[p].refs > 1
  {
    s.(heap := s.heap[p := s.heap[p].(nodes := Without(s.heap[p].nodes, n), refs := s.heap[p].refs - 1)])
  }

  /** One record has changed, the one behind `fd`. */
  ghost predicate OneRecord(s: Sys, r: Sys, p: nat, fd: int) {
    && Mirrored(s.heap, s.epoll) && Mirrored(r.heap, r.epoll)
    && p in r.heap && r.heap[p].fd == fd && (p in s.heap ==> s.heap[p].fd == fd)
    && r.epoll.Keys == s.epoll.Keys + {fd}
    && (forall x :: x in s.epoll && x != fd ==> r.epoll[x] == s.epoll[x])
    && (forall q :: q in s.heap && q != p ==> q in r.heap && r.heap[q] == s.heap[q])
  }

  /** It changes one entry of the table. */
  lemma ViewOne(s: Sys, r: Sys, p: nat, fd: int)
    requires OneRecord(s, r, p, fd)
    ensures View(r) == View(s)[fd := Reg(r.heap[p].events, r.heap[p].nodes)]
  {
    var v := View(s)[fd := Reg(r.heap[p].events, r.heap[p].nodes)];
    assert r.epoll.Keys == s.epoll.Keys + {fd};
    hide View, OneRecord;
    forall x | x in r.epoll ensures View(r)[x] == v[x] {
      ViewOneAt(s, r, p, fd, x);
    }
  }

  lemma ViewOneAt(s: Sys, r: Sys, p: nat, fd: int, x: int)
    requires OneRecord(s, r, p, fd) && x in r.epoll
    ensures x != fd ==> x in s.epoll && View(r)[x] == View(s)[x]
    ensures x == fd ==> View(r)[x] == Reg(r.heap[p].events, r.heap[p].nodes)
  {
    PointsBack(r, p);
    EntryOf(r, x);
    if x != fd {
      EntryOf(s, x);
    }
    hide View, Mirrored, ToEpoll;
  }

  lemma EntryOf(s: Sys, fd: int)
    requires Mirrored(s.heap, s.epoll) && fd in s.epoll
    ensures var p := s.epoll[fd].ptr;
            p in s.heap && s.heap[p].fd == fd && View(s)[fd] == Reg(s.heap[p].events, s.heap[p].nodes)
  {
  }

  lemma AddOk(s: Sys, p: nat, fd: int, events: Mask)
    requires Sound(s, None) && p !in s.heap && fd !in s.epoll
    ensures Sound(Add(s, p, fd, events), Some(p))
    ensures View(Add(s, p, fd, events)) == View(s)[fd := Reg(events, [])]
  {
    hide Listed, View, Counted, Mirrored;
    AddListed(s, p, fd, events);
    AddCounted(s, p, fd, events);
    AddMirrored(s, p, fd, events);
    ViewOne(s, Add(s, p, fd, events), p, fd);
  }

  lemma AddMirrored(s: Sys, p: nat, fd: int, events: Mask)
    requires Mirrored(s.heap, s.epoll) && p !in s.heap && fd !in s.epoll
    ensures Mirrored(Add(s, p, fd, events).heap, Add(s, p, fd, events).epoll)
  {
    hide ToEpoll;
  }

  lemma AddListed(s: Sys, p: nat, fd: int, events: Mask)
    requires Listed(s.list, s.heap) && p !in s.heap
    ensures Listed(Add(s, p, fd, events).list, Add(s, p, fd, events).heap)
  {
    var r := Add(s, p, fd, events);
    assert forall i :: 0 < i < |r.list| ==> r.list[i] == s.list[i - 1] && r.list[i] in s.list;
  }

  lemma AddCounted(s: Sys, p: nat, fd: int, events: Mask)
    requires Counted(s.heap, None) && p !in s.heap
    ensures Counted(Add(s, p, fd, events).heap, Some(p))
  {
  }

  /** A record replaced by one for the same fd, and its mask with it. */
  function Put(s: Sys, p: nat, e: Sockevent): Sys {
    s.(heap := s.heap[p := e], epoll := s.epoll[e.fd := Interest(ToEpoll(e.events), p)])
  }

  lemma PutMirrored(s: Sys, p: nat, e: Sockevent)
    requires Mirrored(s.heap, s.epoll) && p in s.heap && s.heap[p].fd == e.fd
    ensures Mirrored(Put(s, p, e).heap, Put(s, p, e).epoll) && e.fd in s.epoll
    ensures View(Put(s, p, e)) == View(s)[e.fd := Reg(e.events, e.nodes)]
    ensures e.events == s.heap[p].events ==> Put(s, p, e) == s.(heap := s.heap[p := e])
    ensures View(s)[e.fd] == Reg(s.heap[p].events, s.heap[p].nodes)
  {
    hide View;
    var r := Put(s, p, e);
    PointsBack(s, p);
    PutKeepsMirror(s, p, e);
    hide Mirrored, ToEpoll;
    ViewOne(s, r, p, e.fd);
    ViewAt(s, p);
  }

  lemma PutKeepsMirror(s: Sys, p: nat, e: Sockevent)
    requires Mirrored(s.heap, s.epoll) && p in s.heap && s.heap[p].fd == e.fd
    ensures Mirrored(Put(s, p, e).heap, Put(s, p, e).epoll)
  {
    hide ToEpoll;
    var r := Put(s, p, e);
    forall q | q in r.heap
      ensures r.heap[q].fd in r.epoll && r.epoll[r.heap[q].fd] == Interest(ToEpoll(r.heap[q].events), q)
    {
      PointsBack(s, q);
    }
  }

  lemma EpollHolds(s: Sys, fd: int, events: Mask)
    requires Mirrored(s.heap, s.epoll) && fd in View(s) && View(s)[fd].events == events
    ensures fd in s.epoll
    ensures s.epoll[fd].events & EPOLLIN != 0 <==> events & DMM_SOCKEVENT_IN != 0
    ensures s.epoll[fd].events & EPOLLOUT != 0 <==> events & DMM_SOCKEVENT_OUT != 0
    ensures s.epoll[fd].events & !(EPOLLIN | EPOLLOUT) == 0
  {
    AskedBits(events);
    hide ToEpoll;
    PointsBack(s, s.epoll[fd].ptr);
  }

  lemma ViewAt(s: Sys, p: nat)
    requires Mirrored(s.heap, s.epoll) && p in s.heap
    ensures s.heap[p].fd in s.epoll && View(s)[s.heap[p].fd] == Reg(s.heap[p].events, s.heap[p].nodes)
  {
    assert s.epoll[s.heap[p].fd].ptr == p;
  }

  lemma PutOk(s: Sys, held: Option<nat>, p: nat, e: Sockevent, held': Option<nat>)
    requires Sound(s, held) && p in s.heap && s.heap[p].fd == e.fd
    requires held == None || held == Some(p)
    requires held' == None || held' == Some(p)
    requires e.refs == |e.nodes| + (if held' == Some(p) then 1 else 0) && (e.nodes != [] || held' == Some(p))
    requires NoDup(e.nodes)
    ensures Sound(Put(s, p, e), held') && e.fd in s.epoll
    ensures View(Put(s, p, e)) == View(s)[e.fd := Reg(e.events, e.nodes)]
    ensures e.events == s.heap[p].events ==> Put(s, p, e) == s.(heap := s.heap[p := e])
    ensures View(s)[e.fd] == Reg(s.heap[p].events, s.heap[p].nodes)
  {
    PutMirrored(s, p, e);
    PutListed(s.list, s.heap, p, e);
    PutCounted(s.heap, held, p, e, held');
    hide Mirrored, View, Listed, Counted, NoDup;
  }

  lemma PutCounted(heap: map<nat, Sockevent>, held: Option<nat>, p: nat, e: Sockevent, held': Option<nat>)
    requires Counted(heap, held) && p in heap && NoDup(e.nodes)
    requires held == None || held == Some(p)
    requires held' == None || held' == Some(p)
    requires e.refs == |e.nodes| + (if held' == Some(p) then 1 else 0) && (e.nodes != [] || held' == Some(p))
    ensures Counted(heap[p := e], held')
  {
    hide NoDup;
  }

  lemma PutListed(list: seq<nat>, heap: map<nat, Sockevent>, p: nat, e: Sockevent)
    requires Listed(list, heap) && p in heap
    ensures Listed(list, heap[p := e])
  {
  }

  lemma ChangeOk(s: Sys, p: nat, events: Mask)
    requires p in s.heap && Sound(s, Some(p))
    ensures Sound(Change(s, p, events), Some(p)) && s.heap[p].fd in s.epoll
    ensures View(Change(s, p, events)) == View(s)[s.heap[p].fd := Reg(events, s.heap[p].nodes)]
  {
    hide View, Mirrored, Listed;
    PutOk(s, Some(p), p, s.heap[p].(events := events), Some(p));
  }

  lemma RefOk(s: Sys, p: nat)
    requires p in s.heap && Sound(s, None)
    ensures Sound(Ref(s, p), Some(p)) && View(Ref(s, p)) == View(s)
  {
    hide View, Mirrored, Listed;
    PutOk(s, None, p, s.heap[p].(refs := s.heap[p].refs + 1), Some(p));
  }

  lemma JoinOk(s: Sys, p: nat, n: nat)
    requires p in s.heap && Sound(s, Some(p)) && n !in s.heap[p].nodes
    ensures Sound(Join(s, p, n), Some(p)) && s.heap[p].fd in s.epoll
    ensures View(Join(s, p, n)) == View(s)[s.heap[p].fd := Reg(s.heap[p].events, s.heap[p].nodes + [n])]
  {
    hide View, Mirrored, Listed;
    assert NoDup(s.heap[p].nodes + [n]);
    PutOk(s, Some(p), p, s.heap[p].(nodes := s.heap[p].nodes + [n], refs := s.heap[p].refs + 1), Some(p));
  }

  lemma LeaveOk(s: Sys, p: nat, n: nat)
    requires p in s.heap && Sound(s, Some(p)) && n in s.heap[p].nodes
    ensures s.heap[p].refs > 1 && s.heap[p].fd in s.epoll
    ensures Sound(Leave(s, p, n), Some(p))
    ensures View(Leave(s, p, n)) == View(s)[s.heap[p].fd := Reg(s.heap[p].events, Without(s.heap[p].nodes, n))]
  {
    hide View, Mirrored, Listed;
    WithoutCounts(s.heap[p].nodes, n);
    WithoutNoDup(s.heap[p].nodes, n);
    PutOk(s, Some(p), p, s.heap[p].(nodes := Without(s.heap[p].nodes, n), refs := s.heap[p].refs - 1), Some(p));
  }

  /** A record is taken out, and its reference is now in the hands of whoever did that. */
  function Take(s: Sys, p: nat, n: nat): Sys
    requires p in s.heap
  {
    s.(heap := s.heap[p := s.heap[p].(nodes := Without(s.heap[p].nodes, n))])
  }

  lemma TakeOk(s: Sys, p: nat, n: nat)
    requires p in s.heap && Sound(s, None) && n in s.heap[p].nodes
    ensures Sound(Take(s, p, n), Some(p)) && s.heap[p].fd in s.epoll
    ensures View(Take(s, p, n)) == View(s)[s.heap[p].fd := Reg(s.heap[p].events, Without(s.heap[p].nodes, n))]
  {
    hide View, Mirrored, Listed;
    WithoutCounts(s.heap[p].nodes, n);
    WithoutNoDup(s.heap[p].nodes, n);
    PutOk(s, None, p, s.heap[p].(nodes := Without(s.heap[p].nodes, n)), Some(p));
  }

  /** The table when an fd is left with these subscribers. */
  ghost function Settled(v: map<int, Reg>, fd: int): map<int, Reg> {
    if fd in v && v[fd].nodes == [] then v - {fd} else v
  }

  lemma RemoveMirrored(s: Sys, p: nat)
    requires Mirrored(s.heap, s.epoll) && p in s.heap
    ensures Mirrored(s.heap - {p}, s.epoll - {s.heap[p].fd})
    ensures View(Sys(s.heap - {p}, Without(s.list, p), s.epoll - {s.heap[p].fd})) == View(s) - {s.heap[p].fd}
  {
    var heap, epoll, fd := s.heap - {p}, s.epoll - {s.heap[p].fd}, s.heap[p].fd;
    assert s.epoll[fd].ptr == p;
    forall q | q in heap ensures heap[q].fd in epoll {
      assert s.epoll[heap[q].fd].ptr == q;
    }
    forall x | x in epoll ensures epoll[x].ptr in heap {
      assert s.heap[s.epoll[x].ptr].fd == x;
    }
  }

  /** The temporary holder lets go. The event is freed exactly when nobody is subscribed, so the assertion of
      dmm_event_unref holds. */
  lemma UnrefOk(s: Sys, p: nat)
    requires p in s.heap && Sound(s, Some(p))
    ensures s.heap[p].refs > 0 && (s.heap[p].refs == 1 <==> s.heap[p].nodes == [])
    ensures Sound(Unref(s, p), None) && View(Unref(s, p)) == Settled(View(s), s.heap[p].fd)
  {
    CountAt(s.heap, p);
    hide View, Mirrored, Listed, Counted;
    ViewAt(s, p);
    if s.heap[p].refs == 1 {
      RemoveListed(s.list, s.heap, p);
      RemoveCounted(s.heap, p);
      RemoveMirrored(s, p);
    } else {
      PutOk(s, Some(p), p, s.heap[p].(refs := s.heap[p].refs - 1), None);
    }
  }

  lemma CountAt(heap: map<nat, Sockevent>, p: nat)
    requires Counted(heap, Some(p)) && p in heap
    ensures heap[p].refs == |heap[p].nodes| + 1 && NoDup(heap[p].nodes)
  {
  }

  lemma RemoveListed(list: seq<nat>, heap: map<nat, Sockevent>, p: nat)
    requires Listed(list, heap)
    ensures Listed(Without(list, p), heap - {p})
  {
    WithoutNoDup(list, p);
  }

  lemma RemoveCounted(heap: map<nat, Sockevent>, p: nat)
    requires Counted(heap, Some(p))
    ensures Counted(heap - {p}, None)
  {
  }

  // ---- The runtime ----

  class SockeventList {
    var heap: map<nat, Sockevent>
    var list: seq<nat>
    var epoll: map<int, Interest>

    ghost function S(): Sys
      reads this
    {
      Sys(heap, list, epoll)
    }

    constructor ()
      ensures Sound(S(), None) && View(S()) == map[]
    {
      heap, list, epoll := map[], [], map[];
    }

    /** dmm_sockevent_fd2ref */
    method Fd2Ref(fd: int) returns (found: Option<nat>)
      requires Sound(S(), None)
      modifies this`heap
      ensures found.Some? <==> fd in epoll
      ensures found.None? ==> S() == old(S())
      ensures found.Some? ==>
                && found.value in old(heap) && old(heap)[found.value].fd == fd && S() == Ref(old(S()), found.value)
                && Sound(S(), found) && View(S()) == View(old(S()))
    {
      hide View, Counted;
      var i := 0;
      while i < |list|
        invariant i <= |list| && forall k :: 0 <= k < i ==> heap[list[k]].fd != fd
      {
        var p := list[i];
        if heap[p].fd == fd {
          RefOk(S(), p);
          ViewAt(S(), p);
          heap := heap[p := heap[p].(refs := heap[p].refs + 1)];
          return Some(p);
        }
        i := i + 1;
      }
      return None;
    }

    /** DMM_SOCKEVENT_UNREF, with the destructor; DEL succeeds, as fds are closed only after the last unsubscribe. */
    method EventUnref(p: nat)
      requires Sound(S(), Some(p))
      modifies this
      ensures Sound(S(), None) && View(S()) == Settled(View(old(S())), old(heap)[p].fd)
      ensures OnlyAt(old(heap), heap, p) && (p in heap ==> heap[p].nodes == old(heap)[p].nodes)
    {
      hide View, Listed, Counted, Mirrored, Settled;
      UnrefOk(S(), p);
      heap := heap[p := heap[p].(refs := heap[p].refs - 1)];
      if heap[p].refs == 0 {
        assert heap[p].nodes == [];
        list := Without(list, p);
        epoll := epoll - {heap[p].fd};
        heap := heap - {p};
        assert heap == old(heap) - {p};
      }
    }

    /** dmm_event_checkedsubscribe on a held event */
    method EventCheckedSubscribe(p: nat, n: nat, recordMemory: bool) returns (err: Errno)
      requires Sound(S(), Some(p))
      modifies this`heap
      ensures err == if n in old(heap)[p].nodes || recordMemory then Ok else ENOMEM
      ensures Sound(S(), Some(p)) && p in old(heap) && heap[p].fd == old(heap)[p].fd
      ensures var before := Reg(old(heap)[p].events, old(heap)[p].nodes);
              View(S()) == View(old(S()))[old(heap)[p].fd := Subscribed(before, n, recordMemory)]
    {
      hide View, Listed, Counted, Mirrored;
      ViewAt(S(), p);
      ghost var v := View(S());
      assert v[heap[p].fd := Reg(heap[p].events, heap[p].nodes)] == v;
      if n in heap[p].nodes {
        return Ok;
      }
      if !recordMemory {
        return ENOMEM;
      }
      JoinOk(S(), p, n);
      heap := heap[p := heap[p].(nodes := heap[p].nodes + [n], refs := heap[p].refs + 1)];
      return Ok;
    }

    /** dmm_sockevent_subscribe. `added` is what epoll says to an fd it does not hold; MOD succeeds. */
    method Subscribe(p: nat, fd: int, events: Mask, n: nat, eventMemory: bool, recordMemory: bool, added: Errno)
      returns (err: Errno)
      requires Sound(S(), None) && p !in heap && added != EEXIST
      modifies this
      ensures Sound(S(), None)
      ensures View(S()) ==
              var v := View(old(S()));
              if !eventMemory || added != Ok then v
              else if fd in v then v[fd := Subscribed(Reg(events, v[fd].nodes), n, recordMemory)]
              else if recordMemory then v[fd := Reg(events, [n])]
              else v
      ensures eventMemory && added == Ok && fd in old(epoll) ==>
                fd in epoll && var before := View(old(S()))[fd].nodes;
                               View(S())[fd].nodes == if recordMemory && n !in before then before + [n] else before
      ensures eventMemory && added == Ok && (fd in old(epoll) || recordMemory) ==>
                && fd in epoll
                && (epoll[fd].events & EPOLLIN != 0 <==> events & DMM_SOCKEVENT_IN != 0)
                && (epoll[fd].events & EPOLLOUT != 0 <==> events & DMM_SOCKEVENT_OUT != 0)
                && epoll[fd].events & !(EPOLLIN | EPOLLOUT) == 0
      ensures err == if !eventMemory then ENOMEM
                     else if added != Ok then added
                     else if recordMemory || (fd in old(epoll) && n in View(old(S()))[fd].nodes) then Ok
                     else ENOMEM
    {
      hide View, Listed, Counted, Mirrored, ToEpoll, Subscribed;
      if !eventMemory {
        return ENOMEM;
      }
      if added != Ok {
        return added;
      }
      err := SubscribeFd(p, fd, events, n, recordMemory);
    }

    /** epoll has the fd, from this call or from before. */
    method SubscribeFd(p: nat, fd: int, events: Mask, n: nat, recordMemory: bool) returns (err: Errno)
      requires Sound(S(), None) && p !in heap
      modifies this
      ensures Sound(S(), None)
      ensures View(S()) ==
              var v := View(old(S()));
              if fd in v then v[fd := Subscribed(Reg(events, v[fd].nodes), n, recordMemory)]
              else if recordMemory then v[fd := Reg(events, [n])]
              else v
      ensures fd in old(epoll) ==>
                fd in epoll && var before := View(old(S()))[fd].nodes;
                               View(S())[fd].nodes == if recordMemory && n !in before then before + [n] else before
      ensures fd in old(epoll) || recordMemory ==>
                && fd in epoll
                && (epoll[fd].events & EPOLLIN != 0 <==> events & DMM_SOCKEVENT_IN != 0)
                && (epoll[fd].events & EPOLLOUT != 0 <==> events & DMM_SOCKEVENT_OUT != 0)
                && epoll[fd].events & !(EPOLLIN | EPOLLOUT) == 0
      ensures err == if recordMemory || (fd in old(epoll) && n in View(old(S()))[fd].nodes) then Ok else ENOMEM
    {
      hide View, Listed, Counted, Mirrored, ToEpoll, Subscribed;
      if fd !in epoll {
        err := SubscribeNew(p, fd, events, n, recordMemory);
        if recordMemory {
          EpollHolds(S(), fd, events);
        }
      } else {
        NewMask(Reg(events, View(S())[fd].nodes), n, recordMemory);
        err := SubscribeKnown(fd, events, n, recordMemory);
        EpollHolds(S(), fd, events);
      }
    }

    /** ADD has succeeded: a new event, which stays if the node gets subscribed. */
    method SubscribeNew(p: nat, fd: int, events: Mask, n: nat, recordMemory: bool) returns (err: Errno)
      requires Sound(S(), None) && p !in heap && fd !in epoll
      modifies this
      ensures Sound(S(), None) && err == if recordMemory then Ok else ENOMEM
      ensures View(S()) == if recordMemory then View(old(S()))[fd := Reg(events, [n])] else View(old(S()))
    {
      hide View, Listed, Counted, Mirrored, Settled, Subscribed;
      NewEntry(View(S()), fd, events, n);
      AddOk(S(), p, fd, events);
      heap := heap[p := Sockevent(fd, events, [], 1)];
      epoll := epoll[fd := Interest(ToEpoll(events), p)];
      list := [p] + list;
      err := EventCheckedSubscribe(p, n, recordMemory);
      EventUnref(p);
    }

    /** ADD has said EEXIST: the new mask replaces the old one for all who are subscribed. */
    method SubscribeKnown(fd: int, events: Mask, n: nat, recordMemory: bool) returns (err: Errno)
      requires Sound(S(), None) && fd in epoll
      modifies this
      ensures Sound(S(), None)
      ensures err == if recordMemory || n in View(old(S()))[fd].nodes then Ok else ENOMEM
      ensures var v := View(old(S()));
              View(S()) == v[fd := Subscribed(Reg(events, v[fd].nodes), n, recordMemory)]
    {
      hide View, Listed, Counted, Mirrored;
      ghost var v := View(S());
      var found := Fd2Ref(fd);
      var q := found.value;
      ViewAt(S(), q);
      AllSubscribed(old(S()), fd);
      if heap[q].events != events {
        ChangeOk(S(), q, events);
        heap := heap[q := heap[q].(events := events)];
        epoll := epoll[fd := Interest(ToEpoll(events), q)];
      }
      ViewAt(S(), q);
      err := EventCheckedSubscribe(q, n, recordMemory);
      ghost var r := Subscribed(Reg(events, v[fd].nodes), n, recordMemory);
      assert View(S()) == v[fd := r];
      EventUnref(q);
    }

    /** dmm_sockevent_unsubscribe. The last one to leave takes the event and epoll's interest along. */
    method Unsubscribe(fd: int, n: nat) returns (err: Errno)
      requires Sound(S(), None)
      modifies this
      ensures Sound(S(), None)
      ensures err == if fd in old(epoll) && n in View(old(S()))[fd].nodes then Ok else ENOENT
      ensures var v := View(old(S()));
              View(S()) == if err != Ok then v
                           else Settled(v[fd := Reg(v[fd].events, Without(v[fd].nodes, n))], fd)
    {
      hide View, Listed, Counted, Mirrored;
      ghost var v := View(S());
      var found := Fd2Ref(fd);
      if found.None? {
        return ENOENT;
      }
      var p := found.value;
      ViewAt(S(), p);
      AllSubscribed(old(S()), fd);
      if n in heap[p].nodes {
        LeaveOk(S(), p, n);
        heap := heap[p := heap[p].(nodes := Without(heap[p].nodes, n), refs := heap[p].refs - 1)];
        err := Ok;
      } else {
        err := ENOENT;
      }
      EventUnref(p);
    }

    /** dmm_event_unsubscribe where nobody holds the event: with the last subscriber the event goes from under the
        caller, with its place in the list and its fd in epoll. */
    method EventUnsubscribe(p: nat, n: nat)
      requires Sound(S(), None) && p in heap && n in heap[p].nodes
      modifies this
      ensures Sound(S(), None)
      ensures var fd := old(heap)[p].fd;
              fd in old(epoll) && old(epoll)[fd].ptr == p &&
              var r := View(old(S()))[fd];
              View(S()) == Settled(View(old(S()))[fd := Reg(r.events, Without(r.nodes, n))], fd)
      ensures OnlyAt(old(heap), heap, p) && (p in heap ==> heap[p].nodes == Without(old(heap)[p].nodes, n))
    {
      hide View, Listed, Counted, Mirrored, Settled;
      PointsBack(S(), p);
      ViewAt(S(), p);
      TakeOk(S(), p, n);
      heap := heap[p := heap[p].(nodes := Without(heap[p].nodes, n))];
      EventUnref(p);
    }

    /** The events of a node, as its own record of subscriptions lists them. */
    method EventsOf(n: nat) returns (records: seq<nat>)
      requires Sound(S(), None)
      ensures NoDup(records) && forall p :: p in records <==> p in heap && n in heap[p].nodes
    {
      records := [];
      for i := 0 to |list|
        invariant NoDup(records)
        invariant forall p :: p in records <==> p in list[..i] && p in heap && n in heap[p].nodes
      {
        assert list[i] !in list[..i] && list[..i + 1] == list[..i] + [list[i]];
        if n in heap[list[i]].nodes {
          records := records + [list[i]];
        }
      }
      assert list[..|list|] == list;
    }

    /** A node goes: dmm_node_unsubscribeallevents. Nobody holds the events it was subscribed to, so those it was the
        last subscriber of go with it. */
    method NodeGoes(n: nat)
      requires Sound(S(), None)
      modifies this
      ensures Sound(S(), None) && View(S()) == NodeGone(View(old(S())), n)
    {
      var rest := EventsOf(n);
      hide View, Listed, Counted, Mirrored, NodeGone, NoDup;
      ghost var v := View(S());
      while rest != []
        invariant Sound(S(), None) && NoDup(rest) && Of(S(), n, rest)
        invariant NodeGone(View(S()), n) == NodeGone(v, n)
        decreases |rest|
      {
        ghost var s := S();
        var p, saved := rest[0], rest[1..];
        OneGone(s, p, n);
        EventUnsubscribe(p, n);
        OfRest(s, S(), n, rest);
        rest := saved;
      }
      NobodyGone(S(), n);
    }

    /** One thing a node's handler may do to socket events. An address in use is not one that malloc gives. */
    method Perform(c: SockCommand)
      requires Sound(S(), None)
      modifies this
      ensures Sound(S(), None) && Did(old(S()), c, S())
    {
      hide View, Listed, Counted, Mirrored;
      match c {
        case Ask(p, fd, events, n, eventMemory, recordMemory, added) =>
          if p !in heap && added != EEXIST {
            var _ := Subscribe(p, fd, events, n, eventMemory, recordMemory, added);
          }
        case Quit(fd, n) =>
          var _ := Unsubscribe(fd, n);
        case Gone(n) =>
          NodeGoes(n);
      }
    }

    /** A handler. `there` says that the record the walk has saved was there after every step: only then does the walk
        not follow a record that is gone. */
    method RunHandler(script: seq<SockCommand>, p: nat, saved: Option<nat>)
      returns (there: bool, ghost states: seq<Sys>)
      requires Sound(S(), None) && (saved.Some? ==> p in heap && saved.value in heap[p].nodes)
      modifies this
      ensures Sound(S(), None)
      ensures Ran(states, script) && |states| == |script| + 1 && states[0] == old(S()) && states[|script|] == S()
      ensures there <==> saved.Some? ==> Stays(states, p, saved.value)
      ensures there && saved.Some? ==> p in heap && saved.value in heap[p].nodes
    {
      hide Sound, Did, Ran, Stays;
      there, states := true, [S()];
      RanBegins(S());
      if saved.Some? {
        StaysBegins(S(), p, saved.value);
      }
      assert script[..0] == [];
      for i := 0 to |script|
        invariant Sound(S(), None)
        invariant Ran(states, script[..i]) && |states| == i + 1 && states[0] == old(S()) && states[i] == S()
        invariant there <==> saved.Some? ==> Stays(states, p, saved.value)
        invariant there && saved.Some? ==> p in heap && saved.value in heap[p].nodes
      {
        ghost var s := S();
        Perform(script[i]);
        RanMore(states, script, i, S());
        if saved.Some? {
          StaysMore(states, p, saved.value, S());
        }
        states := states + [S()];
        if saved.Some? && !(p in heap && saved.value in heap[p].nodes) {
          there := false;
        }
      }
      assert script[..|script|] == script;
    }

    /** dmm_sockevent_trigger: each subscriber is told what epoll reported, with nobody holding the event, while
        handlers subscribe, unsubscribe and remove nodes. When there is no memory for the message a reference is given
        back that nobody took: the counts stay right exactly when there is memory, and with one subscriber the
        assertion of dmm_event_unref fails, which ends the program. */
    method Trigger(p: nat, ev: Mask, memory: bool, handlers: seq<seq<SockCommand>>)
      returns (err: Errno, aborted: bool, told: seq<(nat, Mask)>, ghost runs: seq<seq<Sys>>)
      requires Sound(S(), None) && p in heap
      modifies this
      ensures memory ==> Walking(old(S()), p, handlers, told, runs, None, S()) && Saying(told, ToSock(ev))
      ensures err == if memory then Ok else ENOMEM
      ensures aborted <==> !memory && |old(heap)[p].nodes| == 1
      ensures Sound(S(), None) <==> memory
      ensures !memory ==> told == [] && heap == old(heap)[p := old(heap)[p].(refs := old(heap)[p].refs - 1)]
      ensures forall i :: 0 <= i < |told| ==>
                && (told[i].1 & DMM_SOCKEVENT_IN != 0 <==> ev & EPOLLIN != 0)
                && (told[i].1 & DMM_SOCKEVENT_OUT != 0 <==> ev & EPOLLOUT != 0)
                && (told[i].1 & DMM_SOCKEVENT_ERR != 0 <==> ev & !(EPOLLIN | EPOLLOUT) != 0)
                && told[i].1 & !(DMM_SOCKEVENT_IN | DMM_SOCKEVENT_OUT | DMM_SOCKEVENT_ERR) == 0
      ensures memory && Idle(handlers) ==>
                && S() == old(S()) && |told| == |heap[p].nodes|
                && forall i :: 0 <= i < |told| ==> told[i].0 == heap[p].nodes[i]
    {
      told, aborted, runs := [], false, [];
      if !memory {
        heap := heap[p := heap[p].(refs := heap[p].refs - 1)];
        assert !Counted(heap, None);
        if heap[p].refs == 0 {
          aborted := heap[p].nodes != [];
        }
        return ENOMEM, aborted, [], [];
      }
      err := Ok;
      ToldBits(ev);
      hide ToSock;
      told, runs := SendSubscribed(p, ev, handlers);
    }

    /** dmm_event_sendsubscribed, where nobody holds the event. */
    method SendSubscribed(p: nat, ev: Mask, handlers: seq<seq<SockCommand>>)
      returns (told: seq<(nat, Mask)>, ghost runs: seq<seq<Sys>>)
      requires Sound(S(), None) && p in heap
      modifies this
      ensures Sound(S(), None) && Walking(old(S()), p, handlers, told, runs, None, S())
      ensures Saying(told, ToSock(ev))
      ensures Idle(handlers) ==>
                && S() == old(S()) && |told| == |heap[p].nodes|
                && forall i :: 0 <= i < |told| ==> told[i].0 == heap[p].nodes[i]
    {
      FirstSubscriber(S(), p);
      SubscribedOnce(S(), p);
      hide Sound, NoDup, ToSock, After, Idle, ToGo, Saying, Walking, ToldIn, Goes, Ran, HandlerAt;
      SayingNone(ToSock(ev));
      told, runs := [], [];
      var cell := Some(heap[p].nodes[0]);
      WalkBegins(S(), p, handlers);
      while cell.Some?
        invariant Sound(S(), None) && (cell.Some? ==> p in heap && cell.value in heap[p].nodes)
        invariant Walking(old(S()), p, handlers, told, runs, cell, S())
        invariant Saying(told, ToSock(ev))
        decreases if |told| < |handlers| then |handlers| - |told| else 0, ToGo(heap, p, cell)
      {
        var n := cell.value;
        ghost var s := S();
        IdleAt(handlers, |told|);
        SayingMore(told, n, ToSock(ev));
        ghost var states;
        cell, states := TellOne(p, n, HandlerAt(handlers, |told|));
        WalkMore(old(S()), p, handlers, told, runs, n, s, ToSock(ev), states, S());
        told, runs := told + [(n, ToSock(ev))], runs + [states];
      }
      if Idle(handlers) {
        IdleWalk(old(S()), p, handlers, told, runs, S());
      }
    }

    /** One turn of the walk: the record after the current one is saved, then the node is told. The walk goes on only
        while the saved record is there. */
    method TellOne(p: nat, n: nat, script: seq<SockCommand>) returns (next: Option<nat>, ghost states: seq<Sys>)
      requires Sound(S(), None) && p in heap && n in heap[p].nodes
      modifies this
      ensures Sound(S(), None)
      ensures Ran(states, script) && |states| == |script| + 1 && states[0] == old(S()) && states[|script|] == S()
      ensures next == Goes(states, p, n)
      ensures next.Some? ==> p in heap && next.value in heap[p].nodes
      ensures script == [] ==>
                && S() == old(S())
                && next == (if After(heap[p].nodes, n) == [] then None else Some(After(heap[p].nodes, n)[0]))
                && ToGo(heap, p, next) < ToGo(heap, p, Some(n))
    {
      SubscribedOnce(S(), p);
      hide Sound, NoDup, After;
      next := if After(heap[p].nodes, n) == [] then None else Some(After(heap[p].nodes, n)[0]);
      if next.Some? {
        AfterNext(heap[p].nodes, n);
      }
      var there;
      there, states := RunHandler(script, p, next);
      if !there {
        next := None;
      }
    }

    /** Every run: what nodes do, and what epoll reports, one after another. The run is over when there is no memory for
        a message, as the main loop ends there; up to then list and epoll are mirror images. */
    method RunAll(steps: seq<SockStep>) returns (over: bool, ghost states: seq<Sys>)
      requires Sound(S(), None)
      modifies this
      ensures !over ==> Sound(S(), None) && |states| == |steps| + 1 && states[|steps|] == S()
      ensures 0 < |states| <= |steps| + 1 && states[0] == old(S())
      ensures forall i :: 0 <= i < |states| - 1 ==> StepDid(states[i], steps[i], states[i + 1])
      ensures over ==> |states| <= |steps| && NoMemory(states[|states| - 1], steps[|states| - 1])
    {
      hide View, Counted, Listed, Mirrored, Did, StepDid;
      over, states := false, [S()];
      for i := 0 to |steps|
        invariant Sound(S(), None) && |states| == i + 1 && states[0] == old(S()) && states[i] == S()
        invariant forall k :: 0 <= k < i ==> StepDid(states[k], steps[k], states[k + 1])
      {
        match steps[i] {
          case Act(c) =>
            Perform(c);
            ActDid(states[i], c, S());
          case Report(fd, ev, memory, handlers) =>
            if fd in epoll {
              EntryOf(S(), fd);
              ghost var p := epoll[fd].ptr;
              var err, _, told, runs := Trigger(epoll[fd].ptr, ev, memory, handlers);
              if err != Ok {
                return true, states;
              }
              ReportDid(states[i], fd, ev, handlers, told, runs, S());
            } else {
              NobodyAsked(S(), fd, ev, memory, handlers);
            }
        }
        states := states + [S()];
      }
    }
  }

  // ---- Commands, and the facts the walks need ----

  datatype SockCommand =
    | Ask(p: nat, fd: int, events: Mask, n: nat, eventMemory: bool, recordMemory: bool, added: Errno)
    | Quit(fd: int, n: nat)
    | Gone(n: nat)

  datatype SockStep =
    | Act(command: SockCommand)
    | Report(fd: int, ev: Mask, memory: bool, handlers: seq<seq<SockCommand>>)

  /** What a command does to the table. */
  ghost predicate Did(s: Sys, c: SockCommand, s': Sys) {
    && Sound(s, None) && Sound(s', None)
    && match c
       case Ask(p, fd, events, n, eventMemory, recordMemory, added) =>
         if p in s.heap || added == EEXIST || !eventMemory || added != Ok then View(s') == View(s)
         else if fd in View(s) then
           View(s') == View(s)[fd := Subscribed(Reg(events, View(s)[fd].nodes), n, recordMemory)]
         else View(s') == if recordMemory then View(s)[fd := Reg(events, [n])] else View(s)
       case Quit(fd, n) =>
         if fd in View(s) && n in View(s)[fd].nodes then
           View(s') == Settled(View(s)[fd := Reg(View(s)[fd].events, Without(View(s)[fd].nodes, n))], fd)
         else View(s') == View(s)
       case Gone(n) => View(s') == NodeGone(View(s), n)
  }

  /** The states of a handler, command by command. */
  ghost predicate Ran(states: seq<Sys>, script: seq<SockCommand>) {
    |states| == |script| + 1 && forall i :: 0 <= i < |script| ==> Did(states[i], script[i], states[i + 1])
  }

  lemma RanMore(states: seq<Sys>, script: seq<SockCommand>, i: nat, s': Sys)
    requires i < |script| && Ran(states, script[..i]) && Did(states[i], script[i], s')
    ensures Ran(states + [s'], script[..i + 1])
  {
    hide Did;
    assert script[..i + 1][i] == script[i];
    assert forall k :: 0 <= k < i ==> script[..i + 1][k] == script[..i][k];
  }

  /** A record is there in all of these states. */
  ghost predicate Stays(states: seq<Sys>, p: nat, n: nat) {
    forall i :: 0 <= i < |states| ==> p in states[i].heap && n in states[i].heap[p].nodes
  }

  lemma RanBegins(s: Sys)
    ensures Ran([s], [])
  {
  }

  lemma StaysBegins(s: Sys, p: nat, n: nat)
    ensures Stays([s], p, n) <==> p in s.heap && n in s.heap[p].nodes
  {
    assert [s][0] == s;
  }

  lemma StaysMore(states: seq<Sys>, p: nat, n: nat, s': Sys)
    ensures Stays(states + [s'], p, n) <==> Stays(states, p, n) && p in s'.heap && n in s'.heap[p].nodes
  {
    assert (states + [s'])[|states|] == s';
    assert forall i :: 0 <= i < |states| ==> (states + [s'])[i] == states[i];
  }

  /** Where a walk that has told n goes: to the record after n before the handler ran, if it was there throughout. */
  ghost function Goes(states: seq<Sys>, p: nat, n: nat): Option<nat> {
    if |states| > 0 && p in states[0].heap && n in states[0].heap[p].nodes && After(states[0].heap[p].nodes, n) != []
       && Stays(states, p, After(states[0].heap[p].nodes, n)[0])
    then Some(After(states[0].heap[p].nodes, n)[0]) else None
  }

  function HandlerAt(handlers: seq<seq<SockCommand>>, k: nat): seq<SockCommand> {
    if k < |handlers| then handlers[k] else []
  }

  /** One turn of a walk: n is a subscriber, and its handler runs. */
  ghost predicate ToldIn(states: seq<Sys>, p: nat, n: nat, script: seq<SockCommand>) {
    Ran(states, script) && p in states[0].heap && n in states[0].heap[p].nodes
  }

  /** A walk over the subscribers of p that began in s and has come to s', where it stands on `cell`: the first told is
      the first subscriber, each later one is where the walk goes from the one before, and each has had its handler run;
      `runs` are the states on the way. */
  ghost predicate Walking(s: Sys, p: nat, handlers: seq<seq<SockCommand>>, told: seq<(nat, Mask)>, runs: seq<seq<Sys>>,
                          cell: Option<nat>, s': Sys)
  {
    && |runs| == |told| && p in s.heap && s.heap[p].nodes != []
    && TurnsTold(p, handlers, told, runs) && TurnsFollow(p, told, runs) && StandsOn(s, p, told, runs, cell, s')
  }

  ghost predicate TurnsTold(p: nat, handlers: seq<seq<SockCommand>>, told: seq<(nat, Mask)>, runs: seq<seq<Sys>>)
    requires |runs| == |told|
  {
    forall i :: 0 <= i < |told| ==> ToldIn(runs[i], p, told[i].0, if i < |handlers| then handlers[i] else [])
  }

  ghost predicate TurnsFollow(p: nat, told: seq<(nat, Mask)>, runs: seq<seq<Sys>>)
    requires |runs| == |told|
  {
    forall i :: 0 <= i < |told| - 1 ==>
                  Goes(runs[i], p, told[i].0) == Some(told[i + 1].0) && Follow(runs[i], runs[i + 1])
  }

  ghost predicate StandsOn(s: Sys, p: nat, told: seq<(nat, Mask)>, runs: seq<seq<Sys>>, cell: Option<nat>, s': Sys)
    requires |runs| == |told| && p in s.heap && s.heap[p].nodes != []
  {
    if told == [] then s' == s && cell == Some(s.heap[p].nodes[0])
    else
      && told[0].0 == s.heap[p].nodes[0] && runs[0] != [] && runs[0][0] == s
      && cell == Goes(runs[|told| - 1], p, told[|told| - 1].0)
      && runs[|told| - 1] != [] && runs[|told| - 1][|runs[|told| - 1]| - 1] == s'
  }

  ghost predicate Follow(a: seq<Sys>, b: seq<Sys>) {
    a != [] && b != [] && a[|a| - 1] == b[0]
  }

  lemma WalkBegins(s: Sys, p: nat, handlers: seq<seq<SockCommand>>)
    requires p in s.heap && s.heap[p].nodes != []
    ensures Walking(s, p, handlers, [], [], Some(s.heap[p].nodes[0]), s)
  {
  }

  lemma WalkMore(s0: Sys, p: nat, handlers: seq<seq<SockCommand>>, told: seq<(nat, Mask)>, runs: seq<seq<Sys>>,
                 n: nat, s: Sys, m: Mask, states: seq<Sys>, s': Sys)
    requires Walking(s0, p, handlers, told, runs, Some(n), s)
    requires Ran(states, HandlerAt(handlers, |told|)) && states[0] == s && states[|states| - 1] == s'
    requires p in s.heap && n in s.heap[p].nodes
    ensures Walking(s0, p, handlers, told + [(n, m)], runs + [states], Goes(states, p, n), s')
  {
    hide TurnsTold, TurnsFollow, StandsOn, Ran, HandlerAt, Goes;
    IsTold(states, p, n, HandlerAt(handlers, |told|), s);
    ToldMore(p, handlers, told, runs, n, m, states);
    StandsMore(s0, p, told, runs, n, s, m, states, s');
  }

  lemma IsTold(states: seq<Sys>, p: nat, n: nat, script: seq<SockCommand>, s: Sys)
    requires Ran(states, script) && states[0] == s && p in s.heap && n in s.heap[p].nodes
    ensures ToldIn(states, p, n, script) && states != []
  {
    hide Did;
  }

  lemma ToldMore(p: nat, handlers: seq<seq<SockCommand>>, told: seq<(nat, Mask)>, runs: seq<seq<Sys>>, n: nat, m: Mask,
                 states: seq<Sys>)
    requires |runs| == |told| && TurnsTold(p, handlers, told, runs)
    requires ToldIn(states, p, n, HandlerAt(handlers, |told|))
    ensures TurnsTold(p, handlers, told + [(n, m)], runs + [states])
  {
    hide ToldIn;
  }

  lemma StandsMore(s0: Sys, p: nat, told: seq<(nat, Mask)>, runs: seq<seq<Sys>>, n: nat, s: Sys, m: Mask,
                   states: seq<Sys>, s': Sys)
    requires |runs| == |told| && p in s0.heap && s0.heap[p].nodes != []
    requires TurnsFollow(p, told, runs) && StandsOn(s0, p, told, runs, Some(n), s)
    requires states != [] && states[0] == s && states[|states| - 1] == s'
    ensures TurnsFollow(p, told + [(n, m)], runs + [states])
    ensures StandsOn(s0, p, told + [(n, m)], runs + [states], Goes(states, p, n), s')
  {
    hide Goes;
    var told', runs' := told + [(n, m)], runs + [states];
    forall i | 0 <= i < |told| ensures told'[i] == told[i] && runs'[i] == runs[i] {
    }
    assert told' != [] && told'[|told|] == (n, m) && runs'[|told|] == states;
  }

  /** What a step of a run does. */
  ghost predicate StepDid(s: Sys, step: SockStep, s': Sys) {
    match step
    case Act(c) => Did(s, c, s')
    case Report(fd, ev, memory, handlers) =>
      if fd in s.epoll then
        exists told, runs :: Walking(s, s.epoll[fd].ptr, handlers, told, runs, None, s') && Saying(told, ToSock(ev))
      else s' == s
  }

  ghost predicate NoMemory(s: Sys, step: SockStep) {
    step.Report? && !step.memory && step.fd in s.epoll
  }

  lemma ActDid(s: Sys, c: SockCommand, s': Sys)
    requires Did(s, c, s')
    ensures StepDid(s, Act(c), s')
  {
  }

  lemma ReportDid(s: Sys, fd: int, ev: Mask, handlers: seq<seq<SockCommand>>, told: seq<(nat, Mask)>,
                  runs: seq<seq<Sys>>, s': Sys)
    requires fd in s.epoll && Walking(s, s.epoll[fd].ptr, handlers, told, runs, None, s') && Saying(told, ToSock(ev))
    ensures StepDid(s, Report(fd, ev, true, handlers), s')
  {
    hide Walking, Saying, ToSock;
  }

  lemma NobodyAsked(s: Sys, fd: int, ev: Mask, memory: bool, handlers: seq<seq<SockCommand>>)
    requires fd !in s.epoll
    ensures StepDid(s, Report(fd, ev, memory, handlers), s)
  {
  }

  /** The table without a node: what it alone was subscribed to is not in it. */
  ghost function NodeGone(v: map<int, Reg>, n: nat): map<int, Reg> {
    map fd | fd in v && Without(v[fd].nodes, n) != [] :: Reg(v[fd].events, Without(v[fd].nodes, n))
  }

  /** Nothing but the record at p has changed. */
  ghost predicate OnlyAt(heap: map<nat, Sockevent>, heap': map<nat, Sockevent>, p: nat) {
    forall q :: q != p ==> (q in heap' <==> q in heap) && (q in heap' ==> heap'[q] == heap[q])
  }

  /** The records of a node. */
  ghost predicate Of(s: Sys, n: nat, records: seq<nat>) {
    forall p :: p in records <==> p in s.heap && n in s.heap[p].nodes
  }

  lemma SubscribedOnce(s: Sys, p: nat)
    requires Sound(s, None) && p in s.heap
    ensures NoDup(s.heap[p].nodes)
  {
  }

  lemma FirstSubscriber(s: Sys, p: nat)
    requires Sound(s, None) && p in s.heap
    ensures s.heap[p].nodes != []
  {
  }

  lemma OnceWithout(xs: seq<nat>, x: nat)
    requires NoDup(xs)
    ensures Without(Without(xs, x), x) == Without(xs, x)
  {
    WithoutNoDup(xs, x);
    WithoutAbsent(Without(xs, x), x);
  }

  /** Taking a node out of one entry does not show once it is out of all. */
  lemma OneGone(s: Sys, p: nat, n: nat)
    requires Sound(s, None) && p in s.heap && n in s.heap[p].nodes
    ensures s.heap[p].fd in s.epoll
    ensures var v, fd := View(s), s.heap[p].fd;
            NodeGone(Settled(v[fd := Reg(v[fd].events, Without(v[fd].nodes, n))], fd), n) == NodeGone(v, n)
  {
    ViewAt(s, p);
    SubscribedOnce(s, p);
    OnceWithout(s.heap[p].nodes, n);
    hide View, Listed, Counted, Mirrored, NoDup;
    var v, fd := View(s), s.heap[p].fd;
    var w := Settled(v[fd := Reg(v[fd].events, Without(v[fd].nodes, n))], fd);
    forall x ensures x in NodeGone(w, n) <==> x in NodeGone(v, n) {
    }
  }

  lemma NobodyGone(s: Sys, n: nat)
    requires Sound(s, None) && Of(s, n, [])
    ensures NodeGone(View(s), n) == View(s)
  {
    forall fd | fd in View(s) ensures Without(View(s)[fd].nodes, n) == View(s)[fd].nodes != [] {
      AllSubscribed(s, fd);
      assert s.epoll[fd].ptr in s.heap;
      WithoutAbsent(View(s)[fd].nodes, n);
    }
  }

  lemma OfRest(s: Sys, s': Sys, n: nat, records: seq<nat>)
    requires records != [] && NoDup(records) && Of(s, n, records) && Sound(s, None)
    requires OnlyAt(s.heap, s'.heap, records[0])
    requires records[0] in s'.heap ==> s'.heap[records[0]].nodes == Without(s.heap[records[0]].nodes, n)
    ensures NoDup(records[1..]) && Of(s', n, records[1..])
  {
    var p, rest := records[0], records[1..];
    SubscribedOnce(s, p);
    WithoutNoDup(s.heap[p].nodes, n);
    assert forall i :: 0 <= i < |rest| ==> rest[i] == records[i + 1];
    assert p !in rest && forall q :: q in records <==> q == p || q in rest;
    hide Sound;
  }

  /** The subscribers after n: what TAILQ_NEXT leads to. */
  function After(nodes: seq<nat>, n: nat): (r: seq<nat>)
    requires n in nodes
    ensures forall x :: x in r ==> x in nodes
  {
    if nodes[0] == n then nodes[1..] else After(nodes[1..], n)
  }

  lemma {:induction false} AfterAt(nodes: seq<nat>, i: nat)
    requires NoDup(nodes) && i < |nodes|
    ensures nodes[i] in nodes && After(nodes, nodes[i]) == nodes[i + 1..]
  {
    if i > 0 {
      assert nodes[0] != nodes[i] && nodes[1..][i - 1] == nodes[i];
      AfterAt(nodes[1..], i - 1);
    }
  }

  lemma AfterNext(nodes: seq<nat>, n: nat)
    requires NoDup(nodes) && n in nodes && After(nodes, n) != []
    ensures After(nodes, n)[0] in nodes && After(nodes, After(nodes, n)[0]) == After(nodes, n)[1..]
  {
    var i :| 0 <= i < |nodes| && nodes[i] == n;
    AfterAt(nodes, i);
    AfterAt(nodes, i + 1);
  }

  /** Every message carries this mask. */
  ghost predicate Saying(told: seq<(nat, Mask)>, m: Mask) {
    forall i :: 0 <= i < |told| ==> told[i].1 == m
  }

  lemma SayingNone(m: Mask)
    ensures Saying([], m)
  {
  }

  lemma SayingMore(told: seq<(nat, Mask)>, n: nat, m: Mask)
    requires Saying(told, m)
    ensures Saying(told + [(n, m)], m)
  {
  }

  /** Handlers that do nothing to socket events. */
  ghost predicate Idle(handlers: seq<seq<SockCommand>>) {
    forall i :: 0 <= i < |handlers| ==> handlers[i] == []
  }

  lemma IdleAt(handlers: seq<seq<SockCommand>>, k: nat)
    ensures Idle(handlers) || k >= |handlers| ==> HandlerAt(handlers, k) == []
  {
  }

  /** How many subscribers a walk that stands here has before it. */
  ghost function ToGo(heap: map<nat, Sockevent>, p: nat, cell: Option<nat>): nat {
    if cell.Some? && p in heap && cell.value in heap[p].nodes then 1 + |After(heap[p].nodes, cell.value)| else 0
  }

  /** With idle handlers a walk tells every subscriber, once and in order, and changes nothing. */
  lemma IdleWalk(s: Sys, p: nat, handlers: seq<seq<SockCommand>>, told: seq<(nat, Mask)>, runs: seq<seq<Sys>>, s': Sys)
    requires Walking(s, p, handlers, told, runs, None, s') && Idle(handlers) && NoDup(s.heap[p].nodes)
    ensures s' == s && |told| == |s.heap[p].nodes|
    ensures forall i :: 0 <= i < |told| ==> told[i].0 == s.heap[p].nodes[i]
  {
    hide Idle, TurnsTold, TurnsFollow, StandsOn, Goes, NoDup;
    WalkAt(s, p, handlers, told, runs, s', 0);
    for k := 0 to |told|
      invariant k <= |s.heap[p].nodes|
      invariant k < |told| ==>
                  && k < |s.heap[p].nodes| && told[k].0 == s.heap[p].nodes[k] && runs[k] != [] && runs[k][0] == s
      invariant k == |told| ==> k == |s.heap[p].nodes| && s' == s
      invariant forall i :: 0 <= i < k ==> told[i].0 == s.heap[p].nodes[i]
    {
      IdleTurn(s, p, handlers, told, runs, s', k);
      WalkAt(s, p, handlers, told, runs, s', k + 1);
    }
  }

  /** Where the walk stands after k turns. */
  lemma WalkAt(s: Sys, p: nat, handlers: seq<seq<SockCommand>>, told: seq<(nat, Mask)>, runs: seq<seq<Sys>>, s': Sys,
               k: nat)
    requires Walking(s, p, handlers, told, runs, None, s') && k <= |told|
    ensures told != []
    ensures k == 0 ==> told[0].0 == s.heap[p].nodes[0] && runs[0] != [] && runs[0][0] == s
    ensures k > 0 ==>
              && runs[k - 1] != []
              && Goes(runs[k - 1], p, told[k - 1].0) == (if k < |told| then Some(told[k].0) else None)
              && runs[k - 1][|runs[k - 1]| - 1] == (if k < |told| && runs[k] != [] then runs[k][0] else s')
              && (k < |told| ==> runs[k] != [])
  {
    hide TurnsTold, Goes;
    assert 0 < k < |told| ==> Follow(runs[k - 1], runs[k]);
  }

  lemma IdleTurn(s: Sys, p: nat, handlers: seq<seq<SockCommand>>, told: seq<(nat, Mask)>, runs: seq<seq<Sys>>, s': Sys,
                 k: nat)
    requires Walking(s, p, handlers, told, runs, None, s') && Idle(handlers) && NoDup(s.heap[p].nodes)
    requires k < |told| && k < |s.heap[p].nodes| && told[k].0 == s.heap[p].nodes[k] && runs[k] != [] && runs[k][0] == s
    ensures runs[k][|runs[k]| - 1] == s
    ensures Goes(runs[k], p, told[k].0) ==
              if k + 1 < |s.heap[p].nodes| then Some(s.heap[p].nodes[k + 1]) else None
  {
    IdleAt(handlers, k);
    assert ToldIn(runs[k], p, told[k].0, HandlerAt(handlers, k));
    AfterAt(s.heap[p].nodes, k);
    hide Idle, Walking, NoDup, After, Did;
    assert runs[k] == [s];
    if k + 1 < |s.heap[p].nodes| {
      assert s.heap[p].nodes[k + 1..][0] in s.heap[p].nodes;
    }
  }

  /** The last subscriber, and no memory for the message: the reference given back is the last, and there is a
      subscriber still. */
  lemma LastSubscriberAborts(p: nat, fd: int, events: Mask, n: nat)
    ensures var s := Sys(map[p := Sockevent(fd, events, [n], 1)], [p], map[fd := Interest(ToEpoll(events), p)]);
            && Sound(s, None) && s.heap[p].refs - 1 == 0 && s.heap[p].nodes != []
            && View(s) == map[fd := Reg(events, [n])]
  {
  }

  /** Between operations every event has a subscriber. */
  lemma AllSubscribed(s: Sys, fd: int)
    requires Sound(s, None) && fd in s.epoll
    ensures View(s)[fd].nodes != []
  {
  }

  /** A new entry with a first subscriber stays; without one it is as if it had not been made. */
  lemma NewEntry(v: map<int, Reg>, fd: int, events: Mask, n: nat)
    requires fd !in v
    ensures Subscribed(Reg(events, []), n, true) == Reg(events, [n])
    ensures Subscribed(Reg(events, []), n, false) == Reg(events, [])
    ensures Settled(v[fd := Reg(events, [])][fd := Reg(events, [n])], fd) == v[fd := Reg(events, [n])]
    ensures Settled(v[fd := Reg(events, [])][fd := Reg(events, [])], fd) == v
  {
    assert v[fd := Reg(events, [])][fd := Reg(events, [n])] == v[fd := Reg(events, [n])];
    assert v[fd := Reg(events, [])][fd := Reg(events, [])] - {fd} == v;
  }

  lemma NewMask(r: Reg, n: nat, recordMemory: bool)
    ensures Subscribed(r, n, recordMemory).events == r.events
    ensures Subscribed(r, n, recordMemory).nodes ==
              if recordMemory && n !in r.nodes then r.nodes + [n] else r.nodes
  {
  }

  /** An entry after a node asked to be in it. */
  function Subscribed(r: Reg, n: nat, recordMemory: bool): Reg {
    if n in r.nodes || !recordMemory then r else r.(nodes := r.nodes + [n])
  }
}
