/** The single steps timers go through, and what each keeps. */
module TimerSteps {
  import opened Lists
  import opened Timespecs
  import opened TimerState

  function Ref(s: State, t: nat): State
    requires t in s.timers
  {
    s.(timers := s.timers[t := s.timers[t].(refs := s.timers[t].refs + 1)], holds := s.holds + multiset{t})
  }

  function Drop(s: State, t: nat): State
    requires t in s.timers && s.timers[t].refs > 0
  {
    s.(timers := if s.timers[t].refs > 1 then s.timers[t := s.timers[t].(refs := s.timers[t].refs - 1)]
                 else s.timers - {t},
       holds := s.holds - multiset{t})
  }

  /** t is taken off the trigger list, which gives back its reference. */
  function Unlisted(s: State, t: nat): State
    requires t in s.timers && s.timers[t].refs > 1
  {
    s.(timers := s.timers[t := s.timers[t].(registered := false, refs := s.timers[t].refs - 1)],
       list := Without(s.list, t))
  }

  /** t is put on the trigger list at place k, which takes a reference. */
  function Listed(s: State, t: nat, k: nat): State
    requires t in s.timers && k <= |s.list|
  {
    s.(timers := s.timers[t := s.timers[t].(registered := true, refs := s.timers[t].refs + 1)],
       list := Put(s.list, k, t))
  }

  function Retimed(s: State, t: nat, next: Timespec, interval: Timespec): State
    requires t in s.timers
  {
    s.(timers := s.timers[t := s.timers[t].(next := next, interval := interval)])
  }

  /** t is no longer valid; the reference to itself is now in the hands of the caller. */
  function Invalidated(s: State, t: nat): State
    requires t in s.timers
  {
    s.(timers := s.timers[t := s.timers[t].(valid := false)], holds := s.holds + multiset{t})
  }

  function Resubscribed(s: State, t: nat, subscribers: seq<nat>): State
    requires t in s.timers && s.timers[t].refs + |subscribers| >= |s.timers[t].subscribers|
  {
    var tm := s.timers[t];
    s.(timers := s.timers[t := tm.(subscribers := subscribers, refs := tm.refs + |subscribers| - |tm.subscribers|)])
  }

  function NewTimer(s: State): State {
    var t := s.lastid + 1;
    s.(timers := s.timers[t := Timer(true, false, ZERO, ZERO, [], 1)], lastid := t)
  }

  // ---- Each step keeps the invariant ----

  /** What the invariant says of one timer's record. */
  predicate RecordFits(tm: Timer, held: nat) {
    && tm.refs == (if tm.valid then 1 else 0) + (if tm.registered then 1 else 0) + |tm.subscribers| + held > 0
    && Normal(tm.next) && Normal(tm.interval) && (tm.registered ==> tm.valid && Ns(tm.next) > 0)
  }

  lemma RecordFact(s: State, t: nat)
    requires Inv(s) && t in s.timers
    ensures RecordFits(s.timers[t], s.holds[t]) && NoDup(s.list) && Sorted(s.timers, s.list)
    ensures t in s.list <==> s.timers[t].registered
  {
  }

  lemma CountsSet(timers: Timers, holds: multiset<nat>, t: nat, tm: Timer, holds': multiset<nat>)
    requires Counts(timers, holds) && RecordFits(tm, holds'[t]) && forall x :: x != t ==> holds'[x] == holds[x]
    ensures Counts(timers[t := tm], holds')
  {
    hide Normal, Ns;
    assert forall x :: x in holds' && x != t ==> x in holds;
  }

  lemma MembersSet(timers: Timers, list: seq<nat>, t: nat, tm: Timer, list': seq<nat>)
    requires Members(timers, list) && NoDup(list')
    requires forall x :: x in list' <==> if x == t then tm.registered else x in list
    ensures Members(timers[t := tm], list')
  {
    hide NoDup;
  }

  lemma TimesSet(timers: Timers, t: nat, tm: Timer, held: nat)
    requires Times(timers) && RecordFits(tm, held)
    ensures Times(timers[t := tm])
  {
    hide Normal, Ns;
  }

  /** A step that changes one record keeps the invariant, if the record fits and stands where it should. */
  lemma RecordInv(s: State, s': State, t: nat, tm: Timer)
    requires Inv(s) && s'.timers == s.timers[t := tm] && RecordFits(tm, s'.holds[t])
    requires forall x :: x != t ==> s'.holds[x] == s.holds[x]
    requires NoDup(s'.list) && forall x :: x in s'.list <==> if x == t then tm.registered else x in s.list
    requires Sorted(s'.timers, s'.list) && t <= s'.lastid && s.lastid <= s'.lastid
    ensures Inv(s')
  {
    hide Counts, Members, Times, Sorted, NoDup, RecordFits;
    CountsSet(s.timers, s.holds, t, tm, s'.holds);
    MembersSet(s.timers, s.list, t, tm, s'.list);
    TimesSet(s.timers, t, tm, s'.holds[t]);
  }

  /** The same for a step that leaves the list alone. */
  lemma RecordStep(s: State, s': State, t: nat, tm: Timer)
    requires Inv(s) && t in s.timers && s'.timers == s.timers[t := tm] && RecordFits(tm, s'.holds[t])
    requires forall x :: x != t ==> s'.holds[x] == s.holds[x]
    requires s'.list == s.list && s'.lastid == s.lastid && tm.registered == s.timers[t].registered
    requires tm.registered ==> tm.next == s.timers[t].next
    ensures Inv(s')
  {
    RecordFact(s, t);
    hide Counts, Members, Times, NoDup, RecordFits;
    SortedFrame(s.timers, s'.timers, s.list);
    hide Sorted;
    RecordInv(s, s', t, tm);
  }

  lemma RefInv(s: State, t: nat)
    requires Inv(s) && t in s.timers
    ensures Inv(Ref(s, t))
  {
    RecordFact(s, t);
    hide Inv, NoDup, Sorted;
    RecordStep(s, Ref(s, t), t, Ref(s, t).timers[t]);
  }

  /** The assertion dmm_event_unref makes holds: a timer that goes has no subscribers, and is not listed. */
  lemma LastReference(s: State, t: nat)
    requires Inv(s) && t in s.holds
    ensures t in s.timers && s.timers[t].refs > 0
    ensures s.timers[t].refs == 1 ==>
              s.timers[t].subscribers == [] && t !in s.list && !s.timers[t].valid && s.holds[t] == 1
  {
    hide Sorted, NoDup;
  }

  lemma DropCounts(timers: Timers, holds: multiset<nat>, t: nat)
    requires Counts(timers, holds) && t in holds
    ensures timers[t].refs > 1 ==> Counts(timers[t := timers[t].(refs := timers[t].refs - 1)], holds - multiset{t})
    ensures timers[t].refs == 1 ==> Counts(timers - {t}, holds - multiset{t})
  {
  }

  lemma DropInv(s: State, t: nat)
    requires Inv(s) && t in s.holds
    ensures t in s.timers && s.timers[t].refs > 0
    ensures Inv(Drop(s, t))
  {
    hide Counts, Sorted, NoDup;
    LastReference(s, t);
    DropCounts(s.timers, s.holds, t);
    SortedFrame(s.timers, Drop(s, t).timers, s.list);
  }

  lemma WithoutIsCut(list: seq<nat>, t: nat) returns (k: nat)
    requires t in list && NoDup(list)
    ensures k < |list| && list[k] == t && Without(list, t) == Cut(list, k)
  {
    k :| 0 <= k < |list| && list[k] == t;
    WithoutAt(list, t, k);
  }

  lemma UnlistedInv(s: State, t: nat)
    requires Inv(s) && t in s.timers && s.timers[t].registered
    ensures s.timers[t].refs > 1
    ensures Inv(Unlisted(s, t)) && SameOrder(s.list, Unlisted(s, t).list, {t})
  {
    RecordFact(s, t);
    hide Inv, Sorted;
    var k := WithoutIsCut(s.list, t);
    CutMembers(s.list, k);
    CutSorted(s.timers, s.list, k);
    CutOrder(s.list, k);
    hide Without, Cut, NoDup, SameOrder;
    LastIdFact(s, t);
    UnlistedSorted(s, t);
    RecordInv(s, Unlisted(s, t), t, Unlisted(s, t).timers[t]);
  }

  lemma LastIdFact(s: State, t: nat)
    requires Inv(s) && t in s.timers
    ensures t <= s.lastid
  {
    hide Counts, Members, Times, Sorted;
  }

  lemma UnlistedSorted(s: State, t: nat)
    requires t in s.timers && s.timers[t].refs > 1 && Sorted(s.timers, Without(s.list, t))
    ensures Sorted(Unlisted(s, t).timers, Unlisted(s, t).list)
  {
    SortedFrame(s.timers, Unlisted(s, t).timers, Unlisted(s, t).list);
  }

  lemma ListedSorted(s: State, t: nat, k: nat)
    requires t in s.timers && k <= |s.list| && Sorted(s.timers, Put(s.list, k, t))
    ensures Sorted(Listed(s, t, k).timers, Listed(s, t, k).list)
  {
    hide Put;
    SortedFrame(s.timers, Listed(s, t, k).timers, Listed(s, t, k).list);
  }

  lemma SortedFrame(timers: Timers, timers': Timers, list: seq<nat>)
    requires Sorted(timers, list)
    requires forall t :: t in list && t in timers' ==> t in timers && timers'[t].next == timers[t].next
    ensures Sorted(timers', list)
  {
  }

  lemma ListedInv(s: State, t: nat, k: nat)
    requires Inv(s) && t in s.timers && s.timers[t].valid && !s.timers[t].registered && Ns(s.timers[t].next) > 0
    requires Place(s.timers, s.list, Ns(s.timers[t].next), k)
    ensures Inv(Listed(s, t, k)) && SameOrder(s.list, Listed(s, t, k).list, {t})
  {
    RecordFact(s, t);
    LastIdFact(s, t);
    hide Inv, Sorted;
    PutMembers(s.list, k, t);
    PutSorted(s.timers, s.list, k, t);
    PutOrder(s.list, k, t);
    hide Put, NoDup, SameOrder, Place;
    ListedSorted(s, t, k);
    RecordInv(s, Listed(s, t, k), t, Listed(s, t, k).timers[t]);
  }

  lemma RetimedInv(s: State, t: nat, next: Timespec, interval: Timespec)
    requires Inv(s) && t in s.timers && !s.timers[t].registered && Normal(next) && Normal(interval)
    ensures Inv(Retimed(s, t, next, interval))
  {
    RecordFact(s, t);
    hide Inv, NoDup, Sorted;
    RecordStep(s, Retimed(s, t, next, interval), t, Retimed(s, t, next, interval).timers[t]);
  }

  /** Changing the times of a listed timer and then taking it off is the same as the other way round. */
  lemma RetimedUnlisted(s: State, t: nat, next: Timespec, interval: Timespec)
    requires t in s.timers && s.timers[t].refs > 1
    ensures Unlisted(Retimed(s, t, next, interval), t) == Retimed(Unlisted(s, t), t, next, interval)
  {
  }

  lemma InvalidatedInv(s: State, t: nat)
    requires Inv(s) && t in s.timers && s.timers[t].valid && !s.timers[t].registered
    ensures Inv(Invalidated(s, t))
  {
    RecordFact(s, t);
    hide Inv, NoDup, Sorted;
    RecordStep(s, Invalidated(s, t), t, Invalidated(s, t).timers[t]);
  }

  lemma InvalidatedUnlisted(s: State, t: nat)
    requires t in s.timers && s.timers[t].refs > 1
    ensures Unlisted(Invalidated(s, t), t) == Invalidated(Unlisted(s, t), t)
  {
  }

  lemma ResubscribedInv(s: State, t: nat, subscribers: seq<nat>)
    requires Inv(s) && t in s.timers && (s.timers[t].valid || t in s.holds)
    ensures s.timers[t].refs + |subscribers| > |s.timers[t].subscribers|
    ensures Inv(Resubscribed(s, t, subscribers))
  {
    RecordFact(s, t);
    hide Inv, NoDup, Sorted;
    RecordStep(s, Resubscribed(s, t, subscribers), t, Resubscribed(s, t, subscribers).timers[t]);
  }

  lemma NewTimerInv(s: State)
    requires Inv(s)
    ensures s.lastid + 1 !in s.timers && Inv(NewTimer(s))
  {
    var t := s.lastid + 1;
    assert t !in s.timers && s.holds[t] == 0 && t !in s.list && NoDup(s.list);
    SortedFrame(s.timers, NewTimer(s).timers, s.list);
    hide Inv, NoDup, Sorted;
    RecordInv(s, NewTimer(s), t, NewTimer(s).timers[t]);
  }

  lemma InvFacts(s: State)
    requires Inv(s)
    ensures Sorted(s.timers, s.list) && NoDup(s.list)
    ensures forall t :: t in s.list <==> t in s.timers && s.timers[t].registered
    ensures forall t :: t in s.timers ==> Normal(s.timers[t].next) && Normal(s.timers[t].interval)
    ensures forall t :: t in s.timers && s.timers[t].registered ==>
              s.timers[t].valid && Ns(s.timers[t].next) > 0 && s.timers[t].refs > 1
  {
  }

  /** t has been put at its place: after the timers due as early, before those due later. */
  ghost predicate IsListed(s: State, s': State, t: nat) {
    && t in s.timers
    && exists k: nat :: k <= |s.list| && Place(s.timers, s.list, Ns(s.timers[t].next), k) && s' == Listed(s, t, k)
  }

  /** First in, first out: every other listed timer that is due no later than t stands before it. */
  ghost predicate BehindEquals(s: State, t: nat) {
    && t in s.timers
    && forall x :: x in s.list && x != t && x in s.timers && Ns(s.timers[x].next) <= Ns(s.timers[t].next) ==>
                     AtOrAfter(s.list, x, t)
  }

  lemma ListedBehindEquals(s: State, s': State, t: nat)
    requires IsListed(s, s', t)
    ensures BehindEquals(s', t)
  {
    var k: nat :| k <= |s.list| && Place(s.timers, s.list, Ns(s.timers[t].next), k) && s' == Listed(s, t, k);
    forall x | x in s'.list && x != t && x in s'.timers && Ns(s'.timers[x].next) <= Ns(s'.timers[t].next)
      ensures AtOrAfter(s'.list, x, t)
    {
      var i :| 0 <= i < |s'.list| && s'.list[i] == x;
      assert i != k && s'.list[k] == t;
      assert s.list[if i < k then i else i - 1] == x;
    }
  }

  // ---- What a step leaves alone ----

  predicate SameTimes(a: Timer, b: Timer) {
    (a.valid, a.registered, a.next, a.interval) == (b.valid, b.registered, b.next, b.interval)
  }

  /** Timers other than those in `moved` are there with the same times, and those listed are listed in the
      same order; the only other timers are new. */
  ghost predicate Frame(s: State, s': State, moved: set<nat>) {
    && (forall x :: x in s.timers && x !in moved ==> x in s'.timers && SameTimes(s.timers[x], s'.timers[x]))
    && (forall x :: x in s'.timers && x !in s.timers ==> s.lastid < x && (s'.timers[x].registered ==> x in moved))
    && SameOrder(s.list, s'.list, moved)
    && s.lastid <= s'.lastid
  }

  /** No record but t's has changed in any way. */
  ghost predicate OnlyTimer(a: Timers, b: Timers, t: nat) {
    forall x :: x != t ==> (x in b <==> x in a) && (x in b ==> b[x] == a[x])
  }

  lemma OnlySet(timers: Timers, t: nat, tm: Timer)
    ensures OnlyTimer(timers, timers[t := tm], t) && OnlyTimer(timers, timers - {t}, t)
  {
  }

  lemma OnlyTwice(a: Timers, b: Timers, c: Timers, t: nat)
    requires OnlyTimer(a, b, t) && OnlyTimer(b, c, t)
    ensures OnlyTimer(a, c, t)
  {
  }

  lemma FrameTwice(a: State, b: State, c: State, moved: set<nat>)
    requires Frame(a, b, moved) && Frame(b, c, moved)
    ensures Frame(a, c, moved)
  {
    OrderTwice(a.list, b.list, c.list, moved);
    hide SameOrder;
  }

  lemma OrderTwice(a: seq<nat>, b: seq<nat>, c: seq<nat>, moved: set<nat>)
    requires SameOrder(a, b, moved) && SameOrder(b, c, moved)
    ensures SameOrder(a, c, moved)
  {
  }

  lemma FrameWiden(a: State, b: State, moved: set<nat>, more: set<nat>)
    requires Frame(a, b, moved) && moved <= more
    ensures Frame(a, b, more)
  {
  }

  lemma FrameSelf(s: State, moved: set<nat>)
    ensures Frame(s, s, moved)
  {
  }

  /** A step that only changes t's record, or adds a new timer, frames everything but t. */
  lemma FrameRecord(s: State, s': State, t: nat)
    requires s'.list == s.list && s'.lastid >= s.lastid
    requires forall x :: x in s.timers && x != t ==> x in s'.timers && s'.timers[x] == s.timers[x]
    requires forall x :: x in s'.timers && x !in s.timers ==> s.lastid < x && !s'.timers[x].registered
    ensures Frame(s, s', {t})
    ensures t in s.timers && t in s'.timers && SameTimes(s.timers[t], s'.timers[t]) ==> Frame(s, s', {})
  {
  }

  lemma UnlistedFrame(s: State, t: nat)
    requires Inv(s) && t in s.timers && s.timers[t].registered
    ensures s.timers[t].refs > 1 && Frame(s, Unlisted(s, t), {t})
  {
    UnlistedInv(s, t);
    hide Inv, SameOrder, Without;
  }

  lemma IsListedFrame(s: State, s': State, t: nat)
    requires Inv(s) && IsListed(s, s', t) && s.timers[t].valid && !s.timers[t].registered && Ns(s.timers[t].next) > 0
    ensures Frame(s, s', {t})
  {
    var k: nat :| k <= |s.list| && Place(s.timers, s.list, Ns(s.timers[t].next), k) && s' == Listed(s, t, k);
    ListedInv(s, t, k);
    hide Inv, SameOrder, Put;
  }

  // ---- dmm_timer_set ----

  /** The next trigger a setting asks for, when it is not refused. */
  function SetNext(tm: Timer, next: Timespec, interval: Timespec, absolute: bool, intervalOnly: bool, now: Timespec)
    : Timespec
  {
    if IsZero(next) then (if intervalOnly then tm.next else Inc(now, interval))
    else if absolute then next else Inc(next, now)
  }

  /** The assertion dmm_timer_register makes for a valid timer holds exactly when this is not a change of
      interval only for a timer that has never been set. */
  predicate CanSet(tm: Timer, next: Timespec, intervalOnly: bool) {
    tm.valid ==> !(IsZero(next) && intervalOnly && IsZero(tm.next))
  }

  lemma SetKeepsAssertion(tm: Timer, next: Timespec, interval: Timespec, absolute: bool, intervalOnly: bool,
                          now: Timespec)
    requires Normal(tm.next) && Normal(next) && Normal(interval) && Normal(now)
    requires !(IsZero(next) && IsZero(interval))
    ensures Normal(SetNext(tm, next, interval, absolute, intervalOnly, now))
    ensures (tm.valid ==> Ns(SetNext(tm, next, interval, absolute, intervalOnly, now)) > 0) <==>
            CanSet(tm, next, intervalOnly)
    ensures var r := SetNext(tm, next, interval, absolute, intervalOnly, now);
            && (!IsZero(next) && absolute ==> r == next)
            && (!IsZero(next) && !absolute ==> Ns(r) == Ns(now) + Ns(next))
            && (IsZero(next) && !intervalOnly ==> Ns(r) == Ns(now) + Ns(interval))
            && (IsZero(next) && intervalOnly ==> r == tm.next)
  {
    assert Ns(next) >= 0 && Ns(interval) >= 0 && Ns(now) >= 0 && Ns(tm.next) >= 0;
  }

  /** A timer just created is not set: changing its interval only is what the assertion refuses. */
  lemma NewTimerCannotSet(s: State, interval: Timespec, absolute: bool, now: Timespec)
    requires Normal(interval) && Normal(now)
    ensures var tm := NewTimer(s).timers[s.lastid + 1];
            tm.valid && !CanSet(tm, ZERO, true) && IsZero(SetNext(tm, ZERO, interval, absolute, true, now))
  {
  }

  /** A timer given new times and taken off the list, if it was on it, is ready to be put back. */
  lemma Rearm(s: State, t: nat, next: Timespec, interval: Timespec)
    requires Inv(s) && t in s.timers && Normal(next) && Normal(interval)
    ensures s.timers[t].registered ==> s.timers[t].refs > 1
    ensures var s1 := Retimed(s, t, next, interval);
            var s2 := if s.timers[t].registered then Unlisted(s1, t) else s1;
            && Inv(s2) && Frame(s, s2, {t}) && t in s2.timers && !s2.timers[t].registered
            && s2.timers[t].next == next && s2.timers[t].interval == interval && s2.timers[t].valid == s.timers[t].valid
            && s2.timers[t].subscribers == s.timers[t].subscribers && OnlyTimer(s.timers, s2.timers, t)
  {
    RearmRecord(s, t, next, interval);
    hide Inv, SameOrder, Without, OnlyTimer;
    if s.timers[t].registered {
      UnlistedInv(s, t);
      UnlistedFrame(s, t);
      RetimedUnlisted(s, t, next, interval);
      var s1 := Unlisted(s, t);
      RetimedInv(s1, t, next, interval);
      FrameRecord(s1, Retimed(s1, t, next, interval), t);
      FrameTwice(s, s1, Retimed(s1, t, next, interval), {t});
    } else {
      RetimedInv(s, t, next, interval);
      FrameRecord(s, Retimed(s, t, next, interval), t);
    }
  }

  lemma RearmRecord(s: State, t: nat, next: Timespec, interval: Timespec)
    requires Inv(s) && t in s.timers
    ensures s.timers[t].registered ==> s.timers[t].refs > 1
    ensures var s1 := Retimed(s, t, next, interval);
            var s2 := if s.timers[t].registered then Unlisted(s1, t) else s1;
            s2.timers[t].subscribers == s.timers[t].subscribers && OnlyTimer(s.timers, s2.timers, t)
  {
    RecordFact(s, t);
    hide Inv, NoDup, Sorted, OnlyTimer, Without;
    var s1 := Retimed(s, t, next, interval);
    OnlySet(s.timers, t, s1.timers[t]);
    if s.timers[t].registered {
      OnlySet(s1.timers, t, Unlisted(s1, t).timers[t]);
      OnlyTwice(s.timers, s1.timers, Unlisted(s1, t).timers, t);
    }
  }

  lemma ListedRecord(s: State, s': State, t: nat)
    requires Inv(s) && IsListed(s, s', t) && s.timers[t].valid && !s.timers[t].registered && Ns(s.timers[t].next) > 0
    ensures t in s'.timers && s'.timers[t] == s.timers[t].(registered := true, refs := s.timers[t].refs + 1)
    ensures Frame(s, s', {t}) && OnlyTimer(s.timers, s'.timers, t)
  {
    IsListedFrame(s, s', t);
    hide Inv, Frame, Place;
  }

  // ---- dmm_timer_rm ----

  /** An invalid timer off the list, held by the caller in place of itself. */
  function Retired(s: State, t: nat): State
    requires t in s.timers && (s.timers[t].registered ==> s.timers[t].refs > 1)
  {
    var s1 := Invalidated(s, t);
    if s.timers[t].registered then Unlisted(s1, t) else s1
  }

  lemma RetiredInv(s: State, t: nat)
    requires Inv(s) && t in s.timers && s.timers[t].valid
    ensures s.timers[t].registered ==> s.timers[t].refs > 1
    ensures Inv(Retired(s, t)) && Frame(s, Retired(s, t), {t})
    ensures var s' := Retired(s, t);
            && t in s'.timers && !s'.timers[t].valid && !s'.timers[t].registered
            && s'.timers[t].subscribers == s.timers[t].subscribers && s'.holds == s.holds + multiset{t}
  {
    hide Inv, SameOrder, Without;
    if s.timers[t].registered {
      UnlistedInv(s, t);
      UnlistedFrame(s, t);
      InvalidatedUnlisted(s, t);
      var s1 := Unlisted(s, t);
      InvalidatedInv(s1, t);
      FrameRecord(s1, Invalidated(s1, t), t);
      FrameTwice(s, s1, Invalidated(s1, t), {t});
    } else {
      InvalidatedInv(s, t);
      FrameRecord(s, Invalidated(s, t), t);
    }
  }

  lemma RetiredList(s: State, t: nat)
    requires Inv(s) && t in s.timers && s.timers[t].valid
    ensures s.timers[t].registered ==> s.timers[t].refs > 1
    ensures Retired(s, t).list == Without(s.list, t) && OnlyTimer(s.timers, Retired(s, t).timers, t)
  {
    RecordFact(s, t);
    hide Inv, NoDup, Sorted, OnlyTimer, Without;
    if !s.timers[t].registered {
      WithoutAbsent(s.list, t);
    }
    OnlySet(s.timers, t, Retired(s, t).timers[t]);
    assert Retired(s, t).timers == s.timers[t := Retired(s, t).timers[t]];
  }

  lemma RefDrop(s: State, t: nat)
    requires t in s.timers && s.timers[t].refs > 0
    ensures Drop(Ref(s, t), t) == s && OnlyTimer(s.timers, Ref(s, t).timers, t)
  {
    assert s.holds + multiset{t} - multiset{t} == s.holds;
    assert Drop(Ref(s, t), t).timers == s.timers;
  }

  lemma HeldBack(holds: multiset<nat>, t: nat)
    ensures holds + multiset{t} - multiset{t} == holds
  {
  }

  lemma DropKeeps(s: State, t: nat)
    requires Inv(s) && t in s.holds
    ensures t in s.timers && s.timers[t].refs > 0
    ensures Drop(s, t).list == s.list && Drop(s, t).holds == s.holds - multiset{t} && Drop(s, t).lastid == s.lastid
    ensures t in s.timers && BehindEquals(s, t) && t in Drop(s, t).timers ==> BehindEquals(Drop(s, t), t)
  {
    LastReference(s, t);
    DropOnly(s, t);
    hide Inv, AtOrAfter;
  }

  lemma RefKeeps(s: State, t: nat)
    requires t in s.timers
    ensures Ref(s, t).list == s.list && Ref(s, t).holds == s.holds + multiset{t} && Ref(s, t).lastid == s.lastid
  {
  }

  lemma UnlistedOnly(s: State, t: nat)
    requires t in s.timers && s.timers[t].refs > 1
    ensures OnlyTimer(s.timers, Unlisted(s, t).timers, t)
  {
    OnlySet(s.timers, t, Unlisted(s, t).timers[t]);
    hide OnlyTimer, Without;
  }

  lemma DropOnly(s: State, t: nat)
    requires t in s.timers && s.timers[t].refs > 0
    ensures OnlyTimer(s.timers, Drop(s, t).timers, t)
  {
  }

  /** A retired timer without subscribers goes when nobody else holds it. */
  lemma RetiredGoes(u: State, t: nat)
    requires Inv(u) && t in u.holds && t in u.timers
    requires !u.timers[t].valid && !u.timers[t].registered && u.timers[t].subscribers == []
    ensures u.timers[t].refs > 0 && Inv(Drop(u, t)) && Frame(u, Drop(u, t), {t})
    ensures t in Drop(u, t).timers <==> u.holds[t] > 1
    ensures t in Drop(u, t).timers ==> SameTimes(u.timers[t], Drop(u, t).timers[t])
    ensures t in Drop(u, t).timers ==> Drop(u, t).timers[t].subscribers == []
    ensures OnlyTimer(u.timers, Drop(u, t).timers, t)
    ensures Drop(u, t).list == u.list && Drop(u, t).holds == u.holds - multiset{t}
  {
    DropInv(u, t);
    DropOnly(u, t);
    assert u.timers[t].refs == u.holds[t];
    hide Inv, OnlyTimer;
    FrameRecord(u, Drop(u, t), t);
    hide Frame;
  }

  lemma FrameValid(s: State, s': State, t: nat)
    requires Frame(s, s', {}) && t in s.timers
    ensures t in s'.timers && SameTimes(s.timers[t], s'.timers[t])
  {
  }

  /** Where a frame says nothing about a held timer, the timer is still there. */
  lemma HeldRecord(s: State, s': State, moved: set<nat>, t: nat)
    requires Frame(s, s', moved) && t in s.timers && Inv(s') && t in s'.holds
    ensures t in s'.timers && (t !in moved ==> SameTimes(s.timers[t], s'.timers[t]))
  {
  }

  lemma NewTimerFrame(s: State)
    requires Inv(s)
    ensures Frame(s, NewTimer(s), {})
  {
    assert s.lastid + 1 !in s.timers;
    FrameSelf(s, {});
    hide Inv, SameOrder;
  }

  lemma DropFrame(s: State, t: nat)
    requires Inv(s) && t in s.holds
    ensures t in s.timers && s.timers[t].refs > 0
    ensures Frame(s, Drop(s, t), {t}) && (s.timers[t].valid ==> t in Drop(s, t).timers && Frame(s, Drop(s, t), {}))
    ensures t in Drop(s, t).timers ==> SameTimes(s.timers[t], Drop(s, t).timers[t])
  {
    LastReference(s, t);
    hide Inv;
    FrameRecord(s, Drop(s, t), t);
    hide Frame;
  }
}
