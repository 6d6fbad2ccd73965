/** The timers of the runtime, and the pass that triggers those that are due. */
module Schedulers {
  import opened Errors
  import opened Lists
  import opened Timespecs
  import opened TimerState
  import opened TimerSteps
  import opened TimerPass

  class Scheduler {
    var timers: Timers
    var list: seq<nat>
    var lastid: nat
    ghost var holds: multiset<nat>
    ghost var log: seq<Firing>

    ghost function S(): State
      reads this
    {
      State(timers, list, holds, lastid)
    }

    /** Before the first timer is created. */
    constructor ()
      ensures Inv(S()) && timers == map[] && list == [] && holds == multiset{} && log == []
    {
      timers, list, lastid := map[], [], 0;
      holds, log := multiset{}, [];
    }

    method TimerCreate(memory: bool) returns (err: Errno, t: nat)
      requires Inv(S())
      modifies this`timers, this`lastid
      ensures err == if memory then Ok else ENOMEM
      ensures Inv(S()) && (err == Ok ==> S() == NewTimer(old(S())) && t == lastid && t !in old(timers))
      ensures err != Ok ==> S() == old(S())
    {
      hide Inv;
      t := 0;
      if !memory {
        return ENOMEM, t;
      }
      NewTimerInv(S());
      lastid := lastid + 1;
      t := lastid;
      timers := timers[t := Timer(true, false, ZERO, ZERO, [], 1)];
      return Ok, t;
    }

    method TimerRef(t: nat)
      requires Inv(S()) && t in timers
      modifies this`timers, this`holds
      ensures Inv(S()) && S() == Ref(old(S()), t)
    {
      hide Inv;
      RefInv(S(), t);
      timers := timers[t := timers[t].(refs := timers[t].refs + 1)];
      holds := holds + multiset{t};
    }

    method TimerUnref(t: nat)
      requires Inv(S()) && t in holds
      modifies this`timers, this`holds
      ensures t in old(timers) && old(timers)[t].refs > 0
      ensures Inv(S()) && S() == Drop(old(S()), t)
    {
      hide Inv;
      LastReference(S(), t);
      DropInv(S(), t);
      var refs := timers[t].refs - 1;
      if refs == 0 {
        assert timers[t].subscribers == [];
        timers := timers - {t};
      } else {
        timers := timers[t := timers[t].(refs := refs)];
      }
      holds := holds - multiset{t};
    }

    /** Find the place of a deadline: at the head, or after the last entry that is not later. */
    method FindPlace(t: nat) returns (k: nat)
      requires t in timers && Normal(timers[t].next)
      requires Sorted(timers, list) && (forall x :: x in list ==> x in timers && Normal(timers[x].next))
      ensures Place(timers, list, Ns(timers[t].next), k)
    {
      hide NoDup, Ns, Normal;
      if list == [] {
        return 0;
      } else if Gt(timers[list[0]].next, timers[t].next) {
        return 0;
      }
      var i := 0;
      while i + 1 < |list| && !Gt(timers[list[i + 1]].next, timers[t].next)
        invariant 0 <= i < |list|
        invariant Ns(timers[list[i]].next) <= Ns(timers[t].next)
        decreases |list| - i
      {
        i := i + 1;
      }
      k := i + 1;
    }

    /** Put a timer on the trigger list. Its time must be set and it must not be there already. */
    method TimerRegister(t: nat)
      requires Inv(S()) && t in timers && (timers[t].valid ==> Ns(timers[t].next) > 0 && !timers[t].registered)
      modifies this`timers, this`list
      ensures Inv(S())
      ensures !old(timers)[t].valid ==> S() == old(S())
      ensures old(timers)[t].valid ==> IsListed(old(S()), S(), t) && BehindEquals(S(), t)
    {
      if !timers[t].valid {
        return;
      }
      InvFacts(S());
      hide Inv;
      assert !IsZero(timers[t].next);
      assert !timers[t].registered;
      var k := FindPlace(t);
      ListedInv(S(), t, k);
      list := list[..k] + [t] + list[k..];
      timers := timers[t := timers[t].(registered := true, refs := timers[t].refs + 1)];
      assert S() == Listed(old(S()), t, k);
      ListedBehindEquals(old(S()), S(), t);
    }

    /** Take a timer off the trigger list, if it is there. It is held otherwise, so it stays. */
    method TimerDeregister(t: nat)
      requires t in timers && (timers[t].registered ==> timers[t].refs > 1)
      modifies this`timers, this`list
      ensures S() == if old(timers)[t].registered then Unlisted(old(S()), t) else old(S())
    {
      if !timers[t].registered {
        return;
      }
      list := Without(list, t);
      timers := timers[t := timers[t].(registered := false)];
      timers := timers[t := timers[t].(refs := timers[t].refs - 1)];
    }

    /** Store new times in a timer, listed or not. */
    method TimerRetime(t: nat, next: Timespec, interval: Timespec, absolute: bool, intervalOnly: bool, now: Timespec)
      requires t in timers && !(IsZero(next) && IsZero(interval))
      modifies this`timers
      ensures S() == var newnext := SetNext(old(timers)[t], next, interval, absolute, intervalOnly, now);
                     Retimed(old(S()), t, newnext, interval)
    {
      if IsZero(next) {
        if !intervalOnly {
          timers := timers[t := timers[t].(next := Inc(now, interval))];
        }
        timers := timers[t := timers[t].(interval := interval)];
      } else {
        timers := timers[t := timers[t].(next := next)];
        if !absolute {
          timers := timers[t := timers[t].(next := Inc(next, now))];
        }
        timers := timers[t := timers[t].(interval := interval)];
      }
    }

    /** Set when a timer triggers. `now` is what the clock reads. `aborted` says that the assertion of
        dmm_timer_register on the time has failed and the program is over. */
    method TimerSet(t: nat, next: Timespec, interval: Timespec, absolute: bool, intervalOnly: bool, now: Timespec)
      returns (err: Errno, aborted: bool)
      requires Inv(S()) && t in timers && Normal(next) && Normal(interval) && Normal(now)
      modifies this`timers, this`list
      ensures err == if IsZero(next) && IsZero(interval) then EINVAL else Ok
      ensures aborted <==> err == Ok && !CanSet(old(timers)[t], next, intervalOnly)
      ensures !aborted ==> Inv(S()) && Frame(old(S()), S(), {t})
      ensures err != Ok ==> S() == old(S())
      ensures !aborted && err == Ok && old(timers)[t].valid ==>
                && t in timers && timers[t].registered && timers[t].interval == interval
                && timers[t].next == SetNext(old(timers)[t], next, interval, absolute, intervalOnly, now)
                && BehindEquals(S(), t)
      ensures !aborted && err == Ok && old(timers)[t].valid ==>
                && (!IsZero(next) && absolute ==> timers[t].next == next)
                && (!IsZero(next) && !absolute ==> Ns(timers[t].next) == Ns(now) + Ns(next))
                && (IsZero(next) && !intervalOnly ==> Ns(timers[t].next) == Ns(now) + Ns(interval))
                && (IsZero(next) && intervalOnly ==> timers[t].next == old(timers)[t].next)
      ensures !aborted ==>
                && OnlyTimer(old(timers), timers, t) && t in timers
                && timers[t].valid == old(timers)[t].valid && timers[t].subscribers == old(timers)[t].subscribers
    {
      InvFacts(S());
      hide Inv, Frame, NoDup, Sorted, SetNext, CanSet, IsListed, Unlisted, BehindEquals;
      ghost var s := S();
      FrameSelf(s, {t});
      OnlySet(s.timers, t, s.timers[t]);
      hide OnlyTimer;
      assert s.timers[t := s.timers[t]] == s.timers;
      if IsZero(next) && IsZero(interval) {
        return EINVAL, false;
      }
      SetKeepsAssertion(timers[t], next, interval, absolute, intervalOnly, now);
      ghost var newnext := SetNext(timers[t], next, interval, absolute, intervalOnly, now);
      Rearm(s, t, newnext, interval);
      TimerRetime(t, next, interval, absolute, intervalOnly, now);
      if timers[t].registered {
        TimerDeregister(t);
      }
      ghost var s1 := S();
      if timers[t].valid && IsZero(timers[t].next) {
        return Ok, true;
      }
      TimerRegister(t);
      if s1.timers[t].valid {
        ListedRecord(s1, S(), t);
        FrameTwice(s, s1, S(), {t});
        OnlyTwice(s.timers, s1.timers, timers, t);
      }
      return Ok, false;
    }

    /** Stop a timer. */
    method TimerUnset(t: nat)
      requires Inv(S()) && t in timers
      modifies this`timers, this`list
      ensures Inv(S()) && Frame(old(S()), S(), {t})
      ensures t in timers && timers[t] == old(timers)[t].(registered := false, refs := timers[t].refs)
      ensures OnlyTimer(old(timers), timers, t) && list == Without(old(list), t)
    {
      InvFacts(S());
      hide Inv, Frame, NoDup, Sorted, Without;
      FrameSelf(S(), {t});
      if timers[t].registered {
        UnlistedInv(S(), t);
        UnlistedFrame(S(), t);
        TimerDeregister(t);
      } else {
        WithoutAbsent(list, t);
      }
    }

    /** Subscribe a node to a timer, unless it is already. */
    method TimerSubscribe(t: nat, nodeValid: bool, n: nat, memory: bool) returns (err: Errno)
      requires Inv(S()) && t in timers
      modifies this`timers
      ensures err == if !nodeValid || !old(timers)[t].valid then EINVAL
                     else if n in old(timers)[t].subscribers || memory then Ok else ENOMEM
      ensures Inv(S()) && Frame(old(S()), S(), {})
      ensures t in timers && timers[t].subscribers ==
                if err == Ok && n !in old(timers)[t].subscribers then old(timers)[t].subscribers + [n]
                else old(timers)[t].subscribers
      ensures OnlyTimer(old(timers), timers, t) && SameTimes(old(timers)[t], timers[t])
      ensures timers[t].subscribers == old(timers)[t].subscribers ==> S() == old(S())
    {
      hide Inv, Frame;
      FrameSelf(S(), {});
      if !nodeValid {
        return EINVAL;
      }
      if !timers[t].valid {
        return EINVAL;
      }
      if n in timers[t].subscribers {
        return Ok;
      }
      if !memory {
        return ENOMEM;
      }
      ResubscribedInv(S(), t, timers[t].subscribers + [n]);
      FrameRecord(S(), Resubscribed(S(), t, timers[t].subscribers + [n]), t);
      timers := timers[t := timers[t].(subscribers := timers[t].subscribers + [n], refs := timers[t].refs + 1)];
      return Ok;
    }

    /** Remove one subscription; the timer stays, being valid or held. */
    method TimerUnsubscribe(t: nat, n: nat) returns (err: Errno)
      requires Inv(S()) && t in timers && (timers[t].valid || t in holds)
      modifies this`timers
      ensures err == if n in old(timers)[t].subscribers then Ok else ENOENT
      ensures Inv(S()) && Frame(old(S()), S(), {}) && t in timers
      ensures timers == old(timers)[t := timers[t]] && (err != Ok ==> S() == old(S()))
      ensures timers[t] ==
                old(timers)[t].(subscribers := Without(old(timers)[t].subscribers, n), refs := timers[t].refs)
    {
      hide Inv, Frame;
      FrameSelf(S(), {});
      var list := timers[t].subscribers;
      if n !in list {
        WithoutAbsent(list, n);
        return ENOENT;
      }
      WithoutCounts(list, n);
      ResubscribedInv(S(), t, Without(list, n));
      FrameRecord(S(), Resubscribed(S(), t, Without(list, n)), t);
      timers := timers[t := timers[t].(subscribers := Without(list, n), refs := timers[t].refs - 1)];
      assert S() == Resubscribed(old(S()), t, Without(list, n));
      return Ok;
    }

    /** Remove every subscription of a held timer; the walk removes the cell it is on. */
    method TimerUnsubscribeAll(t: nat)
      requires Inv(S()) && t in timers && t in holds
      modifies this`timers
      ensures Inv(S()) && Frame(old(S()), S(), {}) && t in timers
      ensures timers[t].subscribers == [] && SameTimes(old(timers)[t], timers[t]) && OnlyTimer(old(timers), timers, t)
    {
      hide Inv, Frame;
      ghost var s := S();
      FrameSelf(s, {});
      var rest := timers[t].subscribers;
      while rest != []
        invariant Inv(S()) && Frame(s, S(), {}) && t in timers
        invariant timers[t].subscribers == rest && SameTimes(s.timers[t], timers[t]) && OnlyTimer(s.timers, timers, t)
        decreases |rest|
      {
        ghost var u := S();
        var n, saved := rest[0], rest[1..];
        var _ := TimerUnsubscribe(t, n);
        FrameTwice(s, u, S(), {});
        rest := saved;
      }
    }

    /** The timer is invalid and off the list, and its own reference is the caller's. */
    method Retire(t: nat)
      requires Inv(S()) && t in timers && timers[t].valid
      modifies this`timers, this`list, this`holds
      ensures old(timers)[t].registered ==> old(timers)[t].refs > 1
      ensures Inv(S()) && S() == Retired(old(S()), t)
    {
      RetiredInv(S(), t);
      hide Inv, Frame, Unlisted, Without;
      timers := timers[t := timers[t].(valid := false)];
      holds := holds + multiset{t};
      if timers[t].registered {
        TimerDeregister(t);
      }
    }

    /** Remove a timer: off the list, without subscribers, and gone unless somebody holds it. */
    method TimerRm(t: nat)
      requires Inv(S()) && t in timers && timers[t].valid
      modifies this`timers, this`list, this`holds
      ensures Inv(S()) && Frame(old(S()), S(), {t}) && holds == old(holds)
      ensures t in timers <==> t in old(holds)
      ensures t in timers ==> !timers[t].valid && !timers[t].registered && timers[t].subscribers == []
      ensures OnlyTimer(old(timers), timers, t) && list == Without(old(list), t)
    {
      hide Inv, Frame, Retired, Without, OnlyTimer, Drop;
      ghost var s := S();
      RetiredInv(s, t);
      RetiredList(s, t);
      Retire(t);
      ghost var s1 := S();
      TimerUnsubscribeAll(t);
      FrameWiden(s1, S(), {}, {t});
      FrameTwice(s, s1, S(), {t});
      ghost var u := S();
      OnlyTwice(s.timers, s1.timers, u.timers, t);
      RetiredGoes(u, t);
      TimerUnref(t);
      FrameTwice(s, u, S(), {t});
      OnlyTwice(s.timers, u.timers, timers, t);
      assert s.holds + multiset{t} - multiset{t} == s.holds;
    }

    /** The time of the earliest registered timer, if there is any. */
    method TimersNext() returns (next: Option<Timespec>)
      requires Inv(S())
      ensures next.None? <==> forall t :: t in timers ==> !timers[t].registered
      ensures next.Some? ==> exists t :: t in timers && timers[t].registered && timers[t].next == next.value
      ensures next.Some? ==> forall t :: t in timers && timers[t].registered ==> Ns(next.value) <= Ns(timers[t].next)
    {
      InvFacts(S());
      hide Inv, NoDup;
      if list == [] {
        return None;
      }
      assert list[0] in list;
      forall t | t in list ensures Ns(timers[list[0]].next) <= Ns(timers[t].next) {
        var j :| 0 <= j < |list| && list[j] == t;
      }
      return Some(timers[list[0]].next);
    }

    // ---- By id, as messages name timers: found, held meanwhile, and let go ----

    method Hold(t: nat)
      requires Inv(S()) && t in timers
      modifies this`timers, this`holds
      ensures Inv(S()) && S() == Ref(old(S()), t) && Frame(old(S()), S(), {})
      ensures t in timers && timers[t] == old(timers)[t].(refs := timers[t].refs)
      ensures OnlyTimer(old(timers), timers, t) && old(timers)[t].refs > 0 && Drop(S(), t) == old(S())
    {
      RecordFact(S(), t);
      RefDrop(S(), t);
      hide Inv, Frame, NoDup, Sorted, OnlyTimer;
      FrameRecord(S(), Ref(S(), t), t);
      TimerRef(t);
    }

    method LetGo(t: nat)
      requires Inv(S()) && t in holds
      modifies this`timers, this`holds
      ensures t in old(timers) && old(timers)[t].refs > 0
      ensures Inv(S()) && S() == Drop(old(S()), t) && Frame(old(S()), S(), {t})
      ensures (old(timers)[t].valid ==> Frame(old(S()), S(), {}))
      ensures t in timers ==>
                SameTimes(old(timers)[t], timers[t]) && timers[t].subscribers == old(timers)[t].subscribers
      ensures old(timers)[t].valid ==> t in timers
      ensures OnlyTimer(old(timers), timers, t)
    {
      hide Inv, Frame, OnlyTimer;
      DropFrame(S(), t);
      DropOnly(S(), t);
      TimerUnref(t);
    }

    method SetById(t: nat, next: Timespec, interval: Timespec, absolute: bool, intervalOnly: bool, now: Timespec)
      requires Inv(S()) && Normal(next) && Normal(interval) && Normal(now)
      requires t in timers ==> CanSet(timers[t], next, intervalOnly)
      modifies this`timers, this`list, this`holds
      ensures Inv(S()) && Frame(old(S()), S(), {t})
      ensures Performed(old(S()), Set(t, next, interval, absolute, intervalOnly, now), S())
    {
      hide Inv, Frame, OnlyTimer, BehindEquals, SetNext, Drop, Ref;
      ghost var s := S();
      FrameSelf(s, {t});
      if t in timers && timers[t].valid {
        RefKeeps(s, t);
        Hold(t);
        FrameWiden(s, S(), {}, {t});
        ghost var s1 := S();
        var _, _ := TimerSet(t, next, interval, absolute, intervalOnly, now);
        OnlyTwice(s.timers, s1.timers, timers, t);
        FrameTwice(s, s1, S(), {t});
        ghost var s2 := S();
        DropKeeps(s2, t);
        LetGo(t);
        OnlyTwice(s.timers, s2.timers, timers, t);
        FrameTwice(s, s2, S(), {t});
        HeldBack(s.holds, t);
      }
    }

    method SubscribeById(t: nat, nodeValid: bool, n: nat, memory: bool)
      requires Inv(S())
      modifies this`timers, this`holds
      ensures Inv(S()) && Frame(old(S()), S(), {})
      ensures Performed(old(S()), Subscribe(t, nodeValid, n, memory), S())
    {
      hide Inv, Frame, OnlyTimer, Drop, Ref;
      ghost var s := S();
      FrameSelf(s, {});
      if t in timers && timers[t].valid {
        RefKeeps(s, t);
        Hold(t);
        ghost var s1 := S();
        var _ := TimerSubscribe(t, nodeValid, n, memory);
        OnlyTwice(s.timers, s1.timers, timers, t);
        FrameTwice(s, s1, S(), {});
        ghost var s2 := S();
        FrameValid(s1, s2, t);
        DropKeeps(s2, t);
        LetGo(t);
        OnlyTwice(s.timers, s2.timers, timers, t);
        FrameTwice(s, s2, S(), {});
        HeldBack(s.holds, t);
      }
    }

    method UnsubscribeById(t: nat, n: nat)
      requires Inv(S())
      modifies this`timers, this`holds
      ensures Inv(S()) && Frame(old(S()), S(), {})
      ensures Performed(old(S()), Unsubscribe(t, n), S())
    {
      hide Inv, Frame, OnlyTimer, Drop, Ref;
      ghost var s := S();
      FrameSelf(s, {});
      if t in timers && timers[t].valid {
        RefKeeps(s, t);
        Hold(t);
        ghost var s1 := S();
        var _ := TimerUnsubscribe(t, n);
        OnlySet(s1.timers, t, timers[t]);
        OnlyTwice(s.timers, s1.timers, timers, t);
        FrameTwice(s, s1, S(), {});
        ghost var s2 := S();
        FrameValid(s1, s2, t);
        DropKeeps(s2, t);
        LetGo(t);
        OnlyTwice(s.timers, s2.timers, timers, t);
        FrameTwice(s, s2, S(), {});
        HeldBack(s.holds, t);
      }
    }

    // ---- Handlers ----

    /** One thing that is done to a timer. One for a timer that does not exist does nothing, nor does a setting that the
        assertion would refuse. */
    method Perform(c: TimerCommand, ghost current: nat)
      requires Inv(S()) && Timely(c)
      modifies this`timers, this`list, this`lastid, this`holds
      ensures Inv(S()) && Performed(old(S()), c, S()) && Frame(old(S()), S(), MovedBy(c))
      ensures forall limit :: Late(c, limit) ==> Calmed(old(S()), S(), current, limit)
    {
      hide Inv, Frame, Calmed, OnlyTimer, BehindEquals, Without, NewTimer;
      ghost var s := S();
      FrameSelf(s, MovedBy(c));
      match c {
        case Create(memory) =>
          NewTimerFrame(s);
          NewTimerHolds(s);
          var _, _ := TimerCreate(memory);
        case Set(t, next, interval, absolute, intervalOnly, now) =>
          if t in timers ==> CanSet(timers[t], next, intervalOnly) {
            SetById(t, next, interval, absolute, intervalOnly, now);
          }
        case Unset(t) =>
          if t in timers {
            TimerUnset(t);
          } else {
            UnknownTimer(s, t);
          }
        case Remove(t) =>
          if t in timers && timers[t].valid {
            TimerRm(t);
          }
        case Subscribe(t, nodeValid, n, memory) =>
          SubscribeById(t, nodeValid, n, memory);
        case Unsubscribe(t, n) =>
          UnsubscribeById(t, n);
      }
      hide Performed;
      forall limit | Late(c, limit) ensures Calmed(s, S(), current, limit) {
        CommandCalms(s, S(), c, current, limit);
      }
    }

    /** The same for a list of commands outside of a pass; those with times out of order are not commands. */
    method PerformAll(commands: seq<TimerCommand>)
      requires Inv(S())
      modifies this`timers, this`list, this`lastid, this`holds
      ensures Inv(S()) && PerformedAll(old(S()), commands, S())
      ensures holds == old(holds) && Frame(old(S()), S(), Moved(commands))
      decreases |commands|
    {
      hide Inv, Frame, Calmed, Performed, Timely;
      ghost var s := S();
      FrameSelf(s, Moved(commands));
      if commands != [] {
        if Timely(commands[0]) {
          Perform(commands[0], 0);
          PerformedHolds(s, commands[0], S());
          FrameWiden(s, S(), MovedBy(commands[0]), Moved(commands));
        }
        ghost var s1 := S();
        PerformAll(commands[1..]);
        PerformedFirst(s, commands, s1, S());
        FrameWiden(s1, S(), Moved(commands[1..]), Moved(commands));
        FrameTwice(s, s1, S(), Moved(commands));
      }
    }

    /** One thing a handler does to a timer. The command is one the walk's hypothesis allows. */
    method RunCommand(c: TimerCommand, current: nat, saved: set<nat>)
      requires Inv(S()) && Allowed(c, current, saved) && current in holds && current in timers
      modifies this`timers, this`list, this`lastid, this`holds
      ensures Inv(S()) && Performed(old(S()), c, S())
      ensures holds == old(holds) && Frame(old(S()), S(), MovedBy(c) - saved)
      ensures current in timers
      ensures current !in MovedBy(c) || timers[current].valid ==> SameTimes(old(timers)[current], timers[current])
      ensures forall limit :: Late(c, limit) ==> Calmed(old(S()), S(), current, limit)
    {
      hide Inv, Frame, Calmed, Performed;
      ghost var s := S();
      assert MovedBy(c) - saved == MovedBy(c);
      Perform(c, current);
      PerformedHolds(s, c, S());
      HeldRecord(s, S(), MovedBy(c), current);
      RemovedSame(s, c, S(), current);
    }

    /** A handler: the commands the walk's hypothesis allows, one after the other. */
    method RunHandler(script: seq<TimerCommand>, current: nat, saved: set<nat>)
      requires Inv(S()) && current in holds && current in timers
      modifies this`timers, this`list, this`lastid, this`holds
      ensures Inv(S()) && HandlerRan(old(S()), script, current, saved, S())
      ensures holds == old(holds) && Frame(old(S()), S(), Moved(script) - saved)
      ensures current in timers
      ensures current !in Moved(script) || timers[current].valid ==> SameTimes(old(timers)[current], timers[current])
      ensures forall limit :: LateScript(script, limit) ==> Calmed(old(S()), S(), current, limit)
      decreases |script|
    {
      hide Inv, Frame, Calmed, Performed;
      ghost var s := S();
      FrameSelf(s, {});
      FrameSelf(s, Moved(script) - saved);
      forall limit ensures Calmed(s, s, current, limit) {
        CalmedSelf(s, current, limit);
      }
      if script != [] {
        if Allowed(script[0], current, saved) {
          RunCommand(script[0], current, saved);
        }
        FrameWiden(s, S(), if Allowed(script[0], current, saved) then MovedBy(script[0]) - saved else {},
                   Moved(script) - saved);
        ghost var s1 := S();
        RunHandler(script[1..], current, saved);
        HandlerRanFirst(s, script, current, saved, s1, S());
        FrameWiden(s1, S(), Moved(script[1..]) - saved, Moved(script) - saved);
        FrameTwice(s, s1, S(), Moved(script) - saved);
        forall limit | LateScript(script, limit) ensures Calmed(s, S(), current, limit) {
          ListedSame(s, s1, current);
          CalmedTwice(s, s1, S(), current, limit);
        }
      }
    }

    // ---- The pass ----

    /** Put a timer that has triggered back for its next deadline, if it still exists and is periodic. */
    method PutBackTimer(t: nat)
      requires Inv(S()) && t in timers && t in holds && (timers[t].valid ==> timers[t].registered)
      modifies this`timers, this`list
      ensures Inv(S()) && t in timers && Frame(old(S()), S(), {t})
      ensures if old(timers)[t].valid then Advanced(old(timers)[t], timers[t]) && LessBehind(old(S()), S(), t)
              else S() == old(S())
      ensures t in timers && timers[t].registered ==> BehindEquals(S(), t)
      ensures WasPutBack(old(S()), S(), t)
    {
      InvFacts(S());
      hide Inv, Frame, NoDup, Sorted, LessBehind, IsListed, Unlisted, BehindEquals, OnlyTimer;
      ghost var s := S();
      FrameSelf(s, {t});
      if timers[t].valid {
        UnlistedInv(s, t);
        UnlistedFrame(s, t);
        TakenOff(s, t);
        UnlistedRecord(s, t);
        TimerDeregister(t);
        ghost var s1 := S();
        UnlistedOnly(s, t);
        if !IsZero(timers[t].interval) {
          var next := Inc(timers[t].next, timers[t].interval);
          RetimedInv(s1, t, next, timers[t].interval);
          timers := timers[t := timers[t].(next := next)];
          ghost var s2 := S();
          assert s2 == Retimed(s1, t, next, s1.timers[t].interval);
          FrameRecord(s1, s2, t);
          FrameTwice(s, s1, s2, {t});
          OnlySet(s1.timers, t, timers[t]);
          OnlyTwice(s.timers, s1.timers, s2.timers, t);
          TimerRegister(t);
          ListedRecord(s2, S(), t);
          OnlyTwice(s.timers, s2.timers, timers, t);
          FrameTwice(s, s2, S(), {t});
          PutBack(s, t, next, S());
        }
      }
    }

    /** Send a held timer's message to its subscribers and put the timer back. */
    method TriggerHeld(t: nat, saved: set<nat>, script: seq<TimerCommand>)
      requires Inv(S()) && t in holds && t in timers && timers[t].valid && timers[t].registered && t !in saved
      modifies this
      ensures HeldTurn(old(S()), S(), t, Moved(script) - saved, script) && HeldRan(old(S()), t, saved, script, S())
      ensures log == old(log) + [Firing(t, Ns(old(timers)[t].next))]
    {
      hide Inv, Frame, LessBehind, Nearer, Calmed, Ns, Normal, BehindEquals, HandlerRan, WasPutBack;
      ghost var s := S();
      RegisteredListed(s, t);
      log := log + [Firing(t, Ns(timers[t].next))];
      RunHandler(script, t, saved);
      ghost var s1 := S();
      PutBackTimer(t);
      HandlerNearer(s, s1, S(), t, script);
      FrameBoth(s, s1, S(), t, Moved(script) - saved);
    }

    /** One turn of the walk: the timer is held, its message is sent, and it is put back. */
    method TriggerOne(t: nat, saved: set<nat>, script: seq<TimerCommand>)
      requires Inv(S()) && t in list && t !in saved && t in timers
      modifies this
      ensures Turn(old(S()), S(), t, Moved(script) - saved) && holds == old(holds)
      ensures log == old(log) + [Firing(t, Ns(old(timers)[t].next))]
      ensures Nearer(old(S()), S(), t, script) && TurnRan(old(S()), t, saved, script, S())
    {
      hide Inv, Frame, Nearer, Ref, Drop, Turn, HeldTurn, Ns, Normal, HeldRan, TurnRan, OnlyTimer;
      ghost var s := S();
      ListedTimer(s, t);
      Hold(t);
      TriggerHeld(t, saved, script);
      ghost var s2 := S();
      HeldStill(s, s2, t, Moved(script) - saved, script);
      LetGo(t);
      TurnRanIs(s, t, saved, script, s2);
      TurnMade(s, s2, t, Moved(script) - saved, script);
    }

    /** Trigger every timer that is due at `now`, or a little after; when `force` is set, at least the first.
        `scripts[k]` is what the handlers of the k-th trigger do. Only handlers that make a timer due again can
        keep the pass going: with none of those it is over after as many triggers as the list is behind. */
    method TimersTrigger(force: bool, now: Timespec, scripts: seq<seq<TimerCommand>>)
      returns (ghost fired: seq<Firing>, ghost states: seq<State>)
      requires Inv(S()) && Normal(now)
      modifies this
      ensures Passing(old(S()), S(), Ns(now) + MILLION, {}, fired, MovedIn(scripts),
                      Early(old(S()), force, Ns(now) + MILLION))
      ensures PassRan(states, fired, scripts) && |states| == |fired| + 1
      ensures states[0] == old(S()) && states[|fired|] == S()
      ensures log == old(log) + fired
      ensures old(list) != [] && !Early(old(S()), true, Ns(now) + MILLION) ==> fired != []
      ensures old(list) != [] && force ==> fired != []
      ensures fired != [] ==>
                && old(list) != [] && old(list)[0] in old(timers)
                && fired[0] == Firing(old(list)[0], Ns(old(timers)[old(list)[0]].next))
      ensures LateScripts(scripts, Ns(now) + MILLION) ==>
                Lags(timers, list, Ns(now) + MILLION) + |fired| <=
                Lags(old(timers), old(list), Ns(now) + MILLION)
                + if Early(old(S()), force, Ns(now) + MILLION) then 1 else 0
    {
      hide Inv, NoDup, Passing, Turn, Lags, MovedIn, Nearer, LateScript, Early, PassRan, StandsAt, TurnRan, Following;
      ghost var s0 := S();
      var limit := Inc(now, COALESCE);
      assert Ns(limit) == Ns(now) + MILLION;
      ghost var early := Early(s0, force, Ns(limit));
      var forced := force;
      var cursor := if list == [] then None else Some(list[0]);
      var k := 0;
      ghost var touched: set<nat> := {};
      fired, states := [], [s0];
      PassRanBegins(s0, scripts, cursor);
      PassingBegins(s0, Ns(limit), AsSet(cursor), early);
      EarlyFirst(s0, force, Ns(limit));
      EarlyFirst(s0, true, Ns(limit));
      while cursor.Some?
        invariant Passing(s0, S(), Ns(limit), AsSet(cursor), fired, touched, early)
        invariant touched <= MovedIn(scripts) && log == old(log) + fired
        invariant PassRan(states, fired, scripts) && |states| == |fired| + 1 && StandsAt(states, fired, cursor)
        invariant states[0] == s0 && states[|fired|] == S() && k == |fired|
        invariant forced ==> force
        invariant fired == [] ==>
                    && S() == s0 && forced == force && k == 0
                    && cursor == (if s0.list == [] then None else Some(s0.list[0]))
        invariant fired != [] ==>
                    && !forced && s0.list != [] && s0.list[0] in s0.timers
                    && fired[0] == Firing(s0.list[0], Ns(s0.timers[s0.list[0]].next))
        invariant LateScripts(scripts, Ns(limit)) ==>
                    Lags(timers, list, Ns(limit)) + |fired| <=
                    Lags(s0.timers, s0.list, Ns(limit)) + if early && fired != [] then 1 else 0
        decreases Unruly(scripts, k, Ns(limit)), forced, Lags(timers, list, Ns(limit))
      {
        var t := cursor.value;
        PassingCursor(s0, S(), Ns(limit), t, fired, touched, early);
        var saved := Following(list, t);
        if !forced && Gt(timers[t].next, limit) {
          PassingBreaks(s0, S(), Ns(limit), t, fired, touched, early);
          cursor := None;
          break;
        }
        var script := ScriptAt(scripts, k);
        ghost var s := S();
        ghost var i := PlaceOf(s, t);
        FollowingAt(list, i);
        TriggerOne(t, AsSet(saved), script);
        if LateScript(script, Ns(limit)) {
          NearerAt(s, S(), t, script, Ns(limit));
        }
        NothingIsLate(Ns(limit));
        PassingStep(s0, s, S(), Ns(limit), i, fired, touched, Moved(script) - AsSet(saved), early);
        if k < |scripts| {
          MovedInOne(scripts, k);
        }
        PassRanMore(states, fired, scripts, Firing(t, Ns(s.timers[t].next)), S());
        fired, states := fired + [Firing(t, Ns(s.timers[t].next))], states + [S()];
        touched := touched + (Moved(script) - AsSet(saved));
        k := k + 1;
        forced := false;
        cursor := saved;
      }
      PassingWiden(s0, S(), Ns(limit), fired, touched, MovedIn(scripts), early);
    }

    /** Passes at one time until nothing is due, whatever handlers do: `plans[i]` is what those of the i-th pass do.
        Every timer they leave alone is triggered exactly once for every deadline it was owed, whichever passes they
        fell in. */
    method CatchUp(now: Timespec, plans: seq<seq<seq<TimerCommand>>>) returns (ghost fired: seq<Firing>)
      requires Inv(S()) && Normal(now)
      modifies this
      ensures Inv(S()) && holds == old(holds) && log == old(log) + fired
      ensures Conserved(old(S()), S(), fired, TouchedByPlans(plans)) && Due(fired, Ns(now) + MILLION, false)
      ensures forall t :: t in timers && timers[t].registered ==> Ns(timers[t].next) > Ns(now) + MILLION
      ensures forall t :: t !in TouchedByPlans(plans) ==> Of(fired, t) == Owed(old(timers), t, Ns(now) + MILLION)
    {
      hide Inv, NoDup, Passing, Lags, Conserved, Due, Of, Owed, LateScripts, MovedIn, TouchedByPlans;
      NormalTimers(S());
      ghost var s0 := S();
      var limit := Inc(now, COALESCE);
      var i := 0;
      fired := [];
      ConservedBegins(s0, Ns(limit));
      ConservedWiden(s0, s0, [], {}, TouchedByPlans(plans));
      var next := TimersNext();
      while next.Some? && !Gt(next.value, limit)
        invariant Inv(S()) && holds == old(holds) && log == old(log) + fired
        invariant Conserved(s0, S(), fired, TouchedByPlans(plans)) && Due(fired, Ns(limit), false)
        invariant next.None? <==> forall t :: t in timers ==> !timers[t].registered
        invariant next.Some? ==> exists t :: t in timers && timers[t].registered && timers[t].next == next.value
        invariant next.Some? ==>
                    forall t :: t in timers && timers[t].registered ==> Ns(next.value) <= Ns(timers[t].next)
        decreases UnrulyPlans(plans, i, Ns(limit)), Lags(timers, list, Ns(limit))
      {
        ghost var s := S();
        NormalNext(s, next.value);
        FirstIsNext(s, next.value);
        var plan := if i < |plans| then plans[i] else [];
        NoPlanIsLate(Ns(limit));
        ghost var more, _ := TimersTrigger(false, now, plan);
        PassingConserves(s, S(), Ns(limit), more, MovedIn(plan), false);
        if i < |plans| {
          TouchedByPlan(plans, i);
        }
        ConservedTwice(s0, s, S(), fired, more, TouchedByPlans(plans), MovedIn(plan));
        ConservedWiden(s0, S(), fired + more, TouchedByPlans(plans) + MovedIn(plan), TouchedByPlans(plans));
        DueTwice(fired, more, Ns(limit));
        fired := fired + more;
        i := i + 1;
        next := TimersNext();
      }
      NormalTimers(S());
      AllPaid(s0, S(), Ns(limit), fired, TouchedByPlans(plans));
    }

    /** One turn of the main loop. The pass after a timeout is a forced one, and triggers the first timer even if the
        clock shows less than the wait: nothing is triggered early exactly when the first timer is due then, as it is
        when the distance to it fits an int and the clock shows all of the wait. Without timers there is no timeout. */
    method RunLap(lap: Lap) returns (ghost fired: seq<Firing>, ghost states: seq<State>)
      requires Inv(S()) && Timed(lap)
      modifies this
      ensures Inv(S()) && holds == old(holds) && log == old(log) + fired
      ensures LapRan(old(S()), lap, fired, states, S())
      ensures Conserved(old(S()), S(), fired, TouchedBy(lap))
      ensures Due(fired, Ns(lap.later) + MILLION, false) <==> OnTime(old(timers), lap)
      ensures Fits(old(timers), lap) ==> OnTime(old(timers), lap)
    {
      hide Inv, NoDup, Passing, Lags, Conserved, Due, Frame, LateScripts, MovedIn, Moved, TouchedBy;
      hide Early, OnTime, Fits, PerformedAll, PassRan, LapRan, AllFired, Forced;
      ghost var s := S();
      var next := TimersNext();
      if Fits(s.timers, lap) {
        FitsOnTime(s, lap);
      }
      EarlyUnlessOnTime(s, lap, next);
      var force := lap.timedOut && next.Some?;
      IsForced(s.timers, lap, next);
      NothingPerformed(s);
      if !force {
        PerformAll(lap.sockets);
      }
      ghost var s1 := S();
      FrameSelf(s, Moved(lap.sockets));
      FrameConserves(s, s1, Moved(lap.sockets));
      fired, states := TimersTrigger(force, lap.later, lap.scripts);
      ghost var s2 := S();
      ghost var early := Early(s1, force, Ns(lap.later) + MILLION);
      UnforcedIsNotEarly(s, Ns(lap.later) + MILLION);
      UnforcedIsNotEarly(s1, Ns(lap.later) + MILLION);
      if early {
        EarlyIsNotDue(s1, Ns(lap.later) + MILLION, fired);
      }
      PassingConserves(s1, s2, Ns(lap.later) + MILLION, fired, MovedIn(lap.scripts), early);
      PassingFires(s1, s2, Ns(lap.later) + MILLION, fired, MovedIn(lap.scripts), early);
      PerformAll(lap.finish);
      LapRanIs(s, lap, fired, states, s1, s2, S());
      FrameConserves(s2, S(), Moved(lap.finish));
      LapConserves(s, s1, s2, S(), fired, lap);
    }

    /** Any number of turns of the main loop; `states` are those before, between and after them. */
    method RunLaps(laps: seq<Lap>, ghost last: Timespec) returns (ghost fired: seq<Firing>, ghost states: seq<State>)
      requires Inv(S()) && forall i :: 0 <= i < |laps| ==> Timed(laps[i]) && Ns(laps[i].later) <= Ns(last)
      modifies this
      ensures Inv(S()) && holds == old(holds) && log == old(log) + fired
      ensures LapsDone(states, laps) && states[0] == old(S()) && states[|laps|] == S()
      ensures Conserved(old(S()), S(), fired, TouchedIn(laps))
      ensures AllOnTime(states, laps) ==> Due(fired, Ns(last) + MILLION, false)
    {
      hide Inv, Conserved, Due, TouchedIn, TouchedBy, Timed, Ns, OnTime, LapDone, LapsDone, AllOnTime, LapRan;
      ghost var s0 := S();
      fired, states := [], [s0];
      ConservedBegins(s0, Ns(last) + MILLION);
      ConservedWiden(s0, s0, [], {}, TouchedIn(laps));
      NoLaps(s0);
      assert laps[..0] == [];
      var i := 0;
      while i < |laps|
        invariant i <= |laps| && Inv(S()) && holds == old(holds) && log == old(log) + fired
        invariant LapsDone(states, laps[..i]) && |states| == i + 1 && states[0] == s0 && states[i] == S()
        invariant Conserved(s0, S(), fired, TouchedIn(laps))
        invariant AllOnTime(states, laps[..i]) ==> Due(fired, Ns(last) + MILLION, false)
      {
        ghost var s := S();
        ghost var more, turns := RunLap(laps[i]);
        LapMade(s, S(), laps[i], more, turns);
        LapsMore(states, laps, i, S());
        TouchedInOne(laps, i);
        ConservedTwice(s0, s, S(), fired, more, TouchedIn(laps), TouchedBy(laps[i]));
        ConservedWiden(s0, S(), fired + more, TouchedIn(laps) + TouchedBy(laps[i]), TouchedIn(laps));
        states := states + [S()];
        if AllOnTime(states, laps[..i + 1]) {
          DueLater(more, Ns(laps[i].later) + MILLION, Ns(last) + MILLION);
          DueTwice(fired, more, Ns(last) + MILLION);
        }
        fired := fired + more;
        i := i + 1;
      }
      assert laps[..i] == laps;
    }

    /** Turns of the main loop at any times, however late or often, and then passes until nothing is due at `last`: the
        deadlines of every timer left alone do not drift, and if nothing was triggered early, as when every wait was a
        full one for a distance that fits an int, each is met exactly once. */
    method RunPasses(laps: seq<Lap>, last: Timespec, plans: seq<seq<seq<TimerCommand>>>)
      returns (ghost fired: seq<Firing>, ghost states: seq<State>)
      requires Inv(S()) && Normal(last)
      requires forall i :: 0 <= i < |laps| ==> Timed(laps[i]) && Ns(laps[i].later) <= Ns(last)
      modifies this
      ensures Inv(S()) && holds == old(holds) && log == old(log) + fired
      ensures LapsDone(states, laps) && states[0] == old(S())
      ensures Conserved(old(S()), S(), fired, TouchedIn(laps) + TouchedByPlans(plans))
      ensures AllOnTime(states, laps) ==> Due(fired, Ns(last) + MILLION, false)
      ensures Due(fired, Ns(last) + MILLION, false) ==>
                forall t :: t !in TouchedIn(laps) + TouchedByPlans(plans) ==>
                              Of(fired, t) == Owed(old(timers), t, Ns(last) + MILLION)
    {
      hide Inv, Conserved, Due, TouchedIn, TouchedByPlans, Timed, Ns, Normal, Of, Owed, LapDone, AllOnTime;
      ghost var s0 := S();
      NormalTimers(s0);
      fired, states := RunLaps(laps, last);
      ghost var s := S();
      ghost var more := CatchUp(last, plans);
      ConservedTwice(s0, s, S(), fired, more, TouchedIn(laps), TouchedByPlans(plans));
      if AllOnTime(states, laps) {
        DueTwice(fired, more, Ns(last) + MILLION);
      }
      fired := fired + more;
      if Due(fired, Ns(last) + MILLION, false) {
        AllPaid(s0, S(), Ns(last) + MILLION, fired, TouchedIn(laps) + TouchedByPlans(plans));
      }
    }
  }
}
