/** What a trigger pass has done so far, and why every timer gets what it is owed. */
module TimerPass {
  import opened Errors
  import opened Lists
  import opened Timespecs
  import opened TimerState
  import opened TimerSteps

  /** One trigger: which timer, and the deadline it was for. */
  datatype Firing = Firing(timer: nat, deadline: int)

  /** What a handler may do to timers. */
  datatype TimerCommand =
    | Create(memory: bool)
    | Set(t: nat, next: Timespec, interval: Timespec, absolute: bool, intervalOnly: bool, now: Timespec)
    | Unset(t: nat)
    | Remove(t: nat)
    | Subscribe(t: nat, nodeValid: bool, n: nat, memory: bool)
    | Unsubscribe(t: nat, n: nat)

  function MovedBy(c: TimerCommand): set<nat> {
    match c
    case Set(t, _, _, _, _, _) => {t}
    case Unset(t) => {t}
    case Remove(t) => {t}
    case _ => {}
  }

  /** The timers a handler sets, unsets or removes. */
  function Moved(script: seq<TimerCommand>): set<nat> {
    if script == [] then {} else MovedBy(script[0]) + Moved(script[1..])
  }

  function MovedIn(scripts: seq<seq<TimerCommand>>): set<nat> {
    if scripts == [] then {} else Moved(scripts[0]) + MovedIn(scripts[1..])
  }

  /** The walk's hypothesis on handlers: the timer whose turn comes next is not set, unset or removed, and
      the timer that is triggering is at most removed, not set or unset. */
  predicate Allowed(c: TimerCommand, current: nat, saved: set<nat>) {
    match c
    case Set(t, next, interval, _, _, now) =>
      t !in saved && t != current && Normal(next) && Normal(interval) && Normal(now)
    case Unset(t) => t !in saved && t != current
    case Remove(t) => t !in saved
    case _ => true
  }

  /** Its times are in order. */
  predicate Timely(c: TimerCommand) {
    match c
    case Set(_, next, interval, _, _, now) => Normal(next) && Normal(interval) && Normal(now)
    case _ => true
  }

  /** A command that leaves no timer due by `limit` that was not so before: anything but setting a timer to a time
      up to `limit`, or changing only an interval, which may put an old time back on the list. */
  predicate Late(c: TimerCommand, limit: int) {
    match c
    case Set(_, next, interval, absolute, intervalOnly, now) =>
      || (IsZero(next) && IsZero(interval))
      || (if IsZero(next) then !intervalOnly && Ns(now) + Ns(interval) > limit
          else (if absolute then Ns(next) else Ns(next) + Ns(now)) > limit)
    case _ => true
  }

  predicate LateScript(script: seq<TimerCommand>, limit: int) {
    script == [] || (Late(script[0], limit) && LateScript(script[1..], limit))
  }

  predicate LateScripts(scripts: seq<seq<TimerCommand>>, limit: int) {
    forall i :: 0 <= i < |scripts| ==> LateScript(scripts[i], limit)
  }

  /** How many of the scripts from the k-th on may make a timer due again. */
  function Unruly(scripts: seq<seq<TimerCommand>>, k: nat, limit: int): nat
    decreases |scripts| - k
  {
    if k >= |scripts| then 0 else (if LateScript(scripts[k], limit) then 0 else 1) + Unruly(scripts, k + 1, limit)
  }

  /** The deadlines timer t was triggered for, in order. */
  function Of(fired: seq<Firing>, t: nat): seq<int> {
    if fired == [] then []
    else Of(fired[..|fired| - 1], t) +
         (if fired[|fired| - 1].timer == t then [fired[|fired| - 1].deadline] else [])
  }

  lemma OfMore(fired: seq<Firing>, f: Firing, t: nat)
    ensures Of(fired + [f], t) == Of(fired, t) + if f.timer == t then [f.deadline] else []
  {
    assert (fired + [f])[..|fired|] == fired;
  }

  lemma {:induction false} OfSplit(a: seq<Firing>, b: seq<Firing>, t: nat)
    ensures Of(a + b, t) == Of(a, t) + Of(b, t)
  {
    if b == [] {
      assert a + b == a;
    } else {
      var f := b[|b| - 1];
      var b' := b[..|b| - 1];
      assert a + b == (a + b') + [f] && b == b' + [f];
      OfSplit(a, b', t);
      OfMore(a + b', f, t);
      OfMore(b', f, t);
    }
  }

  // ---- What commands do ----

  /** A valid timer has been set: the new time and interval, behind its equals; nothing else about it has changed. */
  ghost predicate WasSet(s: State, s': State, t: nat, next: Timespec, interval: Timespec, absolute: bool,
                         intervalOnly: bool, now: Timespec)
  {
    && t in s.timers && t in s'.timers && s'.timers[t].valid && s'.timers[t].registered
    && (!IsZero(next) && absolute ==> s'.timers[t].next == next)
    && (!IsZero(next) && !absolute ==> Ns(s'.timers[t].next) == Ns(now) + Ns(next))
    && (IsZero(next) && !intervalOnly ==> Ns(s'.timers[t].next) == Ns(now) + Ns(interval))
    && (IsZero(next) && intervalOnly ==> s'.timers[t].next == s.timers[t].next)
    && s'.timers[t].interval == interval && s'.timers[t].subscribers == s.timers[t].subscribers
    && BehindEquals(s', t)
  }

  /** The subscribers of a valid timer have become these; nothing else about it has changed. */
  ghost predicate HasSubscribers(s: State, s': State, t: nat, subscribers: seq<nat>) {
    && t in s.timers && t in s'.timers && SameTimes(s.timers[t], s'.timers[t])
    && s'.timers[t].subscribers == subscribers && s'.list == s.list
  }

  /** What a command does. One for a timer that does not exist any more does nothing, nor does one that is refused. */
  ghost predicate Performed(s: State, c: TimerCommand, s': State) {
    s'.holds == s.holds &&
    match c
    case Create(memory) => s' == if memory then NewTimer(s) else s
    case Set(t, next, interval, absolute, intervalOnly, now) =>
      if && t in s.timers && s.timers[t].valid && !(IsZero(next) && IsZero(interval))
         && CanSet(s.timers[t], next, intervalOnly)
      then OnlyTimer(s.timers, s'.timers, t) && WasSet(s, s', t, next, interval, absolute, intervalOnly, now)
      else s' == s
    case Unset(t) =>
      && OnlyTimer(s.timers, s'.timers, t) && s'.list == Without(s.list, t)
      && (t in s'.timers <==> t in s.timers)
      && (t in s'.timers ==> s'.timers[t] == s.timers[t].(registered := false, refs := s'.timers[t].refs))
    case Remove(t) =>
      if t in s.timers && s.timers[t].valid then
        && OnlyTimer(s.timers, s'.timers, t) && s'.list == Without(s.list, t) && (t in s'.timers <==> t in s.holds)
        && (t in s'.timers ==>
              !s'.timers[t].valid && !s'.timers[t].registered && s'.timers[t].subscribers == [])
      else s' == s
    case Subscribe(t, nodeValid, n, memory) =>
      if t in s.timers && s.timers[t].valid && nodeValid && n !in s.timers[t].subscribers && memory then
        OnlyTimer(s.timers, s'.timers, t) && HasSubscribers(s, s', t, s.timers[t].subscribers + [n])
      else s' == s
    case Unsubscribe(t, n) =>
      if t in s.timers && s.timers[t].valid && n in s.timers[t].subscribers then
        OnlyTimer(s.timers, s'.timers, t) && HasSubscribers(s, s', t, Without(s.timers[t].subscribers, n))
      else s' == s
  }

  /** All of these one after another; those with times out of order are not commands. */
  ghost predicate PerformedAll(s: State, commands: seq<TimerCommand>, s': State)
    decreases |commands|
  {
    if commands == [] then s' == s
    else exists u :: PerformedIf(s, commands[0], Timely(commands[0]), u) && PerformedAll(u, commands[1..], s')
  }

  ghost predicate PerformedIf(s: State, c: TimerCommand, guard: bool, s': State) {
    if guard then Performed(s, c, s') else s' == s
  }

  /** The same for a handler, which runs the commands the walk's hypothesis allows. */
  ghost predicate HandlerRan(s: State, script: seq<TimerCommand>, current: nat, saved: set<nat>, s': State)
    decreases |script|
  {
    if script == [] then s' == s
    else exists u ::
        && PerformedIf(s, script[0], Allowed(script[0], current, saved), u)
        && HandlerRan(u, script[1..], current, saved, s')
  }

  lemma NothingPerformed(s: State)
    ensures PerformedAll(s, [], s)
  {
  }

  lemma PerformedHolds(s: State, c: TimerCommand, s': State)
    requires Performed(s, c, s')
    ensures s'.holds == s.holds
  {
  }

  lemma NewTimerHolds(s: State)
    ensures NewTimer(s).holds == s.holds
  {
  }

  lemma UnknownTimer(s: State, t: nat)
    requires Inv(s) && t !in s.timers
    ensures Without(s.list, t) == s.list && OnlyTimer(s.timers, s.timers, t)
  {
    InvFacts(s);
    WithoutAbsent(s.list, t);
  }

  /** A command that names a timer which is valid afterwards and was not to be set or unset leaves its times. */
  lemma RemovedSame(s: State, c: TimerCommand, s': State, t: nat)
    requires Performed(s, c, s') && t in s.timers && t in s'.timers
    requires t in MovedBy(c) ==> c == Remove(t)
    ensures t in MovedBy(c) && s'.timers[t].valid ==> SameTimes(s.timers[t], s'.timers[t])
  {
  }

  lemma PerformedFirst(s: State, commands: seq<TimerCommand>, u: State, s': State)
    requires commands != [] && PerformedAll(u, commands[1..], s')
    requires PerformedIf(s, commands[0], Timely(commands[0]), u)
    ensures PerformedAll(s, commands, s')
  {
    hide PerformedIf, Timely;
  }

  lemma HandlerRanFirst(s: State, script: seq<TimerCommand>, current: nat, saved: set<nat>, u: State, s': State)
    requires script != [] && HandlerRan(u, script[1..], current, saved, s')
    requires PerformedIf(s, script[0], Allowed(script[0], current, saved), u)
    ensures HandlerRan(s, script, current, saved, s')
  {
    hide PerformedIf, Allowed;
  }

  lemma {:induction false} PerformedJoined(s: State, a: seq<TimerCommand>, u: State, b: seq<TimerCommand>, s': State)
    requires PerformedAll(s, a, u) && PerformedAll(u, b, s')
    ensures PerformedAll(s, a + b, s')
    decreases |a|
  {
    hide PerformedIf, Timely;
    if a == [] {
      assert a + b == b;
    } else {
      assert (a + b)[0] == a[0] && (a + b)[1..] == a[1..] + b;
      var v :| PerformedIf(s, a[0], Timely(a[0]), v) && PerformedAll(v, a[1..], u);
      PerformedJoined(v, a[1..], u, b, s');
      PerformedFirst(s, a + b, v, s');
    }
  }

  lemma {:induction false} PerformedParted(s: State, a: seq<TimerCommand>, b: seq<TimerCommand>, s': State)
    returns (u: State)
    requires PerformedAll(s, a + b, s')
    ensures PerformedAll(s, a, u) && PerformedAll(u, b, s')
    decreases |a|
  {
    hide PerformedIf, Timely;
    if a == [] {
      assert a + b == b;
      u := s;
    } else {
      assert (a + b)[0] == a[0] && (a + b)[1..] == a[1..] + b;
      var v :| PerformedIf(s, a[0], Timely(a[0]), v) && PerformedAll(v, (a + b)[1..], s');
      u := PerformedParted(v, a[1..], b, s');
      PerformedFirst(s, a, v, u);
    }
  }

  /** The commands of one list and then those of another are those of both: none is left out. */
  lemma PerformedBoth(s: State, a: seq<TimerCommand>, b: seq<TimerCommand>, s': State)
    ensures PerformedAll(s, a + b, s') <==> exists u :: PerformedAll(s, a, u) && PerformedAll(u, b, s')
  {
    hide PerformedAll;
    if PerformedAll(s, a + b, s') {
      var u := PerformedParted(s, a, b, s');
    }
    if u :| PerformedAll(s, a, u) && PerformedAll(u, b, s') {
      PerformedJoined(s, a, u, b, s');
    }
  }

  // ---- Conservation ----

  /** For every timer the handlers left alone and every horizon that covers what was fired, what was fired
      and what is still owed together are what was owed at the start. */
  ghost predicate Conserved(s: State, s': State, fired: seq<Firing>, touched: set<nat>) {
    forall t, horizon :: t !in touched && (forall i :: 0 <= i < |fired| ==> fired[i].deadline <= horizon) ==>
      Paid(s, s', fired, t, horizon)
  }

  ghost predicate Paid(s: State, s': State, fired: seq<Firing>, t: nat, horizon: int) {
    && (t in s.timers ==> Ns(s.timers[t].interval) >= 0)
    && (t in s'.timers ==> Ns(s'.timers[t].interval) >= 0)
    && Of(fired, t) + Owed(s'.timers, t, horizon) == Owed(s.timers, t, horizon)
  }

  /** What one turn of the walk does to the timer it is on: periodic ones are listed for the next deadline,
      one-shot ones are off the list. */
  predicate Advanced(a: Timer, b: Timer) {
    && b.valid && b.interval == a.interval
    && b.registered == !IsZero(a.interval)
    && (b.registered ==> Normal(b.next) && Ns(b.next) == Ns(a.next) + Ns(a.interval))
  }

  /** One turn of the walk, from s to s': current was triggered and put back, the handler moved `moved`. */
  ghost predicate Turn(s: State, s': State, current: nat, moved: set<nat>) {
    && Inv(s) && Inv(s') && current in s.timers && s.timers[current].registered
    && Frame(s, s', moved + {current})
    && (current !in moved ==> current in s'.timers && Advanced(s.timers[current], s'.timers[current]))
  }

  lemma TurnPays(s: State, s': State, current: nat, moved: set<nat>, t: nat, horizon: int)
    requires Turn(s, s', current, moved) && t !in moved && Ns(s.timers[current].next) <= horizon
    ensures t in s.timers ==> Ns(s.timers[t].interval) >= 0
    ensures t in s'.timers ==> Ns(s'.timers[t].interval) >= 0
    ensures (if t == current then [Ns(s.timers[t].next)] else []) + Owed(s'.timers, t, horizon) ==
              Owed(s.timers, t, horizon)
  {
    InvFacts(s);
    InvFacts(s');
    hide Inv, SameOrder, Sorted, NoDup;
    assert t in s.timers ==> Ns(s.timers[t].interval) >= 0;
    assert t in s'.timers ==> Ns(s'.timers[t].interval) >= 0;
  }

  lemma PaidMore(s0: State, s: State, s': State, fired: seq<Firing>, current: nat, moved: set<nat>, t: nat,
                 horizon: int)
    requires current in s.timers && Turn(s, s', current, moved)
    requires t !in moved && Ns(s.timers[current].next) <= horizon
    requires Paid(s0, s, fired, t, horizon)
    ensures Paid(s0, s', fired + [Firing(current, Ns(s.timers[current].next))], t, horizon)
  {
    hide Turn, Of, Owed;
    TurnPays(s, s', current, moved, t, horizon);
    OfMore(fired, Firing(current, Ns(s.timers[current].next)), t);
  }

  lemma ConservedMore(s0: State, s: State, s': State, fired: seq<Firing>, touched: set<nat>, current: nat,
                      moved: set<nat>)
    requires Conserved(s0, s, fired, touched) && Turn(s, s', current, moved)
    ensures Conserved(s0, s', fired + [Firing(current, Ns(s.timers[current].next))], touched + moved)
  {
    var fired' := fired + [Firing(current, Ns(s.timers[current].next))];
    hide Turn, Paid;
    forall t, horizon | t !in touched + moved && (forall i :: 0 <= i < |fired'| ==> fired'[i].deadline <= horizon)
      ensures Paid(s0, s', fired', t, horizon)
    {
      assert forall i :: 0 <= i < |fired| ==> fired[i] == fired'[i];
      assert fired'[|fired|].deadline <= horizon;
      PaidMore(s0, s, s', fired, current, moved, t, horizon);
    }
  }

  /** A timer that is still valid has been put back: listed for the next deadline behind its equals, or off the list;
      nothing else about it has changed. */
  ghost predicate WasPutBack(s: State, s': State, t: nat) {
    && t in s.timers && t in s'.timers
    && if s.timers[t].valid then
         && OnlyTimer(s.timers, s'.timers, t) && Advanced(s.timers[t], s'.timers[t])
         && s'.timers[t].subscribers == s.timers[t].subscribers && (s'.timers[t].registered ==> BehindEquals(s', t))
       else s' == s
  }

  /** What a turn of the walk does while the timer is held: its handlers run, and then it is put back. */
  ghost predicate HeldRan(s: State, t: nat, saved: set<nat>, script: seq<TimerCommand>, s': State) {
    exists u :: HandlerRan(s, script, t, saved, u) && WasPutBack(u, s', t)
  }

  ghost predicate TurnRan(s: State, t: nat, saved: set<nat>, script: seq<TimerCommand>, s': State) {
    && t in s.timers
    && exists v :: HeldRan(Ref(s, t), t, saved, script, v) && Dropped(v, t, s')
  }

  ghost predicate Dropped(v: State, t: nat, s': State) {
    t in v.timers && v.timers[t].refs > 0 && s' == Drop(v, t)
  }

  lemma TurnRanIs(s: State, t: nat, saved: set<nat>, script: seq<TimerCommand>, v: State)
    requires t in s.timers && HeldRan(Ref(s, t), t, saved, script, v) && t in v.timers && v.timers[t].refs > 0
    ensures TurnRan(s, t, saved, script, Drop(v, t))
  {
    hide HeldRan;
    assert Dropped(v, t, Drop(v, t));
  }

  function ScriptAt(scripts: seq<seq<TimerCommand>>, k: nat): seq<TimerCommand> {
    if k < |scripts| then scripts[k] else []
  }

  /** The states of a pass, turn by turn: each firing is for the time its timer is listed for, its handlers run, and the
      next turn is that of the timer that followed in the list before they did. */
  ghost predicate PassRan(states: seq<State>, fired: seq<Firing>, scripts: seq<seq<TimerCommand>>) {
    && |states| == |fired| + 1
    && forall i :: 0 <= i < |fired| ==>
                     && FiredAt(states[i], fired[i])
                     && TurnRan(states[i], fired[i].timer, AsSet(Following(states[i].list, fired[i].timer)),
                                if i < |scripts| then scripts[i] else [], states[i + 1])
                     && (i + 1 < |fired| ==> Following(states[i].list, fired[i].timer) == Some(fired[i + 1].timer))
  }

  ghost predicate FiredAt(s: State, f: Firing) {
    f.timer in s.list && f.timer in s.timers && f.deadline == Ns(s.timers[f.timer].next)
  }

  /** Where the walk stands after these turns. */
  ghost predicate StandsAt(states: seq<State>, fired: seq<Firing>, cursor: Option<nat>) {
    fired != [] && |states| == |fired| + 1 ==>
      cursor == Following(states[|fired| - 1].list, fired[|fired| - 1].timer)
  }

  lemma PassRanBegins(s: State, scripts: seq<seq<TimerCommand>>, cursor: Option<nat>)
    ensures PassRan([s], [], scripts) && StandsAt([s], [], cursor)
  {
  }

  lemma PassRanMore(states: seq<State>, fired: seq<Firing>, scripts: seq<seq<TimerCommand>>, f: Firing, s': State)
    requires PassRan(states, fired, scripts) && StandsAt(states, fired, Some(f.timer))
    requires FiredAt(states[|fired|], f)
    requires TurnRan(states[|fired|], f.timer, AsSet(Following(states[|fired|].list, f.timer)),
                     ScriptAt(scripts, |fired|), s')
    ensures PassRan(states + [s'], fired + [f], scripts)
    ensures StandsAt(states + [s'], fired + [f], Following(states[|fired|].list, f.timer))
  {
    hide TurnRan, FiredAt, Following;
    var states', fired' := states + [s'], fired + [f];
    assert forall i :: 0 <= i < |states| ==> states'[i] == states[i];
    assert forall i :: 0 <= i < |fired| ==> fired'[i] == fired[i];
    assert states'[|fired| + 1] == s' && fired'[|fired|] == f;
  }

  // ---- Order and completeness ----

  /** The entry after p in the list, as LIST_NEXT gives it. */
  function Next(list: seq<nat>, i: nat): set<nat>
    requires i < |list|
  {
    if i + 1 < |list| then {list[i + 1]} else {}
  }

  predicate Fired(fired: seq<Firing>, t: nat) {
    exists i :: 0 <= i < |fired| && fired[i].timer == t
  }

  /** Every timer that was due at the start, and that no handler touched, has been triggered or is still
      ahead of the walk, as it was. */
  ghost predicate Complete(s: State, s': State, limit: int, cursor: set<nat>, fired: seq<Firing>, touched: set<nat>) {
    forall t :: t in s.list && t in s.timers && Ns(s.timers[t].next) <= limit && t !in touched ==>
      Fired(fired, t) || Ahead(s, s', cursor, t)
  }

  ghost predicate Ahead(s: State, s': State, cursor: set<nat>, t: nat) {
    && (exists p :: p in cursor && AtOrAfter(s'.list, p, t))
    && t in s.timers && t in s'.timers && SameTimes(s.timers[t], s'.timers[t])
  }

  /** The deadlines triggered so far never go back, and none is after the one the walk is on. */
  ghost predicate Ordered(s': State, cursor: set<nat>, fired: seq<Firing>) {
    && (forall i, j :: 0 <= i < j < |fired| ==> fired[i].deadline <= fired[j].deadline)
    && (forall i, p :: 0 <= i < |fired| && p in cursor && p in s'.timers ==> fired[i].deadline <= Ns(s'.timers[p].next))
  }

  /** Nothing early was triggered, except the first when the pass is forced. */
  ghost predicate Due(fired: seq<Firing>, limit: int, forced: bool) {
    forall i :: (if forced then 1 else 0) <= i < |fired| ==> fired[i].deadline <= limit
  }

  // ---- First in, first out ----

  /** Timers that have neither been triggered nor touched stand in the order they stood in at the start. */
  ghost predicate Queued(s0: State, s: State, fired: seq<Firing>, touched: set<nat>) {
    forall x, y :: x !in touched && y !in touched && !Fired(fired, x) && !Fired(fired, y)
                   && AtOrAfter(s0.list, x, y) ==>
      AtOrAfter(s.list, x, y)
  }

  /** A timer is not triggered before one that was due and stood before it at the start: those with equal deadlines
      have their turns in the order of the list. */
  ghost predicate InTurn(s0: State, limit: int, fired: seq<Firing>, touched: set<nat>) {
    forall x, j :: 0 <= j < |fired| && x !in touched && fired[j].timer !in touched && x != fired[j].timer
                   && AtOrAfter(s0.list, x, fired[j].timer) && x in s0.timers && Ns(s0.timers[x].next) <= limit ==>
                     Fired(fired[..j], x)
  }

  lemma QueuedMore(s0: State, s: State, s': State, fired: seq<Firing>, touched: set<nat>, f: Firing, moved: set<nat>)
    requires Queued(s0, s, fired, touched) && Turn(s, s', f.timer, moved)
    ensures Queued(s0, s', fired + [f], touched + moved)
  {
    hide Inv, Advanced, AtOrAfter;
    forall x | !Fired(fired + [f], x) ensures !Fired(fired, x) && x != f.timer {
      FiredMore(fired, f, x);
    }
  }

  lemma FiredMore(fired: seq<Firing>, f: Firing, t: nat)
    ensures Fired(fired + [f], t) <==> Fired(fired, t) || f.timer == t
  {
    assert (fired + [f])[|fired|] == f;
    if Fired(fired, t) {
      var j :| 0 <= j < |fired| && fired[j].timer == t;
      assert (fired + [f])[j].timer == t;
    }
  }

  /** The timer the walk is on is the first of those that are still to be triggered. */
  lemma TurnIsNext(s0: State, s: State, limit: int, fired: seq<Firing>, touched: set<nat>, x: nat, c: nat)
    requires Queued(s0, s, fired, touched) && InTurn(s0, limit, fired, touched) && NoDup(s.list)
    requires Complete(s0, s, limit, {c}, fired, touched)
    requires x !in touched && c !in touched && x != c && AtOrAfter(s0.list, x, c)
    requires x in s0.timers && Ns(s0.timers[x].next) <= limit
    ensures Fired(fired, x)
  {
    hide Ns;
    if Fired(fired, c) {
      var j :| 0 <= j < |fired| && fired[j].timer == c;
      var i :| 0 <= i < j && fired[i].timer == x;
    } else if !Fired(fired, x) {
      assert Ahead(s0, s, {c}, x);
      assert AtOrAfter(s.list, c, x) && AtOrAfter(s.list, x, c);
      OneWay(s.list, c, x);
    }
  }

  lemma OneWay(list: seq<nat>, p: nat, t: nat)
    requires NoDup(list) && AtOrAfter(list, p, t) && AtOrAfter(list, t, p)
    ensures p == t
  {
  }

  lemma InTurnMore(s0: State, s: State, limit: int, fired: seq<Firing>, touched: set<nat>, f: Firing, moved: set<nat>)
    requires Queued(s0, s, fired, touched) && InTurn(s0, limit, fired, touched) && NoDup(s.list)
    requires Complete(s0, s, limit, {f.timer}, fired, touched)
    ensures InTurn(s0, limit, fired + [f], touched + moved)
  {
    var fired' := fired + [f];
    assert fired'[..|fired|] == fired;
    forall x, j | 0 <= j < |fired'| && x !in touched + moved && fired'[j].timer !in touched + moved
                  && x != fired'[j].timer && AtOrAfter(s0.list, x, fired'[j].timer)
                  && x in s0.timers && Ns(s0.timers[x].next) <= limit
      ensures Fired(fired'[..j], x)
    {
      hide Queued, Complete, Fired, AtOrAfter, NoDup, Ns;
      if j < |fired| {
        assert fired'[..j] == fired[..j] && fired'[j] == fired[j];
      } else {
        TurnIsNext(s0, s, limit, fired, touched, x, f.timer);
      }
    }
  }

  lemma AfterNext(list: seq<nat>, i: nat, t: nat)
    requires NoDup(list) && i < |list| && AtOrAfter(list, list[i], t)
    ensures t == list[i] || (exists p :: p in Next(list, i) && AtOrAfter(list, p, t))
  {
    var a, b :| 0 <= a <= b < |list| && list[a] == list[i] && list[b] == t;
    assert a == i;
    if b > i {
      assert list[i + 1] in Next(list, i) && AtOrAfter(list, list[i + 1], t);
    }
  }

  /** A turn keeps the places of what it does not move. */
  lemma TurnAhead(s0: State, s: State, s': State, i: nat, moved: set<nat>, t: nat)
    requires i < |s.list| && Turn(s, s', s.list[i], moved) && moved !! Next(s.list, i)
    requires Ahead(s0, s, {s.list[i]}, t) && t !in moved && t != s.list[i]
    ensures Ahead(s0, s', Next(s.list, i), t)
  {
    InvFacts(s);
    AfterNext(s.list, i, t);
    var p :| p in Next(s.list, i) && AtOrAfter(s.list, p, t);
    assert p == s.list[i + 1] && p != s.list[i];
    assert AtOrAfter(s'.list, p, t);
    hide Inv;
  }

  lemma CompleteMore(s0: State, s: State, s': State, limit: int, i: nat, fired: seq<Firing>, touched: set<nat>,
                     moved: set<nat>)
    requires i < |s.list| && Turn(s, s', s.list[i], moved) && moved !! Next(s.list, i)
    requires Complete(s0, s, limit, {s.list[i]}, fired, touched)
    ensures Complete(s0, s', limit, Next(s.list, i), fired + [Firing(s.list[i], Ns(s.timers[s.list[i]].next))],
                     touched + moved)
  {
    var f := Firing(s.list[i], Ns(s.timers[s.list[i]].next));
    hide Turn, Ahead;
    forall t | t in s0.list && t in s0.timers && Ns(s0.timers[t].next) <= limit && t !in touched + moved
      ensures Fired(fired + [f], t) || Ahead(s0, s', Next(s.list, i), t)
    {
      if t == s.list[i] {
        assert (fired + [f])[|fired|].timer == t;
      } else if Fired(fired, t) {
        var j :| 0 <= j < |fired| && fired[j].timer == t;
        assert (fired + [f])[j].timer == t;
      } else {
        TurnAhead(s0, s, s', i, moved, t);
      }
    }
  }

  lemma OrderedMore(s: State, s': State, i: nat, fired: seq<Firing>, moved: set<nat>)
    requires i < |s.list| && Turn(s, s', s.list[i], moved) && moved !! Next(s.list, i)
    requires Ordered(s, {s.list[i]}, fired)
    ensures Ordered(s', Next(s.list, i), fired + [Firing(s.list[i], Ns(s.timers[s.list[i]].next))])
    ensures forall p :: p in Next(s.list, i) ==> p in s'.list
  {
    InvFacts(s);
    InvFacts(s');
    var fired' := fired + [Firing(s.list[i], Ns(s.timers[s.list[i]].next))];
    assert s.list[i] in s.list;
    forall p | p in Next(s.list, i)
      ensures p in s'.timers && p in s'.list && Ns(s.timers[s.list[i]].next) <= Ns(s'.timers[p].next)
    {
      assert p == s.list[i + 1] && p in s.list && p != s.list[i];
      assert SameTimes(s.timers[p], s'.timers[p]);
    }
    hide Inv, Frame, Sorted, NoDup;
  }

  lemma DueMore(fired: seq<Firing>, f: Firing, limit: int, forced: bool)
    requires Due(fired, limit, forced) && ((forced && fired == []) || f.deadline <= limit)
    ensures Due(fired + [f], limit, forced)
  {
  }

  // ---- Putting the triggered timer back, and the measure of the pass ----

  /** The list after the timer at place i is taken off and, if it is periodic, put back for its next deadline
      is behind by less: strictly so if the timer was due. */
  lemma PutBackLags(timers: Timers, timers': Timers, list: seq<nat>, i: nat, k: nat, limit: int)
    requires i < |list| && NoDup(list) && k < |list|
    requires forall t :: t in list ==> t in timers && t in timers'
    requires forall t :: t in list && t != list[i] ==> timers'[t].next == timers[t].next
    requires Ns(timers'[list[i]].next) > Ns(timers[list[i]].next)
    ensures var x := list[i];
            && Lags(timers', Put(Cut(list, i), k, x), limit) <= Lags(timers, list, limit)
            && (Ns(timers[x].next) <= limit ==>
                  Lags(timers', Put(Cut(list, i), k, x), limit) < Lags(timers, list, limit))
  {
    var x := list[i];
    CutMembers(list, i);
    LagsCut(timers, list, i, limit);
    LagsSame(timers, timers', Cut(list, i), limit);
    LagsPut(timers', Cut(list, i), k, x, limit);
  }

  lemma TakeOffLags(timers: Timers, timers': Timers, list: seq<nat>, i: nat, limit: int)
    requires i < |list| && NoDup(list)
    requires forall t :: t in list ==>
               t in timers && (t != list[i] ==> t in timers' && timers'[t].next == timers[t].next)
    ensures Lags(timers', Cut(list, i), limit) <= Lags(timers, list, limit)
    ensures Ns(timers[list[i]].next) <= limit ==> Lags(timers', Cut(list, i), limit) < Lags(timers, list, limit)
  {
    CutMembers(list, i);
    LagsCut(timers, list, i, limit);
    LagsSame(timers, timers', Cut(list, i), limit);
  }

  ghost predicate LessBehind(s: State, s': State, current: nat) {
    && current in s.timers
    && (forall limit :: Lags(s'.timers, s'.list, limit) <= Lags(s.timers, s.list, limit))
    && (forall limit :: Ns(s.timers[current].next) <= limit ==>
          Lags(s'.timers, s'.list, limit) < Lags(s.timers, s.list, limit))
  }

  /** From s to s' the list has not got further behind; by as much less as t was, if t has left it. */
  ghost predicate Calmed(s: State, s': State, t: nat, limit: int) {
    Lags(s'.timers, s'.list, limit) +
      (if t in s.list && t !in s'.list then Lag(s.timers, t, limit) else 0) <= Lags(s.timers, s.list, limit)
  }

  /** A step that leaves each timer it moves off the list, or not due, or no further behind. */
  lemma FrameCalms(s: State, s': State, moved: set<nat>, t: nat, limit: int)
    requires Inv(s) && Inv(s') && Frame(s, s', moved)
    requires forall x :: x in moved && x in s'.list && Lag(s'.timers, x, limit) > 0 ==>
               x in s.list && Lag(s'.timers, x, limit) <= Lag(s.timers, x, limit)
    ensures Calmed(s, s', t, limit)
  {
    InvFacts(s);
    InvFacts(s');
    hide Inv, Sorted, NoDup, SameOrder;
    forall x | x in s'.list && Lag(s'.timers, x, limit) > 0
      ensures x in s.list && Lag(s'.timers, x, limit) <= Lag(s.timers, x, limit)
    {
    }
    hide Lags, Lag;
    LagsFewer(s.timers, s.list, s'.timers, s'.list, limit);
    if t in s.list && t !in s'.list {
      LagsFewerBut(s.timers, s.list, s'.timers, s'.list, limit, t);
    }
  }

  lemma CalmedTwice(s: State, s1: State, s2: State, t: nat, limit: int)
    requires Calmed(s, s1, t, limit) && Calmed(s1, s2, t, limit)
    requires t in s.list && t in s1.list ==> t in s.timers && t in s1.timers && s1.timers[t].next == s.timers[t].next
    ensures Calmed(s, s2, t, limit)
  {
    hide Lags;
  }

  lemma CalmedSelf(s: State, t: nat, limit: int)
    ensures Calmed(s, s, t, limit)
  {
  }

  /** A command that is late leaves the timer it moves off the list, not due, or as it was. */
  lemma CommandCalms(s: State, s': State, c: TimerCommand, t: nat, limit: int)
    requires Inv(s) && Inv(s') && Frame(s, s', MovedBy(c)) && Late(c, limit) && Timely(c)
    requires Performed(s, c, s')
    ensures Calmed(s, s', t, limit)
  {
    InvFacts(s);
    InvFacts(s');
    hide Inv, Sorted, NoDup, Frame, Calmed;
    forall x | x in MovedBy(c) && x in s'.list && Lag(s'.timers, x, limit) > 0
      ensures x in s.list && Lag(s'.timers, x, limit) <= Lag(s.timers, x, limit)
    {
    }
    FrameCalms(s, s', MovedBy(c), t, limit);
  }

  lemma ListedSame(s: State, s': State, t: nat)
    requires Inv(s) && Inv(s') && t in s.timers && t in s'.timers
    requires s'.timers[t].valid ==> SameTimes(s.timers[t], s'.timers[t])
    ensures t in s.list && t in s'.list ==> s'.timers[t].next == s.timers[t].next
  {
    InvFacts(s');
  }

  lemma RegisteredListed(s: State, t: nat)
    requires Inv(s) && t in s.timers && s.timers[t].registered
    ensures t in s.list
  {
    InvFacts(s);
  }

  /** What is not late is what has to be excluded: a timer that is put on the list for a time up to the limit puts the
      list further behind. */
  lemma DueRaises(s: State, s': State, t: nat, limit: int)
    requires Inv(s) && IsListed(s, s', t) && s.timers[t].valid && !s.timers[t].registered
    requires 0 < Ns(s.timers[t].next) <= limit
    ensures Lags(s'.timers, s'.list, limit) > Lags(s.timers, s.list, limit)
  {
    InvFacts(s);
    ListedRecord(s, s', t);
    var k: nat :| k <= |s.list| && Place(s.timers, s.list, Ns(s.timers[t].next), k) && s' == Listed(s, t, k);
    LagsPut(s'.timers, s.list, k, t, limit);
    LagsSame(s.timers, s'.timers, s.list, limit);
    hide Inv, Sorted, NoDup, Place, Put;
  }

  /** What a turn whose handler runs this script does to the measure. */
  ghost predicate Nearer(s: State, s': State, t: nat, script: seq<TimerCommand>) {
    && t in s.timers
    && (forall limit :: LateScript(script, limit) ==> Lags(s'.timers, s'.list, limit) <= Lags(s.timers, s.list, limit))
    && (forall limit :: LateScript(script, limit) && Ns(s.timers[t].next) <= limit ==>
          Lags(s'.timers, s'.list, limit) < Lags(s.timers, s.list, limit))
  }

  /** The timer is put back, or its handler has removed it: either way the list is less far behind. */
  lemma HandlerNearer(s: State, s1: State, s2: State, t: nat, script: seq<TimerCommand>)
    requires Inv(s1) && t in s.list && t in s.timers && t in s1.timers
    requires forall limit :: LateScript(script, limit) ==> Calmed(s, s1, t, limit)
    requires if s1.timers[t].valid then s1.timers[t].next == s.timers[t].next && LessBehind(s1, s2, t) else s2 == s1
    ensures Nearer(s, s2, t, script)
  {
    InvFacts(s1);
    hide Inv, Sorted, NoDup, Lags;
  }

  lemma TakenOff(s: State, t: nat)
    requires Inv(s) && t in s.timers && s.timers[t].registered
    ensures s.timers[t].refs > 1 && LessBehind(s, Unlisted(s, t), t)
  {
    InvFacts(s);
    var i := WithoutIsCut(s.list, t);
    hide Inv, Sorted, Lags, Cut, Without;
    forall limit
      ensures Lags(Unlisted(s, t).timers, Unlisted(s, t).list, limit) <= Lags(s.timers, s.list, limit)
      ensures Ns(s.timers[t].next) <= limit ==>
                Lags(Unlisted(s, t).timers, Unlisted(s, t).list, limit) < Lags(s.timers, s.list, limit)
    {
      TakeOffLags(s.timers, Unlisted(s, t).timers, s.list, i, limit);
    }
  }

  lemma PutBack(s: State, t: nat, next: Timespec, s2: State)
    requires Inv(s) && t in s.timers && s.timers[t].registered && Ns(next) > Ns(s.timers[t].next)
    requires s.timers[t].refs > 1
    requires t in Unlisted(s, t).timers && IsListed(Retimed(Unlisted(s, t), t, next, s.timers[t].interval), s2, t)
    ensures LessBehind(s, s2, t)
  {
    InvFacts(s);
    var i := WithoutIsCut(s.list, t);
    var s1 := Retimed(Unlisted(s, t), t, next, s.timers[t].interval);
    hide Inv, Sorted, Lags, Without, NoDup, LessBehind, Cut, Put, Ns, Place;
    var k: nat :| k <= |s1.list| && Place(s1.timers, s1.list, Ns(s1.timers[t].next), k) && s2 == Listed(s1, t, k);
    PutBackAt(s, t, next, s2, i, k);
  }

  lemma PutBackAt(s: State, t: nat, next: Timespec, s2: State, i: nat, k: nat)
    requires t in s.timers && i < |s.list| && s.list[i] == t && NoDup(s.list)
    requires forall x :: x in s.list ==> x in s.timers
    requires s.timers[t].refs > 1 && Ns(next) > Ns(s.timers[t].next) && Unlisted(s, t).list == Cut(s.list, i)
    requires k <= |Cut(s.list, i)| && s2 == Listed(Retimed(Unlisted(s, t), t, next, s.timers[t].interval), t, k)
    ensures LessBehind(s, s2, t)
  {
    assert |Cut(s.list, i)| == |s.list| - 1;
    hide NoDup, Lags, Cut, Without, Put, Ns;
    forall limit
      ensures Lags(s2.timers, s2.list, limit) <= Lags(s.timers, s.list, limit)
      ensures Ns(s.timers[t].next) <= limit ==> Lags(s2.timers, s2.list, limit) < Lags(s.timers, s.list, limit)
    {
      PutBackLags(s.timers, s2.timers, s.list, i, k, limit);
    }
  }

  // ---- The walk ----

  /** The entry after p: LIST_NEXT. */
  function Following(list: seq<nat>, p: nat): Option<nat>
  {
    if |list| < 2 then None else if list[0] == p then Some(list[1]) else Following(list[1..], p)
  }

  function AsSet(o: Option<nat>): set<nat> {
    if o.Some? then {o.value} else {}
  }

  lemma {:induction false} FollowingAt(list: seq<nat>, i: nat)
    requires NoDup(list) && i < |list|
    ensures AsSet(Following(list, list[i])) == Next(list, i)
  {
    if i > 0 {
      assert list[0] != list[i];
      FollowingAt(list[1..], i - 1);
    }
  }

  /** Everything the pass has promised so far. */
  ghost predicate Passing(s0: State, s: State, limit: int, cursor: set<nat>, fired: seq<Firing>, touched: set<nat>,
                          forced: bool) {
    && Inv(s) && s.holds == s0.holds
    && Conserved(s0, s, fired, touched) && Complete(s0, s, limit, cursor, fired, touched)
    && Ordered(s, cursor, fired) && Due(fired, limit, forced)
    && Queued(s0, s, fired, touched) && InTurn(s0, limit, fired, touched)
    && (forall p :: p in cursor ==> p in s.list)
  }

  lemma PassingBegins(s: State, limit: int, cursor: set<nat>, forced: bool)
    requires Inv(s) && cursor == if s.list == [] then {} else {s.list[0]}
    ensures Passing(s, s, limit, cursor, [], {}, forced)
  {
    InvFacts(s);
    hide Inv, NoDup, Sorted, Ns, Normal;
    forall t | t in s.list && t in s.timers ensures Ahead(s, s, cursor, t) {
      AllAhead(s, cursor, t);
    }
    hide Ahead;
    ConservedBegins(s, limit);
  }

  lemma AllAhead(s: State, cursor: set<nat>, t: nat)
    requires t in s.list && t in s.timers && cursor == {s.list[0]}
    ensures Ahead(s, s, cursor, t)
  {
    var j :| 0 <= j < |s.list| && s.list[j] == t;
    assert s.list[0] in cursor && AtOrAfter(s.list, s.list[0], t);
  }

  lemma PassingStep(s0: State, s: State, s': State, limit: int, i: nat, fired: seq<Firing>, touched: set<nat>,
                    moved: set<nat>, forced: bool)
    requires i < |s.list| && Passing(s0, s, limit, {s.list[i]}, fired, touched, forced)
    requires Turn(s, s', s.list[i], moved) && moved !! Next(s.list, i) && s'.holds == s.holds
    requires (forced && fired == []) || Ns(s.timers[s.list[i]].next) <= limit
    ensures Passing(s0, s', limit, Next(s.list, i), fired + [Firing(s.list[i], Ns(s.timers[s.list[i]].next))],
                    touched + moved, forced)
  {
    assert s.list[i] in s.timers && Inv(s');
    InvFacts(s);
    hide Turn, Inv, Conserved, Complete, Ordered, Due, Queued, InTurn, NoDup, Sorted;
    var f := Firing(s.list[i], Ns(s.timers[s.list[i]].next));
    QueuedMore(s0, s, s', fired, touched, f, moved);
    InTurnMore(s0, s, limit, fired, touched, f, moved);
    ConservedMore(s0, s, s', fired, touched, s.list[i], moved);
    CompleteMore(s0, s, s', limit, i, fired, touched, moved);
    OrderedMore(s, s', i, fired, moved);
    DueMore(fired, f, limit, forced);
  }

  lemma SortedAhead(s: State, c: nat, t: nat)
    requires Inv(s) && AtOrAfter(s.list, c, t)
    ensures c in s.timers && t in s.timers && Ns(s.timers[c].next) <= Ns(s.timers[t].next)
  {
    var i, j :| 0 <= i <= j < |s.list| && s.list[i] == c && s.list[j] == t;
    assert s.list[i] in s.list && s.list[j] in s.list;
  }

  /** Nothing due is left ahead of a timer that is not due. */
  lemma PassingBreaks(s0: State, s: State, limit: int, c: nat, fired: seq<Firing>, touched: set<nat>, forced: bool)
    requires Passing(s0, s, limit, {c}, fired, touched, forced) && c in s.timers && Ns(s.timers[c].next) > limit
    ensures Passing(s0, s, limit, {}, fired, touched, forced)
  {
    assert Inv(s);
    hide Inv, Conserved, Due, Fired, Queued, InTurn;
    forall t | t in s0.list && t in s0.timers && Ns(s0.timers[t].next) <= limit && t !in touched
      ensures Fired(fired, t) || Ahead(s0, s, {}, t)
    {
      if AtOrAfter(s.list, c, t) {
        SortedAhead(s, c, t);
      }
    }
  }

  lemma PassingWiden(s0: State, s: State, limit: int, fired: seq<Firing>, touched: set<nat>, more: set<nat>,
                     forced: bool)
    requires Passing(s0, s, limit, {}, fired, touched, forced) && touched <= more
    ensures Passing(s0, s, limit, {}, fired, more, forced)
  {
    hide Inv;
  }

  lemma {:induction false} MovedInOne(scripts: seq<seq<TimerCommand>>, k: nat)
    requires k < |scripts|
    ensures Moved(scripts[k]) <= MovedIn(scripts)
  {
    if k > 0 {
      MovedInOne(scripts[1..], k - 1);
    }
  }

  lemma UnlistedRecord(s: State, t: nat)
    requires t in s.timers && s.timers[t].refs > 1
    ensures Unlisted(s, t).timers[t] == s.timers[t].(registered := false, refs := s.timers[t].refs - 1)
  {
  }

  /** Steps that keep the list and the times keep the measure. */
  lemma SameLags(s: State, s': State)
    requires s'.list == s.list
    requires forall t :: t in s.list ==> t in s.timers && t in s'.timers && s'.timers[t].next == s.timers[t].next
    ensures forall limit :: Lags(s'.timers, s'.list, limit) == Lags(s.timers, s.list, limit)
  {
    forall limit ensures Lags(s'.timers, s'.list, limit) == Lags(s.timers, s.list, limit) {
      LagsSame(s.timers, s'.timers, s.list, limit);
    }
  }

  /** Holding the timer meanwhile does not show in the measure. */
  lemma NearerAfter(s: State, s3: State, t: nat, script: seq<TimerCommand>)
    requires Inv(s) && t in s.timers && Nearer(Ref(s, t), s3, t, script)
    requires Inv(s3) && t in s3.timers && s3.timers[t].refs > 0 && t in s3.holds
    ensures Nearer(s, Drop(s3, t), t, script)
  {
    InvFacts(s);
    InvFacts(s3);
    LastReference(s3, t);
    hide Inv, NoDup, Sorted;
    SameLags(s, Ref(s, t));
    SameLags(s3, Drop(s3, t));
    hide Lags;
  }

  lemma FrameBoth(s: State, s1: State, s2: State, t: nat, moved: set<nat>)
    requires Frame(s, s1, moved) && Frame(s1, s2, {t})
    ensures Frame(s, s2, moved + {t})
  {
    hide Frame;
    FrameWiden(s, s1, moved, moved + {t});
    FrameWiden(s1, s2, {t}, moved + {t});
    FrameTwice(s, s1, s2, moved + {t});
  }

  /** A turn while the timer is held. */
  ghost predicate HeldTurn(s1: State, s2: State, t: nat, moved: set<nat>, script: seq<TimerCommand>) {
    && Inv(s2) && t in s1.timers && t in s2.timers && t in s2.holds && s2.holds == s1.holds
    && Frame(s1, s2, moved + {t})
    && (t !in moved ==> Advanced(s1.timers[t], s2.timers[t]))
    && Nearer(s1, s2, t, script)
  }

  lemma ListedTimer(s: State, t: nat)
    requires Inv(s) && t in s.list
    ensures t in s.timers && s.timers[t].registered && s.timers[t].valid
    ensures Ref(s, t).holds == s.holds + multiset{t}
  {
    InvFacts(s);
  }

  lemma HeldStill(s: State, s2: State, t: nat, moved: set<nat>, script: seq<TimerCommand>)
    requires t in s.timers && HeldTurn(Ref(s, t), s2, t, moved, script)
    ensures Inv(s2) && t in s2.holds
  {
    hide Inv, Frame, Nearer;
  }

  lemma TurnMade(s: State, s2: State, t: nat, moved: set<nat>, script: seq<TimerCommand>)
    requires Inv(s) && t in s.timers && s.timers[t].registered && HeldTurn(Ref(s, t), s2, t, moved, script)
    ensures s2.timers[t].refs > 0
    ensures Turn(s, Drop(s2, t), t, moved) && Drop(s2, t).holds == s.holds
    ensures Nearer(s, Drop(s2, t), t, script)
  {
    hide Inv, Frame, Nearer, Ns, Normal;
    var s1 := Ref(s, t);
    FrameRecord(s, s1, t);
    DropFrame(s2, t);
    DropInv(s2, t);
    FrameWiden(s, s1, {}, moved + {t});
    FrameTwice(s, s1, s2, moved + {t});
    FrameWiden(s2, Drop(s2, t), {t}, moved + {t});
    FrameTwice(s, s2, Drop(s2, t), moved + {t});
    assert s.holds + multiset{t} - multiset{t} == s.holds;
    NearerAfter(s, s2, t, script);
  }

  lemma NearerAt(s: State, s': State, t: nat, script: seq<TimerCommand>, limit: int)
    requires Nearer(s, s', t, script) && LateScript(script, limit)
    ensures Lags(s'.timers, s'.list, limit) <= Lags(s.timers, s.list, limit)
    ensures Ns(s.timers[t].next) <= limit ==> Lags(s'.timers, s'.list, limit) < Lags(s.timers, s.list, limit)
  {
    hide Lags;
  }

  /** The walk stands on a listed timer, which is not the one it has saved. */
  lemma PassingCursor(s0: State, s: State, limit: int, t: nat, fired: seq<Firing>, touched: set<nat>, forced: bool)
    requires Passing(s0, s, limit, {t}, fired, touched, forced)
    ensures Inv(s) && t in s.list && t in s.timers && s.timers[t].registered && NoDup(s.list)
    ensures t !in AsSet(Following(s.list, t))
    ensures forall x :: x in s.timers ==> Normal(s.timers[x].next)
  {
    assert t in s.list;
    InvFacts(s);
    hide Inv, Conserved, Complete, Ordered, Due, Queued, InTurn;
    var i := PlaceOf(s, t);
    FollowingAt(s.list, i);
  }

  lemma PlaceOf(s: State, t: nat) returns (i: nat)
    requires t in s.list
    ensures i < |s.list| && s.list[i] == t
  {
    i :| 0 <= i < |s.list| && s.list[i] == t;
  }

  // ---- Passes one after another ----

  /** A forced pass whose first timer is not due: the one case in which forcing makes a difference. */
  predicate Early(s: State, force: bool, limit: int) {
    force && s.list != [] && s.list[0] in s.timers && Ns(s.timers[s.list[0]].next) > limit
  }

  lemma EarlyFirst(s: State, force: bool, limit: int)
    requires Inv(s)
    ensures s.list != [] ==>
              && s.list[0] in s.timers
              && (Early(s, force, limit) <==> force && Ns(s.timers[s.list[0]].next) > limit)
  {
    InvFacts(s);
    assert s.list != [] ==> s.list[0] in s.list;
  }

  lemma NoPlanIsLate(limit: int)
    ensures LateScripts([], limit) && MovedIn([]) == {}
  {
  }

  lemma NothingIsLate(limit: int)
    ensures LateScript([], limit)
  {
  }

  lemma ConservedBegins(s: State, limit: int)
    requires Inv(s)
    ensures Conserved(s, s, [], {}) && Due([], limit, false)
  {
    InvFacts(s);
    hide Inv;
  }

  lemma ConservedTwice(s0: State, s1: State, s2: State, a: seq<Firing>, b: seq<Firing>, touched: set<nat>,
                       more: set<nat>)
    requires Conserved(s0, s1, a, touched) && Conserved(s1, s2, b, more)
    ensures Conserved(s0, s2, a + b, touched + more)
  {
    forall t: nat, horizon | t !in touched + more && forall i :: 0 <= i < |a + b| ==> (a + b)[i].deadline <= horizon
      ensures Paid(s0, s2, a + b, t, horizon)
    {
      assert forall i :: 0 <= i < |a| ==> (a + b)[i] == a[i];
      assert forall i :: 0 <= i < |b| ==> (a + b)[|a| + i] == b[i];
      assert Paid(s0, s1, a, t, horizon) && Paid(s1, s2, b, t, horizon);
      OfSplit(a, b, t);
    }
  }

  lemma DueTwice(a: seq<Firing>, b: seq<Firing>, limit: int)
    requires Due(a, limit, false) && Due(b, limit, false)
    ensures Due(a + b, limit, false)
  {
  }

  lemma DueLater(fired: seq<Firing>, limit: int, later: int)
    requires Due(fired, limit, false) && limit <= later
    ensures Due(fired, later, false)
  {
  }

  /** Commands between passes take away nothing that timers they do not touch are owed. */
  lemma FrameConserves(s: State, s': State, moved: set<nat>)
    requires Inv(s) && Inv(s') && Frame(s, s', moved)
    ensures Conserved(s, s', [], moved)
  {
    InvFacts(s);
    InvFacts(s');
    hide Inv, Sorted, NoDup, SameOrder;
  }

  lemma PassingConserves(s: State, s': State, limit: int, fired: seq<Firing>, touched: set<nat>, forced: bool)
    requires Passing(s, s', limit, {}, fired, touched, forced)
    ensures Inv(s') && s'.holds == s.holds && Conserved(s, s', fired, touched)
    ensures !forced ==> Due(fired, limit, false)
  {
    hide Inv, Conserved, Complete, Ordered, Queued, InTurn;
  }

  lemma NormalNext(s: State, next: Timespec)
    requires Inv(s) && exists t :: t in s.timers && s.timers[t].registered && s.timers[t].next == next
    ensures Normal(next)
  {
    InvFacts(s);
    hide Inv;
  }

  /** The earliest time is that of the first in the list. */
  lemma FirstIsNext(s: State, next: Timespec)
    requires Inv(s) && exists t :: t in s.timers && s.timers[t].registered && s.timers[t].next == next
    requires forall t :: t in s.timers && s.timers[t].registered ==> Ns(next) <= Ns(s.timers[t].next)
    ensures s.list != [] && s.list[0] in s.timers && Ns(s.timers[s.list[0]].next) == Ns(next)
  {
    InvFacts(s);
    var t :| t in s.timers && s.timers[t].registered && s.timers[t].next == next;
    assert t in s.list && s.list[0] in s.list;
    var j :| 0 <= j < |s.list| && s.list[j] == t;
    assert AtOrAfter(s.list, s.list[0], t);
    SortedAhead(s, s.list[0], t);
  }

  /** With nothing due any more, every timer left alone has been triggered exactly for what it was owed. */
  lemma AllPaid(s0: State, s: State, limit: int, fired: seq<Firing>, touched: set<nat>)
    requires Inv(s) && Conserved(s0, s, fired, touched) && Due(fired, limit, false)
    requires forall t :: t in s.timers && s.timers[t].registered ==> Ns(s.timers[t].next) > limit
    ensures forall t :: t !in touched ==>
              (t in s0.timers ==> Ns(s0.timers[t].interval) >= 0) && Of(fired, t) == Owed(s0.timers, t, limit)
  {
    hide Inv, Of;
    forall t: nat | t !in touched
      ensures (t in s0.timers ==> Ns(s0.timers[t].interval) >= 0) && Of(fired, t) == Owed(s0.timers, t, limit)
    {
      assert Paid(s0, s, fired, t, limit);
      assert Owed(s.timers, t, limit) == [];
    }
  }

  lemma NormalTimers(s: State)
    requires Inv(s)
    ensures forall t :: t in s.timers ==> Normal(s.timers[t].next) && Ns(s.timers[t].interval) >= 0
  {
    InvFacts(s);
    hide Inv;
  }

  // ---- Runs of the main loop, as timers see it ----

  /** One turn of the main loop: the clock before and after epoll_wait, whether that returned for a timeout, and what
      the handlers of sockets, of the timers triggered and of the finish of the wave do to timers. */
  datatype Lap = Lap(now: Timespec, later: Timespec, timedOut: bool, sockets: seq<TimerCommand>,
                     scripts: seq<seq<TimerCommand>>, finish: seq<TimerCommand>)

  predicate Timed(lap: Lap) {
    Normal(lap.now) && Normal(lap.later)
  }

  function TouchedBy(lap: Lap): set<nat> {
    Moved(lap.sockets) + MovedIn(lap.scripts) + Moved(lap.finish)
  }

  function TouchedIn(laps: seq<Lap>): set<nat> {
    if laps == [] then {} else TouchedBy(laps[0]) + TouchedIn(laps[1..])
  }

  lemma {:induction false} TouchedInOne(laps: seq<Lap>, k: nat)
    requires k < |laps|
    ensures TouchedBy(laps[k]) <= TouchedIn(laps)
  {
    if k > 0 {
      TouchedInOne(laps[1..], k - 1);
    }
  }

  /** The first timers to be due. */
  ghost predicate Earliest(timers: Timers, t: nat) {
    && t in timers && timers[t].registered
    && forall x :: x in timers && timers[x].registered ==> Ns(timers[t].next) <= Ns(timers[x].next)
  }

  /** The clock has advanced by all of the timeout. */
  predicate FullWait(lap: Lap, next: Timespec) {
    Ns(lap.later) >= Ns(lap.now) + TimeoutMs(next, lap.now) * MILLION
  }

  /** After a timeout the clock shows all of the wait, and the distance to the first timer does not wrap. */
  ghost predicate Fits(timers: Timers, lap: Lap) {
    lap.timedOut ==>
      forall t :: Earliest(timers, t) ==>
                    Milliseconds(timers[t].next, lap.now) <= INT_MAX && FullWait(lap, timers[t].next)
  }

  /** After a timeout the first timer is due: forcing the pass makes no difference. */
  ghost predicate OnTime(timers: Timers, lap: Lap) {
    lap.timedOut ==> forall t :: Earliest(timers, t) ==> Ns(timers[t].next) <= Ns(lap.later) + MILLION
  }

  /** A full wait for a distance that does not wrap is enough. */
  lemma FitsOnTime(s: State, lap: Lap)
    requires Inv(s) && Timed(lap) && Fits(s.timers, lap)
    ensures OnTime(s.timers, lap)
  {
    NormalTimers(s);
    hide Inv, Milliseconds, Ns, Inc;
    forall t | lap.timedOut && Earliest(s.timers, t) ensures Ns(s.timers[t].next) <= Ns(lap.later) + MILLION {
      WaitIsEnough(s.timers[t].next, lap.now);
      assert !Gt(s.timers[t].next, Inc(lap.later, COALESCE));
      assert Ns(Inc(lap.later, COALESCE)) == Ns(lap.later) + MILLION;
    }
  }

  /** What TimersNext gives is the time of an earliest timer. */
  lemma NextIsEarliest(s: State, next: Timespec) returns (t: nat)
    requires exists t :: t in s.timers && s.timers[t].registered && s.timers[t].next == next
    requires forall t :: t in s.timers && s.timers[t].registered ==> Ns(next) <= Ns(s.timers[t].next)
    ensures Earliest(s.timers, t) && s.timers[t].next == next
  {
    t :| t in s.timers && s.timers[t].registered && s.timers[t].next == next;
  }

  /** A pass that is forced after a timeout triggers something early exactly when the first timer is not due. */
  lemma EarlyUnlessOnTime(s: State, lap: Lap, next: Option<Timespec>)
    requires Inv(s)
    requires next.None? <==> forall t :: t in s.timers ==> !s.timers[t].registered
    requires next.Some? ==> exists t :: t in s.timers && s.timers[t].registered && s.timers[t].next == next.value
    requires next.Some? ==>
               forall t :: t in s.timers && s.timers[t].registered ==> Ns(next.value) <= Ns(s.timers[t].next)
    ensures Early(s, lap.timedOut && next.Some?, Ns(lap.later) + MILLION) <==> !OnTime(s.timers, lap)
  {
    if next.Some? {
      FirstIsNext(s, next.value);
      var t := NextIsEarliest(s, next.value);
    }
    hide Inv, Ns;
  }

  /** The first firing is for the first timer. */
  lemma EarlyIsNotDue(s: State, limit: int, fired: seq<Firing>)
    requires s.list != [] ==> fired != []
    requires fired != [] ==>
               s.list != [] && s.list[0] in s.timers && fired[0].deadline == Ns(s.timers[s.list[0]].next)
    ensures Early(s, true, limit) ==> !Due(fired, limit, false)
  {
  }

  lemma UnforcedIsNotEarly(s: State, limit: int)
    ensures !Early(s, false, limit)
  {
  }

  /** A timeout forces the pass; without timers there is none. */
  ghost predicate Forced(timers: Timers, lap: Lap) {
    lap.timedOut && exists t :: t in timers && timers[t].registered
  }

  /** Every timer due when the pass begins, and left alone by the handlers in it, is triggered. */
  ghost predicate AllFired(s: State, limit: int, fired: seq<Firing>, touched: set<nat>) {
    forall t :: t in s.timers && s.timers[t].registered && Ns(s.timers[t].next) <= limit && t !in touched ==>
      Fired(fired, t)
  }

  /** A turn of the main loop: socket handlers unless it was a timeout, the pass, and the finish of the wave. */
  ghost predicate LapRan(s: State, lap: Lap, fired: seq<Firing>, states: seq<State>, s': State) {
    && |states| == |fired| + 1
    && PerformedAll(s, if Forced(s.timers, lap) then [] else lap.sockets, states[0])
    && PassRan(states, fired, lap.scripts)
    && AllFired(states[0], Ns(lap.later) + MILLION, fired, MovedIn(lap.scripts))
    && PerformedAll(states[|fired|], lap.finish, s')
  }

  lemma PassingFires(s0: State, s: State, limit: int, fired: seq<Firing>, touched: set<nat>, forced: bool)
    requires Inv(s0) && Passing(s0, s, limit, {}, fired, touched, forced)
    ensures AllFired(s0, limit, fired, touched)
  {
    InvFacts(s0);
    hide Inv, Conserved, Ordered, Due, Queued, InTurn, Fired, Sorted, NoDup;
  }

  lemma IsForced(timers: Timers, lap: Lap, next: Option<Timespec>)
    requires next.None? <==> forall t :: t in timers ==> !timers[t].registered
    ensures Forced(timers, lap) <==> lap.timedOut && next.Some?
  {
  }

  lemma LapRanIs(s: State, lap: Lap, fired: seq<Firing>, states: seq<State>, s1: State, s2: State, s': State)
    requires |states| == |fired| + 1 && states[0] == s1 && states[|fired|] == s2
    requires PerformedAll(s, if Forced(s.timers, lap) then [] else lap.sockets, s1)
    requires PassRan(states, fired, lap.scripts) && PerformedAll(s2, lap.finish, s')
    requires AllFired(s1, Ns(lap.later) + MILLION, fired, MovedIn(lap.scripts))
    ensures LapRan(s, lap, fired, states, s')
  {
    hide PerformedAll, PassRan, AllFired, MovedIn, Forced;
  }

  /** From one turn of the main loop to the next: these firings, early ones only if the first timer was not due. */
  ghost predicate LapDone(s: State, s': State, lap: Lap) {
    && Inv(s) && Inv(s') && s'.holds == s.holds
    && exists fired, states :: LapRan(s, lap, fired, states, s') && LapPays(s, s', lap, fired)
  }

  ghost predicate LapPays(s: State, s': State, lap: Lap, fired: seq<Firing>) {
    && Conserved(s, s', fired, TouchedBy(lap))
    && (Due(fired, Ns(lap.later) + MILLION, false) <==> OnTime(s.timers, lap))
  }

  /** The states of the main loop, turn by turn. */
  ghost predicate LapsDone(states: seq<State>, laps: seq<Lap>) {
    |states| == |laps| + 1 && forall i :: 0 <= i < |laps| ==> LapDone(states[i], states[i + 1], laps[i])
  }

  /** In every turn the first timer was due when a timeout had forced the pass. */
  ghost predicate AllOnTime(states: seq<State>, laps: seq<Lap>) {
    forall i :: 0 <= i < |states| && i < |laps| ==> OnTime(states[i].timers, laps[i])
  }

  lemma NoLaps(s: State)
    ensures LapsDone([s], []) && AllOnTime([s], [])
  {
  }

  lemma LapMade(s: State, s': State, lap: Lap, fired: seq<Firing>, states: seq<State>)
    requires Inv(s) && Inv(s') && s'.holds == s.holds && Conserved(s, s', fired, TouchedBy(lap))
    requires LapRan(s, lap, fired, states, s')
    requires Due(fired, Ns(lap.later) + MILLION, false) <==> OnTime(s.timers, lap)
    ensures LapDone(s, s', lap)
  {
    assert LapPays(s, s', lap, fired);
    hide Inv, LapPays, LapRan;
  }

  lemma LapsMore(states: seq<State>, laps: seq<Lap>, k: nat, s: State)
    requires k < |laps| && LapsDone(states, laps[..k]) && LapDone(states[k], s, laps[k])
    ensures LapsDone(states + [s], laps[..k + 1])
    ensures AllOnTime(states + [s], laps[..k + 1]) ==>
              AllOnTime(states, laps[..k]) && OnTime(states[k].timers, laps[k])
  {
    hide LapDone, OnTime;
    var states' := states + [s];
    assert forall i :: 0 <= i < |states| ==> states'[i] == states[i];
    assert laps[..k + 1][k] == laps[k] && states'[k] == states[k];
  }

  lemma LapConserves(s: State, s1: State, s2: State, s3: State, fired: seq<Firing>, lap: Lap)
    requires Conserved(s, s1, [], Moved(lap.sockets)) && Conserved(s1, s2, fired, MovedIn(lap.scripts))
    requires Conserved(s2, s3, [], Moved(lap.finish))
    ensures Conserved(s, s3, fired, TouchedBy(lap))
  {
    hide Conserved, Moved, MovedIn;
    ConservedTwice(s, s1, s2, [], fired, Moved(lap.sockets), MovedIn(lap.scripts));
    assert [] + fired == fired;
    ConservedTwice(s, s2, s3, fired, [], Moved(lap.sockets) + MovedIn(lap.scripts), Moved(lap.finish));
    assert fired + [] == fired;
  }

  lemma ConservedWiden(s: State, s': State, fired: seq<Firing>, touched: set<nat>, more: set<nat>)
    requires Conserved(s, s', fired, touched) && touched <= more
    ensures Conserved(s, s', fired, more)
  {
    hide Paid;
  }

  /** How many of the plans from the k-th on may make a timer due again. */
  function UnrulyPlans(plans: seq<seq<seq<TimerCommand>>>, k: nat, limit: int): nat
    decreases |plans| - k
  {
    if k >= |plans| then 0 else (if LateScripts(plans[k], limit) then 0 else 1) + UnrulyPlans(plans, k + 1, limit)
  }

  function TouchedByPlans(plans: seq<seq<seq<TimerCommand>>>): set<nat> {
    if plans == [] then {} else MovedIn(plans[0]) + TouchedByPlans(plans[1..])
  }

  lemma {:induction false} TouchedByPlan(plans: seq<seq<seq<TimerCommand>>>, k: nat)
    requires k < |plans|
    ensures MovedIn(plans[k]) <= TouchedByPlans(plans)
  {
    if k > 0 {
      TouchedByPlan(plans[1..], k - 1);
    }
  }
}
