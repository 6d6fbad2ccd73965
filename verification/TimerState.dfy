/** The timers and the list of those that are to trigger, earliest first. */
module TimerState {
  import opened Lists
  import opened Timespecs

  datatype Timer = Timer(
    valid: bool, registered: bool, next: Timespec, interval: Timespec, subscribers: seq<nat>, refs: nat)

  type Timers = map<nat, Timer>

  /** `timers` are the allocated timers, `list` is the trigger list, `holds` the temporary references. */
  datatype State = State(timers: Timers, list: seq<nat>, holds: multiset<nat>, lastid: nat)

  // ---- The invariant ----

  /** A valid timer holds itself, the trigger list holds the timers in it, and so does each subscription. */
  ghost predicate Counts(timers: Timers, holds: multiset<nat>) {
    && (forall t :: t in holds ==> t in timers)
    && (forall t :: t in timers ==>
          timers[t].refs == (if timers[t].valid then 1 else 0) + (if timers[t].registered then 1 else 0)
                            + |timers[t].subscribers| + holds[t] > 0)
  }

  /** The list holds exactly the registered timers, once each. */
  ghost predicate Members(timers: Timers, list: seq<nat>) {
    && NoDup(list)
    && (forall t :: t in list <==> t in timers && timers[t].registered)
  }

  ghost predicate Times(timers: Timers) {
    forall t :: t in timers ==>
      && Normal(timers[t].next) && Normal(timers[t].interval)
      && (timers[t].registered ==> timers[t].valid && Ns(timers[t].next) > 0)
  }

  /** Earliest first. */
  ghost predicate Sorted(timers: Timers, list: seq<nat>) {
    forall i, j :: 0 <= i < j < |list| && list[i] in timers && list[j] in timers ==>
      Ns(timers[list[i]].next) <= Ns(timers[list[j]].next)
  }

  ghost predicate Inv(s: State) {
    && Counts(s.timers, s.holds) && Members(s.timers, s.list) && Times(s.timers) && Sorted(s.timers, s.list)
    && (forall t :: t in s.timers ==> t <= s.lastid)
  }

  // ---- Places in the list ----

  /** p is in the list and t is at it or after it. */
  ghost predicate AtOrAfter(list: seq<nat>, p: nat, t: nat) {
    exists i, j :: 0 <= i <= j < |list| && list[i] == p && list[j] == t
  }

  /** `list'` has the timers of `list` other than those of `moved` in the same order. */
  ghost predicate SameOrder(list: seq<nat>, list': seq<nat>, moved: set<nat>) {
    forall p, t :: p !in moved && t !in moved && AtOrAfter(list, p, t) ==> AtOrAfter(list', p, t)
  }

  function Cut(list: seq<nat>, k: nat): seq<nat>
    requires k < |list|
  {
    list[..k] + list[k + 1..]
  }

  function Put(list: seq<nat>, k: nat, t: nat): seq<nat>
    requires k <= |list|
  {
    list[..k] + [t] + list[k..]
  }

  lemma CutOrder(list: seq<nat>, k: nat)
    requires k < |list|
    ensures SameOrder(list, Cut(list, k), {list[k]})
  {
    var list' := Cut(list, k);
    forall p, t | p != list[k] && t != list[k] && AtOrAfter(list, p, t) ensures AtOrAfter(list', p, t) {
      var i, j :| 0 <= i <= j < |list| && list[i] == p && list[j] == t;
      var i', j' := if i < k then i else i - 1, if j < k then j else j - 1;
      assert list'[i'] == p && list'[j'] == t;
    }
  }

  lemma PutOrder(list: seq<nat>, k: nat, x: nat)
    requires k <= |list|
    ensures SameOrder(list, Put(list, k, x), {x})
  {
    var list' := Put(list, k, x);
    forall p, t | p != x && t != x && AtOrAfter(list, p, t) ensures AtOrAfter(list', p, t) {
      var i, j :| 0 <= i <= j < |list| && list[i] == p && list[j] == t;
      var i', j' := if i < k then i else i + 1, if j < k then j else j + 1;
      assert list'[i'] == p && list'[j'] == t;
    }
  }

  lemma CutMembers(list: seq<nat>, k: nat)
    requires k < |list| && NoDup(list)
    ensures NoDup(Cut(list, k))
    ensures forall t :: t in Cut(list, k) <==> t in list && t != list[k]
  {
    var list' := Cut(list, k);
    forall t | t in list && t != list[k] ensures t in list' {
      var i :| 0 <= i < |list| && list[i] == t;
      assert list'[if i < k then i else i - 1] == t;
    }
  }

  lemma PutMembers(list: seq<nat>, k: nat, x: nat)
    requires k <= |list| && NoDup(list) && x !in list
    ensures NoDup(Put(list, k, x))
    ensures forall t :: t in Put(list, k, x) <==> t in list || t == x
  {
    var list' := Put(list, k, x);
    assert list'[k] == x;
    forall t | t in list ensures t in list' {
      var i :| 0 <= i < |list| && list[i] == t;
      assert list'[if i < k then i else i + 1] == t;
    }
  }

  /** The trigger list place for a deadline: after everything as early, before everything later. */
  ghost predicate Place(timers: Timers, list: seq<nat>, d: int, k: nat) {
    && k <= |list|
    && (forall i :: 0 <= i < k && list[i] in timers ==> Ns(timers[list[i]].next) <= d)
    && (forall i :: k <= i < |list| && list[i] in timers ==> d < Ns(timers[list[i]].next))
  }

  lemma PutSorted(timers: Timers, list: seq<nat>, k: nat, x: nat)
    requires Sorted(timers, list) && x in timers && Place(timers, list, Ns(timers[x].next), k)
    ensures Sorted(timers, Put(list, k, x))
  {
  }

  lemma CutSorted(timers: Timers, list: seq<nat>, k: nat)
    requires Sorted(timers, list) && k < |list|
    ensures Sorted(timers, Cut(list, k))
  {
  }

  // ---- What is still owed ----

  /** The deadlines up to `horizon` of a timer next due at d with period i. */
  function Deadlines(d: int, i: int, horizon: int): seq<int>
    requires i >= 0
    decreases horizon - d
  {
    if d > horizon then [] else if i == 0 then [d] else [d] + Deadlines(d + i, i, horizon)
  }

  /** They are d, d + i, d + 2i, ..., each once, up to the horizon. */
  lemma {:induction false} DeadlineAt(d: int, i: int, horizon: int, k: nat)
    requires i > 0
    ensures k < |Deadlines(d, i, horizon)| <==> d + k * i <= horizon
    ensures k < |Deadlines(d, i, horizon)| ==> Deadlines(d, i, horizon)[k] == d + k * i
    decreases k
  {
    if d <= horizon && k > 0 {
      DeadlineAt(d + i, i, horizon, k - 1);
      assert d + i + (k - 1) * i == d + k * i;
    } else if d > horizon {
      assert k * i >= 0;
    }
  }

  function Owed(timers: Timers, t: nat, horizon: int): seq<int>
    requires t in timers ==> Ns(timers[t].interval) >= 0
  {
    if t in timers && timers[t].registered then Deadlines(Ns(timers[t].next), Ns(timers[t].interval), horizon) else []
  }

  // ---- How far behind the list is: the measure of a pass ----

  function Lag(timers: Timers, t: nat, limit: int): nat {
    if t in timers && Ns(timers[t].next) <= limit then limit + 1 - Ns(timers[t].next) else 0
  }

  function Lags(timers: Timers, list: seq<nat>, limit: int): nat {
    if list == [] then 0 else Lag(timers, list[0], limit) + Lags(timers, list[1..], limit)
  }

  lemma {:induction false} LagsSplit(timers: Timers, a: seq<nat>, b: seq<nat>, limit: int)
    ensures Lags(timers, a + b, limit) == Lags(timers, a, limit) + Lags(timers, b, limit)
  {
    if a == [] {
      assert a + b == b;
    } else {
      assert (a + b)[1..] == a[1..] + b;
      LagsSplit(timers, a[1..], b, limit);
    }
  }

  lemma LagsCut(timers: Timers, list: seq<nat>, k: nat, limit: int)
    requires k < |list|
    ensures Lags(timers, list, limit) == Lags(timers, Cut(list, k), limit) + Lag(timers, list[k], limit)
  {
    assert list == list[..k] + ([list[k]] + list[k + 1..]);
    LagsSplit(timers, list[..k], [list[k]] + list[k + 1..], limit);
    LagsSplit(timers, [list[k]], list[k + 1..], limit);
    LagsSplit(timers, list[..k], list[k + 1..], limit);
  }

  lemma LagsPut(timers: Timers, list: seq<nat>, k: nat, x: nat, limit: int)
    requires k <= |list|
    ensures Lags(timers, Put(list, k, x), limit) == Lags(timers, list, limit) + Lag(timers, x, limit)
  {
    assert Cut(Put(list, k, x), k) == list;
    LagsCut(timers, Put(list, k, x), k, limit);
  }

  lemma {:induction false} LagsSame(timers: Timers, timers': Timers, list: seq<nat>, limit: int)
    requires forall t :: t in list ==> t in timers && t in timers' && timers'[t].next == timers[t].next
    ensures Lags(timers', list, limit) == Lags(timers, list, limit)
  {
    if list != [] {
      LagsSame(timers, timers', list[1..], limit);
    }
  }

  /** A list all of whose overdue timers were as much overdue in another list is behind by no more; by less, if a
      timer of that other list is gone. */
  lemma {:induction false} LagsFewer(timers: Timers, list: seq<nat>, timers': Timers, list': seq<nat>, limit: int)
    requires NoDup(list) && NoDup(list')
    requires forall x :: x in list' && Lag(timers', x, limit) > 0 ==>
               x in list && Lag(timers', x, limit) <= Lag(timers, x, limit)
    ensures Lags(timers', list', limit) <= Lags(timers, list, limit)
    decreases |list'|
  {
    if list' != [] {
      var x, rest := list'[0], list'[1..];
      assert forall i :: 0 <= i < |rest| ==> rest[i] == list'[i + 1];
      assert x !in rest;
      if Lag(timers', x, limit) == 0 {
        LagsFewer(timers, list, timers', rest, limit);
      } else {
        assert x in list';
        var k :| 0 <= k < |list| && list[k] == x;
        CutMembers(list, k);
        LagsCut(timers, list, k, limit);
        hide Cut, Lag;
        LagsFewer(timers, Cut(list, k), timers', rest, limit);
      }
    }
  }

  lemma LagsFewerBut(timers: Timers, list: seq<nat>, timers': Timers, list': seq<nat>, limit: int, t: nat)
    requires NoDup(list) && NoDup(list') && t in list && t !in list'
    requires forall x :: x in list' && Lag(timers', x, limit) > 0 ==>
               x in list && Lag(timers', x, limit) <= Lag(timers, x, limit)
    ensures Lags(timers', list', limit) + Lag(timers, t, limit) <= Lags(timers, list, limit)
  {
    var k :| 0 <= k < |list| && list[k] == t;
    CutMembers(list, k);
    LagsCut(timers, list, k, limit);
    hide Cut, Lag;
    LagsFewer(timers, Cut(list, k), timers', list', limit);
  }
}
