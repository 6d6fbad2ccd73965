/** The LIST macros on linked cells: each element points forward to the next element and back to the place that
    points to it, which is the head of the list or the `next` field of the element before. */
module LinkedCells {

  /** A place that points to an element: lh_first of a head or le_next of an element. */
  class Slot {
    var at: Cell?

    constructor ()
      ensures at == null
    {
      at := null;
    }
  }

  class Cell {
    const next: Slot // &elm->field.le_next
    var prev: Slot // elm->field.le_prev

    constructor ()
      ensures fresh(next)
    {
      var slot := new Slot();
      next := slot;
      prev := slot;
    }
  }

  /** The place that points to the i-th element, or behind the last. */
  function Place(first: Slot, xs: seq<Cell>, i: nat): Slot
    requires i <= |xs|
  {
    if i == 0 then first else xs[i - 1].next
  }

  ghost function Element(xs: seq<Cell>, i: nat): Cell? {
    if i < |xs| then xs[i] else null
  }

  ghost predicate Apart(first: Slot, xs: seq<Cell>) {
    forall i, j :: 0 <= i < j <= |xs| ==> Place(first, xs, i) != Place(first, xs, j)
  }

  ghost function Places(first: Slot, xs: seq<Cell>): set<object> {
    set i | 0 <= i <= |xs| :: Place(first, xs, i)
  }

  /** The list that hangs on `first` consists of these elements. */
  ghost predicate Linked(first: Slot, xs: seq<Cell>)
    reads xs, Places(first, xs)
  {
    && Apart(first, xs)
    && (forall i :: 0 <= i <= |xs| ==> Place(first, xs, i).at == Element(xs, i))
    && (forall i {:trigger xs[i].prev} :: 0 <= i < |xs| ==> xs[i].prev == Place(first, xs, i))
  }

  lemma Distinct(first: Slot, xs: seq<Cell>, i: nat, j: nat)
    requires Apart(first, xs) && i < j < |xs|
    ensures xs[i] != xs[j]
  {
    assert Place(first, xs, i + 1) != Place(first, xs, j + 1);
  }

  lemma DistinctFrom(first: Slot, xs: seq<Cell>, k: nat)
    requires Apart(first, xs)
    ensures forall i :: 0 <= i < |xs| && i != k && k < |xs| ==> xs[i] != xs[k]
  {
    forall i | 0 <= i < |xs| && i != k && k < |xs| ensures xs[i] != xs[k] {
      Distinct(first, xs, if i < k then i else k, if i < k then k else i);
    }
  }

  /** An element that is not in the list, with a `next` of its own. */
  ghost predicate Outside(first: Slot, xs: seq<Cell>, elm: Cell) {
    elm !in xs && forall i :: 0 <= i <= |xs| ==> Place(first, xs, i) != elm.next
  }

  /** LIST_INSERT_HEAD */
  method InsertHead(first: Slot, elm: Cell, ghost xs: seq<Cell>)
    requires Linked(first, xs) && Outside(first, xs, elm)
    modifies first, elm, elm.next, if first.at != null then {first.at} else {}
    ensures Linked(first, [elm] + xs)
  {
    assert Place(first, xs, 0) == first && first.at == Element(xs, 0);
    elm.next.at := first.at;
    if elm.next.at != null {
      elm.next.at.prev := elm.next;
    }
    first.at := elm;
    elm.prev := first;
    ghost var ys := [elm] + xs;
    InsertedHeadApart(first, xs, elm);
    DistinctFrom(first, xs, 0);
    forall j | 0 < j <= |xs| ensures Place(first, xs, j).at == Element(xs, j) {
      ApartAt(first, xs, 0, j);
    }
    forall i | 0 <= i <= |ys| ensures Place(first, ys, i).at == Element(ys, i) {
      InsertedHeadPlace(first, xs, elm, i);
    }
    forall j | 0 < j < |xs| ensures xs[j].prev == Place(first, xs, j) {
      assert xs[j] in xs && old(xs[j].prev) == Place(first, xs, j);
    }
    forall i | 0 <= i < |ys| ensures ys[i].prev == Place(first, ys, i) {
      InsertedHeadPlace(first, xs, elm, i);
    }
  }

  lemma InsertedHeadPlace(first: Slot, xs: seq<Cell>, elm: Cell, i: nat)
    requires i <= |xs| + 1
    ensures Place(first, [elm] + xs, i) ==
            if i == 0 then first else if i == 1 then elm.next else Place(first, xs, i - 1)
    ensures Element([elm] + xs, i) == if i == 0 then elm else Element(xs, i - 1)
  {
  }

  lemma InsertedHeadApart(first: Slot, xs: seq<Cell>, elm: Cell)
    requires Apart(first, xs) && Outside(first, xs, elm)
    ensures Apart(first, [elm] + xs)
  {
    var ys := [elm] + xs;
    forall i, j | 0 <= i < j <= |ys| ensures Place(first, ys, i) != Place(first, ys, j) {
      InsertedHeadPlace(first, xs, elm, i);
      InsertedHeadPlace(first, xs, elm, j);
      assert Place(first, xs, 0) == first;
    }
  }

  function AfterInsert(xs: seq<Cell>, k: nat, elm: Cell): seq<Cell>
    requires k < |xs|
  {
    xs[..k + 1] + [elm] + xs[k + 1..]
  }

  lemma InsertedPlace(first: Slot, xs: seq<Cell>, k: nat, elm: Cell, i: nat)
    requires k < |xs| && i <= |xs| + 1
    ensures Place(first, AfterInsert(xs, k, elm), i) ==
            if i <= k + 1 then Place(first, xs, i) else if i == k + 2 then elm.next else Place(first, xs, i - 1)
    ensures Element(AfterInsert(xs, k, elm), i) ==
            if i <= k then xs[i] else if i == k + 1 then elm else Element(xs, i - 1)
  {
  }

  lemma ApartAt(first: Slot, xs: seq<Cell>, i: nat, j: nat)
    requires Apart(first, xs) && i <= |xs| && j <= |xs| && i != j
    ensures Place(first, xs, i) != Place(first, xs, j)
  {
    assert i < j || j < i;
  }

  lemma InsertedApart(first: Slot, xs: seq<Cell>, k: nat, elm: Cell)
    requires Apart(first, xs) && Outside(first, xs, elm) && k < |xs|
    ensures Apart(first, AfterInsert(xs, k, elm))
  {
    var ys := AfterInsert(xs, k, elm);
    forall i, j | 0 <= i < j <= |ys| ensures Place(first, ys, i) != Place(first, ys, j) {
      InsertedPlace(first, xs, k, elm, i);
      InsertedPlace(first, xs, k, elm, j);
    }
  }

  /** LIST_INSERT_AFTER */
  method InsertAfter(listelm: Cell, elm: Cell, ghost first: Slot, ghost xs: seq<Cell>, ghost k: nat)
    requires Linked(first, xs) && Outside(first, xs, elm) && k < |xs| && xs[k] == listelm
    modifies listelm.next, elm, elm.next, if listelm.next.at != null then {listelm.next.at} else {}
    ensures Linked(first, AfterInsert(xs, k, elm))
  {
    InsertedApart(first, xs, k, elm);
    DistinctFrom(first, xs, k + 1);
    ghost var ys := AfterInsert(xs, k, elm);
    assert |ys| == |xs| + 1;
    assert listelm.next == Place(first, xs, k + 1);
    elm.next.at := listelm.next.at;
    if elm.next.at != null {
      listelm.next.at.prev := elm.next;
    }
    listelm.next.at := elm;
    elm.prev := listelm.next;
    hide AfterInsert, Apart;
    forall j | 0 <= j <= |xs| && j != k + 1 ensures Place(first, xs, j).at == Element(xs, j) {
      ApartAt(first, xs, j, k + 1);
    }
    forall i | 0 <= i <= |ys| ensures Place(first, ys, i).at == Element(ys, i) {
      InsertedPlace(first, xs, k, elm, i);
    }
    forall i | 0 <= i < |ys| ensures ys[i].prev == Place(first, ys, i) {
      InsertedPlace(first, xs, k, elm, i);
    }
  }

  /** LIST_REMOVE: what points to the element points past it. The element itself is not touched. */
  method Unlink(elm: Cell)
    modifies elm.prev, if elm.next.at != null then {elm.next.at} else {}
    ensures old(elm.prev).at == old(elm.next.at)
    ensures old(elm.next.at) != null ==> old(elm.next.at).prev == old(elm.prev)
  {
    if elm.next.at != null {
      elm.next.at.prev := elm.prev;
    }
    elm.prev.at := elm.next.at;
  }

  /** What a removed element still knows: the place it was at and the element that is there now. */
  ghost predicate Remembers(elm: Cell, first: Slot, ys: seq<Cell>, k: nat)
    requires k <= |ys|
    reads elm, elm.next
  {
    elm.prev == Place(first, ys, k) && elm.next.at == Element(ys, k)
  }

  function AfterRemove(xs: seq<Cell>, k: nat): seq<Cell>
    requires k < |xs|
  {
    xs[..k] + xs[k + 1..]
  }

  lemma RemovedPlace(first: Slot, xs: seq<Cell>, k: nat, i: nat)
    requires k < |xs| && i < |xs|
    ensures Place(first, AfterRemove(xs, k), i) == Place(first, xs, if i <= k then i else i + 1)
    ensures Element(AfterRemove(xs, k), i) == Element(xs, if i < k then i else i + 1)
  {
  }

  lemma RemovedApart(first: Slot, xs: seq<Cell>, k: nat)
    requires Apart(first, xs) && k < |xs|
    ensures Apart(first, AfterRemove(xs, k)) && xs[k] !in AfterRemove(xs, k)
  {
    var ys := AfterRemove(xs, k);
    forall i, j | 0 <= i < j <= |ys| ensures Place(first, ys, i) != Place(first, ys, j) {
      RemovedPlace(first, xs, k, i);
      RemovedPlace(first, xs, k, j);
    }
    DistinctFrom(first, xs, k);
  }

  /** What LIST_REMOVE takes out: whatever is at the place that the given element remembers, if the element behind
      it is remembered too. That is the element itself as long as it is in the list. */
  method Remove(elm: Cell, ghost first: Slot, ghost xs: seq<Cell>, ghost k: nat)
    requires Linked(first, xs) && k < |xs|
    requires || xs[k] == elm
             || (Outside(first, xs, elm) && elm.prev == Place(first, xs, k) && elm.next.at == Element(xs, k + 1))
    modifies elm.prev, if elm.next.at != null then {elm.next.at} else {}
    ensures Linked(first, AfterRemove(xs, k)) && Outside(first, AfterRemove(xs, k), elm)
    ensures Remembers(elm, first, AfterRemove(xs, k), k)
  {
    RemovedApart(first, xs, k);
    DistinctFrom(first, xs, k);
    DistinctFrom(first, xs, k + 1);
    ghost var ys := AfterRemove(xs, k);
    assert xs[k].next == Place(first, xs, k + 1) && elm.prev == Place(first, xs, k);
    Unlink(elm);
    forall i | 0 <= i <= |ys| ensures Place(first, ys, i).at == Element(ys, i) && Place(first, ys, i) != elm.next {
      RemovedPlace(first, xs, k, i);
    }
    forall i | 0 <= i < |ys| ensures ys[i].prev == Place(first, ys, i) {
      RemovedPlace(first, xs, k, i);
    }
    RemovedPlace(first, xs, k, k);
  }

  /** Removing an element a second time, with nothing done to the list in between, changes nothing. */
  method RemoveAgain(elm: Cell, ghost first: Slot, ghost ys: seq<Cell>, ghost k: nat)
    requires Linked(first, ys) && Outside(first, ys, elm) && k <= |ys| && Remembers(elm, first, ys, k)
    modifies elm.prev, if elm.next.at != null then {elm.next.at} else {}
    ensures Linked(first, ys) && Outside(first, ys, elm) && Remembers(elm, first, ys, k)
    ensures elm.prev == old(elm.prev) && elm.prev.at == old(elm.prev.at) && elm.next.at == old(elm.next.at)
    ensures elm.next.at != null ==> elm.next.at.prev == old(elm.next.at.prev)
  {
    assert elm.prev.at == elm.next.at;
    assert elm.next.at != null ==> elm.next.at == ys[k] && ys[k] in ys && ys[k].prev == elm.prev;
    Unlink(elm);
  }

  /** The end of a wave-finish event: it is unlinked, and unlinked again by its destructor. */
  method WavefinishRm(elm: Cell, ghost first: Slot, ghost xs: seq<Cell>, ghost k: nat)
    requires Linked(first, xs) && k < |xs| && xs[k] == elm
    modifies elm.prev, if elm.next.at != null then {elm.next.at} else {}
    ensures Linked(first, AfterRemove(xs, k)) && Outside(first, AfterRemove(xs, k), elm)
  {
    Remove(elm, first, xs, k);
    RemoveAgain(elm, first, AfterRemove(xs, k), k);
  }

  /** With an element inserted at the same place in between, wherever that is, the second removal takes that one out.
      `before` is the element in front of the place, if there is one. */
  method InsertedBetween(elm: Cell, other: Cell, first: Slot, before: Cell?, ghost xs: seq<Cell>, ghost k: nat)
    requires Linked(first, xs) && k < |xs| && xs[k] == elm && before == (if k == 0 then null else xs[k - 1])
    requires Outside(first, xs, other)
    modifies elm.prev, other, other.next, if elm.next.at != null then {elm.next.at} else {}
    ensures Linked(first, AfterRemove(xs, k)) && other !in AfterRemove(xs, k)
  {
    ghost var ys := AfterRemove(xs, k);
    BetweenOutside(first, xs, k, other);
    assert elm.prev == Place(first, xs, k) == Place(first, ys, k) by { RemovedPlace(first, xs, k, k); }
    assert elm.next == Place(first, xs, k + 1);
    assert elm.next.at == Element(ys, k) by { RemovedPlace(first, xs, k, k); }
    Remove(elm, first, xs, k);
    hide Linked, Outside, Apart, Element, AfterRemove;
    InsertedAt(first, ys, k, other);
    PlaceHolds(first, ys, k);
    if before == null {
      InsertHead(first, other, ys);
    } else {
      InsertAfter(before, other, first, ys, k - 1);
    }
    Remove(elm, first, ys[..k] + [other] + ys[k..], k);
  }

  lemma PlaceHolds(first: Slot, ys: seq<Cell>, k: nat)
    requires Linked(first, ys) && k <= |ys|
    ensures Place(first, ys, k).at == Element(ys, k)
  {
  }

  /** The list with the other element at the k-th place, however it got there. */
  lemma InsertedAt(first: Slot, ys: seq<Cell>, k: nat, other: Cell)
    requires k <= |ys|
    ensures var zs := ys[..k] + [other] + ys[k..];
            && zs == (if k == 0 then [other] + ys else AfterInsert(ys, k - 1, other))
            && zs[k] == other && Place(first, zs, k) == Place(first, ys, k) && Element(zs, k + 1) == Element(ys, k)
            && AfterRemove(zs, k) == ys
  {
  }

  lemma BetweenOutside(first: Slot, xs: seq<Cell>, k: nat, other: Cell)
    requires Apart(first, xs) && k < |xs| && Outside(first, xs, other)
    ensures var ys := AfterRemove(xs, k);
            && Outside(first, ys, other) && Outside(first, ys[..k] + [other] + ys[k..], xs[k])
            && other != xs[k] && xs[k] !in ys && xs[k].next != other.next && xs[k].next != Place(first, ys, k)
            && (k > 0 ==> ys[k - 1] == xs[k - 1])
  {
    var ys := AfterRemove(xs, k);
    RemovedApart(first, xs, k);
    ApartAt(first, xs, k, k + 1);
    assert Place(first, xs, k + 1) == xs[k].next;
    forall i | 0 <= i <= |ys| ensures Place(first, ys, i) != other.next && Place(first, ys, i) != xs[k].next {
      RemovedPlace(first, xs, k, i);
      if i <= k {
        ApartAt(first, xs, i, k + 1);
      } else {
        ApartAt(first, xs, i + 1, k + 1);
      }
    }
    var zs := ys[..k] + [other] + ys[k..];
    forall i | 0 <= i <= |zs| ensures Place(first, zs, i) != xs[k].next {
      assert Place(first, zs, i) == if i <= k then Place(first, ys, i)
                                    else if i == k + 1 then other.next else Place(first, ys, i - 1);
    }
  }
}
