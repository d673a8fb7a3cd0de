/** The order repository: moves selected queue items by swapping in place, and stores the new order. */
module QueueOrderRepository {
  import opened Domain
  import opened Transitions
  import opened OrderAlgebra
  import opened QueueOrder
  import opened Database

  datatype MoveDirection = Up | Down

  datatype MoveOutcome = Moved(order: seq<nat>) | NotFound | AlreadyResolved

  // ---------------------------------------------------------------- uuid lookups

  function FindByUuid(q: map<nat, QueueRow>, items: seq<nat>, uuid: string): (r: Option<nat>)
    requires forall i :: 0 <= i < |items| ==> items[i] in q
    ensures r.Some? ==> r.value in items && q[r.value].uuid == uuid
    ensures r.None? ==> forall i :: 0 <= i < |items| ==> q[items[i]].uuid != uuid
  {
    if items == [] then None
    else if q[items[0]].uuid == uuid then Some(items[0])
    else FindByUuid(q, items[1..], uuid)
  }

  /** Unknown uuids are dropped. */
  function ResolveUuids(q: map<nat, QueueRow>, items: seq<nat>, uuids: seq<string>): set<nat>
    requires forall i :: 0 <= i < |items| ==> items[i] in q
  {
    set i | 0 <= i < |items| && q[items[i]].uuid in uuids :: items[i]
  }

  /** The items of a listing that a request selects by their uuids. */
  ghost predicate Selects(q: map<nat, QueueRow>, items: seq<nat>, uuids: seq<string>, sel: set<nat>) {
    forall id :: id in sel <==> id in items && id in q && q[id].uuid in uuids
  }

  // ---------------------------------------------------------------- in-place moves

  function Swapped(s: seq<nat>, i: nat, j: nat): seq<nat>
    requires i < |s| && j < |s|
  {
    s[i := s[j]][j := s[i]]
  }

  /** The item at `idx` passes its neighbour unless it is at the edge or the neighbour is selected too. */
  function Nudged(s: seq<nat>, idx: nat, sel: set<nat>, direction: MoveDirection): seq<nat>
    requires idx < |s|
  {
    match direction
    case Up => if idx > 0 && s[idx - 1] !in sel then Swapped(s, idx, idx - 1) else s
    case Down => if idx + 1 < |s| && s[idx + 1] !in sel then Swapped(s, idx, idx + 1) else s
  }

  method IndexOf(a: array<nat>, x: nat) returns (i: nat)
    requires x in a[..]
    ensures i < a.Length && a[i] == x && x !in a[..i]
  {
    i := 0;
    while a[i] != x
      invariant i < a.Length && x !in a[..i] && x in a[i..]
      decreases a.Length - i
    {
      assert a[..i + 1] == a[..i] + [a[i]];
      assert a[i..] == [a[i]] + a[i + 1..];
      i := i + 1;
    }
  }

  /** One turn of the swap loop, for item `id`. */
  method Nudge(a: array<nat>, id: nat, sel: set<nat>, direction: MoveDirection, ghost q: nat)
    requires NoDuplicates(a[..]) && q < a.Length && a[q] == id
    modifies a
    ensures a[..] == Nudged(old(a[..]), q, sel, direction)
  {
    var idx := IndexOf(a, id);
    assert a[..][idx] == a[..][q];
    assert idx == q;
    var neighbor: int := if direction == Up then idx as int - 1 else idx + 1;
    if neighbor < 0 || neighbor >= a.Length { return; }
    if a[neighbor] in sel { return; }
    a[idx], a[neighbor] := a[neighbor], a[idx];
  }

  /** Where the next selected item stands, and what lies before it. */
  lemma {:induction false} NextSelected(s: seq<nat>, sel: set<nat>, p: nat) returns (q: nat)
    requires p <= |s| && Pick(s[p..], sel) != []
    ensures p <= q < |s| && s[q] == Pick(s[p..], sel)[0] && s[q] in sel
    ensures forall i :: p <= i < q ==> s[i] !in sel
    ensures Pick(s[q + 1..], sel) == Pick(s[p..], sel)[1..]
    decreases |s| - p
  {
    assert s[p..][1..] == s[p + 1..];
    if s[p] in sel {
      q := p;
    } else {
      q := NextSelected(s, sel, p + 1);
    }
  }

  lemma {:induction false} NothingSelected(s: seq<nat>, sel: set<nat>)
    requires Pick(s, sel) == []
    ensures forall i :: 0 <= i < |s| ==> s[i] !in sel
  {
    PickedAre(s, sel);
  }

  /** Unselected items at the end stay where they are. */
  lemma {:induction false} UpSkipsUnselected(s: seq<nat>, sel: set<nat>, p: nat, q: nat)
    requires p <= q <= |s| && forall i :: p <= i < q ==> s[i] !in sel
    ensures MoveUp(s[..q], sel) == MoveUp(s[..p], sel) + s[p..q]
    decreases q - p
  {
    if p < q {
      UpSkipsUnselected(s, sel, p, q - 1);
      assert s[..q][..q - 1] == s[..q - 1] && s[p..q] == s[p..q - 1] + [s[q - 1]];
    }
  }

  lemma {:induction false} DownSkipsUnselected(s: seq<nat>, sel: set<nat>, p: nat, q: nat)
    requires p <= q <= |s| && forall i :: p <= i < q ==> s[i] !in sel
    ensures MoveDown(s[p..], sel) == s[p..q] + MoveDown(s[q..], sel)
    decreases q - p
  {
    if p < q {
      DownSkipsUnselected(s, sel, p + 1, q);
      assert s[p..][1..] == s[p + 1..] && s[p..q] == [s[p]] + s[p + 1..q];
    }
  }

  lemma {:induction false} MoveDownKeepsLength(s: seq<nat>, sel: set<nat>)
    ensures |MoveDown(s, sel)| == |s|
  {
    if s != [] { MoveDownKeepsLength(s[1..], sel); }
  }

  lemma AppendSettles(u: seq<nat>, x: nat, rest: seq<nat>, sel: set<nat>)
    requires x in sel
    ensures Nudged(u + ([x] + rest), |u|, sel, Up) == Settle(u, sel, x) + rest
  {
  }

  lemma PrependSettles(init: seq<nat>, x: nat, d: seq<nat>, sel: set<nat>)
    requires x in sel
    ensures Nudged((init + [x]) + d, |init|, sel, Down) == init + SettleDown(x, d, sel)
  {
  }

  /** The order while the loop runs upwards: the first `p` items moved, the others as they were. */
  function UpTo(s: seq<nat>, sel: set<nat>, p: nat): seq<nat>
    requires p <= |s|
  {
    MoveUp(s[..p], sel) + s[p..]
  }

  function DownFrom(s: seq<nat>, sel: set<nat>, p: nat): seq<nat>
    requires p <= |s|
  {
    s[..p] + MoveDown(s[p..], sel)
  }

  /** Up to the next selected item at `q` nothing changes; there, one turn of the loop moves one item more. */
  lemma UpStep(s: seq<nat>, sel: set<nat>, p: nat, q: nat)
    requires p <= q < |s| && s[q] in sel && forall i :: p <= i < q ==> s[i] !in sel
    ensures UpTo(s, sel, p) == UpTo(s, sel, q) && |UpTo(s, sel, q)| == |s| && UpTo(s, sel, q)[q] == s[q]
    ensures Nudged(UpTo(s, sel, q), q, sel, Up) == UpTo(s, sel, q + 1)
  {
    UpSkipsUnselected(s, sel, p, q);
    assert s[p..] == s[p..q] + s[q..];
    MoveUpKeepsOrders(s[..q], sel);
    assert s[q..] == [s[q]] + s[q + 1..];
    AppendSettles(MoveUp(s[..q], sel), s[q], s[q + 1..], sel);
    assert s[..q + 1][..q] == s[..q];
  }

  lemma DownStep(s: seq<nat>, sel: set<nat>, p: nat, q: nat)
    requires q < p <= |s| && s[q] in sel && forall i :: q < i < p ==> s[i] !in sel
    ensures DownFrom(s, sel, p) == DownFrom(s, sel, q + 1) && |DownFrom(s, sel, p)| == |s|
    ensures DownFrom(s, sel, p)[q] == s[q]
    ensures Nudged(DownFrom(s, sel, q + 1), q, sel, Down) == DownFrom(s, sel, q)
  {
    DownSkips(s, sel, p, q);
    MoveDownKeepsLength(s[q + 1..], sel);
    DownPasses(s, sel, q);
  }

  lemma DownSkips(s: seq<nat>, sel: set<nat>, p: nat, q: nat)
    requires q < p <= |s| && forall i :: q < i < p ==> s[i] !in sel
    ensures DownFrom(s, sel, p) == DownFrom(s, sel, q + 1)
  {
    DownSkipsUnselected(s, sel, q + 1, p);
    assert s[..p] == s[..q + 1] + s[q + 1..p];
  }

  lemma DownPasses(s: seq<nat>, sel: set<nat>, q: nat)
    requires q < |s| && s[q] in sel && |DownFrom(s, sel, q + 1)| == |s|
    ensures Nudged(DownFrom(s, sel, q + 1), q, sel, Down) == DownFrom(s, sel, q)
  {
    assert s[..q + 1] == s[..q] + [s[q]];
    PrependSettles(s[..q], s[q], MoveDown(s[q + 1..], sel), sel);
    assert s[q..][1..] == s[q + 1..];
  }

  lemma HalfMovedIsDistinct(s: seq<nat>, sel: set<nat>, p: nat)
    requires NoDuplicates(s) && p <= |s|
    ensures NoDuplicates(UpTo(s, sel, p)) && NoDuplicates(DownFrom(s, sel, p))
  {
    MoveUpKeepsDistinct(s[..p], sel);
    MoveUpKeepsOrders(s[..p], sel);
    JoinDistinct(s, p, MoveUp(s[..p], sel), s[p..]);
    MoveDownMovesDown(s[p..], sel);
    PickedAre(s[p..], sel);
    PickedAre(MoveDown(s[p..], sel), sel);
    forall x | x in MoveDown(s[p..], sel) ensures x in s[p..] {
      assert x in Pick(s[p..], sel) || x in Rest(s[p..], sel);
    }
    JoinDistinct(s, p, s[..p], MoveDown(s[p..], sel));
  }

  lemma JoinDistinct(s: seq<nat>, p: nat, a: seq<nat>, b: seq<nat>)
    requires NoDuplicates(s) && p <= |s| && NoDuplicates(a) && NoDuplicates(b)
    requires (forall x :: x in a ==> x in s[..p]) && (forall x :: x in b ==> x in s[p..])
    ensures NoDuplicates(a + b)
  {
    forall i, j | 0 <= i < j < |a + b| ensures (a + b)[i] != (a + b)[j] {
      if i < |a| <= j {
        assert a[i] in s[..p] && b[j - |a|] in s[p..];
      }
    }
  }

  /** What one turn of the upward loop finds and does. */
  lemma UpTurn(s: seq<nat>, sel: set<nat>, p: nat) returns (q: nat)
    requires NoDuplicates(s) && p <= |s| && Pick(s[p..], sel) != []
    ensures q < |s| && s[q] == Pick(s[p..], sel)[0] && Pick(s[q + 1..], sel) == Pick(s[p..], sel)[1..]
    ensures NoDuplicates(UpTo(s, sel, p)) && |UpTo(s, sel, p)| == |s| && UpTo(s, sel, p)[q] == s[q]
    ensures Nudged(UpTo(s, sel, p), q, sel, Up) == UpTo(s, sel, q + 1)
  {
    q := NextSelected(s, sel, p);
    UpStep(s, sel, p, q);
    HalfMovedIsDistinct(s, sel, q);
  }

  /** The loop over the selected items, from the top. */
  method SwapUp(a: array<nat>, selected: seq<nat>, sel: set<nat>)
    requires NoDuplicates(a[..]) && selected == Pick(a[..], sel)
    modifies a
    ensures a[..] == MoveUp(old(a[..]), sel)
  {
    ghost var s := a[..];
    ghost var p: int := 0;
    UpBegins(s, sel);
    for k := 0 to |selected|
      invariant 0 <= p <= |s| && Pick(s[p..], sel) == selected[k..] && a[..] == UpTo(s, sel, p)
    {
      p := SwapNextUp(a, selected[k], s, sel, p);
    }
    UpEnds(s, sel, p);
  }

  method SwapNextUp(a: array<nat>, id: nat, ghost s: seq<nat>, sel: set<nat>, ghost p: nat) returns (ghost p': nat)
    requires NoDuplicates(s) && p <= |s| && a[..] == UpTo(s, sel, p)
    requires Pick(s[p..], sel) != [] && id == Pick(s[p..], sel)[0]
    modifies a
    ensures p' <= |s| && a[..] == UpTo(s, sel, p') && Pick(s[p'..], sel) == Pick(s[p..], sel)[1..]
  {
    ghost var q := UpTurn(s, sel, p);
    Nudge(a, id, sel, Up, q);
    p' := q + 1;
  }

  lemma UpBegins(s: seq<nat>, sel: set<nat>)
    ensures UpTo(s, sel, 0) == s && Pick(s[0..], sel) == Pick(s, sel)[0..]
  {
    assert s[..0] == [] && s[0..] == s;
  }

  lemma UpEnds(s: seq<nat>, sel: set<nat>, p: nat)
    requires p <= |s| && Pick(s[p..], sel) == []
    ensures UpTo(s, sel, p) == MoveUp(s, sel)
  {
    NothingSelected(s[p..], sel);
    forall i | p <= i < |s| ensures s[i] !in sel { assert s[i] == s[p..][i - p]; }
    UpSkipsUnselected(s, sel, p, |s|);
    assert s[..|s|] == s && s[p..|s|] == s[p..];
  }

  /** Where the last selected item of a prefix stands. */
  lemma {:induction false} LastSelected(s: seq<nat>, sel: set<nat>, p: nat) returns (q: nat)
    requires p <= |s| && Pick(s[..p], sel) != []
    ensures var picked := Pick(s[..p], sel);
      q < p && s[q] == picked[|picked| - 1] && s[q] in sel && Pick(s[..q], sel) == picked[..|picked| - 1]
    ensures forall i :: q < i < p ==> s[i] !in sel
    decreases p
  {
    assert s[..p] == s[..p - 1] + [s[p - 1]];
    PickConcat(s[..p - 1], [s[p - 1]], sel);
    if s[p - 1] in sel {
      q := p - 1;
    } else {
      assert Pick(s[..p], sel) == Pick(s[..p - 1], sel);
      q := LastSelected(s, sel, p - 1);
    }
  }

  /** The loop over the selected items, from the bottom: `selected` is already reversed. */
  method SwapDown(a: array<nat>, selected: seq<nat>, sel: set<nat>)
    requires NoDuplicates(a[..]) && selected == Reverse(Pick(a[..], sel))
    modifies a
    ensures a[..] == MoveDown(old(a[..]), sel)
  {
    ghost var s := a[..];
    ghost var p: int := |s|;
    DownBegins(s, sel);
    for k := 0 to |selected|
      invariant 0 <= p <= |s| && Reverse(Pick(s[..p], sel)) == selected[k..] && a[..] == DownFrom(s, sel, p)
    {
      p := SwapNextDown(a, selected[k], s, sel, p);
    }
    DownEnds(s, sel, p);
  }

  method SwapNextDown(a: array<nat>, id: nat, ghost s: seq<nat>, sel: set<nat>, ghost p: nat) returns (ghost p': nat)
    requires NoDuplicates(s) && p <= |s| && a[..] == DownFrom(s, sel, p)
    requires Reverse(Pick(s[..p], sel)) != [] && id == Reverse(Pick(s[..p], sel))[0]
    modifies a
    ensures p' <= |s| && a[..] == DownFrom(s, sel, p') && Reverse(Pick(s[..p'], sel)) == Reverse(Pick(s[..p], sel))[1..]
  {
    p' := DownTurn(s, sel, p);
    Nudge(a, id, sel, Down, p');
  }

  /** What one turn of the downward loop finds and does. */
  lemma DownTurn(s: seq<nat>, sel: set<nat>, p: nat) returns (q: nat)
    requires NoDuplicates(s) && p <= |s| && Reverse(Pick(s[..p], sel)) != []
    ensures q < p && s[q] == Reverse(Pick(s[..p], sel))[0]
    ensures Reverse(Pick(s[..q], sel)) == Reverse(Pick(s[..p], sel))[1..]
    ensures NoDuplicates(DownFrom(s, sel, p)) && |DownFrom(s, sel, p)| == |s| && DownFrom(s, sel, p)[q] == s[q]
    ensures Nudged(DownFrom(s, sel, p), q, sel, Down) == DownFrom(s, sel, q)
  {
    var picked := Pick(s[..p], sel);
    q := LastSelected(s, sel, p);
    ReverseLast(picked);
    DownStep(s, sel, p, q);
    HalfMovedIsDistinct(s, sel, p);
  }

  lemma ReverseLast(s: seq<nat>)
    requires s != []
    ensures Reverse(s) == [s[|s| - 1]] + Reverse(s[..|s| - 1])
  {
    var init, last := s[..|s| - 1], s[|s| - 1];
    assert s == init + [last];
    ReverseConcat(init, [last]);
    assert Reverse([last]) == [last];
  }

  lemma DownBegins(s: seq<nat>, sel: set<nat>)
    ensures DownFrom(s, sel, |s|) == s && Reverse(Pick(s[..|s|], sel)) == Reverse(Pick(s, sel))[0..]
  {
    assert s[..|s|] == s && s[|s|..] == [];
  }

  lemma DownEnds(s: seq<nat>, sel: set<nat>, p: nat)
    requires p <= |s| && Reverse(Pick(s[..p], sel)) == []
    ensures DownFrom(s, sel, p) == MoveDown(s, sel)
  {
    ReverseTwice(Pick(s[..p], sel));
    NothingSelected(s[..p], sel);
    forall i | 0 <= i < p ensures s[i] !in sel { assert s[i] == s[..p][i]; }
    DownSkipsUnselected(s, sel, 0, p);
    assert s[0..] == s && s[0..p] == s[..p];
  }

  // ---------------------------------------------------------------- the repository

  lemma {:induction false} NothingMoves(s: seq<nat>)
    ensures MoveUp(s, {}) == s && MoveDown(s, {}) == s
  {
    if s != [] {
      NothingMoves(s[1..]);
      UpSkipsUnselected(s, {}, 0, |s|);
      assert s[..|s|] == s && s[0..|s|] == s && MoveUp(s[..0], {}) == [];
    }
  }

  lemma OneSelection(q: map<nat, QueueRow>, items: seq<nat>, uuids: seq<string>, sel: set<nat>)
    requires forall i :: 0 <= i < |items| ==> items[i] in q
    ensures Selects(q, items, uuids, sel) <==> sel == ResolveUuids(q, items, uuids)
  {
    if Selects(q, items, uuids, sel) {
      forall id ensures id in sel <==> id in ResolveUuids(q, items, uuids) {}
    }
  }

  lemma SameItemsList(t: Tables, o: seq<nat>, r: seq<nat>)
    requires IsEffectiveOrder(t, o) && NoDuplicates(r) && forall x :: x in r <==> x in o
    ensures Lists(t, r)
  {
    forall i | 0 <= i < |r| ensures Listed(t, r[i]) { assert r[i] in o; }
  }

  lemma MovedListing(t: Tables, o: seq<nat>, sel: set<nat>)
    requires IsEffectiveOrder(t, o)
    ensures Lists(t, MoveUp(o, sel)) && Lists(t, MoveDown(o, sel))
  {
    MoveUpKeepsDistinct(o, sel);
    MoveUpKeepsOrders(o, sel);
    SameItemsList(t, o, MoveUp(o, sel));
    MoveDownKeepsItems(o, sel);
    SameItemsList(t, o, MoveDown(o, sel));
  }

  lemma MoveDownKeepsItems(o: seq<nat>, sel: set<nat>)
    requires NoDuplicates(o)
    ensures NoDuplicates(MoveDown(o, sel)) && forall x :: x in MoveDown(o, sel) <==> x in o
  {
    var d := MoveDown(o, sel);
    MoveDownMovesDown(o, sel);
    PickedAre(d, sel);
    PickedAre(o, sel);
    forall x ensures x in d <==> x in o {
      assert x in d <==> x in Pick(d, sel) || x in Rest(d, sel);
    }
  }

  lemma TopListing(t: Tables, o: seq<nat>, x: nat)
    requires IsEffectiveOrder(t, o) && x in o
    ensures Lists(t, OrderAlgebra.MoveToTop(o, x))
  {
    var r, rest := OrderAlgebra.MoveToTop(o, x), Rest(o, {x});
    PickedAre(o, {x});
    RestIsDistinct(o, {x});
    forall i, j | 0 <= i < j < |r| ensures r[i] != r[j] {
      assert r[j] == rest[j - 1] && rest[j - 1] in rest;
    }
    SameItemsList(t, o, r);
  }

  lemma RestIsDistinct(s: seq<nat>, sel: set<nat>)
    requires NoDuplicates(s)
    ensures NoDuplicates(Rest(s, sel))
  {
    PartitionDistinct(s, sel);
    var p, q := Pick(s, sel), Rest(s, sel);
    forall i, j | 0 <= i < j < |q| ensures q[i] != q[j] {
      assert (p + q)[|p| + i] == q[i] && (p + q)[|p| + j] == q[j];
    }
  }

  class QueueOrderRepository {
    const db: Database

    constructor (db: Database)
      ensures this.db == db
    {
      this.db := db;
    }

    /** The active rows in processing order, as the database sorts them. */
    method ReadEffectiveOrder() returns (o: seq<nat>)
      ensures IsEffectiveOrder(db.Snapshot(), o)
    {
      ghost var answer := EffectiveOrderExists(db.Snapshot());
      o :| IsEffectiveOrder(db.Snapshot(), o);
    }

    method ClearPositions()
      modifies db`orders
      ensures db.Snapshot() == Cleared(old(db.Snapshot()))
    {
      db.orders := Cleared(db.Snapshot()).orders;
    }

    /** Updates the order row of an active item, or creates one. */
    method AssignPosition(id: nat, position: nat)
      modifies db`orders, db`nextOrderId
      ensures db.Snapshot() == AssignOne(old(db.Snapshot()), id, position)
    {
      if id !in db.queue || !Active(db.queue[id]) { return; }
      if id in db.orders {
        db.orders := db.orders[id := db.orders[id].(position := Some(position))];
      } else {
        db.orders, db.nextOrderId := db.orders[id := OrderRow(db.nextOrderId, Some(position))], db.nextOrderId + 1;
      }
    }

    /** Clears every active position, then writes the new ones one by one; no two active rows ever share one. */
    method NormalizePositionsToOrder(ids: seq<nat>)
      requires NoDuplicates(ids) && forall i :: 0 <= i < |ids| ==> Listed(db.Snapshot(), ids[i])
      modifies db`orders, db`nextOrderId
      ensures db.Snapshot() == Normalized(old(db.Snapshot()), ids)
    {
      ghost var t := db.Snapshot();
      ClearPositions();
      assert NoSharedPosition(db.Snapshot()) by { NoIntermediateClash(t, ids, 0); }
      for i := 0 to |ids|
        invariant db.Snapshot() == Assigned(t, ids, i)
        invariant NoSharedPosition(db.Snapshot())
      {
        AssignPosition(ids[i], i + 1);
        assert NoSharedPosition(db.Snapshot()) by { NoIntermediateClash(t, ids, i + 1); }
      }
    }

    /** Moves the selected items one place; the order that is read back is the moved order, and nothing else of the
        store changes than the order rows. */
    method MoveItems(uuids: seq<string>, direction: MoveDirection) returns (before: seq<nat>, after: seq<nat>)
      modifies db`orders, db`nextOrderId
      ensures IsEffectiveOrder(old(db.Snapshot()), before) && IsEffectiveOrder(db.Snapshot(), after)
      ensures forall sel :: Selects(old(db.queue), before, uuids, sel) ==>
        && after == (if direction.Up? then MoveUp(before, sel) else MoveDown(before, sel))
        && (sel == {} ==> db.Snapshot() == old(db.Snapshot()))
        && (sel != {} ==> forall o :: IsEffectiveOrder(db.Snapshot(), o) <==> o == after)
    {
      before := ReadEffectiveOrder();
      var sel := ResolveUuids(db.queue, before, uuids);
      ghost var q := db.queue;
      forall other | Selects(q, before, uuids, other) ensures other == sel { OneSelection(q, before, uuids, other); }
      if sel == {} {
        NothingMoves(before);
        return before, before;
      }
      var sorted := Pick(before, sel);
      var newOrder := new nat[|before|](i requires 0 <= i < |before| => before[i]);
      assert newOrder[..] == before;
      if direction == Up {
        SwapUp(newOrder, sorted, sel);
      } else {
        SwapDown(newOrder, Reverse(sorted), sel);
      }
      var moved := newOrder[..];
      MovedListing(db.Snapshot(), before, sel);
      assert Lists(db.Snapshot(), moved);
      ghost var t := db.Snapshot();
      NormalizePositionsToOrder(moved);
      after := ReadEffectiveOrder();
      forall o | IsEffectiveOrder(db.Snapshot(), o) ensures o == moved { ReadBack(t, moved, o); }
    }

    /** The item with this uuid becomes first, the others keep their order. */
    method MoveToTop(uuid: string) returns (r: MoveOutcome, ghost before: seq<nat>)
      modifies db`orders, db`nextOrderId
      ensures !r.Moved? ==> db.Snapshot() == old(db.Snapshot())
      ensures r.Moved? ==>
        && IsEffectiveOrder(old(db.Snapshot()), before)
        && (exists k :: 0 <= k < |before| && old(db.queue)[before[k]].uuid == uuid
              && r.order == OrderAlgebra.MoveToTop(before, before[k]))
        && forall o :: IsEffectiveOrder(db.Snapshot(), o) <==> o == r.order
      ensures r.NotFound? ==> forall id :: id in db.queue && Listed(db.Snapshot(), id) ==> db.queue[id].uuid != uuid
      ensures r.AlreadyResolved? ==>
        exists id :: id in db.queue && db.queue[id].uuid == uuid && db.queue[id].status == Resolved
      ensures (exists id :: id in db.queue && db.queue[id].uuid == uuid)
              && (forall id :: id in db.queue && db.queue[id].uuid == uuid ==> db.queue[id].status == Resolved) ==>
        r.AlreadyResolved?
    {
      before := [];
      var raw := set id | id in db.queue && db.queue[id].uuid == uuid;
      if raw == {} {
        assert forall id :: id in db.queue && db.queue[id].uuid == uuid ==> id in raw;
        return NotFound, before;
      }
      var found :| found in raw;
      if db.queue[found].status == Resolved { return AlreadyResolved, before; }
      var ordered := ReadEffectiveOrder();
      before := ordered;
      var item := FindByUuid(db.queue, ordered, uuid);
      if item.None? { return NotFound, before; }
      var top := OrderAlgebra.MoveToTop(ordered, item.value);
      TopListing(db.Snapshot(), ordered, item.value);
      ghost var t := db.Snapshot();
      NormalizePositionsToOrder(top);
      var after := ReadEffectiveOrder();
      forall o | IsEffectiveOrder(db.Snapshot(), o) ensures o == top { ReadBack(t, top, o); }
      r := Moved(after);
    }
  }
}
