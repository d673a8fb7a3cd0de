/** The effective order of the queue: how it is read, rewritten and moved. */
module QueueOrder {
  import opened Domain
  import opened Transitions
  import opened QueueInvariant
  import opened EnqueueSpec
  import opened OrderAlgebra

  // ---------------------------------------------------------------- reading

  /** The listing shows the active rows that have a pull request. */
  predicate Listed(t: Tables, id: nat) {
    id in t.queue && Active(t.queue[id]) && t.queue[id].pullRequestId.Some?
  }

  function Position(t: Tables, id: nat): Option<nat> {
    if id in t.orders then t.orders[id].position else None
  }

  /** By the order row's own id, a missing order row first. */
  predicate IdNotAfter(t: Tables, a: nat, b: nat) {
    a !in t.orders || (b in t.orders && t.orders[a].id <= t.orders[b].id)
  }

  /** ORDER BY position with nulls last, then by the order row's id. */
  predicate InOrder(t: Tables, a: nat, b: nat) {
    match (Position(t, a), Position(t, b))
    case (Some(p), Some(q)) => p < q || (p == q && IdNotAfter(t, a, b))
    case (Some(_), None) => true
    case (None, Some(_)) => false
    case (None, None) => IdNotAfter(t, a, b)
  }

  predicate Sorted(t: Tables, o: seq<nat>) {
    forall i, j :: 0 <= i < j < |o| ==> InOrder(t, o[i], o[j])
  }

  /** A listing the query may return. Rows without an order row tie, and may come in any order among themselves. */
  predicate IsEffectiveOrder(t: Tables, o: seq<nat>) {
    && NoDuplicates(o) && Sorted(t, o)
    && (forall i :: 0 <= i < |o| ==> Listed(t, o[i]))
    && (forall id :: id in t.queue && Listed(t, id) ==> id in o)
  }

  function InsertSorted(t: Tables, x: nat, o: seq<nat>): seq<nat> {
    if o == [] || InOrder(t, x, o[0]) then [x] + o else [o[0]] + InsertSorted(t, x, o[1..])
  }

  lemma {:induction false} InsertSortedSorts(t: Tables, x: nat, o: seq<nat>)
    requires Sorted(t, o) && NoDuplicates(o) && x !in o
    ensures var r := InsertSorted(t, x, o);
      Sorted(t, r) && NoDuplicates(r) && forall y :: y in r <==> y == x || y in o
  {
    if o != [] && !InOrder(t, x, o[0]) {
      InsertSortedSorts(t, x, o[1..]);
      assert forall y :: y in InsertSorted(t, x, o[1..]) ==> InOrder(t, o[0], y);
      assert o[0] !in o[1..] && o[0] != x;
      assert o[0] !in InsertSorted(t, x, o[1..]);
    }
  }

  /** The query always has an answer. */
  lemma {:induction false} ListingExists(t: Tables, ids: set<nat>) returns (o: seq<nat>)
    ensures NoDuplicates(o) && Sorted(t, o) && forall id :: id in o <==> id in ids
    decreases ids
  {
    if ids == {} {
      o := [];
    } else {
      var x :| x in ids;
      var rest := ListingExists(t, ids - {x});
      InsertSortedSorts(t, x, rest);
      o := InsertSorted(t, x, rest);
    }
  }

  lemma EffectiveOrderExists(t: Tables) returns (o: seq<nat>)
    ensures IsEffectiveOrder(t, o)
  {
    var ids := set id | id in t.queue && Listed(t, id);
    o := ListingExists(t, ids);
    forall i | 0 <= i < |o| ensures Listed(t, o[i]) { assert o[i] in ids; }
  }

  predicate HasPlace(t: Tables, id: nat) {
    id in t.orders && t.orders[id].position.Some?
  }

  /** Read off the rows, a listing shows exactly the pending and retriggered rows that have a pull request: first those
      with a position, by their positions, then those without one, by the age of their order rows. */
  lemma ListingShows(t: Tables, o: seq<nat>)
    requires IsEffectiveOrder(t, o)
    ensures forall id :: id in o <==>
      && id in t.queue && t.queue[id].pullRequestId.Some?
      && (t.queue[id].status == Pending || t.queue[id].status == Retriggered)
    ensures forall i, j :: 0 <= i < j < |o| && HasPlace(t, o[j]) ==>
      HasPlace(t, o[i]) && t.orders[o[i]].position.value <= t.orders[o[j]].position.value
    ensures forall i, j :: 0 <= i < j < |o| && !HasPlace(t, o[i]) && o[i] in t.orders ==>
      o[j] in t.orders && t.orders[o[i]].id <= t.orders[o[j]].id
  {
    forall i, j | 0 <= i < j < |o|
      ensures HasPlace(t, o[j]) ==>
        HasPlace(t, o[i]) && t.orders[o[i]].position.value <= t.orders[o[j]].position.value
      ensures !HasPlace(t, o[i]) && o[i] in t.orders ==> o[j] in t.orders && t.orders[o[i]].id <= t.orders[o[j]].id
    {
      assert InOrder(t, o[i], o[j]);
    }
  }

  // ---------------------------------------------------------------- writing

  /** First every position of an active row is cleared. */
  function Cleared(t: Tables): Tables {
    t.(orders := map id | id in t.orders ::
         if id in t.queue && Active(t.queue[id]) then t.orders[id].(position := None) else t.orders[id])
  }

  function AssignOne(t: Tables, id: nat, position: nat): Tables {
    if id !in t.queue || !Active(t.queue[id]) then t
    else if id in t.orders then t.(orders := t.orders[id := t.orders[id].(position := Some(position))])
    else t.(orders := t.orders[id := OrderRow(t.nextOrderId, Some(position))], nextOrderId := t.nextOrderId + 1)
  }

  /** Then the first `k` ids get positions 1 to `k`. */
  function Assigned(t: Tables, ids: seq<nat>, k: nat): Tables
    requires k <= |ids|
  {
    if k == 0 then Cleared(t) else AssignOne(Assigned(t, ids, k - 1), ids[k - 1], k)
  }

  function Normalized(t: Tables, ids: seq<nat>): Tables {
    Assigned(t, ids, |ids|)
  }

  predicate Lists(t: Tables, ids: seq<nat>) {
    && NoDuplicates(ids)
    && (forall i :: 0 <= i < |ids| ==> Listed(t, ids[i]))
    && (forall id :: id in t.queue && Listed(t, id) ==> id in ids)
  }

  /** Positions while they are being written: the first `k` ids have theirs, every other active row has none, and
      inactive rows keep their order rows. */
  predicate HalfWritten(t: Tables, t': Tables, ids: seq<nat>, k: nat)
    requires k <= |ids|
  {
    && t'.queue == t.queue
    && (forall i :: 0 <= i < k ==> Position(t', ids[i]) == Some(i + 1))
    && (forall id :: id in t.queue && Active(t.queue[id]) && id !in ids[..k] ==> Position(t', id) == None)
    && (forall id :: id in t.orders && !(id in t.queue && Active(t.queue[id])) ==>
          id in t'.orders && t'.orders[id] == t.orders[id])
  }

  lemma AssignOneWrites(t: Tables, t': Tables, ids: seq<nat>, k: nat)
    requires NoDuplicates(ids) && k < |ids| && Listed(t, ids[k]) && HalfWritten(t, t', ids, k)
    ensures HalfWritten(t, AssignOne(t', ids[k], k + 1), ids, k + 1)
  {
    var id, t'' := ids[k], AssignOne(t', ids[k], k + 1);
    assert ids[..k + 1] == ids[..k] + [id];
    assert forall x :: x != id ==> Position(t'', x) == Position(t', x);
  }

  lemma ClearedIsHalfWritten(t: Tables, ids: seq<nat>)
    ensures HalfWritten(t, Assigned(t, ids, 0), ids, 0)
  {
  }

  lemma AssignedStep(t: Tables, ids: seq<nat>, k: nat)
    requires 0 < k <= |ids|
    ensures Assigned(t, ids, k) == AssignOne(Assigned(t, ids, k - 1), ids[k - 1], k)
  {
  }

  lemma {:induction false} AssignedPositions(t: Tables, ids: seq<nat>, k: nat)
    requires NoDuplicates(ids) && (forall i :: 0 <= i < |ids| ==> Listed(t, ids[i])) && k <= |ids|
    ensures HalfWritten(t, Assigned(t, ids, k), ids, k)
  {
    hide *;
    if k == 0 {
      ClearedIsHalfWritten(t, ids);
    } else {
      AssignedStep(t, ids, k);
      AssignedPositions(t, ids, k - 1);
      AssignOneWrites(t, Assigned(t, ids, k - 1), ids, k - 1);
    }
  }

  predicate NoSharedPosition(t: Tables) {
    forall a, b :: a in t.queue && b in t.queue && a != b && Active(t.queue[a]) && Active(t.queue[b]) ==>
      (Position(t, a).Some? ==> Position(t, a) != Position(t, b))
  }

  /** At no point of the rewriting do two active rows share a position. */
  lemma NoIntermediateClash(t: Tables, ids: seq<nat>, k: nat)
    requires NoDuplicates(ids) && (forall i :: 0 <= i < |ids| ==> Listed(t, ids[i])) && k <= |ids|
    ensures NoSharedPosition(Assigned(t, ids, k))
  {
    AssignedPositions(t, ids, k);
  }

  function Items(p: seq<nat>): set<nat> {
    set x | x in p
  }

  lemma {:induction false} DistinctSize(p: seq<nat>)
    requires NoDuplicates(p)
    ensures |Items(p)| == |p|
  {
    if p == [] {
      assert Items(p) == {};
    } else {
      var tail := Items(p[1..]);
      DistinctSize(p[1..]);
      assert p[0] !in p[1..];
      assert forall x :: x in p <==> x == p[0] || x in p[1..];
      assert Items(p) == tail + {p[0]} && p[0] !in tail;
    }
  }

  lemma SameItemsSameLength(p: seq<nat>, q: seq<nat>)
    requires NoDuplicates(p) && NoDuplicates(q) && forall x :: x in p <==> x in q
    ensures |p| == |q|
  {
    DistinctSize(p);
    DistinctSize(q);
    assert Items(p) == Items(q);
  }

  /** A strictly increasing sequence of numbers between 1 and its length counts. */
  lemma {:induction false} IncreasingCounts(f: seq<nat>, i: nat)
    requires forall a, b :: 0 <= a < b < |f| ==> f[a] < f[b]
    requires forall a :: 0 <= a < |f| ==> 1 <= f[a] <= |f|
    requires i < |f|
    ensures i + 1 <= f[i] <= i + 1
  {
    IncreasingFromBelow(f, i);
    IncreasingFromAbove(f, i);
  }

  lemma {:induction false} IncreasingFromBelow(f: seq<nat>, i: nat)
    requires forall a, b :: 0 <= a < b < |f| ==> f[a] < f[b]
    requires forall a :: 0 <= a < |f| ==> 1 <= f[a]
    requires i < |f|
    ensures i + 1 <= f[i]
  {
    if i > 0 { IncreasingFromBelow(f, i - 1); }
  }

  lemma {:induction false} IncreasingFromAbove(f: seq<nat>, i: nat)
    requires forall a, b :: 0 <= a < b < |f| ==> f[a] < f[b]
    requires forall a :: 0 <= a < |f| ==> f[a] <= |f|
    requires i < |f|
    ensures f[i] <= i + 1
    decreases |f| - i
  {
    if i + 1 < |f| { IncreasingFromAbove(f, i + 1); }
  }

  /** Sorted by position, items that hold the positions 1 to n of `ids` are `ids`. */
  lemma PositionsDetermineOrder(t': Tables, ids: seq<nat>, p: seq<nat>)
    requires NoDuplicates(p) && Sorted(t', p) && |p| == |ids| && (forall x :: x in p ==> x in ids)
    requires forall i :: 0 <= i < |ids| ==> Position(t', ids[i]) == Some(i + 1)
    ensures p == ids
  {
    var f := seq(|p|, i requires 0 <= i < |p| => if Position(t', p[i]).Some? then Position(t', p[i]).value else 0);
    forall a | 0 <= a < |p| ensures 1 <= f[a] <= |p| && ids[f[a] - 1] == p[a] && Position(t', p[a]) == Some(f[a]) {
      assert p[a] in ids;
      var i :| 0 <= i < |ids| && ids[i] == p[a];
      assert Position(t', ids[i]) == Some(i + 1);
    }
    forall a, b | 0 <= a < b < |p| ensures f[a] < f[b] {
      assert InOrder(t', p[a], p[b]);
      assert p[a] != p[b];
    }
    forall a | 0 <= a < |p| ensures p[a] == ids[a] {
      IncreasingCounts(f, a);
    }
  }

  /** Reading back after writing returns exactly the order that was written, whatever positions and order rows there
      were before. */
  lemma ReadBack(t: Tables, ids: seq<nat>, p: seq<nat>)
    requires Lists(t, ids) && IsEffectiveOrder(Normalized(t, ids), p)
    ensures p == ids
  {
    var t' := Normalized(t, ids);
    assert HalfWritten(t, t', ids, |ids|) by { AssignedPositions(t, ids, |ids|); }
    assert forall id :: Listed(t', id) <==> Listed(t, id);
    forall x ensures x in p <==> x in ids {
    }
    SameItemsSameLength(p, ids);
    PositionsDetermineOrder(t', ids, p);
  }

  // ---------------------------------------------------------------- joining at the end

  /** A row that gets a new order row goes behind every row the listing shows. */
  lemma NewcomerJoinsAtTheEnd(t: Tables, t': Tables, o: seq<nat>, id: nat)
    requires IsEffectiveOrder(t, o) && id !in o && Listed(t', id)
    requires forall x :: x in t.orders ==> t.orders[x].id < t.nextOrderId
    requires id !in t.orders && t'.orders == t.orders[id := OrderRow(t.nextOrderId, None)]
    requires forall x :: x in t.queue && x != id ==> (Listed(t', x) <==> Listed(t, x))
    requires forall x :: x in t'.queue && x != id ==> x in t.queue
    requires forall x :: x in t.queue ==> x in t'.queue
    ensures IsEffectiveOrder(t', o + [id])
  {
    forall a, b | a in o && b in o && InOrder(t, a, b) ensures InOrder(t', a, b) {
    }
    forall a | a in o ensures InOrder(t', a, id) {
    }
  }

  /** Order rows carry ids handed out in increasing order and belong to queue rows. */
  predicate OrdersOk(t: Tables) {
    forall x :: x in t.orders ==> t.orders[x].id < t.nextOrderId && x < t.nextQueueId
  }

  /** Writing positions touches nothing but order rows. */
  lemma {:induction false} AssigningFrames(t: Tables, ids: seq<nat>, k: nat)
    requires k <= |ids|
    ensures Assigned(t, ids, k) == t.(orders := Assigned(t, ids, k).orders,
                                      nextOrderId := Assigned(t, ids, k).nextOrderId)
  {
    if k > 0 { AssigningFrames(t, ids, k - 1); }
  }

  lemma {:induction false} AssigningKeepsOrdersOk(t: Tables, ids: seq<nat>, k: nat)
    requires OrdersOk(t) && IdsBelow(t.queue, t.nextQueueId) && k <= |ids|
    ensures OrdersOk(Assigned(t, ids, k))
  {
    AssigningFrames(t, ids, k);
    if k > 0 {
      AssigningFrames(t, ids, k - 1);
      AssigningKeepsOrdersOk(t, ids, k - 1);
    }
  }

  lemma OrderRowKeepsOrdersOk(t: Tables, id: nat)
    requires OrdersOk(t) && id < t.nextQueueId
    ensures OrdersOk(WithOrder(t, id))
  {
  }

  lemma AdoptSameKeepsOrdersOk(t: Tables, d: EnqueueData, id: nat, lookback: int, now: int)
    requires QueueOk(t) && OrdersOk(t) && id in t.queue
    ensures var o := AdoptSame(t, d, id, lookback, now); o.Done? ==> OrdersOk(o.tables)
  {
    OrderRowKeepsOrdersOk(WithRow(t, id, ReopenedFor(t.queue[id], d)), id);
  }

  lemma SwapKeepsOrdersOk(t: Tables, d: EnqueueData, id: nat, other: nat, now: int)
    requires QueueOk(t) && OrdersOk(t) && id in t.queue && other in t.queue
    ensures var o := Swap(t, d, id, other, now); o.Done? ==> OrdersOk(o.tables)
  {
    OrderRowKeepsOrdersOk(WithRow(t, other, ReopenedFor(t.queue[other], d)), other);
  }

  lemma AdoptKeepsOrdersOk(t: Tables, d: EnqueueData, id: nat, lookback: int, now: int)
    requires QueueOk(t) && OrdersOk(t) && id in t.queue
    ensures var o := Adopt(t, d, id, lookback, now); o.Done? ==> OrdersOk(o.tables)
  {
    var other := ReopenableOf(t.queue, d.commentId);
    if t.queue[id].commentId == d.commentId {
      AdoptSameKeepsOrdersOk(t, d, id, lookback, now);
    } else if other.Some? {
      SwapKeepsOrdersOk(t, d, id, other.value, now);
    } else {
      var r := CommentReplaced(t.queue[id], d.commentUrl, d.commentId, d.runId, now);
      if !Violates(t.queue, id, r) { assert OrdersOk(WithRow(t, id, r)); }
    }
  }

  lemma CreateKeepsOrdersOk(t: Tables, d: EnqueueData, now: int)
    requires QueueOk(t) && OrdersOk(t)
    ensures var o := Create(t, d, now); o.Done? ==> OrdersOk(o.tables)
  {
  }

  /** An enqueue gives order rows only to rows that exist. */
  lemma EnqueueKeepsOrdersOk(t: Tables, d: EnqueueData, lookback: int, now: int)
    requires QueueOk(t) && OrdersOk(t)
    ensures var o := Enqueue(t, d, lookback, now); o.Done? ==> OrdersOk(o.tables)
  {
    var retriggered := RowIn(t.queue, d.key, Retriggered);
    if retriggered.Some? {
      AdoptKeepsOrdersOk(t, d, retriggered.value, lookback, now);
    } else {
      CreateKeepsOrdersOk(t, d, now);
    }
  }

  /** A newly created queue item is processed after everything already listed. */
  lemma CreatedItemIsLast(t: Tables, d: EnqueueData, now: int, o: seq<nat>)
    requires OrdersOk(t) && IdsBelow(t.queue, t.nextQueueId) && IsEffectiveOrder(t, o)
    ensures IsEffectiveOrder(Insert(t, d, now), o + [t.nextQueueId])
  {
    NewcomerJoinsAtTheEnd(t, Insert(t, d, now), o, t.nextQueueId);
  }
}
