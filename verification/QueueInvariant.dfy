/** What every write to `review_queue` keeps. */
module QueueInvariant {
  import opened Domain
  import opened Transitions

  /** Resolution data are present exactly on resolved rows, and every retriggered row carries its clock. */
  predicate RowShape(r: QueueRow) {
    && (r.status == Resolved <==> r.resolution.Some?)
    && (r.status == Resolved <==> r.resolvedAt.Some?)
    && (r.status == Retriggered ==> r.retriggeredAt.Some?)
  }

  predicate CommentIdsUnique(q: map<nat, QueueRow>) {
    forall a, b :: a in q && b in q && a != b ==> q[a].commentId != q[b].commentId
  }

  predicate OneActiveRowPerPr(q: map<nat, QueueRow>) {
    forall a, b :: a in q && b in q && a != b && Active(q[a]) && Active(q[b]) ==> q[a].key != q[b].key
  }

  predicate QueueInv(q: map<nat, QueueRow>) {
    && (forall id :: id in q ==> RowShape(q[id]))
    && CommentIdsUnique(q)
    && OneActiveRowPerPr(q)
  }

  /** Row ids are handed out in increasing order. */
  predicate IdsBelow(q: map<nat, QueueRow>, next: nat) {
    forall id :: id in q ==> id < next
  }

  predicate QueueOk(t: Tables) {
    QueueInv(t.queue) && IdsBelow(t.queue, t.nextQueueId)
  }

  /** A comment belongs to one pull request: the rows that carry it are rows of `key`. */
  predicate CommentOf(q: map<nat, QueueRow>, commentId: int, key: PrKey) {
    forall id :: id in q && q[id].commentId == commentId ==> q[id].key == key
  }

  /** Resolved for good: merged, closed, reviewed by hand, or stale comment. */
  predicate Terminal(r: QueueRow) {
    r.status == Resolved && !Reopenable(r.resolution)
  }

  /** How a row may change over time, whatever happens to it. */
  predicate RowProgress(r: QueueRow, r': QueueRow) {
    && r'.key == r.key && r'.pullRequestId == r.pullRequestId && r'.createdAt == r.createdAt
    && r.attempts <= r'.attempts
    && (Terminal(r) ==> Terminal(r'))
  }

  predicate QueueProgress(q: map<nat, QueueRow>, q': map<nat, QueueRow>) {
    forall id :: id in q ==> id in q' && RowProgress(q[id], q'[id])
  }

  /** A write to one existing row that wakes no resolved row and keeps its comment or breaks no unique index. */
  predicate LegalRewrite(q: map<nat, QueueRow>, id: nat, r: QueueRow) {
    && id in q && RowShape(r) && RowProgress(q[id], r)
    && (Active(r) ==> Active(q[id]))
    && (r.commentId == q[id].commentId || !Violates(q, id, r))
  }

  /** `t'` differs from `t`, in the queue, at most in a legal rewrite of row `id`. */
  predicate RewritesOnly(t: Tables, t': Tables, id: nat) {
    && id in t.queue && id in t'.queue
    && t'.queue == t.queue[id := t'.queue[id]] && t'.queue.Keys == t.queue.Keys
    && LegalRewrite(t.queue, id, t'.queue[id])
  }

  /** Storing a well shaped row keeps the invariant when its comment is its own and no other active row belongs to
      its pull request. */
  lemma RowWriteKeepsInv(q: map<nat, QueueRow>, id: nat, r: QueueRow)
    requires QueueInv(q) && RowShape(r)
    requires forall o :: o in q && o != id ==> q[o].commentId != r.commentId
    requires Active(r) ==> forall o :: o in q && o != id && Active(q[o]) ==> q[o].key != r.key
    ensures QueueInv(q[id := r])
  {
  }

  lemma LegalRewriteKeepsInv(q: map<nat, QueueRow>, id: nat, r: QueueRow)
    requires QueueInv(q) && LegalRewrite(q, id, r)
    ensures QueueInv(q[id := r]) && !Violates(q, id, r) && QueueProgress(q, q[id := r])
  {
  }

  lemma RewriteKeepsQueueOk(t: Tables, t': Tables, id: nat)
    requires QueueOk(t) && RewritesOnly(t, t', id) && t'.nextQueueId == t.nextQueueId
    ensures QueueOk(t') && QueueProgress(t.queue, t'.queue)
  {
    LegalRewriteKeepsInv(t.queue, id, t'.queue[id]);
  }

  lemma StoredRow(t: Tables, t': Tables, id: nat, r: QueueRow)
    requires LegalRewrite(t.queue, id, r) && t'.queue == t.queue[id := r]
    ensures RewritesOnly(t, t', id)
  {
  }

  /** The age sweep resolves every retriggered row whose clock is older than `age`, and leaves every other row. */
  lemma SweepKeepsInv(q: map<nat, QueueRow>, age: int, now: int)
    requires QueueInv(q) && age > 0
    ensures QueueInv(Swept(q, age, now)) && QueueProgress(q, Swept(q, age, now))
    ensures forall id :: id in q && !Stale(q[id], age, now) ==> Swept(q, age, now)[id] == q[id]
    ensures forall id :: id in q ==> !Stale(Swept(q, age, now)[id], age, now)
  {
  }
}
