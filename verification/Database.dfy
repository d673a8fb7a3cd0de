/** The tables as mutable state behind the repositories, with the unique indexes enforced on every queue write. */
module Database {
  import opened Domain
  import opened Transitions

  class Database {
    var queue: map<nat, QueueRow>
    var orders: map<nat, OrderRow>
    var prs: map<nat, PullRequest>
    var comments: map<int, CommentRow>
    var events: seq<Event>
    var posts: seq<Post>
    var nextReviewAt: Option<int>
    var paused: bool
    var nextQueueId: nat
    var nextOrderId: nat

    function Snapshot(): Tables
      reads this
    {
      Tables(queue, orders, prs, comments, events, posts, nextReviewAt, paused, nextQueueId, nextOrderId)
    }

    constructor ()
      ensures Snapshot() == EMPTY_TABLES
    {
      queue, orders, prs, comments := map[], map[], map[], map[];
      events, posts := [], [];
      nextReviewAt, paused := None, false;
      nextQueueId, nextOrderId := 0, 0;
    }

    /** An update of one row, refused when it breaks a unique index. */
    method UpdateRow(id: nat, r: QueueRow) returns (ok: bool)
      requires id in queue
      modifies this`queue
      ensures ok == !Violates(old(queue), id, r)
      ensures queue == if ok then old(queue)[id := r] else old(queue)
    {
      ok := !Violates(queue, id, r);
      if ok { queue := queue[id := r]; }
    }

    /** An insert under the next id, refused when it breaks a unique index. */
    method InsertRow(r: QueueRow) returns (ok: bool, id: nat)
      modifies this`queue, this`nextQueueId
      ensures id == old(nextQueueId) && ok == !Violates(old(queue), id, r)
      ensures if ok then queue == old(queue)[id := r] && nextQueueId == id + 1
              else queue == old(queue) && nextQueueId == old(nextQueueId)
    {
      id, ok := nextQueueId, !Violates(queue, nextQueueId, r);
      if ok { queue, nextQueueId := queue[id := r], id + 1; }
    }

    /** Gives a queue item an order row unless it has one. */
    method EnsureOrder(id: nat)
      modifies this`orders, this`nextOrderId
      ensures Snapshot() == WithOrder(old(Snapshot()), id)
    {
      if id !in orders {
        orders, nextOrderId := orders[id := OrderRow(nextOrderId, None)], nextOrderId + 1;
      }
    }

    method Record(e: Event)
      modifies this`events
      ensures Snapshot() == WithEvent(old(Snapshot()), e)
    {
      events := events + [e];
    }

    /** The tables become `t`: a transaction is undone, or other components ran. */
    method Load(t: Tables)
      modifies this
      ensures Snapshot() == t
    {
      queue, orders, prs, comments := t.queue, t.orders, t.prs, t.comments;
      events, posts := t.events, t.posts;
      nextReviewAt, paused := t.nextReviewAt, t.paused;
      nextQueueId, nextOrderId := t.nextQueueId, t.nextOrderId;
    }
  }
}
