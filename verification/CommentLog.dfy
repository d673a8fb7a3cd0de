/** `coderabbit_comment`: one row per GitHub comment, a register in which the newest revision wins. */
module CommentLog {
  import opened Domain

  datatype Delivery = Delivery(commentId: int, pullRequestId: nat, ghCreatedAt: int, content: CommentContent)

  /** The guarded update: an older revision than the stored one is refused. */
  function Overwritten(r: CommentRow, content: CommentContent, now: int): CommentRow {
    if r.content.ghUpdatedAt <= content.ghUpdatedAt then r.(content := content, lastSeenAt := now) else r
  }

  function Upserted(log: map<int, CommentRow>, d: Delivery, now: int): map<int, CommentRow> {
    if d.commentId in log then log[d.commentId := Overwritten(log[d.commentId], d.content, now)]
    else log[d.commentId := CommentRow(d.pullRequestId, d.content, d.ghCreatedAt, now, now)]
  }

  /** The freshness gate: the stored row of this comment on this pull request was touched at or after `updatedAt`. */
  predicate Seen(log: map<int, CommentRow>, pullRequestId: nat, commentId: int, updatedAt: int) {
    commentId in log && log[commentId].pullRequestId == pullRequestId && updatedAt <= log[commentId].lastSeenAt
  }

  // ---------------------------------------------------------------- convergence

  datatype Arrival = Arrival(delivery: Delivery, at: int)

  function DeliveredAll(log: map<int, CommentRow>, ds: seq<Arrival>): map<int, CommentRow>
    decreases |ds|
  {
    if ds == [] then log
    else var last := ds[|ds| - 1]; Upserted(DeliveredAll(log, ds[..|ds| - 1]), last.delivery, last.at)
  }

  /** All deliveries are revisions of comment `c`, and equal timestamps carry equal content. */
  predicate Revisions(c: int, ds: seq<Arrival>) {
    && (forall i :: 0 <= i < |ds| ==> ds[i].delivery.commentId == c)
    && (forall i, j :: 0 <= i < |ds| && 0 <= j < |ds|
          && ds[i].delivery.content.ghUpdatedAt == ds[j].delivery.content.ghUpdatedAt
          ==> ds[i].delivery.content == ds[j].delivery.content)
  }

  predicate Newest(ds: seq<Arrival>, k: nat) {
    k < |ds| && forall i :: 0 <= i < |ds| ==> ds[i].delivery.content.ghUpdatedAt <= ds[k].delivery.content.ghUpdatedAt
  }

  /** Whatever the order and the repetitions, the register ends with the content of the newest delivery. */
  lemma {:induction false} NewestWins(log: map<int, CommentRow>, c: int, ds: seq<Arrival>, k: nat)
    requires c !in log && Revisions(c, ds) && Newest(ds, k)
    ensures c in DeliveredAll(log, ds) && DeliveredAll(log, ds)[c].content == ds[k].delivery.content
  {
    var n := |ds| - 1;
    var init := ds[..n];
    if n > 0 {
      var j := NewestOf(init);
      NewestWins(log, c, init, j);
      assert ds[j] == init[j];
    } else {
      assert init == [];
    }
  }

  lemma {:induction false} NewestOf(ds: seq<Arrival>) returns (k: nat)
    requires ds != []
    ensures Newest(ds, k)
  {
    var n := |ds| - 1;
    if n == 0 { return 0; }
    var init := ds[..n];
    var j := NewestOf(init);
    assert ds[j] == init[j];
    k := if ds[j].delivery.content.ghUpdatedAt <= ds[n].delivery.content.ghUpdatedAt then n else j;
    forall i | 0 <= i < |ds| ensures ds[i].delivery.content.ghUpdatedAt <= ds[k].delivery.content.ghUpdatedAt {
      if i < n { assert ds[i] == init[i]; }
    }
  }

  ghost predicate Delivers(ds: seq<Arrival>, content: CommentContent) {
    exists i :: 0 <= i < |ds| && ds[i].delivery.content == content
  }

  /** Two histories of one comment that deliver the same revisions, in any order and with any repetitions, leave
      the same content. */
  lemma DeliveryOrderIsIrrelevant(log: map<int, CommentRow>, c: int, ds: seq<Arrival>, es: seq<Arrival>)
    requires c !in log && ds != [] && es != [] && Revisions(c, ds) && Revisions(c, es)
    requires forall content :: Delivers(ds, content) <==> Delivers(es, content)
    ensures c in DeliveredAll(log, ds) && c in DeliveredAll(log, es)
    ensures DeliveredAll(log, ds)[c].content == DeliveredAll(log, es)[c].content
  {
    var j := NewestOf(ds);
    var k := NewestOf(es);
    NewestWins(log, c, ds, j);
    NewestWins(log, c, es, k);
    var a, b := ds[j].delivery.content, es[k].delivery.content;
    assert Delivers(ds, a) && Delivers(es, b);
    var m :| 0 <= m < |es| && es[m].delivery.content == a;
    var n :| 0 <= n < |ds| && ds[n].delivery.content == b;
    assert es[m].delivery.content.ghUpdatedAt == es[k].delivery.content.ghUpdatedAt;
  }

  /** Deliveries can be replayed in parts: a request that lost a creation race is two deliveries in a row. */
  lemma {:induction false} DeliveredInParts(log: map<int, CommentRow>, ds: seq<Arrival>, es: seq<Arrival>)
    ensures DeliveredAll(DeliveredAll(log, ds), es) == DeliveredAll(log, ds + es)
  {
    if es == [] {
      assert ds + es == ds;
    } else {
      DeliveredInParts(log, ds, es[..|es| - 1]);
      assert (ds + es)[..|ds + es| - 1] == ds + es[..|es| - 1];
    }
  }

  /** Other comments are untouched by a delivery. */
  lemma OtherCommentsUntouched(log: map<int, CommentRow>, d: Delivery, now: int, c: int)
    requires c != d.commentId
    ensures c in Upserted(log, d, now) <==> c in log
    ensures c in log ==> Upserted(log, d, now)[c] == log[c]
  {
  }

  /** The deliveries of one comment among those of all comments. */
  function Of(ds: seq<Arrival>, c: int): seq<Arrival> {
    if ds == [] then []
    else
      var last := ds[|ds| - 1];
      Of(ds[..|ds| - 1], c) + (if last.delivery.commentId == c then [last] else [])
  }

  lemma {:induction false} OfAre(ds: seq<Arrival>, c: int, a: Arrival)
    ensures a in Of(ds, c) <==> a in ds && a.delivery.commentId == c
  {
    if ds != [] {
      var n := |ds| - 1;
      OfAre(ds[..n], c, a);
      assert ds == ds[..n] + [ds[n]];
    }
  }

  /** What is stored of a comment depends on the deliveries of that comment only. */
  lemma {:induction false} OnlyOwnDeliveriesMatter(log: map<int, CommentRow>, ds: seq<Arrival>, c: int)
    ensures c in DeliveredAll(log, ds) <==> c in DeliveredAll(log, Of(ds, c))
    ensures c in DeliveredAll(log, ds) ==> DeliveredAll(log, ds)[c] == DeliveredAll(log, Of(ds, c))[c]
  {
    if ds != [] {
      var n := |ds| - 1;
      var init, last := ds[..n], ds[n];
      OnlyOwnDeliveriesMatter(log, init, c);
      if last.delivery.commentId == c {
        var own := Of(ds, c);
        assert own == Of(init, c) + [last];
        assert own[..|own| - 1] == Of(init, c) && own[|own| - 1] == last;
      } else {
        assert Of(ds, c) == Of(init, c);
        OtherCommentsUntouched(DeliveredAll(log, init), last.delivery, last.at, c);
      }
    }
  }

  /** In any history of all comments, whatever its order and repetitions, each comment ends with the content of the
      newest delivery of its own. */
  lemma EveryCommentConverges(log: map<int, CommentRow>, ds: seq<Arrival>, a: Arrival)
    requires a in ds && a.delivery.commentId !in log
    requires Revisions(a.delivery.commentId, Of(ds, a.delivery.commentId))
    requires forall b :: b in ds && b.delivery.commentId == a.delivery.commentId ==>
      b.delivery.content.ghUpdatedAt <= a.delivery.content.ghUpdatedAt
    ensures a.delivery.commentId in DeliveredAll(log, ds)
    ensures DeliveredAll(log, ds)[a.delivery.commentId].content == a.delivery.content
  {
    var c := a.delivery.commentId;
    var own := Of(ds, c);
    forall i | 0 <= i < |own| ensures own[i] in ds && own[i].delivery.commentId == c { OfAre(ds, c, own[i]); }
    OfAre(ds, c, a);
    var k :| 0 <= k < |own| && own[k] == a;
    NewestWins(log, c, own, k);
    OnlyOwnDeliveriesMatter(log, ds, c);
  }

  // ---------------------------------------------------------------- the freshness gate

  /** No row was touched in the future, and every row was touched no earlier than the revision it holds was made. */
  predicate LogInv(log: map<int, CommentRow>, now: int) {
    forall c :: c in log ==> log[c].content.ghUpdatedAt <= log[c].lastSeenAt <= now
  }

  /** A delivery that is not from the future is seen afterwards, and nothing seen before becomes unseen. */
  lemma UpsertMarksSeen(log: map<int, CommentRow>, d: Delivery, before: int, now: int)
    requires LogInv(log, before) && before <= now && d.content.ghUpdatedAt <= now
    requires d.commentId in log ==> log[d.commentId].pullRequestId == d.pullRequestId
    ensures LogInv(Upserted(log, d, now), now)
    ensures Seen(Upserted(log, d, now), d.pullRequestId, d.commentId, d.content.ghUpdatedAt)
    ensures forall p, c, u :: Seen(log, p, c, u) ==> Seen(Upserted(log, d, now), p, c, u)
  {
  }

  /** A revision newer than the stored one is seen after its delivery exactly when the clock was not behind it. */
  lemma SeenIffClockNotBehind(log: map<int, CommentRow>, d: Delivery, now: int)
    requires d.commentId in log ==>
      log[d.commentId].pullRequestId == d.pullRequestId && log[d.commentId].content.ghUpdatedAt <= d.content.ghUpdatedAt
    ensures Seen(Upserted(log, d, now), d.pullRequestId, d.commentId, d.content.ghUpdatedAt) <==>
      d.content.ghUpdatedAt <= now
  {
  }
}
