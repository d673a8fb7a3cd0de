/** The comment repository: the guarded upsert with its recovery from a lost creation race, and the lookups. */
module CommentRepository {
  import opened Domain
  import opened CommentLog
  import opened DetectionSpec
  import opened Database

  lemma DeliveredTwice(log: map<int, CommentRow>, a: Arrival, b: Arrival)
    ensures DeliveredAll(log, [a, b]) == Upserted(Upserted(log, a.delivery, a.at), b.delivery, b.at)
  {
    assert [a, b][..1] == [a] && [a][..0] == [];
    assert DeliveredAll(log, [a]) == Upserted(DeliveredAll(log, []), a.delivery, a.at);
  }

  lemma Inhabited(cs: set<int>)
    ensures cs == {} || exists c :: c in cs
  {
    if forall c :: c !in cs { assert cs == {}; }
  }

  lemma {:induction false} LatestCreated(log: map<int, CommentRow>, cs: set<int>) returns (latest: int)
    requires cs <= log.Keys
    ensures cs != {} ==> latest in cs && forall c :: c in cs ==> log[c].ghCreatedAt <= log[latest].ghCreatedAt
    decreases cs
  {
    if cs == {} {
      latest := 0;
    } else {
      Inhabited(cs);
      var c :| c in cs;
      latest := LatestCreated(log, cs - {c});
      if cs == {c} || log[latest].ghCreatedAt < log[c].ghCreatedAt { latest := c; }
    }
  }

  class CommentRepository {
    const db: Database

    constructor (db: Database)
      ensures this.db == db
    {
      this.db := db;
    }

    /** Overwrites the stored content unless the stored revision is newer. */
    method UpdateUnlessNewer(d: Delivery, now: int)
      requires d.commentId in db.comments
      modifies db`comments
      ensures db.comments == Upserted(old(db.comments), d, now)
    {
      var row := db.comments[d.commentId];
      if row.content.ghUpdatedAt <= d.content.ghUpdatedAt {
        db.comments := db.comments[d.commentId := row.(content := d.content, lastSeenAt := now)];
      }
    }

    /** `rival` is a delivery of the same comment by another request, between the lookup and the creation: it makes
        the creation fail, and the delivery is then applied to the row of the winner. */
    method Upsert(d: Delivery, now: int, rival: Option<Arrival>)
      requires rival.Some? ==> rival.value.delivery.commentId == d.commentId
      modifies db`comments
      ensures db.comments ==
        if rival.Some? && d.commentId !in old(db.comments)
        then DeliveredAll(old(db.comments), [rival.value, Arrival(d, now)])
        else Upserted(old(db.comments), d, now)
    {
      if d.commentId in db.comments {
        UpdateUnlessNewer(d, now);
        return;
      }
      ghost var log := db.comments;
      if rival.Some? {
        db.comments := Upserted(db.comments, rival.value.delivery, rival.value.at);
        DeliveredTwice(log, rival.value, Arrival(d, now));
      }
      var created := d.commentId !in db.comments;
      if created {
        db.comments := db.comments[d.commentId := CommentRow(d.pullRequestId, d.content, d.ghCreatedAt, now, now)];
      } else {
        UpdateUnlessNewer(d, now);
      }
    }

    method FindByCommentId(pullRequestId: nat, commentId: int) returns (r: Option<CommentRow>)
      ensures r.Some? <==> commentId in db.comments && db.comments[commentId].pullRequestId == pullRequestId
      ensures r.Some? ==> r.value == db.comments[commentId]
    {
      if commentId in db.comments && db.comments[commentId].pullRequestId == pullRequestId {
        return Some(db.comments[commentId]);
      }
      r := None;
    }

    /** The latest created approval or change request of the pull request. */
    method FindCompletedReview(pullRequestId: nat) returns (r: Option<int>)
      ensures IsCompletedReview(db.comments, pullRequestId, r)
    {
      var log := db.comments;
      var reviews := set c | c in log && log[c].pullRequestId == pullRequestId && IsVerdict(log[c].content.kind);
      if reviews == {} {
        assert forall c :: c in log && log[c].pullRequestId == pullRequestId && IsVerdict(log[c].content.kind) ==>
          c in reviews;
        return None;
      }
      ghost var latest := LatestCreated(log, reviews);
      var review :| review in reviews && forall c :: c in reviews ==> log[c].ghCreatedAt <= log[review].ghCreatedAt;
      r := Some(review);
    }
  }
}
