/** Counters and timestamps of pull requests. */
module PullRequestRepository {
  import opened Domain
  import opened Transitions
  import opened Database

  predicate IsOldestWaiting(prs: map<nat, PullRequest>, r: Option<nat>) {
    match r
    case None => forall p :: p in prs ==> !AwaitsAcknowledgement(prs[p])
    case Some(p) =>
      && p in prs && AwaitsAcknowledgement(prs[p])
      && forall o :: o in prs && AwaitsAcknowledgement(prs[o]) ==>
           prs[p].lastReviewRequestedAt.value <= prs[o].lastReviewRequestedAt.value
  }

  lemma {:induction false} OldestRequest(prs: map<nat, PullRequest>, waiting: set<nat>) returns (oldest: nat)
    requires forall p :: p in waiting ==> p in prs && prs[p].lastReviewRequestedAt.Some?
    ensures waiting != {} ==> oldest in waiting
    ensures waiting != {} ==>
      forall o :: o in waiting ==> prs[oldest].lastReviewRequestedAt.value <= prs[o].lastReviewRequestedAt.value
    decreases waiting
  {
    if waiting == {} {
      oldest := 0;
    } else {
      var p :| p in waiting;
      oldest := OldestRequest(prs, waiting - {p});
      if waiting == {p} || prs[p].lastReviewRequestedAt.value < prs[oldest].lastReviewRequestedAt.value { oldest := p; }
    }
  }

  /** The tick is held by the oldest waiting request exactly when every waiting request is younger than the spacing. */
  lemma OldestDecidesTheHold(prs: map<nat, PullRequest>, r: Option<nat>, spacing: int, now: int)
    requires IsOldestWaiting(prs, r)
    ensures AcknowledgementHold(prs, spacing, now) <==>
      r.Some? && now - prs[r.value].lastReviewRequestedAt.value < spacing
  {
  }

  class PullRequestRepository {
    const db: Database

    constructor (db: Database)
      ensures this.db == db
    {
      this.db := db;
    }

    /** One more posted retrigger. An unknown id is an error of the caller's transaction. */
    method IncrementRetriggerCount(id: nat, now: int) returns (found: bool)
      modifies db`prs
      ensures found <==> id in old(db.prs)
      ensures db.prs == if found then old(db.prs)[id := RetriggerCounted(old(db.prs)[id], now)] else old(db.prs)
    {
      found := id in db.prs;
      if found { db.prs := db.prs[id := RetriggerCounted(db.prs[id], now)]; }
    }

    /** One more review; without a reviewed commit, the head known at this moment counts as reviewed. */
    method RecordReview(id: nat, url: string, verdict: CommentType, sha: Option<string>, now: int) returns (found: bool)
      modifies db`prs
      ensures found <==> id in old(db.prs)
      ensures db.prs == if found then old(db.prs)[id := ReviewRecorded(old(db.prs)[id], url, verdict, sha, now)]
                        else old(db.prs)
    {
      found := id in db.prs;
      if found { db.prs := db.prs[id := ReviewRecorded(db.prs[id], url, verdict, sha, now)]; }
    }

    /** The first detection is stamped once, the last one every time. */
    method RecordReviewLimitDetection(id: nat, now: int) returns (found: bool)
      modifies db`prs
      ensures found <==> id in old(db.prs)
      ensures db.prs == if found then old(db.prs)[id := LimitDetected(old(db.prs)[id], now)] else old(db.prs)
    {
      found := id in db.prs;
      if found { db.prs := db.prs[id := LimitDetected(db.prs[id], now)]; }
    }

    method RecordWalkthroughReview(id: nat, reviewedAt: int) returns (found: bool)
      modifies db`prs
      ensures found <==> id in old(db.prs)
      ensures db.prs == if found then old(db.prs)[id := old(db.prs)[id].(lastReviewAt := Some(reviewedAt))]
                        else old(db.prs)
    {
      found := id in db.prs;
      if found { db.prs := db.prs[id := db.prs[id].(lastReviewAt := Some(reviewedAt))]; }
    }

    /** The oldest request that still waits for an acknowledgement. */
    method FindPendingAcknowledgement() returns (r: Option<nat>)
      ensures IsOldestWaiting(db.prs, r)
    {
      var prs := db.prs;
      var waiting := set p | p in prs && AwaitsAcknowledgement(prs[p]);
      if waiting == {} {
        assert forall p :: p in prs && AwaitsAcknowledgement(prs[p]) ==> p in waiting;
        return None;
      }
      ghost var oldest := OldestRequest(prs, waiting);
      var p :| p in waiting && forall o :: o in waiting ==>
        prs[p].lastReviewRequestedAt.value <= prs[o].lastReviewRequestedAt.value;
      r := Some(p);
    }
  }
}
