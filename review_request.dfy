/**
 * The parts of a review request and of review comments that reviews and status updates
 * read and write. The review request model itself is not part of this model; only the
 * fields used here are kept.
 */
module ReviewRequests {
  import opened Wrappers

  /** The issue state of a comment (`BaseComment.OPEN` and the others). */
  datatype IssueStatus = Open | Resolved | Dropped | VerifyingResolved | VerifyingDropped

  /** The four kinds of comment a review can hold. */
  datatype CommentKind = DiffComment | ScreenshotComment | FileAttachmentComment | GeneralComment

  /**
   * A comment of a review; `issueStatus` is None when no issue was ever set.
   * `targetPublic` says whether the diff or file attachment it is made on has been
   * published (always true for the other kinds).
   */
  datatype Comment = Comment(
    kind: CommentKind, issueOpened: bool, issueStatus: Option<IssueStatus>,
    timestamp: int, targetPublic: bool)

  /** The review request a review or status update belongs to. */
  class ReviewRequest {
    var public: bool
    var submitterId: nat
    var localSiteId: Option<nat>
    var lastReviewActivity: int
    var lastUpdated: int
    var shipitCount: int
    var issueOpenCount: int
    var issueResolvedCount: int
    var issueDroppedCount: int
    var issueVerifyingCount: int

    constructor (public: bool, submitterId: nat, localSiteId: Option<nat>, now: int)
      ensures this.public == public && this.submitterId == submitterId && this.localSiteId == localSiteId
      ensures lastReviewActivity == now && lastUpdated == now
      ensures shipitCount == 0 && issueOpenCount == 0 && issueResolvedCount == 0
      ensures issueDroppedCount == 0 && issueVerifyingCount == 0
    {
      this.public := public;
      this.submitterId := submitterId;
      this.localSiteId := localSiteId;
      lastReviewActivity := now;
      lastUpdated := now;
      shipitCount := 0;
      issueOpenCount := 0;
      issueResolvedCount := 0;
      issueDroppedCount := 0;
      issueVerifyingCount := 0;
    }
  
    /** Records review activity: the activity and last-updated timestamps move to `t`. */
    method TouchReviewActivity(t: int, alsoLastUpdated: bool)
      modifies this
      ensures lastReviewActivity == t
      ensures lastUpdated == (if alsoLastUpdated then t else old(lastUpdated))
      ensures public == old(public) && submitterId == old(submitterId) && localSiteId == old(localSiteId)
      ensures shipitCount == old(shipitCount) && issueOpenCount == old(issueOpenCount)
      ensures issueResolvedCount == old(issueResolvedCount) && issueDroppedCount == old(issueDroppedCount)
      ensures issueVerifyingCount == old(issueVerifyingCount)
    {
      lastReviewActivity := t;
      if alsoLastUpdated {
        lastUpdated := t;
      }
    }

    /** Adds to several counters at once (`CounterField.increment_many`). */
    method IncrementCounters(openBy: int, droppedBy: int, resolvedBy: int, verifyingBy: int, shipitBy: int)
      modifies this
      ensures issueOpenCount == old(issueOpenCount) + openBy
      ensures issueDroppedCount == old(issueDroppedCount) + droppedBy
      ensures issueResolvedCount == old(issueResolvedCount) + resolvedBy
      ensures issueVerifyingCount == old(issueVerifyingCount) + verifyingBy
      ensures shipitCount == old(shipitCount) + shipitBy
      ensures public == old(public) && submitterId == old(submitterId) && localSiteId == old(localSiteId)
      ensures lastReviewActivity == old(lastReviewActivity) && lastUpdated == old(lastUpdated)
    {
      issueOpenCount := issueOpenCount + openBy;
      issueDroppedCount := issueDroppedCount + droppedBy;
      issueResolvedCount := issueResolvedCount + resolvedBy;
      issueVerifyingCount := issueVerifyingCount + verifyingBy;
      shipitCount := shipitCount + shipitBy;
    }
  }
}
