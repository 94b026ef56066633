/** Reviews of a review request: publishing, Ship It and access (reviewboard/reviews/models/review.py). */
module Reviews {
  import opened Wrappers
  import opened ExtraData
  import opened ReviewRequests

  const ShipItText := "Ship It!"
  const RevokedShipItText := "~~Ship It!~~"

  const NotPublicRequestError := "This review cannot be published until the review request is published."
  const EmptyReviewMessage := "This review cannot be published, because it is empty."
  const UnpublishedDiffError := "This review cannot be published, because it includes a comment on a diff which has not yet been published."
  const UnpublishedAttachmentError := "This review cannot be published, because it includes a comment on a file attachment which has not yet been published."
  const SelfShipItError := "You cannot mark \"Ship It!\" on your own review request."
  const NotShipItError := "This review is not marked Ship It!"

  /** The user performing an operation. */
  datatype User = User(pk: nat, isAuthenticated: bool, isSuperuser: bool)

  /** What a signal listener did when the signal was sent. */
  datatype ListenerOutcome = ListenersOk | RaisedRevokeShipItError(message: string) | RaisedOther(message: string)

  /** Why publishing stopped. */
  datatype PublishFailure =
    | PublishError(message: string)   // can_publish refused
    | ListenerError                   // a publishing or published listener raised
    | IssueCountAssertion             // a non-open issue was found while publishing

  /** A comment on an unpublished diff. */
  predicate OnUnpublishedDiff(c: Comment) {
    c.kind == DiffComment && !c.targetPublic
  }

  /** A comment on an unpublished file attachment. */
  predicate OnUnpublishedAttachment(c: Comment) {
    c.kind == FileAttachmentComment && !c.targetPublic
  }

  /** A comment that counts for `has_comments`: any comment, or only one opening an issue. */
  predicate CountsAsComment(c: Comment, onlyIssues: bool) {
    !onlyIssues || c.issueOpened
  }

  /** Whether any comment (or, with `onlyIssues`, any comment opening an issue) exists. */
  function AnyComment(comments: seq<Comment>, onlyIssues: bool): (r: bool)
    ensures r <==> exists k :: 0 <= k < |comments| && CountsAsComment(comments[k], onlyIssues)
  {
    if |comments| == 0 then false
    else if CountsAsComment(comments[0], onlyIssues) then true
    else
      var rest := AnyComment(comments[1..], onlyIssues);
      assert forall k :: 1 <= k < |comments| ==> comments[k] == comments[1..][k - 1];
      rest
  }

  /** Whether any comment is on an unpublished diff, scanning in order. */
  function AnyOnUnpublishedDiff(comments: seq<Comment>): (r: bool)
    ensures r <==> exists k :: 0 <= k < |comments| && OnUnpublishedDiff(comments[k])
  {
    if |comments| == 0 then false
    else if OnUnpublishedDiff(comments[0]) then true
    else
      var rest := AnyOnUnpublishedDiff(comments[1..]);
      assert forall k :: 1 <= k < |comments| ==> comments[k] == comments[1..][k - 1];
      rest
  }

  /** Whether any comment is on an unpublished file attachment, scanning in order. */
  function AnyOnUnpublishedAttachment(comments: seq<Comment>): (r: bool)
    ensures r <==> exists k :: 0 <= k < |comments| && OnUnpublishedAttachment(comments[k])
  {
    if |comments| == 0 then false
    else if OnUnpublishedAttachment(comments[0]) then true
    else
      var rest := AnyOnUnpublishedAttachment(comments[1..]);
      assert forall k :: 1 <= k < |comments| ==> comments[k] == comments[1..][k - 1];
      rest
  }

  /** The number of comments that opened an issue with the given status (`fetch_issue_counts`). */
  function IssueCount(comments: seq<Comment>, status: IssueStatus): nat {
    if |comments| == 0 then 0
    else
      var last := comments[|comments| - 1];
      IssueCount(comments[..|comments| - 1], status) + (if last.issueOpened && last.issueStatus == Some(status) then 1 else 0)
  }

  /** Every comment restamped with the review's timestamp; nothing else changes. */
  function Restamp(comments: seq<Comment>, timestamp: int): (r: seq<Comment>)
    ensures |r| == |comments|
    ensures forall k :: 0 <= k < |r| ==> r[k] == comments[k].(timestamp := timestamp)
  {
    seq(|comments|, k requires 0 <= k < |comments| => comments[k].(timestamp := timestamp))
  }

  /** Restamping keeps every issue count. */
  lemma {:induction false} RestampKeepsIssueCounts(comments: seq<Comment>, timestamp: int, status: IssueStatus)
    ensures IssueCount(Restamp(comments, timestamp), status) == IssueCount(comments, status)
    decreases |comments|
  {
    if |comments| > 0 {
      var n := |comments| - 1;
      assert Restamp(comments, timestamp)[..n] == Restamp(comments[..n], timestamp);
      RestampKeepsIssueCounts(comments[..n], timestamp, status);
    }
  }

  class Review {
    var userId: nat
    var public: bool
    var shipIt: bool
    var bodyTop: string
    var bodyTopRichText: bool
    var bodyBottom: string
    var extraData: Option<map<string, Value>>   // the column may be NULL
    var timestamp: int
    var baseReplyToId: Option<nat>
    var comments: seq<Comment>
    const reviewRequest: ReviewRequest

    /** A new draft review. */
    constructor (reviewRequest: ReviewRequest, userId: nat, now: int)
      ensures this.reviewRequest == reviewRequest && this.userId == userId
      ensures !public && !shipIt && bodyTop == "" && bodyBottom == "" && !bodyTopRichText
      ensures extraData == Some(map[]) && timestamp == now && baseReplyToId.None? && comments == []
    {
      this.reviewRequest := reviewRequest;
      this.userId := userId;
      public := false;
      shipIt := false;
      bodyTop := "";
      bodyTopRichText := false;
      bodyBottom := "";
      extraData := Some(map[]);
      timestamp := now;
      baseReplyToId := None;
      comments := [];
    }

    /** Whether this review contains any comment, or any comment opening an issue. */
    predicate HasComments(onlyIssues: bool)
      reads this
      ensures HasComments(onlyIssues) <==>
        exists k :: 0 <= k < |comments| && (!onlyIssues || comments[k].issueOpened)
      ensures HasComments(false) <==> comments != []
    {
      AnyComment(comments, onlyIssues)
    }

    /** The review is nothing but a "Ship It!". */
    predicate ShipItOnly()
      reads this
      ensures ShipItOnly() <==>
        shipIt && (bodyTop == "" || bodyTop == ShipItText) && bodyBottom == "" && comments == []
    {
      shipIt && (bodyTop == "" || bodyTop == ShipItText) && !(bodyBottom != "" || HasComments(false))
    }

    /** A reply is a review made in response to another review. */
    predicate IsReply()
      reads this
    {
      baseReplyToId.Some?
    }

    /** `requestAccessible` is whether the user can access the review request. */
    predicate IsAccessibleBy(user: User, requestAccessible: bool)
      reads this
      ensures IsAccessibleBy(user, requestAccessible) ==> requestAccessible
      ensures requestAccessible && (user.isSuperuser || userId == user.pk) ==> IsAccessibleBy(user, requestAccessible)
      ensures !user.isSuperuser && userId != user.pk ==> (IsAccessibleBy(user, requestAccessible) <==> public && requestAccessible)
    {
      (public || user.isSuperuser || userId == user.pk) && requestAccessible
    }

    predicate IsMutableBy(user: User, requestAccessible: bool)
      reads this
      ensures IsMutableBy(user, requestAccessible) ==> !public && IsAccessibleBy(user, requestAccessible)
      ensures IsMutableBy(user, requestAccessible) <==> !public && IsAccessibleBy(user, requestAccessible) && (user.isSuperuser || userId == user.pk)
    {
      (!public && (user.isSuperuser || userId == user.pk)) && requestAccessible
    }

    /** New for a user who did not write it and last visited before it was published. */
    predicate IsNewForUser(user: User, lastVisited: int)
      reads this
      ensures IsNewForUser(user, lastVisited) ==> user.pk != userId
      ensures lastVisited >= timestamp ==> !IsNewForUser(user, lastVisited)
    {
      user.pk != userId && lastVisited < timestamp
    }

    /**
     * Whether a user may revoke this review's Ship It. `isLocalSiteAdmin` is whether the
     * user administers the review request's Local Site (false when there is none).
     */
    predicate CanUserRevokeShipIt(user: User, isLocalSiteAdmin: bool, requestAccessible: bool)
      reads this
      ensures CanUserRevokeShipIt(user, isLocalSiteAdmin, requestAccessible) ==>
        user.isAuthenticated && public && IsAccessibleBy(user, requestAccessible)
      ensures CanUserRevokeShipIt(user, isLocalSiteAdmin, requestAccessible) ==> !IsMutableBy(user, requestAccessible)
    {
      user.isAuthenticated && public &&
      (user.pk == userId || user.isSuperuser || isLocalSiteAdmin) &&
      requestAccessible
    }

    /**
     * Why the review cannot be published, or None when it can. The first four checks are
     * skipped when the review request is being published with it; the self-Ship-It check
     * always runs.
     */
    function CanPublish(reviewRequestWillPublish: bool, allowSelfShipIt: bool): (err: Option<string>)
      reads this, reviewRequest
      ensures err == Some(NotPublicRequestError) <==> !reviewRequestWillPublish && !reviewRequest.public
      ensures err == Some(EmptyReviewMessage) <==>
        !reviewRequestWillPublish && reviewRequest.public &&
        bodyBottom == "" && bodyTop == "" && !shipIt && comments == []
      ensures err == Some(UnpublishedDiffError) <==>
        !reviewRequestWillPublish && reviewRequest.public &&
        !(bodyBottom == "" && bodyTop == "" && !shipIt && comments == []) &&
        exists k :: 0 <= k < |comments| && OnUnpublishedDiff(comments[k])
      ensures err == Some(UnpublishedAttachmentError) <==>
        !reviewRequestWillPublish && reviewRequest.public &&
        !(bodyBottom == "" && bodyTop == "" && !shipIt && comments == []) &&
        (forall k :: 0 <= k < |comments| ==> !OnUnpublishedDiff(comments[k])) &&
        exists k :: 0 <= k < |comments| && OnUnpublishedAttachment(comments[k])
      ensures err.None? <==>
        (reviewRequestWillPublish ||
          (reviewRequest.public &&
           !(bodyBottom == "" && bodyTop == "" && !shipIt && comments == []) &&
           (forall k :: 0 <= k < |comments| ==> !OnUnpublishedDiff(comments[k]) && !OnUnpublishedAttachment(comments[k])))) &&
        !(shipIt && userId == reviewRequest.submitterId && !allowSelfShipIt)
      ensures err == Some(SelfShipItError) <==>
        (reviewRequestWillPublish ||
          (reviewRequest.public &&
           !(bodyBottom == "" && bodyTop == "" && !shipIt && comments == []) &&
           (forall k :: 0 <= k < |comments| ==> !OnUnpublishedDiff(comments[k]) && !OnUnpublishedAttachment(comments[k])))) &&
        shipIt && userId == reviewRequest.submitterId && !allowSelfShipIt
    {
      if !reviewRequestWillPublish && !reviewRequest.public then Some(NotPublicRequestError)
      else if !reviewRequestWillPublish && bodyBottom == "" && bodyTop == "" && !shipIt &&
              !AnyComment(comments, false) then Some(EmptyReviewMessage)
      else if !reviewRequestWillPublish && AnyOnUnpublishedDiff(comments) then Some(UnpublishedDiffError)
      else if !reviewRequestWillPublish && AnyOnUnpublishedAttachment(comments) then Some(UnpublishedAttachmentError)
      else if shipIt && userId == reviewRequest.submitterId && !allowSelfShipIt then Some(SelfShipItError)
      else None
    }

    /** Saving re-stamps the review unless only other fields are being saved. */
    method Save(now: int, updateFields: Option<set<string>>)
      modifies this
      ensures timestamp == (if updateFields.None? || "timestamp" in updateFields.value then now else old(timestamp))
      ensures userId == old(userId) && public == old(public) && shipIt == old(shipIt)
      ensures bodyTop == old(bodyTop) && bodyTopRichText == old(bodyTopRichText) && bodyBottom == old(bodyBottom)
      ensures extraData == old(extraData) && baseReplyToId == old(baseReplyToId) && comments == old(comments)
    {
      if updateFields.None? || "timestamp" in updateFields.value {
        timestamp := now;
      }
    }

    /**
     * Publishes the review at time `now`. The listener flags say whether the publishing
     * listeners (sent before saving) or the published listeners (sent last) raise.
     */
    method Publish(now: int, reviewRequestWillPublish: bool, allowSelfShipIt: bool,
                   publishingListenerRaises: bool, publishedListenerRaises: bool)
      returns (result: Result<(), PublishFailure>)
      modifies this, reviewRequest
      ensures var err := old(CanPublish(reviewRequestWillPublish, allowSelfShipIt));
        err.Some? ==> (result == Failure(PublishError(err.value)) &&
          public == old(public) && timestamp == old(timestamp) && comments == old(comments))
      ensures old(CanPublish(reviewRequestWillPublish, allowSelfShipIt)).None? ==> public
      ensures (old(CanPublish(reviewRequestWillPublish, allowSelfShipIt)).None? && !publishingListenerRaises) ==>
        (timestamp == now && comments == Restamp(old(comments), now) &&
         reviewRequest.lastReviewActivity == now && reviewRequest.lastUpdated == now)
      ensures (old(CanPublish(reviewRequestWillPublish, allowSelfShipIt)).None? && publishingListenerRaises) ==>
        (result == Failure(ListenerError) && timestamp == old(timestamp) && comments == old(comments))
      ensures result.Success? ==> public && !publishingListenerRaises && !publishedListenerRaises
      // Counters move only for a non-reply that gets past the issue-count assertions.
      ensures ((result.Success? || (result == Failure(ListenerError) && !publishingListenerRaises)) &&
               old(baseReplyToId).None?) ==>
        (reviewRequest.issueOpenCount == old(reviewRequest.issueOpenCount) + IssueCount(old(comments), Open) &&
         reviewRequest.shipitCount == old(reviewRequest.shipitCount) + (if old(shipIt) then 1 else 0))
      ensures (old(baseReplyToId).Some? || publishingListenerRaises ||
               (result.Failure? && result.error != ListenerError)) ==>
        (reviewRequest.issueOpenCount == old(reviewRequest.issueOpenCount) &&
         reviewRequest.shipitCount == old(reviewRequest.shipitCount))
      ensures reviewRequest.issueResolvedCount == old(reviewRequest.issueResolvedCount)
      ensures reviewRequest.issueDroppedCount == old(reviewRequest.issueDroppedCount)
      ensures reviewRequest.issueVerifyingCount == old(reviewRequest.issueVerifyingCount)
      ensures result == Failure(IssueCountAssertion) ==>
        (old(baseReplyToId).None? &&
         (IssueCount(old(comments), Resolved) > 0 || IssueCount(old(comments), Dropped) > 0 ||
          IssueCount(old(comments), VerifyingResolved) > 0 || IssueCount(old(comments), VerifyingDropped) > 0))
      ensures shipIt == old(shipIt) && bodyTop == old(bodyTop) && bodyBottom == old(bodyBottom)
      ensures extraData == old(extraData) && baseReplyToId == old(baseReplyToId) && userId == old(userId)
      ensures reviewRequest.public == old(reviewRequest.public)
      ensures reviewRequest.submitterId == old(reviewRequest.submitterId)
      ensures reviewRequest.localSiteId == old(reviewRequest.localSiteId)
      ensures bodyTopRichText == old(bodyTopRichText)
      // Nothing reaches the review request before the publishing listeners have run.
      ensures (old(CanPublish(reviewRequestWillPublish, allowSelfShipIt)).Some? || publishingListenerRaises) ==>
        reviewRequest.lastReviewActivity == old(reviewRequest.lastReviewActivity) &&
        reviewRequest.lastUpdated == old(reviewRequest.lastUpdated)
    {
      var err := CanPublish(reviewRequestWillPublish, allowSelfShipIt);
      if err.Some? {
        return Failure(PublishError(err.value));
      }
      public := true;
      if publishingListenerRaises {
        return Failure(ListenerError);
      }
      Save(now, None);
      comments := Restamp(comments, timestamp);
      reviewRequest.TouchReviewActivity(timestamp, true);
      if IsReply() {
        result := if publishedListenerRaises then Failure(ListenerError) else Success(());
        return;
      }
      RestampKeepsIssueCounts(old(comments), now, Open);
      RestampKeepsIssueCounts(old(comments), now, Resolved);
      RestampKeepsIssueCounts(old(comments), now, Dropped);
      RestampKeepsIssueCounts(old(comments), now, VerifyingResolved);
      RestampKeepsIssueCounts(old(comments), now, VerifyingDropped);
      if IssueCount(comments, Resolved) != 0 || IssueCount(comments, Dropped) != 0 ||
         IssueCount(comments, VerifyingResolved) != 0 || IssueCount(comments, VerifyingDropped) != 0 {
        return Failure(IssueCountAssertion);
      }
      var shipItValue := if shipIt then 1 else 0;
      reviewRequest.IncrementCounters(IssueCount(comments, Open), 0, 0, 0, shipItValue);
      result := if publishedListenerRaises then Failure(ListenerError) else Success(());
    }

    /**
     * Revokes the Ship It at time `now`. `revoking` is what the listeners notified before
     * the change did; listeners notified afterwards cannot undo it, so their failure is
     * only logged.
     */
    method RevokeShipIt(now: int, revoking: ListenerOutcome) returns (result: Result<(), string>)
      modifies this, reviewRequest
      ensures !old(shipIt) ==> result == Failure(NotShipItError)
      ensures old(shipIt) && !revoking.ListenersOk? ==> result == Failure(revoking.message)
      ensures result.Failure? ==>
        shipIt == old(shipIt) && extraData == old(extraData) && bodyTop == old(bodyTop) &&
        bodyTopRichText == old(bodyTopRichText) &&
        reviewRequest.shipitCount == old(reviewRequest.shipitCount) &&
        reviewRequest.lastReviewActivity == old(reviewRequest.lastReviewActivity)
      ensures result.Success? <==> old(shipIt) && revoking.ListenersOk?
      ensures result.Success? ==>
        !shipIt &&
        extraData == Some(old(extraData).GetOr(map[])["revoked_ship_it" := Bool(true)]) &&
        (if old(bodyTop) == ShipItText then bodyTop == RevokedShipItText && bodyTopRichText
         else bodyTop == old(bodyTop) && bodyTopRichText == old(bodyTopRichText)) &&
        reviewRequest.shipitCount == old(reviewRequest.shipitCount) - 1 &&
        reviewRequest.lastReviewActivity == now
      ensures timestamp == old(timestamp) && public == old(public) && comments == old(comments)
      ensures bodyBottom == old(bodyBottom) && baseReplyToId == old(baseReplyToId) && userId == old(userId)
      // Only the Ship It count and the activity stamp of the review request move.
      ensures reviewRequest.lastUpdated == old(reviewRequest.lastUpdated)
      ensures reviewRequest.public == old(reviewRequest.public)
      ensures reviewRequest.submitterId == old(reviewRequest.submitterId)
      ensures reviewRequest.localSiteId == old(reviewRequest.localSiteId)
      ensures reviewRequest.issueOpenCount == old(reviewRequest.issueOpenCount)
      ensures reviewRequest.issueResolvedCount == old(reviewRequest.issueResolvedCount)
      ensures reviewRequest.issueDroppedCount == old(reviewRequest.issueDroppedCount)
      ensures reviewRequest.issueVerifyingCount == old(reviewRequest.issueVerifyingCount)
    {
      if !shipIt {
        return Failure(NotShipItError);
      }
      match revoking {
        case RaisedRevokeShipItError(message) => return Failure(message);
        case RaisedOther(message) => return Failure(message);
        case ListenersOk =>
      }
      var data := extraData.GetOr(map[]);
      extraData := Some(data["revoked_ship_it" := Bool(true)]);
      shipIt := false;
      var updateFields := {"extra_data", "ship_it"};
      if bodyTop == ShipItText {
        bodyTop := RevokedShipItText;
        bodyTopRichText := true;
        updateFields := updateFields + {"body_top", "body_top_rich_text"};
      }
      Save(now, Some(updateFields));
      reviewRequest.IncrementCounters(0, 0, 0, 0, -1);
      reviewRequest.TouchReviewActivity(now, false);
      result := Success(());
    }
  }

  /** Only an unpublished review can be changed. */
  lemma MutableIsUnpublished(r: Review, user: User, requestAccessible: bool)
    ensures r.IsMutableBy(user, requestAccessible) ==> !r.public
  {
  }

  /** The author never sees their own review as new. */
  lemma AuthorNeverNew(r: Review, user: User, lastVisited: int)
    requires user.pk == r.userId
    ensures !r.IsNewForUser(user, lastVisited)
  {
  }

  /** A review that is only a Ship It always passes the emptiness and unpublished-target checks. */
  lemma ShipItOnlyIsPublishable(r: Review, allowSelfShipIt: bool)
    requires r.ShipItOnly() && r.reviewRequest.public
    requires r.userId != r.reviewRequest.submitterId || allowSelfShipIt
    ensures r.CanPublish(false, allowSelfShipIt).None?
  {
  }
}
