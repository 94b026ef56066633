/** Status updates posted by automated review tools (reviewboard/reviews/models/status_update.py). */
module StatusUpdates {
  import opened Wrappers
  import opened ExtraData
  import opened ReviewRequests
  import Reviews

  // The one-character state codes stored in the database.
  const Pending := "P"
  const DoneSuccess := "S"
  const DoneFailure := "F"
  const Error := "E"
  const Timeout := "T"
  const NotYetRun := "R"
  const Cancelled := "C"

  /** Every valid state code. */
  const StateCodes := {Pending, DoneSuccess, DoneFailure, Error, Timeout, NotYetRun, Cancelled}

  /** Every valid API state string. */
  const StateStrings := {"pending", "done-success", "done-failure", "error", "timed-out", "not-yet-run", "cancelled"}

  const IntegrationConfigKey := "__integration_config_id"

  /** An integration configuration; `localSiteId` is None when it belongs to no Local Site. */
  datatype IntegrationConfig = IntegrationConfig(pk: nat, localSiteId: Option<nat>)

  /** What `run` hands to the listeners of the run-request signal. */
  datatype RunRequest = RunRequest(config: Option<IntegrationConfig>)

  /** The API string of a state code; any other code is a ValueError. */
  function StateToString(state: string): (r: Result<string, string>)
    ensures r.Success? <==> state in StateCodes
    ensures r.Success? ==> r.value in StateStrings
    ensures r.Failure? ==> r.error == "Invalid state \"" + state + "\""
  {
    if state == Pending then Success("pending")
    else if state == DoneSuccess then Success("done-success")
    else if state == DoneFailure then Success("done-failure")
    else if state == Error then Success("error")
    else if state == Timeout then Success("timed-out")
    else if state == NotYetRun then Success("not-yet-run")
    else if state == Cancelled then Success("cancelled")
    else Failure("Invalid state \"" + state + "\"")
  }

  /** The state code of an API string; any other string is a ValueError. */
  function StringToState(state: string): (r: Result<string, string>)
    ensures r.Success? <==> state in StateStrings
    ensures r.Success? ==> r.value in StateCodes
    ensures r.Failure? ==> r.error == "Invalid state string \"" + state + "\""
  {
    if state == "pending" then Success(Pending)
    else if state == "done-success" then Success(DoneSuccess)
    else if state == "done-failure" then Success(DoneFailure)
    else if state == "error" then Success(Error)
    else if state == "timed-out" then Success(Timeout)
    else if state == "not-yet-run" then Success(NotYetRun)
    else if state == "cancelled" then Success(Cancelled)
    else Failure("Invalid state string \"" + state + "\"")
  }

  /** Converting a code to its string and back gives the code. */
  lemma StateRoundTrip(state: string)
    requires state in StateCodes
    ensures StringToState(StateToString(state).value) == Success(state)
  {
  }

  /** Converting a string to its code and back gives the string. */
  lemma StringRoundTrip(state: string)
    requires state in StateStrings
    ensures StateToString(StringToState(state).value) == Success(state)
  {
  }

  /** The state shown to users: a pending update whose timeout has elapsed counts as timed out. */
  function EffectiveState(state: string, timestamp: int, timeout: Option<int>, now: int): (r: string)
    ensures r == Timeout <==> state == Timeout || (state == Pending && timeout.Some? && now > timestamp + timeout.value)
    ensures r != Timeout ==> r == state
  {
    if state == Pending && timeout.Some? && now > timestamp + timeout.value then Timeout else state
  }

  /** Once a pending update has timed out it stays timed out. */
  lemma TimeoutIsPermanent(state: string, timestamp: int, timeout: Option<int>, now: int, later: int)
    requires now <= later && EffectiveState(state, timestamp, timeout, now) == Timeout
    ensures EffectiveState(state, timestamp, timeout, later) == Timeout
  {
  }

  /** The tool can run when it never ran, or when it failed and said it may be retried. */
  function CanRun(effectiveState: string, extraData: map<string, Value>): (r: bool)
    ensures r ==> effectiveState in {NotYetRun, Error, Timeout}
    ensures effectiveState == NotYetRun ==> r
    ensures effectiveState in {Error, Timeout} ==> (r <==> Truthy(Get(extraData, "can_retry")))
  {
    effectiveState == NotYetRun ||
    (effectiveState in {Error, Timeout} && Truthy(Get(extraData, "can_retry")))
  }

  /** The label of the run action: "Retry" after a failure, "Run" otherwise. */
  function ActionName(effectiveState: string): (r: string)
    ensures r == "Retry" <==> effectiveState == Error || effectiveState == Timeout
    ensures r == "Retry" || r == "Run"
  {
    if effectiveState in {Error, Timeout} then "Retry" else "Run"
  }

  /** A runnable update that failed is offered as "Retry"; one that never ran as "Run". */
  lemma RunnableActionName(effectiveState: string, extraData: map<string, Value>)
    requires CanRun(effectiveState, extraData)
    ensures ActionName(effectiveState) == (if effectiveState == NotYetRun then "Run" else "Retry")
  {
  }

  /** The stored configuration with this primary key that is on the given Local Site. */
  function FindConfig(store: seq<IntegrationConfig>, pk: int, localSiteId: Option<nat>): (r: Option<IntegrationConfig>)
    ensures r.Some? ==> r.value in store && r.value.pk == pk && r.value.localSiteId == localSiteId
    ensures r.None? ==> forall c :: c in store ==> !(c.pk == pk && c.localSiteId == localSiteId)
  {
    if |store| == 0 then None
    else if store[0].pk == pk && store[0].localSiteId == localSiteId then Some(store[0])
    else FindConfig(store[1..], pk, localSiteId)
  }

  /** Primary keys of stored configurations are distinct. */
  predicate UniquePks(store: seq<IntegrationConfig>) {
    forall i, j :: 0 <= i < j < |store| ==> store[i].pk != store[j].pk
  }

  /** The configuration a stored `extra_data` points at, read back on the review request's Local Site. */
  function StoredConfig(store: seq<IntegrationConfig>, extraData: map<string, Value>, localSiteId: Option<nat>): Option<IntegrationConfig> {
    var configId := Get(extraData, IntegrationConfigKey);
    if configId.Int? && configId.i != 0 then FindConfig(store, configId.i, localSiteId) else None
  }

  /** A configuration stored by the setter is found again by a fresh lookup. */
  lemma {:induction false} StoredConfigReadBack(store: seq<IntegrationConfig>, extraData: map<string, Value>, config: IntegrationConfig)
    requires UniquePks(store) && config in store && config.pk != 0
    ensures StoredConfig(store, extraData[IntegrationConfigKey := Int(config.pk)], config.localSiteId) == Some(config)
  {
    FindUnique(store, config);
  }

  lemma {:induction false} FindUnique(store: seq<IntegrationConfig>, config: IntegrationConfig)
    requires UniquePks(store) && config in store
    ensures FindConfig(store, config.pk, config.localSiteId) == Some(config)
  {
    if store[0] != config {
      assert config in store[1..];
      var k :| 0 <= k < |store| && store[k] == config;
      assert k > 0 && store[0].pk != store[k].pk;
      assert UniquePks(store[1..]);
      FindUnique(store[1..], config);
    }
  }

  /** Open issues of a comment become dropped at time `now` when their kind is in `kinds`. */
  function DropComment(c: Comment, kinds: set<CommentKind>, now: int): Comment {
    if c.kind in kinds && c.issueStatus == Some(Open) then c.(issueStatus := Some(Dropped), timestamp := now) else c
  }

  /** Every comment after dropping the open issues of the given kinds. */
  function DropOpen(comments: seq<Comment>, kinds: set<CommentKind>, now: int): (r: seq<Comment>)
    ensures |r| == |comments|
    ensures forall k :: 0 <= k < |r| ==> r[k] == DropComment(comments[k], kinds, now)
  {
    seq(|comments|, k requires 0 <= k < |comments| => DropComment(comments[k], kinds, now))
  }

  /** Whether some comment of one of the given kinds has an open issue. */
  predicate HasOpenOfKinds(comments: seq<Comment>, kinds: set<CommentKind>) {
    exists k :: 0 <= k < |comments| && comments[k].kind in kinds && comments[k].issueStatus == Some(Open)
  }

  const AllKinds := {DiffComment, ScreenshotComment, FileAttachmentComment, GeneralComment}

  /** After dropping every kind, no issue remains open and every other comment is untouched. */
  lemma DropOpenLeavesNoneOpen(comments: seq<Comment>, now: int)
    ensures !HasOpenOfKinds(DropOpen(comments, AllKinds, now), AllKinds)
    ensures forall k :: 0 <= k < |comments| && comments[k].issueStatus != Some(Open) ==>
      DropOpen(comments, AllKinds, now)[k] == comments[k]
  {
  }

  /** Dropping is idempotent. */
  lemma DropOpenIdempotent(comments: seq<Comment>, now: int)
    ensures DropOpen(DropOpen(comments, AllKinds, now), AllKinds, now) == DropOpen(comments, AllKinds, now)
  {
  }

  class StatusUpdate {
    var state: string
    var timestamp: int
    var timeout: Option<int>        // seconds
    var extraData: map<string, Value>
    var cachedConfig: Option<Option<IntegrationConfig>>   // None until looked up or set
    var review: Reviews.Review?
    const reviewRequest: ReviewRequest

    constructor (reviewRequest: ReviewRequest, state: string, timestamp: int, timeout: Option<int>,
                 extraData: map<string, Value>, review: Reviews.Review?)
      ensures this.reviewRequest == reviewRequest && this.state == state && this.timestamp == timestamp
      ensures this.timeout == timeout && this.extraData == extraData && this.review == review
      ensures cachedConfig.None?
    {
      this.reviewRequest := reviewRequest;
      this.state := state;
      this.timestamp := timestamp;
      this.timeout := timeout;
      this.extraData := extraData;
      this.review := review;
      cachedConfig := None;
    }

    /**
     * The integration configuration managing this update: the cached one, or else the one
     * `extra_data` names, if it still exists on the review request's Local Site.
     */
    method GetIntegrationConfig(store: seq<IntegrationConfig>) returns (config: Option<IntegrationConfig>)
      modifies this
      ensures old(cachedConfig).Some? ==> config == old(cachedConfig).value
      ensures old(cachedConfig).None? ==> config == StoredConfig(store, extraData, reviewRequest.localSiteId)
      ensures cachedConfig == Some(config)
      ensures state == old(state) && timestamp == old(timestamp) && timeout == old(timeout)
      ensures extraData == old(extraData) && review == old(review)
    {
      if cachedConfig.Some? {
        config := cachedConfig.value;
      } else {
        config := StoredConfig(store, extraData, reviewRequest.localSiteId);
        cachedConfig := Some(config);
      }
    }

    /**
     * Sets the integration configuration. A configuration on another Local Site than the
     * review request is a ValueError and changes nothing.
     */
    method SetIntegrationConfig(config: Option<IntegrationConfig>) returns (result: Result<(), string>)
      modifies this
      ensures result.Failure? <==> config.Some? && config.value.localSiteId != reviewRequest.localSiteId
      ensures result.Failure? ==> extraData == old(extraData) && cachedConfig == old(cachedConfig)
      ensures result.Success? && config.Some? ==>
        extraData == old(extraData)[IntegrationConfigKey := Int(config.value.pk)]
      ensures result.Success? && config.None? ==> extraData == old(extraData) - {IntegrationConfigKey}
      ensures result.Success? ==> cachedConfig == Some(config)
      ensures state == old(state) && timestamp == old(timestamp) && timeout == old(timeout) && review == old(review)
    {
      if config.Some? {
        if config.value.localSiteId != reviewRequest.localSiteId {
          return Failure("The integration configuration and Status Update must have the same Local Site.");
        }
        extraData := extraData[IntegrationConfigKey := Int(config.value.pk)];
      } else {
        extraData := extraData - {IntegrationConfigKey};
      }
      cachedConfig := Some(config);
      result := Success(());
    }

    /** The state, counting an expired pending update as timed out. */
    function Effective(now: int): string
      reads this
    {
      EffectiveState(state, timestamp, timeout, now)
    }

    /**
     * Asks the tool to run, handing it the integration configuration. Running an update
     * that cannot run fails the source's assertion. `listenerError` is what a listener of
     * the run-request signal raised, if one did; the signal lets it propagate.
     */
    method Run(now: int, store: seq<IntegrationConfig>, listenerError: Option<string>)
      returns (result: Result<RunRequest, string>)
      modifies this
      ensures result.Success? <==> old(CanRun(Effective(now), extraData)) && listenerError.None?
      ensures !old(CanRun(Effective(now), extraData)) ==>
        result == Failure("AssertionError") && cachedConfig == old(cachedConfig)
      ensures old(CanRun(Effective(now), extraData)) && listenerError.Some? ==> result == Failure(listenerError.value)
      ensures old(CanRun(Effective(now), extraData)) ==>
        cachedConfig.Some? &&
        (old(cachedConfig).Some? ==> cachedConfig == old(cachedConfig)) &&
        (old(cachedConfig).None? ==> cachedConfig == Some(StoredConfig(store, extraData, reviewRequest.localSiteId)))
      ensures result.Success? ==> cachedConfig == Some(result.value.config)
      ensures state == old(state) && extraData == old(extraData) && timestamp == old(timestamp)
      ensures timeout == old(timeout) && review == old(review)
    {
      if !CanRun(Effective(now), extraData) {
        return Failure("AssertionError");
      }
      var config := GetIntegrationConfig(store);
      if listenerError.Some? {
        return Failure(listenerError.value);
      }
      result := Success(RunRequest(config));
    }

    /**
     * Drops every open issue of the update's review at time `now`, kind by kind; the review
     * request's activity timestamp moves only if some issue was dropped.
     */
    method DropOpenIssues(now: int)
      modifies review, reviewRequest
      ensures review == null ==> unchanged(reviewRequest)
      ensures review != null ==> review.comments == DropOpen(old(review.comments), AllKinds, now)
      ensures review != null ==>
        reviewRequest.lastReviewActivity ==
          (if HasOpenOfKinds(old(review.comments), AllKinds) then now else old(reviewRequest.lastReviewActivity))
      ensures review != null ==>
        review.shipIt == old(review.shipIt) && review.public == old(review.public) &&
        review.bodyTop == old(review.bodyTop) && review.bodyTopRichText == old(review.bodyTopRichText) &&
        review.bodyBottom == old(review.bodyBottom) && review.timestamp == old(review.timestamp) &&
        review.extraData == old(review.extraData) && review.userId == old(review.userId) &&
        review.baseReplyToId == old(review.baseReplyToId)
      ensures reviewRequest.lastUpdated == old(reviewRequest.lastUpdated)
      ensures reviewRequest.public == old(reviewRequest.public)
      ensures reviewRequest.submitterId == old(reviewRequest.submitterId)
      ensures reviewRequest.localSiteId == old(reviewRequest.localSiteId)
      ensures reviewRequest.shipitCount == old(reviewRequest.shipitCount)
      ensures reviewRequest.issueOpenCount == old(reviewRequest.issueOpenCount)
      ensures reviewRequest.issueResolvedCount == old(reviewRequest.issueResolvedCount)
      ensures reviewRequest.issueDroppedCount == old(reviewRequest.issueDroppedCount)
      ensures reviewRequest.issueVerifyingCount == old(reviewRequest.issueVerifyingCount)
    {
      if review == null {
        return;
      }
      var kinds := [DiffComment, ScreenshotComment, FileAttachmentComment, GeneralComment];
      var original := review.comments;
      var reviewUpdated := false;
      ghost var done: set<CommentKind> := {};
      var i := 0;
      while i < |kinds|
        invariant 0 <= i <= |kinds|
        invariant forall j :: 0 <= j < |kinds| ==> (kinds[j] in done <==> j < i)
        invariant done <= AllKinds
        invariant review.comments == DropOpen(original, done, now)
        invariant reviewUpdated <==> HasOpenOfKinds(original, done)
        invariant unchanged(reviewRequest)
        invariant review.shipIt == old(review.shipIt) && review.public == old(review.public)
        invariant review.bodyTop == old(review.bodyTop) && review.bodyTopRichText == old(review.bodyTopRichText)
        invariant review.bodyBottom == old(review.bodyBottom) && review.timestamp == old(review.timestamp)
        invariant review.extraData == old(review.extraData) && review.userId == old(review.userId)
        invariant review.baseReplyToId == old(review.baseReplyToId)
      {
        var before := review.comments;
        var count := OpenCountOfKind(before, kinds[i]);
        review.comments := DropOpen(before, {kinds[i]}, now);
        done := done + {kinds[i]};
        if count > 0 {
          reviewUpdated := true;
        }
        i := i + 1;
      }
      assert done == AllKinds by {
        assert kinds[0] in done && kinds[1] in done && kinds[2] in done && kinds[3] in done;
      }
      if reviewUpdated {
        reviewRequest.TouchReviewActivity(now, false);
      }
    }
  }

  /** The number of open issues among comments of one kind (what a bulk update reports). */
  function OpenCountOfKind(comments: seq<Comment>, kind: CommentKind): (n: nat)
    ensures n > 0 <==> HasOpenOfKinds(comments, {kind})
  {
    if |comments| == 0 then 0
    else
      var rest := OpenCountOfKind(comments[1..], kind);
      assert forall k :: 1 <= k < |comments| ==> comments[k] == comments[1..][k - 1];
      rest + (if comments[0].kind == kind && comments[0].issueStatus == Some(Open) then 1 else 0)
  }
}
