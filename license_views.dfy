/**
 * The license administration view's POST handling (reviewboard/licensing/views.py):
 * validation of the action and its target, dispatch of the three actions, and the
 * JSON bodies they answer with. JSON decoding, the trace ID and date rendering are
 * parameters; provider calls that may raise are modelled by their outcomes.
 */
module LicenseViews {
  import opened Wrappers
  import Text
  import opened LicenseProviders

  const UploadLicenseAction := "upload-license"
  const UpdateCheckAction := "license-update-check"
  const ProcessUpdateAction := "process-license-update"

  const MissingActionError := "Missing action data."
  const MissingTargetError := "Missing action target."
  const InvalidTargetError := "Invalid action target."
  const InvalidProviderError := "Invalid license provider."
  const LicenseNotFoundError := "The license entry could not be found."
  const NoLicenseDataError := "No license data was found"
  const CannotUploadError := "Licenses for this product cannot be uploaded manually."
  const UnexpectedUploadError := "Unexpected error setting license data for this product. Check the Review Board server logs for more information."

  /** What a provider call raised. */
  datatype RaisedError =
    | ActionError(message: string, payload: map<string, string>)   // LicenseActionError
    | NotImplemented(message: string)                             // NotImplementedError, `str(e)`
    | OtherError(message: string)                                 // any other exception

  /** What looking up a license by ID did: a license, None, or the exception it raised. */
  datatype LookupOutcome = Found(info: LicenseInfo) | NotFound | LookupRaised(error: RaisedError)

  /**
   * A registered provider with the outcomes of the calls the view makes on it. Setting
   * license data changes the provider's state, so the lookup after an upload is its own
   * outcome: `licenseByIdAfterUpload(info, data, id)` is what `get_license_by_id(id)` gives
   * once `data` has been set for `info`.
   */
  datatype ProviderBehavior = ProviderBehavior(
    provider: LicenseProvider,
    licenseById: string -> LookupOutcome,
    checkRequestRaises: LicenseInfo -> Option<RaisedError>,
    processCheckResult: (LicenseInfo, string, string) -> Result<map<string, string>, RaisedError>,
    setLicenseData: (LicenseInfo, string) -> Option<RaisedError>,
    licenseByIdAfterUpload: (LicenseInfo, string, string) -> LookupOutcome)

  /** An uploaded file: it is truthy exactly when it has a name, whatever its content. */
  datatype UploadedFile = UploadedFile(name: string, content: string)

  /** The POST form fields and uploaded files of a request. */
  datatype PostRequest = PostRequest(post: map<string, string>, files: map<string, UploadedFile>)

  /** Whether `request.FILES.get(key)` is truthy. */
  predicate HasFile(req: PostRequest, key: string) {
    key in req.files && req.files[key].name != ""
  }

  /** A successful action's JSON result. */
  datatype ResultBody =
    | UpdateCheckBody(canCheck: bool, checkStatusURL: Option<string>, credentials: Option<string>,
                      data: Option<string>, headers: Option<string>)
    | ProcessBody(result: map<string, string>)
    | UploadBody(licenseInfo: Option<ModelData>)

  /** The view's answer: a JSON result, or HTTP 400 with a JSON error body. */
  datatype Response = JsonOk(body: ResultBody) | BadRequest(errorBody: map<string, string>)

  /** `{'error': message, **payload}`: payload keys, even 'error', win. */
  function ErrorBody(message: string, payload: map<string, string>): (body: map<string, string>)
    ensures "error" in body
    ensures "error" !in payload ==> body["error"] == message
    ensures forall k :: k in payload ==> k in body && body[k] == payload[k]
  {
    map["error" := message] + payload
  }

  /** The error body for an unexpected exception during an action. */
  function UnexpectedActionError(action: string, message: string): string {
    "Unexpected error performing license action \"" + action + "\": " + message
  }

  function UnsupportedActionError(action: string): string {
    "Unsupported license action \"" + action + "\"."
  }

  /** Truthiness of an optional form field. */
  function Field(m: map<string, string>, key: string): Option<string> {
    if key in m then Some(m[key]) else None
  }

  /** A target the view accepts, resolved. */
  datatype Target = Target(action: string, behavior: ProviderBehavior, info: LicenseInfo)

  /**
   * The first half of `post`: action, target, its two parts, provider and license, checked
   * in that order. The first failure is the error body.
   */
  function ValidateTarget(req: PostRequest, registry: map<string, ProviderBehavior>): (r: Result<Target, map<string, string>>)
    ensures Field(req.post, "action").GetOr("") == "" ==> r == Failure(ErrorBody(MissingActionError, map[]))
    ensures Field(req.post, "action").GetOr("") != "" && Field(req.post, "action_target").GetOr("") == "" ==>
      r == Failure(ErrorBody(MissingTargetError, map[]))
    ensures (Field(req.post, "action").GetOr("") != "" && Field(req.post, "action_target").GetOr("") != "" &&
      |Text.Split(req.post["action_target"], ':')| != 2) ==> r == Failure(ErrorBody(InvalidTargetError, map[]))
    ensures r.Success? ==>
      var parts := Text.Split(req.post["action_target"], ':');
      r.value.action == req.post["action"] && r.value.action != "" && |parts| == 2 &&
      parts[0] in registry && r.value.behavior == registry[parts[0]] &&
      registry[parts[0]].licenseById(parts[1]) == Found(r.value.info)
  {
    var action := Field(req.post, "action").GetOr("");
    if action == "" then Failure(ErrorBody(MissingActionError, map[]))
    else
      var target := Field(req.post, "action_target").GetOr("");
      if target == "" then Failure(ErrorBody(MissingTargetError, map[]))
      else
        var parts := Text.Split(target, ':');
        if |parts| != 2 then Failure(ErrorBody(InvalidTargetError, map[]))
        else if parts[0] !in registry then Failure(ErrorBody(InvalidProviderError, map[]))
        else
          match registry[parts[0]].licenseById(parts[1])
          case NotFound => Failure(ErrorBody(LicenseNotFoundError, map[]))
          case LookupRaised(e) =>
            if e.ActionError? then Failure(ErrorBody(e.message, e.payload))
            else Failure(ErrorBody(UnexpectedActionError(action, e.message), map[]))
          case Found(info) => Success(Target(action, registry[parts[0]], info))
  }

  /** `_license_update_check`: no check request means `canCheck` false; else its fields are copied. */
  function LicenseUpdateCheck(b: ProviderBehavior, info: LicenseInfo): (r: Result<ResultBody, RaisedError>)
    ensures b.checkRequestRaises(info).Some? ==> r == Failure(b.checkRequestRaises(info).value)
    ensures b.checkRequestRaises(info).None? && b.provider.checkLicenseRequest(info).None? ==>
      r == Success(UpdateCheckBody(false, None, None, None, None))
    ensures b.checkRequestRaises(info).None? && b.provider.checkLicenseRequest(info).Some? ==>
      var req := b.provider.checkLicenseRequest(info).value;
      r == Success(UpdateCheckBody(true, Some(req.url), req.credentials, Some(req.data), req.headers))
  {
    if b.checkRequestRaises(info).Some? then Failure(b.checkRequestRaises(info).value)
    else match b.provider.checkLicenseRequest(info)
      case None => Success(UpdateCheckBody(false, None, None, None, None))
      case Some(req) => Success(UpdateCheckBody(true, Some(req.url), req.credentials, Some(req.data), req.headers))
  }

  /** The update-processing errors whose text names the request's trace ID. */
  datatype TracedError =
    | MissingRequestData | MissingResponseData | EmptyResponseData
    | InvalidRequestData | InvalidResponseData
    | CheckNotImplemented | UnexpectedProcessing

  /** The text of a traced error. */
  function TracedMessage(kind: TracedError, traceId: string): string {
    var help := " value for license check. This may be an internal error or an issue with the licensing server. " +
                "Check the Review Board server logs for more information (error ID ";
    var text := match kind
      case MissingRequestData => "Missing check_request_data" + help
      case MissingResponseData => "Missing check_response_data" + help
      case EmptyResponseData => "Empty check_response_data" + help
      case InvalidRequestData => "Invalid check_request_data" + help
      case InvalidResponseData => "Invalid check_response_data" + help
      case CheckNotImplemented =>
        "The license provider implementation enables support for automated license checks but does not " +
        "provide an implementation. This is an internal error. See the Review Board server logs for more " +
        "information (error ID "
      case UnexpectedProcessing =>
        "Unexpected error processing license update. Check the Review Board server logs for more " +
        "information (error ID ";
    text + traceId + ")."
  }

  /** A traced error as the action error the view reports. */
  function Traced(kind: TracedError, traceId: string): RaisedError {
    ActionError(TracedMessage(kind, traceId), map[])
  }

  /**
   * `_process_license_update_data`: both payloads must be present, the response non-empty,
   * and both must decode (request first); then the provider's result must carry a status.
   * `decodeJson` is `json.loads`, `None` standing for a decoding error.
   */
  function ProcessLicenseUpdateData(b: ProviderBehavior, info: LicenseInfo, req: PostRequest, traceId: string,
                                    decodeJson: string -> Option<string>): (r: Result<ResultBody, RaisedError>)
    ensures "check_request_data" !in req.post ==> r == Failure(Traced(MissingRequestData, traceId))
    ensures "check_request_data" in req.post && "check_response_data" !in req.post ==>
      r == Failure(Traced(MissingResponseData, traceId))
    ensures "check_request_data" in req.post && "check_response_data" in req.post && req.post["check_response_data"] == "" ==>
      r == Failure(Traced(EmptyResponseData, traceId))
    ensures "check_request_data" in req.post && "check_response_data" in req.post && req.post["check_response_data"] != "" ==>
      (decodeJson(req.post["check_request_data"]).None? ==> r == Failure(Traced(InvalidRequestData, traceId))) &&
      (decodeJson(req.post["check_request_data"]).Some? && decodeJson(req.post["check_response_data"]).None? ==>
        r == Failure(Traced(InvalidResponseData, traceId)))
    ensures r.Success? ==> r.value.ProcessBody? && "status" in r.value.result
  {
    if "check_request_data" !in req.post then Failure(Traced(MissingRequestData, traceId))
    else if "check_response_data" !in req.post then Failure(Traced(MissingResponseData, traceId))
    else
      var requestData := req.post["check_request_data"];
      var responseData := req.post["check_response_data"];
      if responseData == "" then Failure(Traced(EmptyResponseData, traceId))
      else
        var requestPayload := decodeJson(requestData);
        var responsePayload := decodeJson(responseData);
        if requestPayload.None? then Failure(Traced(InvalidRequestData, traceId))
        else if responsePayload.None? then Failure(Traced(InvalidResponseData, traceId))
        else ProcessCheckResult(b.processCheckResult(info, requestPayload.value, responsePayload.value), traceId)
  }

  /**
   * The provider's processing of decoded payloads: its errors are rewrapped as action
   * errors, and a result without a status is an unexpected error.
   */
  function ProcessCheckResult(outcome: Result<map<string, string>, RaisedError>, traceId: string): (r: Result<ResultBody, RaisedError>)
    ensures r.Success? <==> outcome.Success? && "status" in outcome.value
    ensures r.Success? ==> r.value == ProcessBody(outcome.value)
    ensures r.Failure? ==> r.error.ActionError?
    ensures outcome.Success? && "status" !in outcome.value ==> r == Failure(Traced(UnexpectedProcessing, traceId))
    ensures outcome.Failure? && outcome.error.NotImplemented? ==> r == Failure(Traced(CheckNotImplemented, traceId))
    ensures outcome.Failure? && outcome.error.ActionError? ==>
      r == Failure(ActionError("Error processing license update: " + outcome.error.message, outcome.error.payload))
    ensures outcome.Failure? && outcome.error.OtherError? ==> r == Failure(Traced(UnexpectedProcessing, traceId))
  {
    if outcome.Success? then
      if "status" in outcome.value then Success(ProcessBody(outcome.value))
      else Failure(Traced(UnexpectedProcessing, traceId))
    else if outcome.error.NotImplemented? then Failure(Traced(CheckNotImplemented, traceId))
    else if outcome.error.ActionError? then
      Failure(ActionError("Error processing license update: " + outcome.error.message, outcome.error.payload))
    else Failure(Traced(UnexpectedProcessing, traceId))
  }

  /**
   * `_upload_license`: a license file is required; the provider's NotImplementedError means
   * manual uploads are unsupported; afterwards the license is looked up again.
   */
  function UploadLicense(b: ProviderBehavior, info: LicenseInfo, req: PostRequest,
                         formatDate: Option<int> -> string): (r: Result<ResultBody, RaisedError>)
    ensures !HasFile(req, "license_data") ==> r == Failure(ActionError(NoLicenseDataError, map[]))
    ensures HasFile(req, "license_data") ==>
      var data := req.files["license_data"].content;
      var raised := b.setLicenseData(info, data);
      var reloaded := b.licenseByIdAfterUpload(info, data, info.licenseId);
      (raised.Some? && raised.value.NotImplemented? ==> r == Failure(ActionError(CannotUploadError, map[]))) &&
      (raised.Some? && raised.value.ActionError? ==> r == Failure(raised.value)) &&
      (raised.Some? && raised.value.OtherError? ==> r == Failure(ActionError(UnexpectedUploadError, map[]))) &&
      (raised.None? && reloaded.Found? ==>
        r == Success(UploadBody(Some(JsLicenseModelData(b.provider, reloaded.info, formatDate))))) &&
      (raised.None? && reloaded.NotFound? ==> r == Success(UploadBody(None))) &&
      (raised.None? && reloaded.LookupRaised? ==> r == Failure(reloaded.error))
    ensures r.Success? ==>
      (HasFile(req, "license_data") && r.value.UploadBody? &&
       (r.value.licenseInfo.Some? <==>
         b.licenseByIdAfterUpload(info, req.files["license_data"].content, info.licenseId).Found?))
  {
    if !HasFile(req, "license_data") then Failure(ActionError(NoLicenseDataError, map[]))
    else
      var data := req.files["license_data"].content;
      match b.setLicenseData(info, data)
      case Some(NotImplemented(_)) => Failure(ActionError(CannotUploadError, map[]))
      case Some(ActionError(message, payload)) => Failure(ActionError(message, payload))
      case Some(OtherError(_)) => Failure(ActionError(UnexpectedUploadError, map[]))
      case None =>
        match b.licenseByIdAfterUpload(info, data, info.licenseId)
        case Found(newInfo) => Success(UploadBody(Some(JsLicenseModelData(b.provider, newInfo, formatDate))))
        case NotFound => Success(UploadBody(None))
        case LookupRaised(e) => Failure(e)
  }

  /**
   * How `post` answers an action's outcome: its result as JSON, a LicenseActionError as its
   * message and payload, and any other exception as an unexpected error naming the action.
   */
  function Answer(action: string, outcome: Result<ResultBody, RaisedError>): (resp: Response)
    ensures resp.JsonOk? <==> outcome.Success?
    ensures outcome.Success? ==> resp.body == outcome.value
    ensures outcome.Failure? && outcome.error.ActionError? ==>
      resp == BadRequest(ErrorBody(outcome.error.message, outcome.error.payload))
    ensures outcome.Failure? && !outcome.error.ActionError? ==>
      resp == BadRequest(map["error" := UnexpectedActionError(action, outcome.error.message)])
  {
    match outcome
    case Success(body) => JsonOk(body)
    case Failure(ActionError(message, payload)) => BadRequest(ErrorBody(message, payload))
    case Failure(NotImplemented(message)) => BadRequest(ErrorBody(UnexpectedActionError(action, message), map[]))
    case Failure(OtherError(message)) => BadRequest(ErrorBody(UnexpectedActionError(action, message), map[]))
  }

  /** `post`: validation, then dispatch on the action; every error becomes HTTP 400 JSON. */
  function Post(req: PostRequest, registry: map<string, ProviderBehavior>, traceId: string,
                decodeJson: string -> Option<string>, formatDate: Option<int> -> string): (resp: Response)
    ensures ValidateTarget(req, registry).Failure? ==> resp == BadRequest(ValidateTarget(req, registry).error)
    ensures ValidateTarget(req, registry).Success? ==>
      var Target(action, b, info) := ValidateTarget(req, registry).value;
      (action == UploadLicenseAction ==> resp == Answer(action, UploadLicense(b, info, req, formatDate))) &&
      (action == UpdateCheckAction ==> resp == Answer(action, LicenseUpdateCheck(b, info))) &&
      (action == ProcessUpdateAction ==>
        resp == Answer(action, ProcessLicenseUpdateData(b, info, req, traceId, decodeJson)))
    ensures resp.JsonOk? ==>
      var t := ValidateTarget(req, registry);
      t.Success? && t.value.action in {UploadLicenseAction, UpdateCheckAction, ProcessUpdateAction}
  {
    match ValidateTarget(req, registry)
    case Failure(body) => BadRequest(body)
    case Success(Target(action, b, info)) =>
      var outcome :=
        if action == UploadLicenseAction then UploadLicense(b, info, req, formatDate)
        else if action == UpdateCheckAction then LicenseUpdateCheck(b, info)
        else if action == ProcessUpdateAction then ProcessLicenseUpdateData(b, info, req, traceId, decodeJson)
        else Failure(ActionError(UnsupportedActionError(action), map[]));
      Answer(action, outcome)
  }

  /**
   * A provider that raises a bare NotImplementedError during an action is reported with the
   * empty message `str(e)` gives it.
   */
  lemma BareNotImplementedReported(action: string)
    ensures Answer(action, Failure(NotImplemented(""))) ==
      BadRequest(map["error" := "Unexpected error performing license action \"" + action + "\": "])
  {
    var message := UnexpectedActionError(action, "");
    var prefix := "Unexpected error performing license action \"" + action + "\": ";
    assert message == prefix + "";
    assert prefix + "" == prefix;
    assert Answer(action, Failure(NotImplemented(""))) == BadRequest(ErrorBody(message, map[]));
    assert ErrorBody(message, map[]) == map["error" := message];
  }

  /**
   * An upload answers with the license as the provider reports it after the new data is
   * set, which may differ from the license the target resolved to, or None when it is gone.
   */
  lemma UploadAnswersReloadedLicense(req: PostRequest, registry: map<string, ProviderBehavior>, traceId: string,
                                     decodeJson: string -> Option<string>, formatDate: Option<int> -> string)
    requires ValidateTarget(req, registry).Success?
    requires req.post["action"] == UploadLicenseAction && HasFile(req, "license_data")
    requires var t := ValidateTarget(req, registry).value;
      t.behavior.setLicenseData(t.info, req.files["license_data"].content).None?
    ensures var t := ValidateTarget(req, registry).value;
      var reloaded := t.behavior.licenseByIdAfterUpload(t.info, req.files["license_data"].content, t.info.licenseId);
      (reloaded.Found? ==>
         Post(req, registry, traceId, decodeJson, formatDate) ==
         JsonOk(UploadBody(Some(JsLicenseModelData(t.behavior.provider, reloaded.info, formatDate))))) &&
      (reloaded.NotFound? ==> Post(req, registry, traceId, decodeJson, formatDate) == JsonOk(UploadBody(None))) &&
      (reloaded.LookupRaised? && reloaded.error.ActionError? ==>
         Post(req, registry, traceId, decodeJson, formatDate) ==
         BadRequest(ErrorBody(reloaded.error.message, reloaded.error.payload)))
  {
    var t := ValidateTarget(req, registry).value;
    var outcome := UploadLicense(t.behavior, t.info, req, formatDate);
    assert Post(req, registry, traceId, decodeJson, formatDate) == Answer(UploadLicenseAction, outcome);
  }

  /**
   * A target built by a registered provider for one of its licenses resolves to that
   * provider and license, whenever neither ID contains ':'.
   */
  lemma ProviderTargetResolves(req: PostRequest, registry: map<string, ProviderBehavior>,
                               providerId: string, licenseId: string, info: LicenseInfo)
    requires ':' !in providerId && ':' !in licenseId
    requires providerId in registry && registry[providerId].licenseById(licenseId) == Found(info)
    requires Field(req.post, "action").GetOr("") != ""
    requires Field(req.post, "action_target") == Some(ActionTarget(providerId, licenseId))
    ensures ValidateTarget(req, registry) == Success(Target(req.post["action"], registry[providerId], info))
  {
    ActionTargetRoundTrip(providerId, licenseId);
  }

  /** An action other than the three supported ones is rejected once its target is valid. */
  lemma UnsupportedActionRejected(req: PostRequest, registry: map<string, ProviderBehavior>, traceId: string,
                                  decodeJson: string -> Option<string>, formatDate: Option<int> -> string)
    requires ValidateTarget(req, registry).Success?
    requires req.post["action"] !in {UploadLicenseAction, UpdateCheckAction, ProcessUpdateAction}
    ensures Post(req, registry, traceId, decodeJson, formatDate) ==
      BadRequest(ErrorBody(UnsupportedActionError(req.post["action"]), map[]))
  {
  }

  /** Unknown providers and licenses are reported after the target parses. */
  lemma UnknownProviderOrLicense(req: PostRequest, registry: map<string, ProviderBehavior>)
    requires Field(req.post, "action").GetOr("") != "" && Field(req.post, "action_target").GetOr("") != ""
    requires |Text.Split(req.post["action_target"], ':')| == 2
    ensures var parts := Text.Split(req.post["action_target"], ':');
      (parts[0] !in registry ==> ValidateTarget(req, registry) == Failure(ErrorBody(InvalidProviderError, map[]))) &&
      (parts[0] in registry && registry[parts[0]].licenseById(parts[1]).NotFound? ==>
        ValidateTarget(req, registry) == Failure(ErrorBody(LicenseNotFoundError, map[])))
  {
  }

  /**
   * An exception raised while looking up the target license is answered the way an action's
   * exception is: a LicenseActionError as its message and payload, anything else as an
   * unexpected error naming the action.
   */
  lemma LookupErrorReported(req: PostRequest, registry: map<string, ProviderBehavior>, traceId: string,
                            decodeJson: string -> Option<string>, formatDate: Option<int> -> string)
    requires Field(req.post, "action").GetOr("") != "" && Field(req.post, "action_target").GetOr("") != ""
    requires var parts := Text.Split(req.post["action_target"], ':');
      |parts| == 2 && parts[0] in registry && registry[parts[0]].licenseById(parts[1]).LookupRaised?
    ensures var parts := Text.Split(req.post["action_target"], ':');
      var e := registry[parts[0]].licenseById(parts[1]).error;
      Post(req, registry, traceId, decodeJson, formatDate) == Answer(req.post["action"], Failure(e)) &&
      (e.ActionError? ==> Post(req, registry, traceId, decodeJson, formatDate) == BadRequest(ErrorBody(e.message, e.payload)))
  {
    var parts := Text.Split(req.post["action_target"], ':');
    var e := registry[parts[0]].licenseById(parts[1]).error;
    assert ValidateTarget(req, registry) ==
      Failure(if e.ActionError? then ErrorBody(e.message, e.payload)
              else ErrorBody(UnexpectedActionError(req.post["action"], e.message), map[]));
  }

  /** A lookup raising `LicenseActionError("Expired key", payload={"code": "3"})` keeps its payload. */
  lemma ExpiredKeyLookupReported(req: PostRequest, registry: map<string, ProviderBehavior>, traceId: string,
                                 decodeJson: string -> Option<string>, formatDate: Option<int> -> string)
    requires Field(req.post, "action").GetOr("") != "" && Field(req.post, "action_target").GetOr("") != ""
    requires var parts := Text.Split(req.post["action_target"], ':');
      |parts| == 2 && parts[0] in registry &&
      registry[parts[0]].licenseById(parts[1]) == LookupRaised(ActionError("Expired key", map["code" := "3"]))
    ensures Post(req, registry, traceId, decodeJson, formatDate) ==
      BadRequest(map["error" := "Expired key", "code" := "3"])
  {
    LookupErrorReported(req, registry, traceId, decodeJson, formatDate);
    assert ErrorBody("Expired key", map["code" := "3"]) == map["error" := "Expired key", "code" := "3"];
  }
}
