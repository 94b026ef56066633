/**
 * License providers and the data they hand to the JavaScript license model
 * (reviewboard/licensing/provider.py). Dates are whole seconds since the epoch;
 * HTML escaping and translation are treated as the identity.
 */
module LicenseProviders {
  import opened Wrappers
  import Text

  const SecondsPerDay := 86400

  /** The statuses the provider and its users distinguish, with their JSON values. */
  datatype LicenseStatus = Licensed | Unlicensed | HardExpired | ExpiredGracePeriod

  function StatusValue(s: LicenseStatus): (v: string)
    ensures v != ""
  {
    match s
    case Licensed => "licensed"
    case Unlicensed => "unlicensed"
    case HardExpired => "hard-expired"
    case ExpiredGracePeriod => "expired-grace-period"
  }

  /** Distinct statuses have distinct JSON values. */
  lemma StatusValueInjective(a: LicenseStatus, b: LicenseStatus)
    requires StatusValue(a) == StatusValue(b)
    ensures a == b
  {
  }

  /** The license information a provider reports; an empty summary means none was given. */
  datatype LicenseInfo = LicenseInfo(
    licenseId: string,
    productName: string,
    status: LicenseStatus,
    isTrial: bool,
    planName: Option<string>,
    summary: string,
    expires: Option<int>,
    gracePeriodDaysRemaining: Option<int>,
    canUploadLicense: bool)

  /** An action a provider offers on a license; a missing URL is `None`. */
  datatype LicenseAction = LicenseAction(actionId: string, labelText: string, url: Option<string>)

  /** What a provider returns to start a license check. */
  datatype CheckRequest = CheckRequest(url: string, credentials: Option<string>, data: string, headers: Option<string>)

  /**
   * A license provider: its ID and its overridable behaviour. A subclass supplies
   * other functions; `BaseProvider` has the base class's defaults.
   */
  datatype LicenseProvider = LicenseProvider(
    providerId: string,
    manageLicenseUrl: LicenseInfo -> Option<string>,
    licenseActions: LicenseInfo -> seq<LicenseAction>,
    checkLicenseRequest: LicenseInfo -> Option<CheckRequest>)

  /** The base provider: no management URL, no actions and no license checks. */
  function BaseProvider(providerId: string): (p: LicenseProvider)
    ensures p.providerId == providerId
    ensures forall info :: p.manageLicenseUrl(info).None? && p.licenseActions(info) == [] && p.checkLicenseRequest(info).None?
  {
    LicenseProvider(providerId, _ => None, _ => [], _ => None)
  }

  /** An action as the JavaScript model receives it. */
  datatype ActionData = ActionData(actionID: string, labelText: string, url: Option<string>)

  /** The attributes of the JavaScript license model. */
  datatype ModelData = ModelData(
    actionTarget: string,
    actions: seq<ActionData>,
    canUploadLicense: bool,
    expiresDate: Option<int>,
    gracePeriodDaysRemaining: Option<int>,
    hardExpiresDate: Option<int>,
    isTrial: bool,
    licenseID: string,
    manageURL: Option<string>,
    noticeHTML: string,
    planName: Option<string>,
    productName: string,
    status: string,
    summary: string)

  /** Python truthiness of an optional number and of an optional string. */
  predicate TruthyInt(x: Option<int>) { x.Some? && x.value != 0 }
  predicate TruthyString(x: Option<string>) { x.Some? && x.value != "" }

  /** The date the license stops working: the expiry pushed back by any remaining grace days. */
  function HardExpiresDate(expires: Option<int>, graceDays: Option<int>): (r: Option<int>)
    ensures r.Some? <==> expires.Some?
    ensures TruthyInt(graceDays) && expires.Some? ==> r == Some(expires.value + graceDays.value * SecondsPerDay)
    ensures !TruthyInt(graceDays) ==> r == expires
  {
    if expires.Some? && TruthyInt(graceDays) then Some(expires.value + graceDays.value * SecondsPerDay) else expires
  }

  /** `{provider_id}:{license_id}`, the target the view parses back. */
  function ActionTarget(providerId: string, licenseId: string): (r: string)
    ensures Text.StartsWith(r, providerId + ":") && Text.EndsWith(r, licenseId)
  {
    var r := providerId + ":" + licenseId;
    assert r[|r| - |licenseId|..] == licenseId;
    r
  }

  /** A target built from two IDs free of ':' splits back into exactly those IDs. */
  lemma ActionTargetRoundTrip(providerId: string, licenseId: string)
    requires ':' !in providerId && ':' !in licenseId
    ensures Text.Split(ActionTarget(providerId, licenseId), ':') == [providerId, licenseId]
  {
    Text.SplitTwo(providerId, licenseId, ':');
    assert providerId + [':'] + licenseId == providerId + ":" + licenseId;
  }

  /** The summary chosen when the provider gives none. */
  function DefaultSummary(product: string, status: LicenseStatus, isTrial: bool, planName: Option<string>): (r: string)
    ensures status == Unlicensed ==> r == product + " is not licensed!"
    ensures status == Licensed && !isTrial ==> Text.StartsWith(r, "License for " + product)
    ensures status == Licensed && isTrial ==> Text.StartsWith(r, "Trial license for " + product)
    ensures (status == HardExpired || status == ExpiredGracePeriod) && !isTrial ==> Text.StartsWith(r, "Expired license for " + product)
    ensures (status == HardExpired || status == ExpiredGracePeriod) && isTrial ==> Text.StartsWith(r, "Expired trial license for " + product)
    ensures status != Unlicensed && TruthyString(planName) ==> Text.EndsWith(r, " (" + planName.value + ")")
    ensures !TruthyString(planName) ==> Text.EndsWith(r, product) || Text.EndsWith(r, " is not licensed!")
  {
    var plan := if TruthyString(planName) then " (" + planName.value + ")" else "";
    var r := match status
      case Licensed => (if isTrial then "Trial license for " else "License for ") + product + plan
      case Unlicensed => product + " is not licensed!"
      case _ => (if isTrial then "Expired trial license for " else "Expired license for ") + product + plan;
    assert status == Unlicensed ==> r[|r| - |" is not licensed!"|..] == " is not licensed!";
    assert status != Unlicensed ==> r[|r| - |plan|..] == plan;
    assert status != Unlicensed && !TruthyString(planName) ==> r[|r| - |product|..] == product;
    r
  }

  /** The grace-period notice, in Ink syntax, naming the product and the hard expiry. */
  function GraceNotice(product: string, hardExpires: Option<int>, formatDate: Option<int> -> string): (r: string)
    ensures r != ""
    ensures Text.StartsWith(r, "Your grace period is now active. Unless renewed, " + product)
  {
    "Your grace period is now active. Unless renewed, " + product + " will be disabled " +
    "<time class=\"timesince\" dateTime=\"" + formatDate(hardExpires) + "\"/>."
  }

  /** `get_js_license_model_data`; `formatDate` renders a date as the template does. */
  function JsLicenseModelData(provider: LicenseProvider, info: LicenseInfo, formatDate: Option<int> -> string): (d: ModelData)
    ensures d.actionTarget == ActionTarget(provider.providerId, info.licenseId)
    ensures d.hardExpiresDate == HardExpiresDate(info.expires, info.gracePeriodDaysRemaining)
    ensures d.noticeHTML != "" <==> info.status == ExpiredGracePeriod
    ensures info.summary != "" ==> d.summary == info.summary
    ensures info.summary == "" ==> d.summary == DefaultSummary(info.productName, info.status, info.isTrial, info.planName)
    ensures d.status == StatusValue(info.status) && d.licenseID == info.licenseId
    ensures d.manageURL == provider.manageLicenseUrl(info)
    ensures |d.actions| == |provider.licenseActions(info)|
    ensures forall k :: 0 <= k < |d.actions| ==>
      var a := provider.licenseActions(info)[k];
      d.actions[k] == ActionData(a.actionId, a.labelText, a.url)
  {
    var hard := HardExpiresDate(info.expires, info.gracePeriodDaysRemaining);
    var notice := if info.status == ExpiredGracePeriod then GraceNotice(info.productName, hard, formatDate) else "";
    var summary := if info.summary != "" then info.summary
                   else DefaultSummary(info.productName, info.status, info.isTrial, info.planName);
    var actions := provider.licenseActions(info);
    ModelData(
      ActionTarget(provider.providerId, info.licenseId),
      seq(|actions|, k requires 0 <= k < |actions| => ActionData(actions[k].actionId, actions[k].labelText, actions[k].url)),
      info.canUploadLicense,
      info.expires,
      info.gracePeriodDaysRemaining,
      hard,
      info.isTrial,
      info.licenseId,
      provider.manageLicenseUrl(info),
      notice,
      info.planName,
      info.productName,
      StatusValue(info.status),
      summary)
  }

  /** The base provider's model data has no management URL and no actions. */
  lemma BaseProviderModelData(providerId: string, info: LicenseInfo, formatDate: Option<int> -> string)
    ensures var d := JsLicenseModelData(BaseProvider(providerId), info, formatDate);
      d.manageURL.None? && d.actions == [] && d.actionTarget == providerId + ":" + info.licenseId
  {
  }

  /** The summaries shown for the four kinds of license in the license page. */
  lemma UnlicensedSummaryExample()
    ensures DefaultSummary("Test Product", Unlicensed, false, None) == "Test Product is not licensed!"
  {
  }

  lemma LicensedPlanSummaryExample()
    ensures DefaultSummary("Test Product", Licensed, false, Some("Plan 1")) == "License for Test Product (Plan 1)"
  {
  }

  lemma ExpiredTrialSummaryExample()
    ensures DefaultSummary("Test Product", HardExpired, true, None) == "Expired trial license for Test Product"
  {
  }

  lemma GracePeriodSummaryExample()
    ensures DefaultSummary("Test Product", ExpiredGracePeriod, false, None) == "Expired license for Test Product"
  {
  }
}
