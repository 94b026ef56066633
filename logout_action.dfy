/**
 * The logout action of the page header
 * (reviewboard/static/rb/js/common/actions/models/logoutActionModel.ts): logging out is a
 * POST carrying the CSRF token read from the cookies.
 */
module LogoutAction {
  import opened Wrappers
  import opened Text

  const CsrfCookiePrefix := "csrftoken="
  const CsrfFieldName := "csrfmiddlewaretoken"

  /** A hidden form input. */
  datatype HiddenInput = HiddenInput(name: string, value: string)

  /** The hidden form the action builds and submits. */
  datatype SubmittedForm = SubmittedForm(httpMethod: string, action: string, inputs: seq<HiddenInput>)

  /** A cookie whose trimmed text starts with `csrftoken=`. */
  predicate IsCsrfCookie(cookie: string) {
    StartsWith(Strip(cookie), CsrfCookiePrefix)
  }

  /** The token carried by the first CSRF cookie, with surrounding whitespace trimmed. */
  function FirstCsrfToken(cookies: seq<string>): Option<string> {
    if |cookies| == 0 then None
    else if IsCsrfCookie(cookies[0]) then Some(Strip(cookies[0])[|CsrfCookiePrefix|..])
    else FirstCsrfToken(cookies[1..])
  }

  /** No token is found exactly when no cookie is a CSRF cookie. */
  lemma {:induction false} FirstCsrfTokenNone(cookies: seq<string>)
    ensures FirstCsrfToken(cookies).None? <==> forall k :: 0 <= k < |cookies| ==> !IsCsrfCookie(cookies[k])
  {
    if |cookies| > 0 && !IsCsrfCookie(cookies[0]) {
      var rest := cookies[1..];
      FirstCsrfTokenNone(rest);
      forall k | 1 <= k < |cookies| ensures cookies[k] == rest[k - 1] { }
    }
  }

  /** The CSRF token of a `document.cookie` string. */
  function CsrfTokenOf(documentCookie: string): Option<string> {
    FirstCsrfToken(Split(documentCookie, ';'))
  }

  /** A found token comes from the first CSRF cookie, with the prefix removed. */
  lemma {:induction false} FirstCsrfTokenIsFirst(cookies: seq<string>) returns (k: nat)
    requires FirstCsrfToken(cookies).Some?
    ensures k < |cookies| && IsCsrfCookie(cookies[k])
    ensures forall j :: 0 <= j < k ==> !IsCsrfCookie(cookies[j])
    ensures FirstCsrfToken(cookies).value == Strip(cookies[k])[|CsrfCookiePrefix|..]
  {
    if IsCsrfCookie(cookies[0]) {
      k := 0;
    } else {
      var rest := cookies[1..];
      assert FirstCsrfToken(cookies) == FirstCsrfToken(rest);
      var k' := FirstCsrfTokenIsFirst(rest);
      k := k' + 1;
      forall j | 0 <= j < k ensures !IsCsrfCookie(cookies[j]) {
        if j > 0 { assert cookies[j] == rest[j - 1]; }
      }
      assert cookies[k] == rest[k'];
    }
  }

  /** Cookies joined with `;` are read back one by one, so the token is the first cookie's match. */
  lemma CsrfTokenOfJoined(cookies: seq<string>)
    requires |cookies| >= 1
    requires forall k :: 0 <= k < |cookies| ==> ';' !in cookies[k]
    ensures CsrfTokenOf(Join(cookies, ";")) == FirstCsrfToken(cookies)
  {
    SplitJoin(cookies, ';');
  }

  /** The logout action: its public URL is "#", and the real logout URL is kept private. */
  class LogoutAction {
    var url: string
    var logoutUrl: string

    /** Initialisation saves the configured URL for the POST and replaces it with "#". */
    constructor (configuredUrl: string)
      ensures logoutUrl == configuredUrl && url == "#"
    {
      logoutUrl := configuredUrl;
      url := "#";
    }

    /** Reads the CSRF token from `document.cookie`. */
    method GetCsrfToken(documentCookie: string) returns (token: Option<string>)
      ensures token == CsrfTokenOf(documentCookie)
    {
      var cookies := Split(documentCookie, ';');
      var i := 0;
      while i < |cookies|
        invariant 0 <= i <= |cookies|
        invariant FirstCsrfToken(cookies) == FirstCsrfToken(cookies[i..])
      {
        var trimmed := Strip(cookies[i]);
        if StartsWith(trimmed, CsrfCookiePrefix) {
          assert IsCsrfCookie(cookies[i..][0]);
          return Some(trimmed[|CsrfCookiePrefix|..]);
        }
        assert cookies[i..][1..] == cookies[i + 1..];
        i := i + 1;
      }
      return None;
    }

    /**
     * Activation submits a POST form to the saved logout URL; the token is sent in a hidden
     * `csrfmiddlewaretoken` field only when one was found and it is not empty.
     */
    method Activate(documentCookie: string) returns (form: SubmittedForm)
      ensures form.httpMethod == "POST" && form.action == logoutUrl
      ensures var token := CsrfTokenOf(documentCookie);
        if token.Some? && token.value != "" then form.inputs == [HiddenInput(CsrfFieldName, token.value)]
        else form.inputs == []
    {
      var csrfToken := GetCsrfToken(documentCookie);
      var inputs: seq<HiddenInput> := [];
      if csrfToken.Some? && csrfToken.value != "" {
        inputs := inputs + [HiddenInput(CsrfFieldName, csrfToken.value)];
      }
      form := SubmittedForm("POST", logoutUrl, inputs);
    }
  }
}
