/** User badges and the user details provider registry (reviewboard/accounts/user_details.py). */
module UserDetails {
  import opened Wrappers
  import opened Text

  /** A badge shown beside a user's name; the CSS class may hold several space-separated classes. */
  datatype UserBadge = UserBadge(labelText: string, userId: nat, cssClass: Option<string>)

  /** A provider of extra user details, registered under a unique ID. */
  datatype UserDetailsProvider = UserDetailsProvider(providerId: string, badges: seq<UserBadge>)

  const BadgeBaseClass := "rb-c-user-badge"

  /** HTML escaping of one character as Django's `escape` does it. */
  function EscapeChar(c: char): string {
    if c == '&' then "&amp;"
    else if c == '<' then "&lt;"
    else if c == '>' then "&gt;"
    else if c == '"' then "&quot;"
    else if c == '\'' then "&#x27;"
    else [c]
  }

  /** HTML escaping of text placed into markup by `format_html`. */
  function Escape(s: string): (r: string)
    ensures forall i :: 0 <= i < |r| ==> r[i] != '<' && r[i] != '>' && r[i] != '"'
  {
    if |s| == 0 then "" else EscapeChar(s[0]) + Escape(s[1..])
  }

  /** Decodes the entities `Escape` produces; the inverse of escaping. */
  function Unescape(s: string): string
    decreases |s|
  {
    if |s| == 0 then ""
    else if StartsWith(s, "&amp;") then "&" + Unescape(s[5..])
    else if StartsWith(s, "&lt;") then "<" + Unescape(s[4..])
    else if StartsWith(s, "&gt;") then ">" + Unescape(s[4..])
    else if StartsWith(s, "&quot;") then "\"" + Unescape(s[6..])
    else if StartsWith(s, "&#x27;") then "'" + Unescape(s[6..])
    else [s[0]] + Unescape(s[1..])
  }

  /** Decoding undoes the escaping of one character, whatever follows it. */
  lemma UnescapeStep(c: char, rest: string)
    ensures Unescape(EscapeChar(c) + rest) == [c] + Unescape(rest)
  {
    var t := EscapeChar(c) + rest;
    if c == '&' {
      assert t[..5] == "&amp;" && t[5..] == rest;
      assert Unescape(t) == "&" + Unescape(t[5..]);
    } else if c == '<' {
      assert t[..4] == "&lt;" && t[4..] == rest && t[1] == 'l';
      assert Unescape(t) == "<" + Unescape(t[4..]);
    } else if c == '>' {
      assert t[..4] == "&gt;" && t[4..] == rest && t[1] == 'g';
      assert Unescape(t) == ">" + Unescape(t[4..]);
    } else if c == '"' {
      assert t[..6] == "&quot;" && t[6..] == rest && t[1] == 'q';
      assert Unescape(t) == "\"" + Unescape(t[6..]);
    } else if c == '\'' {
      assert t[..6] == "&#x27;" && t[6..] == rest && t[1] == '#';
      assert Unescape(t) == "'" + Unescape(t[6..]);
    } else {
      assert t[0] == c && t[1..] == rest;
      assert !StartsWith(t, "&amp;") && !StartsWith(t, "&lt;") && !StartsWith(t, "&gt;");
      assert !StartsWith(t, "&quot;") && !StartsWith(t, "&#x27;");
    }
  }

  /** Escaping loses nothing: the label can be read back from the markup. */
  lemma {:induction false} UnescapeEscape(s: string)
    ensures Unescape(Escape(s)) == s
    decreases |s|
  {
    if |s| > 0 {
      UnescapeEscape(s[1..]);
      UnescapeStep(s[0], Escape(s[1..]));
      assert s == [s[0]] + s[1..];
    }
  }

  /** The value of the badge's class attribute: the base class, then the badge's own classes. */
  function BadgeClasses(badge: UserBadge): (r: string)
    ensures StartsWith(r, BadgeBaseClass)
    ensures badge.cssClass.None? || badge.cssClass.value == "" <==> r == BadgeBaseClass
    ensures badge.cssClass.Some? && badge.cssClass.value != "" ==> r[|BadgeBaseClass| + 1..] == badge.cssClass.value
  {
    if badge.cssClass.Some? && badge.cssClass.value != "" then BadgeBaseClass + " " + badge.cssClass.value
    else BadgeBaseClass
  }

  /**
   * The badge's HTML. `renderFails` stands for an exception raised while formatting,
   * which is logged and turned into empty markup.
   */
  function RenderBadge(badge: UserBadge, renderFails: bool): (html: string)
    ensures renderFails <==> html == ""
    ensures !renderFails ==>
      StartsWith(html, "<span class=\"" + Escape(BadgeClasses(badge)) + "\">") && EndsWith(html, "</span>")
  {
    if renderFails then ""
    else "<span class=\"" + Escape(BadgeClasses(badge)) + "\">" + Escape(badge.labelText) + "</span>"
  }

  /** The text between the opening and closing tag of rendered badge markup, unescaped. */
  function BadgeLabelOf(html: string, badge: UserBadge): string
    requires |html| >= |"<span class=\"" + Escape(BadgeClasses(badge)) + "\">"| + |"</span>"|
  {
    var open := |"<span class=\"" + Escape(BadgeClasses(badge)) + "\">"|;
    Unescape(html[open..|html| - |"</span>"|])
  }

  /** The label shown by a rendered badge is exactly the badge's label. */
  lemma RenderedLabel(badge: UserBadge)
    ensures var html := RenderBadge(badge, false);
      |html| >= |"<span class=\"" + Escape(BadgeClasses(badge)) + "\">"| + |"</span>"| &&
      BadgeLabelOf(html, badge) == badge.labelText
  {
    var open := "<span class=\"" + Escape(BadgeClasses(badge)) + "\">";
    var html := RenderBadge(badge, false);
    assert html == open + Escape(badge.labelText) + "</span>";
    assert html[|open|..|html| - |"</span>"|] == Escape(badge.labelText);
    UnescapeEscape(badge.labelText);
  }

  /** The base provider yields no badges. */
  function BaseUserBadges(userId: nat): (badges: seq<UserBadge>)
    ensures |badges| == 0
  {
    []
  }

  /** Registered providers have distinct IDs. */
  predicate UniqueIds(registry: seq<UserDetailsProvider>) {
    forall i, j :: 0 <= i < j < |registry| ==> registry[i].providerId != registry[j].providerId
  }

  /** The provider registered under an ID, or None. */
  function GetUserDetailsProvider(registry: seq<UserDetailsProvider>, providerId: string): (r: Option<UserDetailsProvider>)
    ensures r.Some? ==> r.value in registry && r.value.providerId == providerId
    ensures r.None? <==> forall p :: p in registry ==> p.providerId != providerId
  {
    if |registry| == 0 then None
    else if registry[0].providerId == providerId then Some(registry[0])
    else GetUserDetailsProvider(registry[1..], providerId)
  }

  /** In a registry with unique IDs, a lookup finds the one provider registered under that ID. */
  lemma {:induction false} LookupFindsRegistered(registry: seq<UserDetailsProvider>, k: nat)
    requires UniqueIds(registry) && k < |registry|
    ensures GetUserDetailsProvider(registry, registry[k].providerId) == Some(registry[k])
  {
    if k > 0 {
      assert registry[0].providerId != registry[k].providerId;
      assert UniqueIds(registry[1..]);
      LookupFindsRegistered(registry[1..], k - 1);
    }
  }
}
