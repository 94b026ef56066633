# Review Board core, modelled in Dafny

This project models the sequential, deterministic logic inside Review Board, a web-based code
review tool. Time, configuration, database queries and foreign libraries become parameters. Each
source file of the core is one Dafny module:

- **ChunkLines, ChunkPlan, ChunkGenerator** model `reviewboard/diffviewer/chunk_generator.py`.
  The side-by-side diff viewer turns a file's text and the differ's opcodes into chunks of rows.
  The model covers source normalisation and the syntax-highlighting gate. It covers each row's
  line numbers, changed regions, move information and indentation markup. It covers how an
  opcode's rows are split into chunks, with long equal runs collapsed around their context. It
  covers header tracking across chunks, chunk indices, per-tag counts and the cache key.
  `RawDiffChunkGenerator` is a class whose fields are the generator's chunk index, header
  positions and last headers; its methods update them as the source does.
- **StatusUpdates** models `reviewboard/reviews/models/status_update.py`: status updates from
  automated review tools. It covers the state codes and their API strings, the time-derived
  effective state, whether a tool may be (re)run, integration-configuration storage and
  dropping open issues.
- **Reviews** models `reviewboard/reviews/models/review.py`. It covers the publish check and
  its order, publishing, revoking a Ship It, re-stamping comments and the review predicates.
  **ReviewRequests** keeps only the review-request fields these operations touch.
- **ReviewFields, FieldChangeRendering, FieldSets** model `reviewboard/reviews/fields.py`.
  They cover change detection, `extra_data` storage, text types, CSS classes and change-entry
  serialisation. They cover the rows of a text-area field's change entry, and the fieldset
  and field registries.
- **FileDiffCreator** models `reviewboard/diffviewer/filediff_creator.py`, which turns a
  parsed diff (and an optional parent diff) into FileDiffs. It covers filename normalisation,
  `limit_to` filtering, file-existence checks and parent-diff bookkeeping.
- **Version** models `reviewboard/__init__.py`: the version, package-version and manual-URL
  strings.
- **RbExt** models `reviewboard/cmdline/rbext.py`, the extension-developer tool. It covers
  option normalisation for `rbext create`, the README and `pyproject.toml` values it
  templates, `--` handling and exit codes.
- **LicenseProviders, LicenseViews** model `reviewboard/licensing/provider.py` and
  `reviewboard/licensing/views.py`. They cover the data a license provider hands to the
  license page, and the validation and dispatch of the license actions posted back.
- **UserDetails** models `reviewboard/accounts/user_details.py`: user badges and the user
  details provider lookup.
- **LogoutAction** models
  `reviewboard/static/rb/js/common/actions/models/logoutActionModel.ts`: the logout action
  reads the CSRF token from the cookies and posts a form.
- **Wrappers, Text, ExtraData** are shared helpers:
  - `Option` and `Result` types;
  - Python and JavaScript string operations (strip, split, join, decimal conversion);
  - the JSON values stored in `extra_data`.

Four details of the code shape the model:

- **License statuses.** `reviewboard/licensing/license.py` declares a status enum whose
  values differ from the ones `provider.py` and its tests use. The model uses the statuses
  the provider and tests use: licensed, unlicensed, hard-expired and expired-grace-period.
- **Insert rows of a text-area change entry.** These are taken from the new lines `j1..j2`,
  as `fields.py:1663-1669` does.
- **Replace opcodes.** These yield `min(i2 - i1, j2 - j1)` old rows followed by as many new
  rows, because the code pairs the two sides with `zip`.
- **Validation-only FileDiff creation.** The docstring of `create_filediffs`
  (`filediff_creator.py:142`) says the returned list is empty when `validate_only` is set,
  but the code (`filediff_creator.py:325-338`) returns one unsaved FileDiff per file, without
  diff data, parent diff or line counts. The model follows the code.

## Model

| member | source | states |
|---|---|---|
| Version.VersionString | reviewboard/__init__.py:20-45 | the human-readable version begins with the dotted numeric part (micro shown when micro or patch is set, patch when patch is set) |
| Version.PackageVersion | reviewboard/__init__.py:48-72 | the package version begins with the same numeric part, with alpha/beta abbreviated to a/b |
| Version.ManualUrl | reviewboard/__init__.py:85-97 | the manual URL lies under the reviewboard.org manual root and ends with a slash |
| Version.NumericPartDots | reviewboard/__init__.py:28-34 | the numeric part has one dot, plus one when micro or patch is set, plus one when patch is set |
| Version.DevMarker | reviewboard/__init__.py:42-43 | the version string ends with " (dev)" exactly when the version is unreleased |
| Version.FinalReleaseForms | reviewboard/__init__.py:37-45 | a released final version reads the same as its package version and its numeric part |
| Version.ReleaseCandidateForms | reviewboard/__init__.py:37-39 | an rc tag renders as " RC<n>" for people and "rc<n>" for packaging |
| Version.AlphaBetaForms | reviewboard/__init__.py:37-67 | an alpha or beta tag reads " <tag> <n>" for people and is abbreviated to its first letter, "a<n>" or "b<n>", for packaging |
| Version.OtherTagForms | reviewboard/__init__.py:37-67 | any other non-final tag reads " <tag> <n>" for people and "<tag><n>" for packaging |
| Version.ManualVersions | reviewboard/__init__.py:85-97 | the manual URL is the "dev" manual exactly when micro is 0 and the tag is not final, and otherwise the manual of the major.minor series |
| Version.CurrentStrings | reviewboard/__init__.py:16-17 | the declared version 8.0 alpha 0 gives "8.0 alpha 0 (dev)", "8.0a0", the "dev" manual URL and is not a release |
| UserDetails.Escape | reviewboard/accounts/user_details.py:84-87 | escaped text holds no `<`, `>` or `"`, so a label cannot break out of the badge markup |
| UserDetails.UnescapeEscape | reviewboard/accounts/user_details.py:84-87 | escaping is lossless: decoding the entities gives back the original text |
| UserDetails.BadgeClasses | reviewboard/accounts/user_details.py:71-81 | the class attribute starts with rb-c-user-badge, equals it exactly when the badge has no (or an empty) CSS class, and otherwise carries the badge's classes after a space |
| UserDetails.RenderBadge | reviewboard/accounts/user_details.py:58-93 | rendering yields empty markup exactly when formatting raised, and otherwise a span whose class attribute is the escaped class list |
| UserDetails.RenderedLabel | reviewboard/accounts/user_details.py:84-87 | the text inside the rendered span decodes to exactly the badge's label |
| UserDetails.BaseUserBadges | reviewboard/accounts/user_details.py:109-135 | the base provider yields no badges |
| UserDetails.GetUserDetailsProvider | reviewboard/accounts/user_details.py:150-165 | a found provider is registered under the asked ID, and None is returned exactly when no registered provider has that ID |
| UserDetails.LookupFindsRegistered | reviewboard/accounts/user_details.py:148-165 | with unique IDs, looking up a registered provider's ID finds that provider |
| LogoutAction.FirstCsrfTokenNone | reviewboard/static/rb/js/common/actions/models/logoutActionModel.ts:88-96 | no token is found exactly when no trimmed cookie starts with `csrftoken=` |
| LogoutAction.FirstCsrfTokenIsFirst | reviewboard/static/rb/js/common/actions/models/logoutActionModel.ts:88-93 | a found token is the text after `csrftoken=` in the first matching cookie, and no earlier cookie matches |
| LogoutAction.CsrfTokenOfJoined | reviewboard/static/rb/js/common/actions/models/logoutActionModel.ts:86 | splitting a `;`-joined cookie string recovers the cookies, so the token is that of the first CSRF cookie |
| LogoutAction.LogoutAction.constructor | reviewboard/static/rb/js/common/actions/models/logoutActionModel.ts:40-45 | the configured URL is saved for the POST and the public URL becomes "#" |
| LogoutAction.LogoutAction.GetCsrfToken | reviewboard/static/rb/js/common/actions/models/logoutActionModel.ts:85-97 | the loop returns the token of the first CSRF cookie of `document.cookie`, or none |
| LogoutAction.LogoutAction.Activate | reviewboard/static/rb/js/common/actions/models/logoutActionModel.ts:57-76 | the form is a POST to the saved logout URL that carries the token in `csrfmiddlewaretoken` exactly when a non-empty token was found |
| StatusUpdates.StateToString | reviewboard/reviews/models/status_update.py:183-212 | a code converts exactly when it is one of the seven state codes, to one of the seven API strings; any other code fails with 'Invalid state "<code>"' |
| StatusUpdates.StringToState | reviewboard/reviews/models/status_update.py:215-244 | a string converts exactly when it is one of the seven API strings, to a state code; any other string fails with 'Invalid state string "<s>"' |
| StatusUpdates.StateRoundTrip | reviewboard/reviews/models/status_update.py:183-244 | converting a valid code to its string and back gives the code |
| StatusUpdates.StringRoundTrip | reviewboard/reviews/models/status_update.py:183-244 | converting a valid API string to its code and back gives the string |
| StatusUpdates.EffectiveState | reviewboard/reviews/models/status_update.py:345-357 | the effective state is timed-out exactly when the state is timed-out or it is pending with a timeout that has elapsed; otherwise it is the stored state |
| StatusUpdates.TimeoutIsPermanent | reviewboard/reviews/models/status_update.py:351-355 | once a pending update counts as timed out it stays timed out at every later time |
| StatusUpdates.CanRun | reviewboard/reviews/models/status_update.py:385-394 | a tool can run when it never ran, and after an error or timeout exactly when extra_data's can_retry is truthy; in no other state |
| StatusUpdates.ActionName | reviewboard/reviews/models/status_update.py:397-406 | the action is "Retry" exactly after an error or timeout, and "Run" otherwise |
| StatusUpdates.RunnableActionName | reviewboard/reviews/models/status_update.py:385-406 | a runnable update is offered as "Run" if it never ran and as "Retry" otherwise |
| StatusUpdates.FindConfig | reviewboard/reviews/models/status_update.py:266-276 | a found configuration has the stored primary key and the review request's Local Site; None means no stored configuration matches both |
| StatusUpdates.StoredConfigReadBack | reviewboard/reviews/models/status_update.py:247-321 | with unique primary keys, a configuration stored by the setter is found again by the getter on its Local Site |
| StatusUpdates.DropOpen | reviewboard/reviews/models/status_update.py:370-373 | exactly the open issues of the chosen kinds become dropped, stamped with the drop time; every other comment is unchanged |
| StatusUpdates.DropOpenLeavesNoneOpen | reviewboard/reviews/models/status_update.py:359-378 | after dropping every kind no issue is open and comments without an open issue are untouched |
| StatusUpdates.DropOpenIdempotent | reviewboard/reviews/models/status_update.py:359-378 | dropping open issues a second time changes nothing |
| StatusUpdates.OpenCountOfKind | reviewboard/reviews/models/status_update.py:371-376 | the count of updated comments is positive exactly when some comment of that kind has an open issue |
| StatusUpdates.StatusUpdate.constructor | reviewboard/reviews/models/status_update.py:91-172 | a status update holds its review request, state, timestamp, timeout, extra_data and review, with no configuration cached |
| StatusUpdates.StatusUpdate.GetIntegrationConfig | reviewboard/reviews/models/status_update.py:247-286 | the cached configuration is returned when there is one; otherwise the one extra_data names on the review request's Local Site, which is then cached |
| StatusUpdates.StatusUpdate.SetIntegrationConfig | reviewboard/reviews/models/status_update.py:289-321 | a configuration on another Local Site is a ValueError that changes nothing; otherwise its key is stored (or removed for None) and it is cached |
| StatusUpdates.StatusUpdate.Run | reviewboard/reviews/models/status_update.py:408-424 | running an update that cannot run is an AssertionError that looks nothing up; otherwise the integration configuration is looked up (or taken from the cache) and handed to the run request, and a listener's exception propagates; the state, extra data, timestamps, timeout and review never change |
| StatusUpdates.StatusUpdate.DropOpenIssues | reviewboard/reviews/models/status_update.py:359-383 | every open issue of the review is dropped, kind by kind, and the review request's review activity moves to now only if some issue was dropped; no other field of the review or the review request changes |
| StatusUpdates.FindUnique | reviewboard/reviews/models/status_update.py:266-276 | when configuration IDs are unique, looking a stored configuration up by its ID and Local Site finds that configuration |
| Reviews.AnyComment | reviewboard/reviews/models/review.py:564-588 | true exactly when some comment exists (or, with only_issues, some comment opens an issue) |
| Reviews.AnyOnUnpublishedDiff | reviewboard/reviews/models/review.py:409-414 | true exactly when some diff comment is on a diff that is not yet public |
| Reviews.AnyOnUnpublishedAttachment | reviewboard/reviews/models/review.py:416-421 | true exactly when some file-attachment comment is on an attachment that is not yet public |
| Reviews.Restamp | reviewboard/reviews/models/review.py:493-496 | every comment takes the review's timestamp and nothing else about it changes |
| Reviews.RestampKeepsIssueCounts | reviewboard/reviews/models/review.py:493-517 | restamping comments keeps the count of issues in each status, so the post-publish counts are those of the draft |
| Reviews.Review.constructor | reviewboard/reviews/models/review.py:58-140 | a new review is an unpublished, empty draft by its author, with empty extra_data and no comments |
| Reviews.Review.CanPublish | reviewboard/reviews/models/review.py:366-431 | an unpublished review request, an empty review, a comment on an unpublished diff, then one on an unpublished attachment each block publishing with their message, in that order: each message is given exactly when its check fails and every earlier one passes, and none of them unless the review request is being published too; after them, a self Ship It without the site setting blocks with its message exactly then; otherwise publishing is allowed |
| Reviews.Review.Save | reviewboard/reviews/models/review.py:359-364 | saving stamps the review with now unless update_fields leaves out the timestamp; nothing else changes |
| Reviews.Review.Publish | reviewboard/reviews/models/review.py:433-539 | a refused review is a PublishError that changes nothing; a raising publishing listener leaves the review request untouched; otherwise it becomes public, its comments and the review request's activity and update times take the new timestamp, and for a non-reply the open-issue and Ship It counters grow by the review's open issues and its Ship It, after checking that no issue is in another state |
| Reviews.Review.RevokeShipIt | reviewboard/reviews/models/review.py:183-246 | revoking a review without Ship It, or when a listener objects, fails and changes nothing; otherwise Ship It is cleared, revoked_ship_it is recorded, a plain "Ship It!" body is struck through as rich text, the Ship It count drops by one and review activity moves to now; the review request's last-updated stamp, visibility, owner, local site and issue counters never change |
| Reviews.Review.HasComments | reviewboard/reviews/models/review.py:564-588 | true exactly when some comment exists (or, with only_issues, some comment opens an issue); without only_issues, exactly when the review has comments at all |
| Reviews.Review.ShipItOnly | reviewboard/reviews/models/review.py:148-160 | true exactly for a Ship It with an empty or "Ship It!" top body, no bottom body and no comments |
| Reviews.Review.IsAccessibleBy | reviewboard/reviews/models/review.py:273-278 | only users who can access the review request see the review; its author and superusers always do, and anyone else sees it exactly when it is public |
| Reviews.Review.IsMutableBy | reviewboard/reviews/models/review.py:280-285 | a review can be changed exactly by users who can access it, while it is unpublished, when they are its author or a superuser |
| Reviews.Review.IsNewForUser | reviewboard/reviews/models/review.py:295-315 | a review is never new to its author, nor to a user who visited at or after its timestamp |
| Reviews.Review.CanUserRevokeShipIt | reviewboard/reviews/models/review.py:162-181 | only an authenticated user who can access a public review may revoke its Ship It, and such a review is never mutable |
| Reviews.MutableIsUnpublished | reviewboard/reviews/models/review.py:280-285 | only an unpublished review can be modified |
| Reviews.AuthorNeverNew | reviewboard/reviews/models/review.py:295-315 | a review is never new to its own author |
| Reviews.ShipItOnlyIsPublishable | reviewboard/reviews/models/review.py:149-160 | a review that is only a Ship It, on a public review request, passes every publishing check unless it is a disallowed self Ship It |
| ReviewRequests.ReviewRequest.TouchReviewActivity | reviewboard/reviews/models/review.py:500-503 | recording review activity moves the activity timestamp (and, when asked, last_updated) and keeps every counter |
| ReviewRequests.ReviewRequest.IncrementCounters | reviewboard/reviews/models/review.py:525-532 | each issue counter and the Ship It count grow by the given amount; the timestamps stay |
| ReviewFields.ChangeDetectionAgrees | reviewboard/reviews/fields.py:518-539 | the base change test is symmetric and false for an unchanged value; a comma field whose order matters detects exactly the base field's changes, and one whose order does not matter never reports a change the base test would not |
| ReviewFields.SavingOtherFieldIsNoChange | reviewboard/reviews/fields.py:916-935 | storing another field's value never changes this field's loaded value, and storing its own value is a change exactly when the value differs from the one loaded before |
| ReviewFields.CommaHasValueChanged | reviewboard/reviews/fields.py:1135-1160 | with order_matters the lists are compared as they are; otherwise only their element sets, None reading as empty |
| ReviewFields.ReorderingIsNoChange | reviewboard/reviews/fields.py:1157-1160 | when order does not matter, a permutation of the list is not a change |
| ReviewFields.DuplicateIsNoChange | reviewboard/reviews/fields.py:1157-1160 | when order does not matter, repeating an element is not a change |
| ReviewFields.NoneIsEmpty | reviewboard/reviews/fields.py:1160 | when order does not matter, None and the empty list are the same value |
| ReviewFields.UnorderedChangeIsOrderedChange | reviewboard/reviews/fields.py:1157-1160 | a change found without regard to order is also a change when order matters |
| ReviewFields.TextTypeKey | reviewboard/reviews/fields.py:1402-1414 | the text type key ends in text_type, and is exactly "text_type" for the field named text |
| ReviewFields.TextTypeKeyInjective | reviewboard/reviews/fields.py:1402-1414 | two different fields never share a text type key |
| ReviewFields.IsTextMarkdown | reviewboard/reviews/fields.py:1416-1436 | text is Markdown exactly when the stored text type is "markdown"; a missing entry reads as plain |
| ReviewFields.LoadValue | reviewboard/reviews/fields.py:916-935 | the loaded value is the one stored under the field ID, or None when nothing is stored |
| ReviewFields.LoadValueWithDefault | reviewboard/reviews/fields.py:1827-1848 | checkbox, dropdown and date fields load the stored value, and their default exactly when nothing (or None) is stored |
| ReviewFields.CheckboxNeverNull | reviewboard/reviews/fields.py:1822-1848 | a checkbox field never loads as None, since its default is False |
| ReviewFields.CssClasses | reviewboard/reviews/fields.py:1009-1028 | the classes are the default classes, plus "required" exactly for a required field |
| ReviewFields.TextAreaCssClasses | reviewboard/reviews/fields.py:1465-1484 | a text area adds only "rich-text" to the base classes, and "rich-text" is present exactly when Markdown is enabled, the value is non-empty and it renders as Markdown or the user prefers rich text (or a base class already is "rich-text") |
| ReviewFields.SerializeSingleton | reviewboard/reviews/fields.py:634-658 | each present new/old/added/removed key maps to the first element of its list; an empty list is an IndexError |
| ReviewFields.SerializeList | reviewboard/reviews/fields.py:660-683 | each present key maps to the list of first elements of its entries, one per entry; an empty entry is an IndexError |
| ReviewFields.SingletonRoundTrip | reviewboard/reviews/fields.py:634-658 | unwrapping values stored as one-element lists gives back the values |
| ReviewFields.ReviewRequestDetails.SaveValue | reviewboard/reviews/fields.py:937-951 | the value is stored as-is under the field ID and loads back unchanged |
| ReviewFields.ReviewRequestDetails.PropagateData | reviewboard/reviews/fields.py:953-979 | the field's value is copied from the source review request or draft and loads back equal to the source's |
| ReviewFields.ReviewRequestDetails.PropagateTextAreaData | reviewboard/reviews/fields.py:1438-1463 | the value is copied, and the text type too when the source has one, so the Markdown flag then matches the source's |
| ReviewFields.ReviewRequestDetails.constructor | reviewboard/reviews/fields.py:916-935 | the review request or draft holds the extra data the field values are read from |
| FieldChangeRendering.Row | reviewboard/reviews/fields.py:1727-1734 | every rendered row opens with a tr element carrying its class |
| FieldChangeRendering.ChangeRows | reviewboard/reviews/fields.py:1688-1734 | an equal/insert/delete range renders one row per line of the range, each with the opcode's tag as class |
| FieldChangeRendering.ReplaceRows | reviewboard/reviews/fields.py:1736-1805 | a replace range renders the paired lines as replace-old rows, then the same number of replace-new rows |
| FieldChangeRendering.OpcodeRows | reviewboard/reviews/fields.py:1659-1686 | an opcode fails exactly when its tag is not equal, insert, delete or replace, with 'Unexpected tag "<tag>"' |
| FieldChangeRendering.OpcodeRowCounts | reviewboard/reviews/fields.py:1659-1686 | equal and delete give one row per old line, insert one per new line, replace two per paired line |
| FieldChangeRendering.AllRowsFailure | reviewboard/reviews/fields.py:1629-1686 | rendering a change fails exactly when some opcode has an unknown tag |
| FieldChangeRendering.AllRowsPrefixFailure | reviewboard/reviews/fields.py:1629-1686 | the first unknown tag ends rendering: a failing prefix decides the result of the whole list |
| FieldChangeRendering.RenderChangeLines | reviewboard/reviews/fields.py:1688-1734 | the loop yields exactly the rows of the range |
| FieldChangeRendering.RenderChangeReplaceLines | reviewboard/reviews/fields.py:1736-1805 | the two loops yield exactly the replace-old rows, then the collected replace-new rows |
| FieldChangeRendering.RenderAllChangeLines | reviewboard/reviews/fields.py:1629-1686 | the loop yields the rows of every opcode in order, or the ValueError of the first unknown tag |
| FieldSets.RemoveFirst | reviewboard/reviews/fields.py:307-308 | list.remove drops exactly one occurrence of the field: one element fewer, the same multiset less that field |
| FieldSets.FieldRegistry.constructor | reviewboard/reviews/fields.py:157-179 | the field registry starts with no fields; it gains the built-in fields only when the fieldset registry is populated (`FieldSets.FieldSetRegistry.Populate`) |
| FieldSets.FieldRegistry.Register | reviewboard/reviews/fields.py:157-175 | registering a field ID fails with AlreadyRegistered exactly when it is already registered; otherwise it is added |
| FieldSets.FieldRegistry.Unregister | reviewboard/reviews/fields.py:157-175 | unregistering fails with a lookup error exactly when the ID is not registered; otherwise it is removed |
| FieldSets.FieldSet.constructor | reviewboard/reviews/fields.py:182-236 | a fieldset has its ID and its (possibly unset) list of field classes |
| FieldSets.FieldSet.AddField | reviewboard/reviews/fields.py:273-293 | an unset field list becomes empty, then the field is registered and appended; a field already registered is refused and not appended |
| FieldSets.FieldSet.RemoveField | reviewboard/reviews/fields.py:295-315 | a field missing from the list is a ValueError that changes nothing; otherwise its first occurrence is removed and it is unregistered, failing when it was not registered |
| FieldSets.FieldSetRegistry.constructor | reviewboard/reviews/fields.py:94-97 | the fieldset registry starts with no fieldsets and not yet populated |
| FieldSets.FieldSetRegistry.Populate | reviewboard/reviews/fields.py:143-175 | the first call marks the registry populated and registers the default fieldsets; it succeeds exactly when their IDs are distinct and not registered and all their fields together are distinct and not registered, and then the registry is the old list followed by the defaults and the field registry gains all their fields; after a failure the registry is the old list followed by the defaults registered before it; a later call changes nothing |
| FieldSets.FieldSetRegistry.RegisterDefaults | reviewboard/reviews/fields.py:143-154 | registering the defaults in order through `Register`, stopping at the first error: success exactly when they fit as above, with the same final registries |
| FieldSets.FieldSetRegistry.Register | reviewboard/reviews/fields.py:99-122 | a fieldset whose ID is taken is refused unchanged; otherwise it is appended, an unset field list becomes empty, and it succeeds exactly when its fields are distinct and unregistered, registering all of them; when a field fails, the error names it and exactly the fields before it stay registered |
| FieldSets.FieldSetRegistry.UnregisterAsWritten | reviewboard/reviews/fields.py:124-141 | an unregistered fieldset is refused and nothing changes; otherwise the fieldset leaves the registry list, the others staying in order; as written, unregistering removes fields from the list it iterates over, so the fields that remain and the fields unregistered are those the skipping iteration leaves and visits |
| FieldSets.FieldSetRegistry.Unregister | reviewboard/reviews/fields.py:124-141 | an unregistered fieldset is refused and nothing changes; otherwise the fieldset leaves the registry list, the others staying in order; as intended, it is left with an empty field list, and every one of its fields is unregistered |
| FieldSets.RemoveFieldSet | reviewboard/reviews/fields.py:137 | the registry list loses the fieldset, keeps every other fieldset and gains nothing; a list without the fieldset is unchanged |
| FieldSets.RemoveRegisteredFieldSet | reviewboard/reviews/fields.py:137 | a fieldset registered once leaves the list as a splice: the fieldsets before and after it stay, in their order |
| FieldSets.FieldSetRegistry.RemoveFieldsAsWritten | reviewboard/reviews/fields.py:140-141 | the as-written loop leaves the fields the skipping iteration leaves and unregisters exactly the fields it visits |
| FieldSets.AsWrittenStep | reviewboard/reviews/fields.py:140-141 | one pass of the as-written loop keeps what the whole loop leaves and unregisters |
| FieldSets.UnregisterAsWrittenSkipsFields | reviewboard/reviews/fields.py:140-141 | unregistering a fieldset with fields a and b as written unregisters only a and leaves b in the fieldset |
| FieldSets.GetReviewRequestFieldsets | reviewboard/reviews/fields.py:2122-2146 | every registered fieldset is returned, except the change-entries-only one unless it is asked for |
| FieldSets.FieldsetsOfConcatenation | reviewboard/reviews/fields.py:2142-2146 | the filter keeps registry order: the fieldsets of a concatenation are the concatenation of the fieldsets |
| FileDiffCreator.NormalizeFilename | reviewboard/diffviewer/filediff_creator.py:641-669 | an absolute filename is kept; any other is joined onto the base directory with every backslash turned into a slash, ending in the converted filename |
| FileDiffCreator.NormalizeAbsoluteBaseIdempotent | reviewboard/diffviewer/filediff_creator.py:666-669 | under an absolute base directory, normalising an already normalised filename changes nothing |
| FileDiffCreator.StatusOf | reviewboard/diffviewer/filediff_creator.py:279-286 | deleted wins over moved, which wins over copied; a file that is none of these is modified |
| FileDiffCreator.ProcessFile | reviewboard/diffviewer/filediff_creator.py:561-638 | a file outside limit_to is skipped exactly when its normalised destination is not in it; a yielded file carries the normalised names; it fails exactly when it is not skipped, needs the existence check and the repository reports its source missing, and then with FileNotFound naming the normalised source and its revision |
| FileDiffCreator.ProcessFiles | reviewboard/diffviewer/filediff_creator.py:495-638 | a pass yields at most one file per input file, or the first error |
| FileDiffCreator.ProcessFilesRespectsLimit | reviewboard/diffviewer/filediff_creator.py:586-589 | with limit_to, every yielded file's destination is one of the requested names |
| FileDiffCreator.ProcessFilesKeepsEveryFile | reviewboard/diffviewer/filediff_creator.py:561-638 | without limit_to, a successful pass yields one file per input file, in order, with its normalised destination |
| FileDiffCreator.ProcessFilesFailureCause | reviewboard/diffviewer/filediff_creator.py:596-615 | a failed pass fails with the error of one of its files |
| FileDiffCreator.MissingFileFailsPass | reviewboard/diffviewer/filediff_creator.py:610-615 | a file that is not skipped, needs the existence check and whose source the repository reports missing makes the whole pass fail |
| FileDiffCreator.UncheckedPassSucceeds | reviewboard/diffviewer/filediff_creator.py:596-615 | with existence checks off, a pass never fails |
| FileDiffCreator.ProcessFilesPrefixFailure | reviewboard/diffviewer/filediff_creator.py:561-638 | the first failing file decides the outcome of the pass |
| FileDiffCreator.ValidatedParentReplacesRevision | reviewboard/diffviewer/filediff_creator.py:617-632 | a file whose existence was checked takes its validated parent ID as source revision and loses the entry |
| FileDiffCreator.ProcessFilesLoop | reviewboard/diffviewer/filediff_creator.py:495-638 | a missing get_file_exists callback under existence checks is a ValueError; otherwise the loop yields exactly the files of the pass |
| FileDiffCreator.DiffFilenames | reviewboard/diffviewer/filediff_creator.py:426-430 | the filenames asked of the parent diff are exactly the non-empty source names of the main diff's files: each of them is asked for and nothing else is |
| FileDiffCreator.ParentFileMap | reviewboard/diffviewer/filediff_creator.py:437-449 | the parent files are keyed by their non-empty modified filename, every such file has an entry, and each entry is one of the files |
| FileDiffCreator.PrepareDiffInfo | reviewboard/diffviewer/filediff_creator.py:341-457 | a missing callback is a ValueError; a prepared diff has at least one file, records whether a parent diff was given, has no parent files without one, and only parent files the main diff needs |
| FileDiffCreator.ParentDiffDisablesMainChecks | reviewboard/diffviewer/filediff_creator.py:409-417 | when a parent diff is given, the main diff's files are processed without existence checks, so a missing file can only come from the parent diff's checked pass |
| FileDiffCreator.EmptyDiffIsRejected | reviewboard/diffviewer/filediff_creator.py:419-420 | a diff without files is an EmptyDiffError |
| FileDiffCreator.ParentInfoOf | reviewboard/diffviewer/filediff_creator.py:207-266 | the parent counts as empty exactly when no parent file matches or the matching one changes no lines; the only failure is a missing parent commit ID |
| FileDiffCreator.MakeFileDiff | reviewboard/diffviewer/filediff_creator.py:203-327 | a FileDiff has the file's status, binary flag, normalised names and source revision, parent data exactly when a parent diff was given, and diff contents and line counts exactly when not validating |
| FileDiffCreator.MakeFileDiffsOnePerFile | reviewboard/diffviewer/filediff_creator.py:203-327 | one FileDiff per processed file, in order, and without a parent diff building them never fails |
| FileDiffCreator.MakeFileDiffsPrefixFailure | reviewboard/diffviewer/filediff_creator.py:203-327 | the first failing file decides the outcome of building the FileDiffs |
| FileDiffCreator.MakeFileDiffsLoop | reviewboard/diffviewer/filediff_creator.py:203-327 | the loop builds exactly the FileDiffs of the processed files, or the first error |
| FileDiffCreator.CreateFileDiffs | reviewboard/diffviewer/filediff_creator.py:73-338 | a preparation error is returned as-is; otherwise the FileDiffs of the prepared files are built, and they are saved exactly when building succeeded and this is not a validation |
| LicenseProviders.StatusValue | reviewboard/licensing/tests/test_licenses_view.py:253-339 | every license status has a non-empty JSON value |
| LicenseProviders.StatusValueInjective | reviewboard/licensing/provider.py:312 | distinct statuses are reported with distinct JSON values |
| LicenseProviders.BaseProvider | reviewboard/licensing/provider.py:115-190 | the base provider offers no management URL, no actions and no license check |
| LicenseProviders.HardExpiresDate | reviewboard/licensing/provider.py:221-228 | the hard expiry is the expiry pushed back by the remaining grace days when both are set, and the expiry otherwise |
| LicenseProviders.ActionTarget | reviewboard/licensing/provider.py:293-295 | the action target is the provider ID, a colon, then the license ID |
| LicenseProviders.ActionTargetRoundTrip | reviewboard/licensing/provider.py:293-295 | a target built from two colon-free IDs splits on ':' back into exactly those IDs |
| LicenseProviders.DefaultSummary | reviewboard/licensing/provider.py:245-280 | the default summary names the product as licensed, trial, expired or expired trial by status, says it is not licensed when unlicensed, and appends the plan name in parentheses when there is one |
| LicenseProviders.GraceNotice | reviewboard/licensing/provider.py:233-243 | the grace-period notice is non-empty and names the product that will be disabled |
| LicenseProviders.JsLicenseModelData | reviewboard/licensing/provider.py:192-314 | the model data carries the action target, the hard expiry, a notice exactly in the grace period, the given summary or else the default one, the status value, the management URL and one entry per provider action |
| LicenseProviders.BaseProviderModelData | reviewboard/licensing/provider.py:115-190 | the base provider's model data has no management URL and no actions |
| LicenseProviders.UnlicensedSummaryExample | reviewboard/licensing/tests/test_licenses_view.py:248-255 | an unlicensed product's summary is "Test Product is not licensed!" |
| LicenseProviders.LicensedPlanSummaryExample | reviewboard/licensing/tests/test_licenses_view.py:278-286 | a licensed product with a plan reads "License for Test Product (Plan 1)" |
| LicenseProviders.ExpiredTrialSummaryExample | reviewboard/licensing/tests/test_licenses_view.py:303-311 | an expired trial reads "Expired trial license for Test Product" |
| LicenseProviders.GracePeriodSummaryExample | reviewboard/licensing/tests/test_licenses_view.py:326-341 | a license in its grace period reads "Expired license for Test Product" |
| LicenseViews.ErrorBody | reviewboard/licensing/views.py:202-207 | the error body always has an error entry, the message unless the payload sets it, and every payload entry |
| LicenseViews.ValidateTarget | reviewboard/licensing/views.py:170-220 | a missing action, then a missing target, then a target that does not split into exactly two parts on ':' are refused with their messages; an accepted target names a registered provider and a license it finds |
| LicenseViews.LicenseUpdateCheck | reviewboard/licensing/views.py:268-317 | a provider error is passed on; no check request answers canCheck false; otherwise canCheck true with the request's URL, credentials, data and headers |
| LicenseViews.ProcessLicenseUpdateData | reviewboard/licensing/views.py:319-474 | missing request data, missing response data, empty response data, then undecodable request and response data are refused in that order with traced messages; a success carries a status |
| LicenseViews.ProcessCheckResult | reviewboard/licensing/views.py:430-474 | the provider's result is returned exactly when it has a status; a result without one and any unexpected exception become the traced 'Unexpected error processing license update' error, NotImplementedError the traced 'does not provide an implementation' error, and a LicenseActionError is re-raised as 'Error processing license update: <message>' with its payload |
| LicenseViews.UploadLicense | reviewboard/licensing/views.py:476-554 | an absent or unnamed license file is refused (a named empty file is passed on as empty data); the provider's NotImplementedError refuses manual uploads, its LicenseActionError is passed on, any other exception is the 'Unexpected error setting license data' error; otherwise the license is looked up again in the provider's state after the upload, and the reloaded license's JS model data is returned, None when it is no longer found, or the exception the lookup raised, passed on unchanged (a LicenseActionError keeps its payload) |
| LicenseViews.UploadAnswersReloadedLicense | reviewboard/licensing/views.py:540-553 | an upload through the view answers with the license as the provider reports it after the data is set, not the one the target resolved to, or None when it is gone; a LicenseActionError raised by that lookup is answered with its message and payload |
| LicenseViews.Post | reviewboard/licensing/views.py:144-266 | a refused target is answered 400 with its error body; each of the three supported actions on a valid target is answered by its handler's outcome; a JSON result comes only from one of them |
| LicenseViews.Answer | reviewboard/licensing/views.py:245-265 | a result is answered as JSON; a LicenseActionError as 400 with its message and payload; any other exception as 400 with 'Unexpected error performing license action' and `str(e)` |
| LicenseViews.BareNotImplementedReported | reviewboard/licensing/views.py:253-265 | a bare NotImplementedError raised by an action is reported with the empty message `str(e)` gives it |
| LicenseViews.ProviderTargetResolves | reviewboard/licensing/views.py:183-200 | a target a provider builds for one of its licenses resolves back to that provider and license |
| LicenseViews.UnsupportedActionRejected | reviewboard/licensing/views.py:240-243 | any other action on a valid target is answered 400 with 'Unsupported license action' |
| LicenseViews.UnknownProviderOrLicense | reviewboard/licensing/views.py:189-200 | a well-formed target naming an unknown provider, or a license the provider cannot find, is refused with its message |
| LicenseViews.LookupErrorReported | reviewboard/licensing/views.py:195-220 | an exception raised while looking up the target license is answered as an action's exception is: a LicenseActionError with its message and its payload merged in, any other exception as the unexpected-error message naming the action |
| LicenseViews.ExpiredKeyLookupReported | reviewboard/licensing/views.py:195-207 | a lookup raising LicenseActionError "Expired key" with payload `{"code": "3"}` is answered with exactly `{"error": "Expired key", "code": "3"}` |
| RbExt.WordsFrom | reviewboard/cmdline/rbext.py:609-612 | every word the class-name normaliser splits out is non-empty and made only of ASCII letters and digits |
| RbExt.Capitalize | reviewboard/cmdline/rbext.py:610 | `str.capitalize()` keeps the length, upper-cases the first character and lower-cases the rest |
| RbExt.CamelCase | reviewboard/cmdline/rbext.py:609-612 | the joined capitalised words are alphanumeric and start with the first word's upper-cased initial |
| RbExt.NormalizeClassName | reviewboard/cmdline/rbext.py:592-617 | a normalised class name always ends in "Extension", is alphanumeric and begins with the CamelCase words of the name |
| RbExt.ClassNamePatternEdges | reviewboard/cmdline/rbext.py:548-566 | the class-name check needs a character between the leading letter and "Extension"; the package-name check only looks at the first character |
| RbExt.SuggestedClassNameAccepted | reviewboard/cmdline/rbext.py:555-566 | the class name suggested for a name whose first word starts with a letter passes the class-name check when long enough |
| RbExt.ProcessedNames | reviewboard/cmdline/rbext.py:523-570 | the name is stripped; a missing package or class name is derived from it; a supplied one is stripped and passes its check on success |
| RbExt.ProcessedNamesFailures | reviewboard/cmdline/rbext.py:545-566 | option processing fails exactly when a supplied name fails its check, and reports the package name first |
| RbExt.CreateOptions.constructor | reviewboard/cmdline/rbext.py:535-537 | the options hold the name, package name and class name given on the command line |
| RbExt.CreateOptions.ProcessOptions | reviewboard/cmdline/rbext.py:523-570 | on success the three normalised names are written back into the options; on failure the options are untouched and the error is returned |
| RbExt.TruncateAtDoubleDash | reviewboard/cmdline/rbext.py:1170-1177 | argparse sees the longest prefix of the arguments without "--", which is all of them when there is no "--" |
| RbExt.ReadmeBody | reviewboard/cmdline/rbext.py:670-674 | the README body is the non-empty summary and description a blank line apart, or the placeholder when both are empty |
| RbExt.ReadmeLines | reviewboard/cmdline/rbext.py:648-681 | `_create_readme`'s template lines, before `_write_file` dedents and strips them: the name, an '=' underline of the same length, a blank line and the body |
| RbExt.PyprojectToml | reviewboard/cmdline/rbext.py:714-844 | empty author, e-mail and summary become "<REPLACE ME>"; the project, entry point and test path use the package name; the entry point targets the extension class |
| RbExt.EntryPointParsesBack | reviewboard/cmdline/rbext.py:814-815 | the entry point value splits at ':' into the package's extension module and the class name |
| RbExt.SplitModuleAndClass | reviewboard/cmdline/rbext.py:280 | `rsplit('.', 1)` fails to unpack exactly when there is no '.'; otherwise the parts rejoin to the path and the class part has no '.' |
| RbExt.TestCommandOutcome | reviewboard/cmdline/rbext.py:243-337 | `rbext test` without an extension class returns 1 exactly when tests fail and 0 otherwise; with one, it raises when the class path has no '.', returns 1 when the class or its module (split at the last '.') cannot be found, and otherwise returns 1 exactly when tests fail and 0 otherwise |
| RbExt.RBExt.constructor | reviewboard/cmdline/rbext.py:1055-1093 | the tool starts from the process's `sys.argv` |
| RbExt.RBExt.Run | reviewboard/cmdline/rbext.py:1055-1185 | exit code 1 without a command; otherwise the command's exit code, with an exception mapped to 1; `sys.argv` is restored afterwards |
| ChunkLines.NewlinesAppend | reviewboard/diffviewer/chunk_generator.py:644 | the newline count of a concatenation is the sum of the parts' counts |
| ChunkLines.SplitNewlines | reviewboard/diffviewer/chunk_generator.py:183 | splitting on `\r?\n` gives one more piece than there are newlines, and no piece holds a newline |
| ChunkLines.NormalizeSourceString | reviewboard/diffviewer/chunk_generator.py:591-650 | empty text stays empty with no lines; other text gains a trailing newline if it lacks one; there is one line per newline and no line holds one |
| ChunkLines.NormalizedLineCount | reviewboard/diffviewer/chunk_generator.py:637-650 | non-empty text has one line per newline, counting the newline added at the end |
| ChunkLines.SplitNewlinesRejoins | reviewboard/diffviewer/chunk_generator.py:644 | without carriage returns, the split pieces rejoin to the text |
| ChunkLines.NormalizeRoundTrip | reviewboard/diffviewer/chunk_generator.py:637-650 | without carriage returns, the normalised lines, each followed by a newline, give back the normalised text |
| ChunkLines.GetMoveInfo | reviewboard/diffviewer/chunk_generator.py:957-984 | a line has move information exactly when it is numbered, non-zero and in the move map, and then it names the line at the other end |
| ChunkLines.MoveRangeStartsOnce | reviewboard/diffviewer/chunk_generator.py:957-984 | in a range of lines moved to consecutive lines, only the first line is marked as the start of the range |
| ChunkLines.Dashes | reviewboard/diffviewer/chunk_generator.py:1090 | a run of n em-dash entities is 7n characters long |
| ChunkLines.IndentPiece | reviewboard/diffviewer/chunk_generator.py:1079-1097 | one character of indentation advances the column as a space or tab would, tabs to the next tab stop |
| ChunkLines.UnindentPiece | reviewboard/diffviewer/chunk_generator.py:1135-1153 | one character of unindentation advances the column as a space or tab would, tabs to the next tab stop |
| ChunkLines.TabReachesTabStop | reviewboard/diffviewer/chunk_generator.py:1083-1097 | a tab always lands on the next tab stop, at most one tab width further |
| ChunkLines.StopAt | reviewboard/diffviewer/chunk_generator.py:1079-1102 | the serialiser consumes characters until the column first reaches the indentation difference, or all of them |
| ChunkLines.StopAtIsFirstReach | reviewboard/diffviewer/chunk_generator.py:1079-1102 | the consumed count is determined by the first prefix whose column reaches the difference |
| ChunkLines.Serialization | reviewboard/diffviewer/chunk_generator.py:1048-1158 | the serialisers return the markup for the consumed characters and the unconsumed suffix, which is always shorter than the input |
| ChunkLines.SerializationStops | reviewboard/diffviewer/chunk_generator.py:1048-1158 | at least one character is consumed, and consumption stops right after the column first reaches the difference |
| ChunkLines.FindChar | reviewboard/diffviewer/chunk_generator.py:1023 | `str.find` returns the first index at or after the start holding the character, or -1 when there is none |
| ChunkLines.TextStart | reviewboard/diffviewer/chunk_generator.py:1016-1028 | skipping leading tags stops at a character that is not '<'; running off the end is an index error, an unclosed tag an assertion error |
| ChunkLines.WrapKeepsSurroundings | reviewboard/diffviewer/chunk_generator.py:1010-1046 | wrapping leaves the markup alone or replaces only the consumed whitespace after the leading tags by the span |
| ChunkLines.SplicedKeeps | reviewboard/diffviewer/chunk_generator.py:1042-1046 | putting the unconsumed remainder back after the span equals splicing only the consumed characters |
| ChunkLines.IndentationChangeFor | reviewboard/diffviewer/chunk_generator.py:886-904 | an indentation change applies only to rows numbered on both sides and never when its lengths are (0, 0) |
| ChunkLines.HighlightIndentation | reviewboard/diffviewer/chunk_generator.py:986-1008 | an indent marks only the new side, an unindent only the old side |
| ChunkLines.MakeDiffLine | reviewboard/diffviewer/chunk_generator.py:810-955 | a row keeps its numbers; regions exist exactly for differing short non-empty replace lines and are then the ones computed from the two lines; the whitespace-only flag follows the metadata; line meta is absent exactly when neither side moved and otherwise holds both move entries; markup is unchanged without an indentation change, and under one it is the highlighted markup, the row failing exactly when highlighting fails |
| ChunkPlan.SplitOpcode | reviewboard/diffviewer/chunk_generator.py:483-501 | an opcode's chunks tile its rows in order; only an equal run longer than the threshold is split, into two or three chunks, otherwise one chunk that is not collapsible |
| ChunkPlan.SplitMatchesCollapsedRows | reviewboard/diffviewer/chunk_generator.py:483-501 | every row lies in a chunk, and that chunk is collapsible exactly when the row is more than the context away from a change, the start of the file and the end of both files counting as no change |
| ChunkPlan.SplitChunksNonEmpty | reviewboard/diffviewer/chunk_generator.py:483-501 | every chunk of an opcode has rows exactly when the opcode has rows and a split run has a non-zero context |
| ChunkPlan.TiledSlicesGiveRows | reviewboard/diffviewer/chunk_generator.py:483-501 | the chunks of an opcode concatenate to exactly its rows, nothing lost or repeated |
| ChunkPlan.TiledPrefix | reviewboard/diffviewer/chunk_generator.py:483-501 | the first m chunks of an opcode concatenate to its rows up to the end of the m-th chunk |
| ChunkPlan.OpcodeRows | reviewboard/diffviewer/chunk_generator.py:464-479 | an opcode yields one row per row of its larger side, or the first row's error |
| ChunkPlan.AllRows | reviewboard/diffviewer/chunk_generator.py:463-503 | all the opcodes together yield as many rows as their row counts add up to |
| ChunkPlan.NumberedAt | reviewboard/diffviewer/chunk_generator.py:471 | row k of rows numbered from `first` carries row number `first + k` |
| ChunkPlan.NumberedAppend | reviewboard/diffviewer/chunk_generator.py:503 | rows numbered on from the previous opcode's rows keep the numbering gap-free |
| ChunkPlan.OpcodeRowsStep | reviewboard/diffviewer/chunk_generator.py:468-479 | the rows of an opcode are the rows before its last one followed by that row |
| ChunkPlan.OpcodeRowsNumbered | reviewboard/diffviewer/chunk_generator.py:468-479 | an opcode's rows are numbered consecutively from the row number it starts at |
| ChunkPlan.SidesNumberedAt | reviewboard/diffviewer/chunk_generator.py:470-473 | row k carries the k-th old and new line number of the opcode, or none past that side's lines |
| ChunkPlan.OpcodeRowsSides | reviewboard/diffviewer/chunk_generator.py:470-473 | every row of an opcode carries the line numbers of its two sides as `zip_longest` pairs them |
| ChunkPlan.AllRowsNumbered | reviewboard/diffviewer/chunk_generator.py:453-503 | the rows of all the opcodes are numbered 1, 2, 3, ... without gaps |
| ChunkPlan.AllRowsPrefixFailure | reviewboard/diffviewer/chunk_generator.py:463-503 | a row error among the first opcodes stops generation of all of them |
| ChunkPlan.CountsCoverAllRows | reviewboard/diffviewer/chunk_generator.py:456-481 | the per-tag counts add up to the total number of rows |
| ChunkPlan.CountsOnlyPresentTags | reviewboard/diffviewer/chunk_generator.py:456-481 | a tag no opcode carries keeps a count of zero |
| ChunkPlan.PlanPrefixEmpty | reviewboard/diffviewer/chunk_generator.py:463-503 | once an empty chunk is planned among the first opcodes, the whole plan has an empty chunk |
| ChunkGenerator.PyIndex | reviewboard/diffviewer/chunk_generator.py:1278-1288 | a Python list index, negative ones counted from the end, names an existing row or none (the `IndexError` path) |
| ChunkGenerator.ScanHeadersBounds | reviewboard/diffviewer/chunk_generator.py:1290-1299 | every header yielded lies between the first and last row's line numbers; the saved position is that of the last header yielded, or unchanged when none is |
| ChunkGenerator.ScanHeaderLines | reviewboard/diffviewer/chunk_generator.py:1290-1299 | the header loop collects exactly the headers and the saved position the scan defines |
| ChunkGenerator.NoHeadersBeyond | reviewboard/diffviewer/chunk_generator.py:1294-1295 | on sorted header lines, nothing past the first header beyond the range is within it |
| ChunkGenerator.ScanFindsHeadersWithin | reviewboard/diffviewer/chunk_generator.py:1290-1299 | on sorted header lines, the scan yields exactly the headers whose lines lie in the range, in order |
| ChunkGenerator.InterestingHeaders | reviewboard/diffviewer/chunk_generator.py:1234-1304 | without header lines or with a missing row nothing is found and the saved position stays; otherwise it only moves forward |
| ChunkGenerator.LastRowHeaderNotFound | reviewboard/diffviewer/chunk_generator.py:1203-1206 | because `_new_chunk` scans up to `end - 1`, a header on a chunk's last row is not reported for that chunk |
| ChunkGenerator.LastHeaderAfter | reviewboard/diffviewer/chunk_generator.py:1794-1820 | one side's last header becomes the last header found in the chunk, stripped, and stays as it was when none is found |
| ChunkGenerator.PlainSources | reviewboard/diffviewer/chunk_generator.py:414-435 | without highlighting, each side's markup has one more piece than its lines and agrees with them line by line |
| ChunkGenerator.RawDiffChunkGenerator.constructor | reviewboard/diffviewer/chunk_generator.py:210-307 | a new generator keeps its settings and starts with no last headers, header positions 0 and chunk index 0 |
| ChunkGenerator.RawDiffChunkGenerator.GetEnableSyntaxHighlighting | reviewboard/diffviewer/chunk_generator.py:752-808 | highlighting is used exactly when it is enabled, a non-zero line threshold is respected, neither file exceeds 200000 bytes and no line exceeds 1000 characters |
| ChunkGenerator.RawDiffChunkGenerator.SerializeIndentation | reviewboard/diffviewer/chunk_generator.py:1048-1102 | the indentation serialiser's loop produces the markup and remainder the serialisation defines |
| ChunkGenerator.RawDiffChunkGenerator.SerializeUnindentation | reviewboard/diffviewer/chunk_generator.py:1104-1158 | the unindentation serialiser's loop produces the markup and remainder the serialisation defines |
| ChunkGenerator.RawDiffChunkGenerator.IndentChar | reviewboard/diffviewer/chunk_generator.py:1080-1097 | one character of indentation appends its piece (`&gt;` for a space, as much of the right-pointing tab arrow as fits before the tab stop, for a tab) and moves the column to the next one it reaches |
| ChunkGenerator.RawDiffChunkGenerator.UnindentChar | reviewboard/diffviewer/chunk_generator.py:1136-1153 | one character of unindentation appends its piece (`&lt;` for a space, as much of the left-pointing tab arrow as fits before the tab stop, for a tab) and moves the column to the next one it reaches |
| ChunkGenerator.RawDiffChunkGenerator.WrapIndentationChars | reviewboard/diffviewer/chunk_generator.py:1010-1046 | the tag-skipping loop and the splice give the wrapped markup, or the index or assertion error the source raises |
| ChunkGenerator.RawDiffChunkGenerator.WrapFrom | reviewboard/diffviewer/chunk_generator.py:1031-1046 | after the leading tags, non-whitespace indentation is left alone and whitespace is replaced by the serialised span |
| ChunkGenerator.RawDiffChunkGenerator.GetInterestingHeaders | reviewboard/diffviewer/chunk_generator.py:1234-1304 | returns the headers found and saves the scan position of the side scanned, leaving the other side and the rest of the state alone |
| ChunkGenerator.RawDiffChunkGenerator.ComputeChunkLastHeader | reviewboard/diffviewer/chunk_generator.py:1794-1820 | succeeds exactly for a non-empty chunk, and then updates each side's last header from the headers found |
| ChunkGenerator.RawDiffChunkGenerator.NewChunk | reviewboard/diffviewer/chunk_generator.py:1160-1232 | an empty chunk raises; otherwise the chunk holds rows start..end with the next index, the headers found in it, and headers to show exactly when it is collapsible, not last and a last header is known |
| ChunkGenerator.RawDiffChunkGenerator.ChunkOpcode | reviewboard/diffviewer/chunk_generator.py:483-501 | one opcode's chunks have the planned shapes, concatenate to its rows and take consecutive indices; it fails exactly when a planned chunk is empty |
| ChunkGenerator.RawDiffChunkGenerator.SplitEqualRun | reviewboard/diffviewer/chunk_generator.py:483-499 | a long equal run yields the planned chunks around its collapsible part |
| ChunkGenerator.RawDiffChunkGenerator.SplitLaterEqualRun | reviewboard/diffviewer/chunk_generator.py:489-499 | a long equal run after the first row keeps context before it and, unless it ends both files, after it |
| ChunkGenerator.RawDiffChunkGenerator.ChunkNextOpcode | reviewboard/diffviewer/chunk_generator.py:463-503 | one turn of the opcode loop extends the rows, the plan and the indices of the opcodes before it, or fails only when generation as a whole fails |
| ChunkGenerator.RawDiffChunkGenerator.GenerateChunks | reviewboard/diffviewer/chunk_generator.py:352-505 | generation succeeds exactly when every row can be built and no planned chunk is empty; then the chunks hold all rows numbered from 1, in the planned shapes, with consecutive indices, and the per-tag counts are stored |
| ChunkGenerator.RawDiffChunkGenerator.ChunkOpcodeRows | reviewboard/diffviewer/chunk_generator.py:481-501 | the chunks made from one opcode's rows extend the rows, the plan and the indices of the opcodes before it, or fail only when the plan of all opcodes has an empty chunk |
| ChunkGenerator.ChunksExtend | reviewboard/diffviewer/chunk_generator.py:463-503 | one more opcode's chunks keep the chunks so far equal to the rows and plan of the opcodes processed |
| ChunkGenerator.ChunksFollowSegments | reviewboard/diffviewer/chunk_generator.py:483-501 | chunks that cover an opcode's planned segments in turn give back its rows, in the planned shapes and with consecutive indices |
| ChunkGenerator.FilePart | reviewboard/diffviewer/chunk_generator.py:1495-1500 | the file part is the FileDiff's number, or starts "interdiff-<pk>-" for a forced interdiff |
| ChunkGenerator.MakeCacheKey | reviewboard/diffviewer/chunk_generator.py:1481-1507 | every key starts with "diff-sidebyside-1-" and ends with the state hash and the language |
| ChunkGenerator.PlainAndInterdiffKeysDiffer | reviewboard/diffviewer/chunk_generator.py:1495-1500 | a plain key and a forced-interdiff key with the same base never collide |
| ChunkGenerator.InterdiffPartnerKeysDiffer | reviewboard/diffviewer/chunk_generator.py:1497-1500 | for the same FileDiff, an interdiff key with a partner and one with none never collide |

## Left out

- **Database work.** ORM persistence, querysets, `save(update_fields=...)` and `refresh_from_db` are not modelled. Related comments, diffsets and registries are in-memory sequences, sets and maps, and saving is a field update or a returned flag.
- **Counters.** `CounterField` atomicity and concurrent requests are not modelled; counters are plain integers updated in sequence.
- **Signals and listeners.** The publishing, published, revoking and run-request signals are parameters saying whether (and, where the message matters, with what) a listener raised. What extension listeners do besides raising is not modelled.
- **The differ.** The differ and its opcode generator are inputs: the opcodes and their metadata are parameters. So are the changed-region computation, the interesting header lines, Pygments highlighting and the code-safety checkers. Code-safety results are not recorded in a row's metadata.
- **Text decoding and escaping.** Encoding detection (`convert_to_unicode`) and `gettext` are the identity on already-decoded strings. HTML escaping is modelled for user badges (`UserDetails.Escape`, with its inverse); elsewhere (`mark_safe` and the escaping of diff and field markup) text is passed through unchanged.
- **Chunk caching.** The chunk cache is not modelled; only the cache key is. The diff settings' state hash and the active language are parameters of the key.
- **Chunk laziness.** `generate_chunks` is a generator; the model produces the whole list of chunks, or the error raised while producing it.
- **Whitespace.** `str.strip()` and `String.prototype.trim()` remove the ASCII whitespace characters only.
- **Time.** Wall-clock time is an integer number of seconds passed in. Date rendering on the license page is a parameter.
- **rbext.** Its filesystem writes, console output, argparse option parsing, `MANIFEST.in`, `conftest.py`, `extension.py`, `admin_urls.py` and `forms.py` templates, and the test runner's environment setup are not modelled. The runner's failure count, the class lookup and the command's outcome are parameters. The package-name normalisation (`Prepared.normalize`) is a parameter. `_write_file`'s `dedent` and `strip` are not modelled: generated files are modelled as their template lines.
- **FileDiff creation.** The diff parser, the SCM tool's revision parsing, the repository's file-existence lookup and the parser's filename normalisation are parameters. The diff arrives as the parsed files of its single change. The `extra_data` merges, symlink and Unix-mode details, and the diff-commit fields of `create_filediffs` are not modelled.
- **Licensing.** The license views' GET handling, the trace ID and JSON decoding are not modelled; the decoder is a parameter. Provider calls that may raise are given as outcomes. `expiresSoon`, `licensedTo`, `lineItems` and `planID` in the license model data are not modelled; they are copied from the license information without any rule of their own.
- **Review predicates.** `Reviews.Review.IsAccessibleBy` and `Reviews.Review.IsMutableBy` take the review request's own accessibility as a parameter; the review request model is not part of this model.
- **Review requests.** `reviewboard/reviews/models/review_request.py` is not part of this model. `ReviewRequests.ReviewRequest` keeps only the timestamps, counters, visibility and owner that reviews and status updates read and write.
- StatusUpdates.StatusUpdate.DropOpenIssues: does not model `reinit_issue_open_count`, which reinitialises the review request's open-issue count after issues are dropped; `review_request.py`, which defines it, is not part of this model. The model leaves every counter as it was and states so, so after a drop its open-issue count is the count from before the drop.
- Reviews.Review.RevokeShipIt: `decrement_shipit_count` is modelled as a plain decrement of the Ship It count. The database-side recount it may fall back to is not modelled.
- FieldSets.FieldSetRegistry.constructor: the registries populate themselves on first use, inside the djblets `Registry` base class, which is not part of this model. The model's registry operations do not populate first: `FieldSets.FieldSetRegistry.Populate` is called explicitly, with the built-in fieldsets as a parameter (`builtin_fields.py`, which lists them, is not part of this model). `Populate` marks the registry populated and registers each default through `Register`, stopping at the first error.
- FieldSets.FieldRegistry.constructor: `FieldRegistry.populate` only populates the fieldset registry (reviewboard/reviews/fields.py:171-175), which is `FieldSets.FieldSetRegistry.Populate`; the field registry has no population of its own.
- **Logout form.** The DOM work in `activate` (creating, attaching and submitting the form) is modelled only as the shape of the form submitted: its method, action and hidden inputs.

## Findings

| source | as written | input that shows it | evidently intended | confidence | as-written member | corrected member |
|---|---|---|---|---|---|---|
| reviewboard/reviews/fields.py:140-141 | `unregister` loops over `fieldset.field_classes` and calls `remove_field` on each, which removes that field from the same list during the iteration, so the loop skips the field after each one it removes | a fieldset holding fields `a` and `b`: only `a` is removed and unregistered; `b` stays in the fieldset and in the field registry | every field of the fieldset is removed from it and unregistered | high; not executed | FieldSets.FieldSetRegistry.UnregisterAsWritten, FieldSets.UnregisterAsWrittenSkipsFields | FieldSets.FieldSetRegistry.Unregister |
