# wack-cloudfront-invalidation, modelled in Dafny

The plugin hooks into WordPress post saves. When a post is saved in any
status other than auto-draft, draft, inherit or pending, it invalidates that
post type's URL paths on an Amazon CloudFront distribution. This project models the plugin's decision logic and proves
properties about it:

- **Gate.** `shouldSkip` decides which saves are ignored: the four statuses
  auto-draft, draft, inherit and pending (every other status, such as
  publish, future, private or trash, passes), autosaves, revisions, and
  `save_post` calls made in the middle of a REST write.
- **Path resolution.** The post type's templates are read from the settings
  snapshot and passed through the `wack_cf_inv_{type}_paths` filter. The
  `%id%` and `%slug%` placeholders are then replaced as `str_replace` does it.
- **Dispatch.** The caller reference is `ID-YmdHi`. After that the call is either
  a dry-run log line or a `createInvalidation` batch. A missing distribution
  ID is reported. Exceptions from the client are caught and logged.
- **Settings page sanitiser.** This is `optionsSanitizeCallback`. It turns one
  textarea per post type into ordered lists of templates. Each line is trimmed,
  blank lines are dropped, and a leading slash is added where missing.
- **Stored settings.** `PluginSettings` keeps a snapshot of the stored
  settings. Its singleton `get()` hands out that snapshot.
- **Post-type list.** `Utility::getPostTypes` removes WordPress's built-in
  types from the list of registered types.

Modules and files:

| file | module | models |
|---|---|---|
| `wrappers.dfy` | `Wrappers` | `Option` |
| `php_strings.dfy` | `PhpStrings` | PHP's `empty()` on strings, `trim()`, `preg_split('/\r\n\|\r\|\n/')`, `implode`, `str_replace` with one search string, and an int used as a string |
| `php_date.dfy` | `PhpDate` | `date('YmdHi')` |
| `utility.dfy` | `Utility` | `Utility::getPostTypes` |
| `plugin_settings.dfy` | `PluginSettings` | `PluginSettings`: the snapshot, `invalidationPathsFor`, `getInvalidationPaths` and `get()` |
| `admin_menu.dfy` | `AdminMenu` | `AdminMenu::optionsSanitizeCallback` |
| `invalidation_hook.dfy` | `CloudFrontInvalidationHook` | `shouldSkip`, `replacePlaceholder`, `invalidateForPost`, `executeInvalidation` and the two hook callbacks |
| `end_to_end.dfy` | `EndToEnd` | the parts together |

WordPress's ambient state becomes explicit inputs:

- The flags read by `shouldSkip` are a `RequestContext`. These are
  `DOING_AUTOSAVE`, `wp_is_post_autosave`, `wp_is_post_revision`,
  `REST_REQUEST` and `did_action('rest_after_insert_post')`.
- The constants `WACK_CF_INV_DRY_RUN` and `WACK_CF_INV_DISTRIBUTION_ID` are a
  `Constants` value. Each holds a PHP scalar, or `None` when it is not defined.
- `PHPUNIT` is a boolean.
- The result of `get_option` is a `StoredOption`.
- The wall clock is a `DateTime`.
- The path filter is a function `(seq<string>, Post) -> seq<string>`.
- `createInvalidation` is a function from the request to its outcome:
  `Accepted`, `AwsError(message)` or `OtherError(message)`.

Log lines and the client call are returned in order as a sequence of
`Effect`s.

The PHP static `$instance` becomes a `Registry` object with an `instance`
field. `Get` updates that field in place. The sanitiser's loops are methods
with loop invariants. Each is proved equal to a specification function
(`Sanitize`, `NormalizeLines`). The properties are proved about those
functions.

Two behaviours of the code are easy to miss:

- The dry-run check comes before the distribution-ID check. A dry run with
  no distribution ID therefore logs `not defined` instead of an error.
- Only templates saved through the settings page are guaranteed to start with
  "/". The filter may return anything, and it is applied after the settings
  are read. `EndToEnd.SavedTemplatesResolveToAbsolutePaths` states the
  guarantee that does hold.

## Model

| member | source | states |
|---|---|---|
| `CloudFrontInvalidationHook.ShouldSkip` | src/CloudFrontInvalidationHook.php:100-132 | A save is skipped if and only if one of these holds: the status is auto-draft, draft, inherit or pending; or DOING_AUTOSAVE is set; or the post is an autosave; or it is a revision; or a non-REST-hook call runs inside a REST request before rest_after_insert_post has fired. |
| `CloudFrontInvalidationHook.RestHookIgnoresRestState` | src/CloudFrontInvalidationHook.php:122-126 | For the REST hook, REST_REQUEST and rest_after_insert_post never change the decision. |
| `CloudFrontInvalidationHook.RestHookRunsUnlessSkippedStatus` | src/CloudFrontInvalidationHook.php:103-131 | The REST hook is not skipped for a post whose status is none of the four and that is neither an autosave nor a revision. |
| `CloudFrontInvalidationHook.IsSkippedStatus` | src/CloudFrontInvalidationHook.php:103-107 | Defines the four statuses that are skipped outright: auto-draft, draft, inherit and pending. Every other status passes. |
| `CloudFrontInvalidationHook.ReplacePlaceholder` | src/CloudFrontInvalidationHook.php:187-196 | Defines replacePlaceholder: str_replace of %id% by the ID, then str_replace of %slug% in that result by the slug, or by the ID when the slug is empty(). Its meaning is stated by the lemmas in the rows that follow. |
| `CloudFrontInvalidationHook.SlugOrId` | src/CloudFrontInvalidationHook.php:191-195 | Defines what %slug% becomes: the slug, or the ID when the slug is "" or "0". |
| `CloudFrontInvalidationHook.ResolvePaths` | src/CloudFrontInvalidationHook.php:86 | array_map of replacePlaceholder: one resolved path per template, in order. |
| `CloudFrontInvalidationHook.ReplacePlaceholderExpands` | src/CloudFrontInvalidationHook.php:187-196 | For a template made of '%'-free literals and placeholders, replacePlaceholder equals the segment-wise reading: every %id% becomes the ID, and every %slug% becomes the slug, or the ID when the slug is empty() (including "0"). Inserted text is never rescanned, so a slug containing %id% stays literal. |
| `CloudFrontInvalidationHook.IdPass` | src/CloudFrontInvalidationHook.php:189 | For a well-formed template (literals free of '%', and no %slug% directly followed by "id%"), the first str_replace replaces exactly the %id% placeholders and keeps every %slug%. On "%slug%id%" it does not: the closing '%' of %slug% starts a match. |
| `CloudFrontInvalidationHook.SlugPass` | src/CloudFrontInvalidationHook.php:191-195 | For a well-formed template and an ID text without '%' (a decimal ID has none), the second str_replace on the first pass's output replaces exactly the %slug% placeholders. |
| `CloudFrontInvalidationHook.ReplacePlaceholderWithoutTokens` | src/CloudFrontInvalidationHook.php:179 | A template containing neither placeholder is returned unchanged. |
| `CloudFrontInvalidationHook.ReplacePlaceholderKeepsLeadingSlash` | src/CloudFrontInvalidationHook.php:187-196 | A template that starts with "/" resolves to a path that starts with "/". |
| `CloudFrontInvalidationHook.ReplaceIdThenSlug` | src/CloudFrontInvalidationHook.php:189-195 | For a prefix and a middle that contain no '%', prefix + %id% + middle + %slug% resolves to prefix + ID + middle + (slug, or the ID when the slug is empty()). |
| `CloudFrontInvalidationHook.ReplaceSlugOnly` | src/CloudFrontInvalidationHook.php:191-195 | For a prefix that contains no '%', prefix + %slug% resolves to prefix + (slug, or the ID when the slug is empty()). |
| `CloudFrontInvalidationHook.ExampleWithSlug` | src/CloudFrontInvalidationHook.php:177-178 | "/posts/%id%/%slug%" with ID 42 and slug "hello" gives "/posts/42/hello". |
| `CloudFrontInvalidationHook.ExampleWithoutSlug` | src/CloudFrontInvalidationHook.php:180 | The same template with an empty slug ("" or "0") gives "/posts/42/42". |
| `CloudFrontInvalidationHook.CallerReference` | src/CloudFrontInvalidationHook.php:63-64 | The caller reference is the decimal ID, "-", then twelve date digits. |
| `CloudFrontInvalidationHook.CallerReferenceSameMinute` | src/CloudFrontInvalidationHook.php:63-64 | Two saves of one post within the same minute get the same caller reference. |
| `CloudFrontInvalidationHook.CallerReferenceDistinguishes` | src/CloudFrontInvalidationHook.php:63-64 | Equal caller references imply the same post ID and the same minute. |
| `CloudFrontInvalidationHook.Execution` | src/CloudFrontInvalidationHook.php:143-172 | The client is called if and only if the distribution ID is defined and not empty(). The call comes first and is the only one. Its batch holds Items = the paths in order, Quantity = count(paths), the caller reference and the configured ID. With no usable ID, the only effect is the "Distribution ID not defined." error. An AwsException or other Exception adds one error line carrying its message. Nothing propagates. |
| `CloudFrontInvalidationHook.IsEmptyValue` | src/CloudFrontInvalidationHook.php:146 | Defines PHP's empty() on a scalar constant: false, 0, "" and "0". |
| `CloudFrontInvalidationHook.HasDistributionId` | src/CloudFrontInvalidationHook.php:146 | Defines the guard of executeInvalidation: the distribution ID is defined and not empty(). |
| `CloudFrontInvalidationHook.ConstantText` | src/CloudFrontInvalidationHook.php:90-91 | Defines the string a scalar constant becomes in the dry-run line: true gives "1", false gives "", and an int gives its decimal form. |
| `CloudFrontInvalidationHook.IsDryRun` | src/CloudFrontInvalidationHook.php:89 | Defines dry-run mode: the constant is defined and strictly `=== true`. A truthy value such as 1 or "true" does not count. |
| `CloudFrontInvalidationHook.DistributionText` | src/CloudFrontInvalidationHook.php:90 | Defines the dry-run line's distribution ID: the constant's text, or "not defined". |
| `CloudFrontInvalidationHook.Dispatch` | src/CloudFrontInvalidationHook.php:82-94 | Defines the steps after the filter: nothing for an empty result; otherwise the paths are resolved, then dry-run logging or executeInvalidation follows. PipelineCallsClient, EmptyFilterOutputDoesNothing and DryRunOnlyLogs state its meaning. |
| `CloudFrontInvalidationHook.Pipeline` | src/CloudFrontInvalidationHook.php:57-95 | Defines the whole invocation given the stored templates: the gate, the filter, then Dispatch. Its properties are the lemmas below. |
| `CloudFrontInvalidationHook.BatchFor` | src/CloudFrontInvalidationHook.php:157-165 | Defines the createInvalidation argument: the distribution ID, and an InvalidationBatch with the caller reference, Items = the paths and Quantity = count(paths). |
| `CloudFrontInvalidationHook.ExecuteInvalidation` | src/CloudFrontInvalidationHook.php:143-172 | The method, with its early return and try/catch, produces exactly Execution's effects. |
| `CloudFrontInvalidationHook.InvalidateForPost` | src/CloudFrontInvalidationHook.php:57-95 | A skipped post yields no effect and does not touch the settings singleton. Otherwise get() is called and behaves as `Registry.Get` states, and the effects are Pipeline's for the snapshot's templates of the post type. |
| `CloudFrontInvalidationHook.CloudFrontInvalidation` | src/CloudFrontInvalidationHook.php:41-44 | The save_post callback is invalidateForPost with isRestHook false. |
| `CloudFrontInvalidationHook.CloudFrontInvalidationAfterRest` | src/CloudFrontInvalidationHook.php:49-52 | The REST callback is invalidateForPost with isRestHook true. |
| `CloudFrontInvalidationHook.PipelineCallsClient` | src/CloudFrontInvalidationHook.php:57-95 | createInvalidation is called if and only if all of these hold: the post is not skipped, the filter returns paths, dry-run is not `=== true`, and a distribution ID is set. Its Items are then the filter's output resolved in order, so the stored templates matter only through the filter. Quantity is their count and the reference is ID-YmdHi. |
| `CloudFrontInvalidationHook.PipelineSendsOneBatch` | src/CloudFrontInvalidationHook.php:88-94 | When the call succeeds, one createInvalidation is the whole effect. |
| `CloudFrontInvalidationHook.EmptyFilterOutputDoesNothing` | src/CloudFrontInvalidationHook.php:80-84 | An empty filter result means no log line and no client call. |
| `CloudFrontInvalidationHook.DryRunOnlyLogs` | src/CloudFrontInvalidationHook.php:88-91 | In dry-run mode (the constant `=== true`), for a post that passes the gate and a filter that returns paths, the only effect is the info line with the resolved paths. It shows the distribution ID, or "not defined" when none is set. A skipped post or an empty filter result gives no effect at all. |
| `AdminMenu.NormalizeLine` | src/AdminMenu.php:155-164 | Defines the path one line contributes: none when the trimmed line is empty() (including "0"), otherwise the trimmed line with a leading "/". |
| `AdminMenu.NormalizeLines` | src/AdminMenu.php:154-169 | Defines the inner loop: the lines' paths concatenated in order. |
| `AdminMenu.ParsePaths` | src/AdminMenu.php:143-169 | Defines the templates one submitted value yields: none for an array or an empty() string, otherwise the paths of the lines of the trimmed text. |
| `AdminMenu.Appended` | src/AdminMenu.php:168 | Defines `$a[$type][] = $path` for each path in turn: the key is created only when something is appended. |
| `AdminMenu.ParseEntries` | src/AdminMenu.php:142 | Pairs each submitted post type with the templates its value yields, one pair per entry. |
| `AdminMenu.AppendAll` | src/AdminMenu.php:142-170 | Defines the outer loop: each entry's templates are appended to its post type, in submission order. |
| `AdminMenu.SanitizeEntries` | src/AdminMenu.php:142-170 | Defines the map the outer foreach builds from the submitted entries: the appends of every entry's templates, in submission order. |
| `AdminMenu.Sanitize` | src/AdminMenu.php:138-189 | Defines the callback's result: no invalidation_paths key when the input has none or no path survives, otherwise the appended map. |
| `AdminMenu.RenderedForm` | src/AdminMenu.php:116-119 | Defines the settings form as the page renders it: one textarea per listed post type, holding implode("\n") of its stored list, or "" when it has none. |
| `AdminMenu.OptionsSanitizeCallback` | src/AdminMenu.php:136-190 | The nested loops compute Sanitize(options). With no invalidation_paths key, or when no path survives, the result has no invalidation_paths key. Because $errors is never filled, the sanitised array is always returned. |
| `AdminMenu.AppendLinePaths` | src/AdminMenu.php:154-169 | The inner loop appends, in line order, each non-empty() trimmed line with a leading "/" to the post type's list. A key is created only when something is appended. |
| `AdminMenu.SanitizeEntriesStep` | src/AdminMenu.php:142-170 | One more submitted entry appends exactly what its value yields. |
| `AdminMenu.NormalizeLinesAppend` | src/AdminMenu.php:154-169 | Lines contribute paths in order, and duplicates are kept. |
| `AdminMenu.AppendedTwice` | src/AdminMenu.php:168 | Appending twice to one key is the same as appending the concatenation. |
| `AdminMenu.NormalizeLineIsNormal` | src/AdminMenu.php:155-164 | A line's path is non-empty, starts with "/", is trimmed and has no line break. |
| `AdminMenu.SlashPrefixIsNormal` | src/AdminMenu.php:162-164 | Prefixing "/" to a trimmed line keeps it trimmed and free of line breaks. |
| `AdminMenu.NormalizeLinesAreNormal` | src/AdminMenu.php:154-169 | Every path from break-free lines is normal. |
| `AdminMenu.ParsedPathsAreNormal` | src/AdminMenu.php:143-169 | Every path one submitted value yields is normal. |
| `AdminMenu.AppendAllKeepsNormal` | src/AdminMenu.php:168 | Appending only normal paths leaves only normal lists. |
| `AdminMenu.SanitizedPathsAreNormal` | src/AdminMenu.php:141-171 | Every list in the sanitised map holds only paths that start with "/", are trimmed and have no line break. |
| `AdminMenu.KeyPresentIffSomeYield` | src/AdminMenu.php:168 | A key is present if and only if some append added a path to it. |
| `AdminMenu.ListOfDistinctKey` | src/AdminMenu.php:168 | With distinct keys, each key's list is exactly what its one entry appended. |
| `AdminMenu.KeyPresentIffSomePath` | src/AdminMenu.php:141-170 | A post type gets a key if and only if one of its submitted values yields a path. Arrays, empty() strings and all-blank textareas create none. |
| `AdminMenu.SanitizedListOfEntry` | src/AdminMenu.php:141-170 | With one value per post type, the post type's list is exactly what its value yields, in order. |
| `AdminMenu.SanitizeExample` | src/AdminMenu.php:152-168 | "foo\nbar/baz\n\n" yields ["/foo", "/bar/baz"]. |
| `AdminMenu.ExampleTrim` | src/AdminMenu.php:152 | trim("foo\nbar/baz\n\n") is "foo\nbar/baz". |
| `AdminMenu.ExampleSplit` | src/AdminMenu.php:152 | Splitting that text gives ["foo", "bar/baz"]. |
| `AdminMenu.ExampleNormalize` | src/AdminMenu.php:154-164 | Those lines become ["/foo", "/bar/baz"]. |
| `AdminMenu.NormalizeTwoLines` | src/AdminMenu.php:162-164 | Two trimmed lines that are not empty() (so neither is "" nor "0") and do not start with "/" each get a leading "/". |
| `AdminMenu.NormalizeTrimmedLine` | src/AdminMenu.php:155-164 | A trimmed, non-empty() line without a leading slash gets one. |
| `AdminMenu.ResubmitList` | src/AdminMenu.php:119 | Idempotence: joining a list of normal paths with "\n" (as rendered), "\r\n" (as a browser submits a textarea) or "\r", then submitting it, yields that list. |
| `AdminMenu.NormalizeLinesOfNormal` | src/AdminMenu.php:154-169 | Normal paths pass the line loop unchanged. |
| `AdminMenu.ImplodeOfNormalIsTrimmed` | src/AdminMenu.php:119 | A non-empty list of normal paths joined by any of the three line breaks is trimmed, starts with "/" and is not empty(). |
| `AdminMenu.ResubmitRenderedForm` | src/AdminMenu.php:109-127 | Re-submitting the settings page, as rendered for distinct post types, gives back the saved map restricted to those types. |
| `AdminMenu.Lookup` | src/AdminMenu.php:118 | Defines `$invalidation_paths[$post_type->name] ?? []`: the stored list of the post type, or none. |
| `AdminMenu.AppendAllOfLookups` | src/AdminMenu.php:168 | Appending, for distinct keys, each key's stored non-empty list rebuilds the map on those keys. |
| `AdminMenu.AppendAllListsNonEmpty` | src/AdminMenu.php:168 | Every list the sanitiser saves holds at least one template, because a key is created only by an append. |
| `AdminMenu.SanitizedFormResubmits` | src/AdminMenu.php:109-170 | Idempotence of the settings page on its own output: render a sanitised map for distinct post types and submit it again, and the sanitiser gives back that map restricted to those post types. |
| `PluginSettings.GetInvalidationPaths` | src/PluginSettings.php:57-67 | The result is the stored invalidation_paths map unchanged, or the empty map when the option is missing (false) or has no such key. |
| `PluginSettings.Settings.constructor` | src/PluginSettings.php:16-19 | The instance snapshots getInvalidationPaths() at construction. |
| `PluginSettings.Settings.InvalidationPathsFor` | src/PluginSettings.php:27-34 | The result is exactly the snapshot's list for the type, in order, or [] when the type is absent. |
| `PluginSettings.Registry.constructor` | src/PluginSettings.php:12 | No instance exists before the first get(). |
| `PluginSettings.Registry.Get` | src/PluginSettings.php:41-48 | Outside PHPUNIT, a second get() returns the same instance. The first get(), or any get() under PHPUNIT, builds a fresh snapshot of the option store. The returned instance is stored in the slot. |
| `PluginSettings.SettingsTestCases` | tests/PluginSettingsTest.php:14-39 | A found option gives its map, and a missing option (false) gives []. |
| `PluginSettings.InvalidationPathsForTestCases` | tests/PluginSettingsTest.php:45-88 | Each case goes through get() with PHPUNIT set, on one shared static slot, so every get() takes a fresh snapshot. The stored list comes back in order. An unknown post type, or no option at all, gives []. |
| `PluginSettings.SnapshotOutlivesLaterSaves` | src/PluginSettings.php:41-48 | Outside PHPUNIT, an option saved after the first get() does not reach a later get(): both calls return the first snapshot, and the static slot still holds it. |
| `Utility.GetPostTypes` | src/Utility.php:17-35 | No kept type is on the deny-list. Every registered type not on it is kept. The result is a subsequence of the input. |
| `Utility.GetPostTypesAppend` | src/Utility.php:31-34 | Filtering a concatenation filters each part, so the input order is kept. |
| `Utility.PostIsKept` | src/Utility.php:22 | 'post' is never removed, because its deny-list entry is commented out. |
| `Utility.GetPostTypesIdempotent` | src/Utility.php:31-34 | Filtering twice is the same as filtering once. |
| `PhpStrings.IsEmpty` | src/AdminMenu.php:148 | Defines PHP's empty() on a string: true exactly for "" and "0". |
| `PhpStrings.TrimLeft` | src/AdminMenu.php:155 | ltrim() returns a suffix of its input, drops only trimmable characters, and stops at the first character that is not trimmable. |
| `PhpStrings.TrimRight` | src/AdminMenu.php:155 | rtrim() returns a prefix of its input, drops only trimmable characters, and stops at the last character that is not trimmable. |
| `PhpStrings.Trim` | src/AdminMenu.php:155 | trim() leaves nothing strippable at either end. |
| `PhpStrings.TrimKeepsInfix` | src/AdminMenu.php:155 | trim() returns the infix that starts where ltrim stops. Everything outside it is " \t\n\r\0\x0B". |
| `PhpStrings.TrimTrimmed` | src/AdminMenu.php:155 | trim() leaves a trimmed string alone. |
| `PhpStrings.TrimDropsTrimmableTail` | src/AdminMenu.php:152 | trim() of a trimmed text followed by whitespace is that text. |
| `PhpStrings.TrimKeepsNoLineBreak` | src/AdminMenu.php:155 | trim() cannot introduce a line break. |
| `PhpStrings.SplitLines` | src/AdminMenu.php:152 | preg_split on \r\n, \r and \n returns at least one piece, and no piece holds a break. Which pieces it returns is stated by SplitLinesAfterPlainText, SplitLinesAtSeparator and SplitLinesImplode. |
| `PhpStrings.SplitLinesAfterPlainText` | src/AdminMenu.php:152 | Text without a break becomes the start of the first piece. |
| `PhpStrings.SplitLinesAtSeparator` | src/AdminMenu.php:152 | "\n", "\r\n", and a "\r" not followed by "\n" each end the current piece; "\r\n" counts as one break. |
| `PhpStrings.Implode` | src/AdminMenu.php:119 | implode() of no parts is "", and of one part is that part. |
| `PhpStrings.ImplodeHead` | src/AdminMenu.php:119 | The implosion of break-free parts starts with a non-break character or with the separator. |
| `PhpStrings.SplitLinesJoin` | src/AdminMenu.php:152 | A break-free line, then one of the three line breaks, then a rest that is empty or starts with a non-break character or with the break's own first character, splits into that line followed by the pieces of the rest. Without that condition a "\r" followed by "\n" would form one "\r\n" break. |
| `PhpStrings.SplitLinesImplode` | src/AdminMenu.php:152 | Round trip for each of "\n", "\r" and "\r\n": joining one or more break-free lines with it and splitting gives back the lines. Zero lines implode to "", which splits into [""]. |
| `PhpStrings.ReplaceAll` | src/CloudFrontInvalidationHook.php:189 | Defines str_replace with one search string: scan left to right, replace each occurrence and resume after it, never rescanning inserted text. Its meaning is stated by the ReplaceAll lemmas in the rows that follow. |
| `PhpStrings.ReplaceAllSkipsPrefix` | src/CloudFrontInvalidationHook.php:189 | str_replace copies a prefix in which no occurrence starts. |
| `PhpStrings.ReplaceAllAtMatch` | src/CloudFrontInvalidationHook.php:189 | str_replace replaces an occurrence at the front and resumes after it. |
| `PhpStrings.ReplaceAllNoMatch` | src/CloudFrontInvalidationHook.php:189 | str_replace leaves a string without occurrences unchanged. |
| `PhpStrings.ReplaceAllKeepsHead` | src/CloudFrontInvalidationHook.php:189 | A first character that cannot start the search string stays first. |
| `PhpStrings.NatToString` | src/CloudFrontInvalidationHook.php:189 | The ID as a string is non-empty, all digits, and reads back as the ID. |
| `PhpStrings.NatToStringInjective` | src/CloudFrontInvalidationHook.php:64 | Distinct IDs have distinct decimal forms. |
| `PhpDate.ZeroPad` | src/CloudFrontInvalidationHook.php:64 | Each date() field is exactly w digits. |
| `PhpDate.ZeroPadValue` | src/CloudFrontInvalidationHook.php:64 | A zero-padded field reads back as its value. |
| `PhpDate.FormatYmdHi` | src/CloudFrontInvalidationHook.php:64 | date('YmdHi') is twelve digits. |
| `PhpDate.FormatIgnoresSeconds` | src/CloudFrontInvalidationHook.php:63-64 | Instants within one minute format alike. |
| `PhpDate.FormatDistinguishesMinutes` | src/CloudFrontInvalidationHook.php:63-64 | Equal formats imply the same minute. |
| `EndToEnd.SavedOptionReadsBack` | src/PluginSettings.php:57-67 | What the settings page saves is what getInvalidationPaths() reads back. |
| `EndToEnd.SavedTemplatesResolveToAbsolutePaths` | src/CloudFrontInvalidationHook.php:86 | Every template saved through the settings page resolves, for any post, to a path starting with "/". |
| `EndToEnd.PublishPostScenario` | src/CloudFrontInvalidationHook.php:41-95 | Take post 7 "launch", with "/blog/%slug%" saved for posts, distribution "E123" and dry-run off. Publishing it sends exactly one batch: ["/blog/launch"], Quantity 1, reference "7-" followed by YmdHi. |
| `EndToEnd.LaunchResolves` | src/CloudFrontInvalidationHook.php:194 | "/blog/%slug%" with slug "launch" gives "/blog/launch". |

## Left out

- `init()` is not modelled. It registers the save_post action, plus one rest_after_insert_{type} action per type in 'post' and getPostTypes() with duplicates removed (src/CloudFrontInvalidationHook.php:19-32). This is hook wiring with nothing to compute beyond the filter in `Utility.GetPostTypes`.
- The admin pages (menu scan, add_settings_section/field, HTML) are not modelled. They are UI output. The only part kept is the implode("\n", …) rendering of a saved list, which `AdminMenu.RenderedForm` gives.
- The CloudFrontClient construction (version, region us-east-1) and the network call are not modelled. The call is a function from the request to its outcome. `\Error` throwables, which the catch blocks do not catch, are left out.
- Utility::infoLog / errorLog are not modelled as a sink. Log lines are effects in the returned sequence.
- The dry-run line's `json_encode($paths)` is not rendered. `DryRunLog` carries the paths themselves.
- The clock is not modelled. WordPress sets PHP's default time zone to UTC, so `date()` renders UTC, and the `DateTime` argument is UTC wall-clock time. With no daylight-saving shifts, distinct minutes never share a caller reference. `PhpDate.FormatYmdHi` covers years 0 to 9999, the range in which 'Y' has four digits.
- `get_option`, `get_post_types` and `apply_filters` are parameters. A filter callback that returns something other than an array of strings is not modelled, and neither is one that keeps non-consecutive array keys.
- PHP constants are modelled as bool, int or string. Floats, arrays and null are not modelled.
- PHP arrays are modelled as follows:
  - The submitted form is an ordered list of (post type, value) pairs.
  - The saved map is a `map`, so PHP's insertion order of post-type keys is not kept. The order within each list is kept.
  - Registered post types are a sequence, not an array keyed by name.
  - A non-array `invalidation_paths` value and a value of some other scalar type are not modelled.
- `AdminMenu.OptionsSanitizeCallback`: the `$errors` branch that restores the previous option (src/AdminMenu.php:173-187) is unreachable, because nothing adds to `$errors`. It is therefore not modelled.
- `CloudFrontInvalidationHook.ReplacePlaceholderExpands` requires '%'-free literals, and it excludes %slug% followed directly by "id%". In "%slug%id%" the closing '%' of %slug% starts a %id% match in the first pass, so that template has no placeholder-wise reading. The '%'-free condition also leaves out percent-encoded templates, such as "/tag/%E3%81%82/%id%", which a site with non-ASCII URLs would store: a '%' in a literal can combine with the text around it into a placeholder. Such templates are covered only by the exact definition `ReplacePlaceholder` (two `ReplaceAll` passes), which is modelled for every template.
