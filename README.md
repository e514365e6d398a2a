# RecoveryFit reporting plugins in Dafny

This project models the logic behind three WordPress reporting screens and proves properties of it:

- **RecoveryFit corporate dashboard.** PHP derives a label for each corporate parent account. It folds the parent's members into a parent group (login totals and latest login) and files the groups under invoice labels from a fixed table. The browser then filters, searches and sorts the invoice cards.
- **RecoveryFit member dashboard.** PHP formats every member and counts totals (active in 30 days, never logged in, login events). The browser filters, sorts and HTML-escapes the member list.
- **MemberPress corporate reporting admin page.** It turns request parameters into report filters and adds an ORDER BY clause from a whitelist. It then post-filters the rows by `min_logins`, attaches sub-accounts and human-readable last logins, summarises the rows, and exports them as a 13-column CSV file.

The database, MemberPress objects, user meta, `strtotime`, the date formatters and the clock are never called. Each becomes either an input record (`WpValues`) or a function parameter:

- `parse` stands for `strtotime` and `new Date(..).getTime()`;
- `titleOf` stands for `get_the_title`;
- `humanDiff` stands for `human_time_diff` against the current time;
- `query` and `subRowsOf` stand for `$wpdb->get_results`;
- `sanitize` stands for `sanitize_text_field`;
- `now`/`nowMs` stand for `time()` and `Date.now()`.

Formatted dates are kept symbolic (`Formatted(ts)`).

Modules:

- `Wrappers`, `Seqs`, `Text`, `Folds`, `Sorting`: shared vocabulary. Covers Option, filters, de-duplication, substring search, `implode`/`explode`, PHP `trim`, ASCII case, `intval`/`parseInt`, decimal rendering, sums and latest timestamps, and a stable sort. The stable sort is an in-place insertion sort on an array, proved equal to its functional definition.
- `WpValues`: WordPress and MemberPress values as the PHP code classifies them.
- `RfConfig`: `rf-config.php`.
- `RfCorpData`: `class-rf-corp-data.php`. `build_parent_groups` and `build_invoice_hierarchy` are loop methods; the invoice dictionary is a `map` plus its insertion order.
- `RfMemberData`: `class-rf-member-data.php`.
- `RfCorpDashboard`, `RfMemberDashboard`: the two dashboard scripts. Each script's `state` object is a class whose event handlers are methods.
- `CorporateReporting`: `memberpress-corporate-reporting.php`, with the parts of `assets/admin.js` that decide what reaches it.

## Model

| member | source | states |
|---|---|---|
| RfConfig.NormalizeLabel | recoveryfit-corp-dashboard/includes/rf-config.php:49-55 | the normalised label is never "0": the `?:` fallback turns a falsy result into "" |
| RfConfig.NormalizeLabelShape | recoveryfit-corp-dashboard/includes/rf-config.php:49-55 | a normalised label has no upper-case ASCII letter and no `-` or `_`; its only whitespace is single spaces, never two adjacent |
| RfConfig.NormalizeCanonical | recoveryfit-corp-dashboard/includes/rf-config.php:49-55 | a label already in canonical form (lower case, single inner spaces, no separators, trimmed) is left unchanged |
| RfConfig.NormalizeEnds | recoveryfit-corp-dashboard/includes/rf-config.php:50-52 | the first and last characters of a non-empty result are a space or the lower-cased end characters of the trimmed input |
| RfConfig.NormalizeIdempotent | recoveryfit-corp-dashboard/includes/rf-config.php:49-55 | normalising twice equals normalising once whenever the first result has no leading or trailing space |
| RfConfig.NormalizeSeparated | recoveryfit-corp-dashboard/includes/rf-config.php:51-52 | two separator-free words joined by `-` or `_` normalise to the lower-cased words joined by one space |
| RfConfig.NormalizeTrailingSeparator | recoveryfit-corp-dashboard/includes/rf-config.php:50-52 | a trailing separator survives as a trailing space, because trimming happens before replacement |
| RfConfig.NormalizeTrailingDashExample | recoveryfit-corp-dashboard/includes/rf-config.php:50-52 | "Newport-" normalises to "newport " |
| RfConfig.NormalizeTrailingSpace | recoveryfit-corp-dashboard/includes/rf-config.php:50 | a canonical word followed by a space normalises back to the word |
| RfConfig.NormalizeTwiceExample | recoveryfit-corp-dashboard/includes/rf-config.php:49-55 | normalising "Newport-" twice gives "newport", so the general idempotence law fails |
| RfConfig.NormalizeFirst | recoveryfit-corp-dashboard/includes/rf-config.php:50-52 | an input that starts and ends with non-trim, non-separator characters keeps its lower-cased first character |
| RfConfig.NormalizeFalsy | recoveryfit-corp-dashboard/includes/rf-config.php:54 | "0" and "" both normalise to "" |
| RfConfig.FirstMatch | recoveryfit-corp-dashboard/includes/rf-config.php:71-75 | the index found is the first table entry whose key matches; None means no key matches |
| RfConfig.InvoiceLabelFor | recoveryfit-corp-dashboard/includes/rf-config.php:64-78 | the invoice label is a value of the table or 'Unmapped' |
| RfConfig.InvoiceLabelExact | recoveryfit-corp-dashboard/includes/rf-config.php:65-67 | an exact key returns its value without any normalisation |
| RfConfig.InvoiceLabelNormalized | recoveryfit-corp-dashboard/includes/rf-config.php:69-75 | without an exact key, the value of the first key whose normalised form equals the normalised label is returned |
| RfConfig.InvoiceLabelUnmapped | recoveryfit-corp-dashboard/includes/rf-config.php:64-78 | the result is 'Unmapped' exactly when no key matches after normalisation (given that no table value is 'Unmapped') |
| RfConfig.InvoiceLabelForParent | recoveryfit-corp-dashboard/includes/rf-config.php:64-78 | with the plugin's own table, the label is one of its values or 'Unmapped' |
| RfConfig.InvoiceMapWellFormed | recoveryfit-corp-dashboard/includes/rf-config.php:23-40 | no value of the invoice table is 'Unmapped', so 'Unmapped' means "no match" |
| RfConfig.InvoiceMapCharlotteVariants | recoveryfit-corp-dashboard/includes/rf-config.php:25 | any label that is not an exact key and normalises to "newport charlotte" maps to North Carolina RTC |
| RfConfig.InvoiceMapNormalizedExample | recoveryfit-corp-dashboard/includes/rf-config.php:69-75 | "newport charlotte" maps to "North Carolina RTC" through the normalised key Newport_Charlotte |
| RfConfig.InvoiceLabelScenario | recoveryfit-corp-dashboard/includes/rf-config.php:69-75 | in a one-entry table, "acme ny" finds the key "Acme-NY" |
| RfConfig.ParentLabel | recoveryfit-corp-dashboard/includes/rf-config.php:87-110 | a parent label is never empty |
| RfConfig.ParentLabelCompany | recoveryfit-corp-dashboard/includes/rf-config.php:88-97 | with a non-empty trimmed company, the label is company-location, or the company alone when the location is empty |
| RfConfig.ParentLabelIgnoresLocation | recoveryfit-corp-dashboard/includes/rf-config.php:91-97 | without a company, the location has no influence on the label |
| RfConfig.ParentLabelFromLogin | recoveryfit-corp-dashboard/includes/rf-config.php:99-104 | a login with a separator gives its first two separator-delimited segments joined by `-` ("a_b_c" gives "a-b") |
| RfConfig.ParentLabelPlainLogin | recoveryfit-corp-dashboard/includes/rf-config.php:99-106 | a non-empty login without separators is the label itself |
| RfConfig.ParentLabelFallback | recoveryfit-corp-dashboard/includes/rf-config.php:109 | with no company and no login, the label is "User-" followed by the decimal ID, which reads back as the ID |
| RfCorpData.FormatTimestamp | recoveryfit-corp-dashboard/includes/class-rf-corp-data.php:300-306 | a timestamp is formatted exactly when it is set and non-zero |
| RfCorpData.FormatDatetimeString | recoveryfit-corp-dashboard/includes/class-rf-corp-data.php:315-326 | an empty date gives nothing; an unparsable one is kept verbatim; a parsable one is formatted |
| RfCorpData.MembershipOf | recoveryfit-corp-dashboard/includes/class-rf-corp-data.php:262-287 | non-objects give no membership; a present product ID is carried over, otherwise it is 0 and the title is ''; for a nonzero ID the title is the product's own non-empty title, else the one looked up by ID; the subscription ID defaults to 0 |
| RfCorpData.GetUserMemberships | recoveryfit-corp-dashboard/includes/class-rf-corp-data.php:250-291 | the loop appends exactly the memberships of the object subscriptions; a non-array list gives none |
| RfCorpData.MembershipsSkipNonObjects | recoveryfit-corp-dashboard/includes/class-rf-corp-data.php:262-265 | the memberships correspond, in increasing position, to exactly the subscriptions that are objects |
| RfCorpData.LastLoginOf | recoveryfit-corp-dashboard/includes/class-rf-corp-data.php:198-216 | empty meta gives no timestamp and no string; numeric meta is the timestamp; other text is parsed and, if unparsable, shown verbatim |
| RfCorpData.NameOf | recoveryfit-corp-dashboard/includes/class-rf-corp-data.php:220-226 | the name is the trimmed first and last name, else the display name, else the login |
| RfCorpData.UserEntryOf | recoveryfit-corp-dashboard/includes/class-rf-corp-data.php:194-241 | a user entry carries the user's ID, display name (falling back as the name helper does), email, login, login count, last login, memberships and registration date as the helpers define them |
| RfCorpData.EntryShownWithoutTs | recoveryfit-corp-dashboard/includes/class-rf-corp-data.php:211-215 | a last-login string without a timestamp only arises from unparsable text, shown verbatim |
| RfCorpData.GroupOf | recoveryfit-corp-dashboard/includes/class-rf-corp-data.php:89-99 | an account yields no group exactly when its construction failed or its owner is not a MemberPress user |
| RfCorpData.EntriesAppend | recoveryfit-corp-dashboard/includes/class-rf-corp-data.php:114-121 | one more member adds its entry when it is a WP_User and nothing otherwise |
| RfCorpData.CollectEntries | recoveryfit-corp-dashboard/includes/class-rf-corp-data.php:110-129 | the inner loop's entries, login total and latest set timestamp are the entries of the members, their sum and their maximum |
| RfCorpData.CollectMember | recoveryfit-corp-dashboard/includes/class-rf-corp-data.php:115-128 | one turn of the loop skips a non-WP_User, otherwise appends its entry, adds its login count and keeps its timestamp when set and later; the collected entries, total and latest timestamp stay those of the members seen |
| Folds.LatestTsAttained | recoveryfit-corp-dashboard/includes/class-rf-corp-data.php:124-128 | a latest timestamp that is set is the timestamp of one of the entries |
| RfCorpData.BuildGroup | recoveryfit-corp-dashboard/includes/class-rf-corp-data.php:101-139 | the group built for an owned account is the one the group definition gives, with the owner listed only when it is a WP_User |
| RfCorpData.BuildParentGroups | recoveryfit-corp-dashboard/includes/class-rf-corp-data.php:63-143 | the outer loop produces exactly the groups of the rows, in row order, each built with its own owner's WP_User test |
| RfCorpData.ParentGroupsInRowOrder | recoveryfit-corp-dashboard/includes/class-rf-corp-data.php:86-140 | every account with an owner yields exactly one group, the others none, and groups follow the row order |
| RfCorpData.GroupAggregates | recoveryfit-corp-dashboard/includes/class-rf-corp-data.php:103-137 | a group's entries are the owner first when the owner is a WP_User (none otherwise), then the WP_User sub-users in order; total_logins is their sum; last_login_ts is the latest set timestamp or null, and last_login is set exactly when it is |
| RfCorpData.InvoiceOfAppend | recoveryfit-corp-dashboard/includes/class-rf-corp-data.php:159-181 | adding one group changes only the invoice of its own label |
| RfCorpData.FileGroup | recoveryfit-corp-dashboard/includes/class-rf-corp-data.php:159-182 | one turn of the loop keeps the dictionary equal to the invoices of the groups seen, in first-seen label order |
| RfCorpData.ValuesInOrder | recoveryfit-corp-dashboard/includes/class-rf-corp-data.php:184 | array_values lists the dictionary's invoices in insertion order |
| RfCorpData.BuildInvoiceHierarchy | recoveryfit-corp-dashboard/includes/class-rf-corp-data.php:150-185 | the loop over groups returns exactly the invoice hierarchy of the groups |
| RfCorpData.InvoiceHierarchyEmpty | recoveryfit-corp-dashboard/includes/class-rf-corp-data.php:153-155 | no groups give no invoices |
| RfCorpData.InvoiceMembership | recoveryfit-corp-dashboard/includes/class-rf-corp-data.php:159-172 | every group lands in the invoice of its own label, every invoice holds only groups of its label, and labels are distinct |
| RfCorpData.InvoiceFirstSeenOrder | recoveryfit-corp-dashboard/includes/class-rf-corp-data.php:162-170 | invoices appear in the order in which their labels are first seen |
| RfCorpData.InvoicePartition | recoveryfit-corp-dashboard/includes/class-rf-corp-data.php:172-173 | the invoices hold as many parents as there are groups, and their login totals add up to the groups' totals |
| RfCorpData.InvoiceLatest | recoveryfit-corp-dashboard/includes/class-rf-corp-data.php:173-181 | an invoice's total is the sum of its parents'; its last_login_ts is the latest set parent timestamp or null, and last_login is set exactly when it is |
| RfCorpData.BuildHierarchyFromRows | recoveryfit-corp-dashboard/includes/class-rf-corp-data.php:150-151 | the hierarchy is built from the parent groups of the rows, classified with the plugin's invoice table |
| RfMemberData.NormalizeTimestamp | recoveryfit-member-dashboard/includes/class-rf-member-data.php:153-165 | empty gives null; numeric gives the value only when positive; text gives the parse unless it fails or is 0; the result is never 0 |
| RfMemberData.NormalizeTimestampStable | recoveryfit-member-dashboard/includes/class-rf-member-data.php:158-160 | a positive normalised timestamp stored back as a number normalises to itself |
| RfMemberData.SubscribedOf | recoveryfit-member-dashboard/includes/class-rf-member-data.php:114-129 | non-objects are skipped; no product gives ID 0 and 'Unknown product'; the subscription ID, status and created_at default to 0, '' and '' |
| RfMemberData.MemberOf | recoveryfit-member-dashboard/includes/class-rf-member-data.php:102-146 | roles are joined with ", "; last_login is set exactly when last_login_ts is, and is its formatted date |
| RfMemberData.FormatMember | recoveryfit-member-dashboard/includes/class-rf-member-data.php:102-146 | the membership loop builds exactly the member record of the user |
| RfMemberData.SubscriptionsSkipNonObjects | recoveryfit-member-dashboard/includes/class-rf-member-data.php:113-118 | a member's memberships correspond, in order, to exactly the subscriptions that are objects |
| RfMemberData.GetMembers | recoveryfit-member-dashboard/includes/class-rf-member-data.php:78-97 | the loop keeps exactly the WP_User results, formatted, in query order |
| RfMemberData.MembersTimestampsNonZero | recoveryfit-member-dashboard/includes/class-rf-member-data.php:153-165 | a member's timestamp, when set, is never 0, so empty() on it means null |
| RfMemberData.DashboardPayload | recoveryfit-member-dashboard/includes/class-rf-member-data.php:42-71 | the counter loop returns the members and the totals: the member count, the login sum, the never-logged-in count and the active-in-30-days count |
| RfMemberData.TotalsBounded | recoveryfit-member-dashboard/includes/class-rf-member-data.php:53-64 | never-logged-in and active members are disjoint, so together they are at most the member count |
| RfMemberData.NeverMeansUnset | recoveryfit-member-dashboard/includes/class-rf-member-data.php:58-60 | never_logged_in counts exactly the members without a timestamp |
| RfMemberData.ActiveMonotone | recoveryfit-member-dashboard/includes/class-rf-member-data.php:53-64 | a later clock never counts more active members |
| RfCorpDashboard.SummaryPart | recoveryfit-corp-dashboard/assets/js/rf-corp-dashboard.js:30 | every part is non-empty: the title, or `#` followed by the product ID |
| RfCorpDashboard.MembershipSummaryParts | recoveryfit-corp-dashboard/assets/js/rf-corp-dashboard.js:24-33 | a non-empty list is its parts joined with ", " (the Boolean filter drops nothing); an untitled part is `#` and the ID, which reads back |
| RfCorpDashboard.MatchesSearchIgnoresCase | recoveryfit-corp-dashboard/assets/js/rf-corp-dashboard.js:143 | the search result does not depend on the term's case |
| RfCorpDashboard.MatchesSearchPrefix | recoveryfit-corp-dashboard/assets/js/rf-corp-dashboard.js:138-169 | an invoice matching a term also matches every prefix of it, including the empty term |
| RfCorpDashboard.ParentMatchesPrefix | recoveryfit-corp-dashboard/assets/js/rf-corp-dashboard.js:153-168 | a parent matching a needle also matches every prefix of it |
| RfCorpDashboard.PassesDateFilterMillis | recoveryfit-corp-dashboard/assets/js/rf-corp-dashboard.js:176-183 | for a positive day count, an invoice passes exactly when its timestamp is non-zero and at least now minus the days (inclusive) |
| RfCorpDashboard.PassesDateFilterWider | recoveryfit-corp-dashboard/assets/js/rf-corp-dashboard.js:171-184 | an invoice that passes a day range also passes every wider one |
| RfCorpDashboard.FilterInvoicesExactly | recoveryfit-corp-dashboard/assets/js/rf-corp-dashboard.js:186-206 | the result is an order-preserving subsequence that keeps exactly the non-null invoices that match the invoice filter, the dates and the search |
| RfCorpDashboard.FilterInvoicesInitial | recoveryfit-corp-dashboard/assets/js/rf-corp-dashboard.js:47-53 | with the initial state, every non-null invoice is shown |
| RfCorpDashboard.OrderForConsistent | recoveryfit-corp-dashboard/assets/js/rf-corp-dashboard.js:211-220 | each of the three comparators is total and transitive |
| RfCorpDashboard.SortInvoices | recoveryfit-corp-dashboard/assets/js/rf-corp-dashboard.js:208-224 | the sorted copy is the stable sort of the list under the comparator of the sort mode |
| RfCorpDashboard.SortInvoicesOrdered | recoveryfit-corp-dashboard/assets/js/rf-corp-dashboard.js:208-224 | the result is a permutation: logins descending, or last login descending with missing as 0, or lower-cased labels ascending; an already ordered list is unchanged |
| RfCorpDashboard.BuildInvoiceOptions | recoveryfit-corp-dashboard/assets/js/rf-corp-dashboard.js:60-65 | the Set is built as 'all' followed by the distinct labels in first-seen order |
| RfCorpDashboard.InvoiceOptionsExactly | recoveryfit-corp-dashboard/assets/js/rf-corp-dashboard.js:60-66 | the options start with 'all', have no duplicates, and hold exactly 'all' and the non-empty labels of non-null invoices |
| RfCorpDashboard.CorpView.constructor | recoveryfit-corp-dashboard/assets/js/rf-corp-dashboard.js:47-53 | the state starts with all invoices, no search, all dates and sort by label |
| RfCorpDashboard.CorpView.SelectInvoice | recoveryfit-corp-dashboard/assets/js/rf-corp-dashboard.js:76-79 | only the invoice filter changes |
| RfCorpDashboard.CorpView.TypeSearch | recoveryfit-corp-dashboard/assets/js/rf-corp-dashboard.js:85-88 | the search term becomes the trimmed, lower-cased input; nothing else changes |
| RfCorpDashboard.CorpView.SelectDates | recoveryfit-corp-dashboard/assets/js/rf-corp-dashboard.js:104-107 | only the date filter changes |
| RfCorpDashboard.CorpView.SelectSort | recoveryfit-corp-dashboard/assets/js/rf-corp-dashboard.js:122-125 | only the sort mode changes |
| RfCorpDashboard.CorpView.Shown | recoveryfit-corp-dashboard/assets/js/rf-corp-dashboard.js:342-359 | the rendered cards are the filtered invoices, stably sorted by the current mode |
| RfMemberDashboard.Titles | recoveryfit-member-dashboard/assets/js/rf-member-dashboard.js:225 | a member's titles are those of its memberships in order, with '' for a missing title |
| RfMemberDashboard.OrderForConsistent | recoveryfit-member-dashboard/assets/js/rf-member-dashboard.js:242-254 | every sort choice gives a total, transitive comparator |
| RfMemberDashboard.ApplyFilters | recoveryfit-member-dashboard/assets/js/rf-member-dashboard.js:208-257 | the filtered and sorted list equals the stable sort of the members that pass search, membership and date |
| RfMemberDashboard.VisibleExactly | recoveryfit-member-dashboard/assets/js/rf-member-dashboard.js:214-254 | the result is drawn from the members without repetition beyond theirs; it contains exactly the members that pass the trimmed search, the membership and the date checks, and is ordered by the chosen comparator |
| RfMemberDashboard.VisibleInitial | recoveryfit-member-dashboard/assets/js/rf-member-dashboard.js:10-15 | with the initial state every member is shown, by login count descending |
| RfMemberDashboard.MatchesDateWider | recoveryfit-member-dashboard/assets/js/rf-member-dashboard.js:231-237 | a member inside a day range is inside every wider one |
| RfMemberDashboard.CollectTitles | recoveryfit-member-dashboard/assets/js/rf-member-dashboard.js:289-296 | the Set holds the distinct truthy titles in first-seen order |
| RfMemberDashboard.AddMemberTitles | recoveryfit-member-dashboard/assets/js/rf-member-dashboard.js:291-295 | after one member the Set holds the distinct truthy titles of the members seen and of this member, in first-seen order |
| RfMemberDashboard.AddTitle | recoveryfit-member-dashboard/assets/js/rf-member-dashboard.js:292-294 | a truthy title joins the Set unless it is already there; a falsy one changes nothing |
| RfMemberDashboard.GetMembershipOptions | recoveryfit-member-dashboard/assets/js/rf-member-dashboard.js:288-298 | the options are the distinct titles, sorted |
| RfMemberDashboard.MembershipOptionsExactly | recoveryfit-member-dashboard/assets/js/rf-member-dashboard.js:288-298 | the options have no duplicates, are sorted, and hold exactly the non-empty titles of some member's memberships |
| RfMemberDashboard.EscapeIsEncode | recoveryfit-member-dashboard/assets/js/rf-member-dashboard.js:322-327 | the five chained replacements equal replacing each character by its entity in one pass, so `&` is never escaped twice |
| RfMemberDashboard.DecodeEncode | recoveryfit-member-dashboard/assets/js/rf-member-dashboard.js:322-327 | decoding the five entities gives the original text back, so every `&` of the output begins one of them |
| RfMemberDashboard.EscapeHtmlEncodes | recoveryfit-member-dashboard/assets/js/rf-member-dashboard.js:318-328 | escaped text contains no raw `<`, `>`, `"` or `'` and decodes to the input |
| RfMemberDashboard.EscapeAttrIsEscapeHtml | recoveryfit-member-dashboard/assets/js/rf-member-dashboard.js:330-332 | escapeAttr equals escapeHtml: its extra replacement finds no `"` left |
| RfMemberDashboard.MemberView.constructor | recoveryfit-member-dashboard/assets/js/rf-member-dashboard.js:10-15 | the state starts with no search, all memberships, all dates and sort by logins |
| RfMemberDashboard.MemberView.TypeSearch | recoveryfit-member-dashboard/assets/js/rf-member-dashboard.js:93-95 | the search becomes the lower-cased input (trimmed only when filtering); nothing else changes |
| RfMemberDashboard.MemberView.SelectMembership | recoveryfit-member-dashboard/assets/js/rf-member-dashboard.js:112-114 | only the membership filter changes |
| RfMemberDashboard.MemberView.SelectDateRange | recoveryfit-member-dashboard/assets/js/rf-member-dashboard.js:130-132 | only the date range changes |
| RfMemberDashboard.MemberView.SelectSort | recoveryfit-member-dashboard/assets/js/rf-member-dashboard.js:147-149 | only the sort choice changes |
| RfMemberDashboard.MemberView.Shown | recoveryfit-member-dashboard/assets/js/rf-member-dashboard.js:208-257 | the displayed list is the filtered members sorted for the current state |
| CorporateReporting.CorporateMembershipIds | memberpress-corporate-reporting.php:127-129 | the IDs are never empty: the requested ones when some were given, and exactly 3888 and 3889 when none were |
| CorporateReporting.MembershipIdsSqlSafe | memberpress-corporate-reporting.php:131 | whatever the request holds, the IN list contains only digits, minus signs and commas |
| CorporateReporting.IdListRoundTrip | memberpress-corporate-reporting.php:319 | IDs joined with ',' and read back with explode and intval are the same IDs |
| CorporateReporting.ExportFiltersMatchTable | assets/admin.js:274 | the export link (IDs joined with ',') and the table request (IDs as an array) give the same filters |
| CorporateReporting.OrderDirection | memberpress-corporate-reporting.php:188 | the direction is always ASC or DESC |
| CorporateReporting.OrderDirectionAsc | memberpress-corporate-reporting.php:188 | the direction is ASC exactly when the upper-cased request is "ASC" |
| CorporateReporting.OrderClause | memberpress-corporate-reporting.php:187-195 | the ORDER BY column is always one of the six whitelisted names |
| CorporateReporting.OrderBySqlWhitelisted | memberpress-corporate-reporting.php:187-195 | the sort text is one of twelve fixed clauses; a whitelisted column keeps the requested direction; an unknown non-empty column gives total_logins DESC |
| CorporateReporting.FormattedLastLogin | memberpress-corporate-reporting.php:210-212 | the text is 'Never' exactly when the last-login value is empty |
| CorporateReporting.FormatSub | memberpress-corporate-reporting.php:248-255 | login_count defaults to 0; formatted_last_login is 'Never' exactly for an empty last login; is_active holds exactly when the active count is set and positive |
| CorporateReporting.FormatSubLoginCount | memberpress-corporate-reporting.php:249 | a login count stored as a decimal number is read back as that number |
| CorporateReporting.GetSubAccounts | memberpress-corporate-reporting.php:245-257 | the formatting loop returns every sub-account row formatted, in query order |
| CorporateReporting.MinLoginsHidesTable | memberpress-corporate-reporting.php:200-205 | as written, totals 5, 17, 10 with min_logins 10 keep two rows under keys 1 and 2, and the admin page shows no table |
| CorporateReporting.MinLoginsFilterShows | memberpress-corporate-reporting.php:200-205 | the re-indexed filter keeps exactly the rows at or above min_logins (all rows for 0), takes nothing not in the input, and the table shows exactly when some row is kept |
| CorporateReporting.MinLoginsSameRows | memberpress-corporate-reporting.php:200-205 | the as-written filter is empty exactly when the re-indexed one is |
| CorporateReporting.AsWrittenValues | memberpress-corporate-reporting.php:200-205 | the values of the as-written (key-preserving) filter, in order, are exactly the re-indexed filter's rows, so only the keys differ |
| CorporateReporting.MinLoginsKept | memberpress-corporate-reporting.php:200-205 | the filter keeps the rows at strictly increasing input positions, each under its original key, and a row is kept exactly when it reaches min_logins (every row for 0) |
| CorporateReporting.EnhanceRows | memberpress-corporate-reporting.php:208-213 | every row of the array, updated in place, gains its sub-accounts and its formatted last login |
| CorporateReporting.CorporateData | memberpress-corporate-reporting.php:197-215 | there is one result per row kept by the min_logins filter |
| CorporateReporting.GetCorporateData | memberpress-corporate-reporting.php:118-216 | the method returns the query's rows, post-filtered by min_logins and enhanced |
| CorporateReporting.CorporateDataRows | memberpress-corporate-reporting.php:207-215 | each result is its kept row unchanged except for the sub-accounts of its parent and a formatted last login that is 'Never' exactly when the date is empty |
| CorporateReporting.SummaryRespectsMinLogins | memberpress-corporate-reporting.php:283-287 | the average is 0 exactly when there are no rows; with a min_logins filter, total logins are at least min_logins per account |
| CorporateReporting.AjaxGetReportData | memberpress-corporate-reporting.php:263-297 | the reply holds the data for the POST filters and its summary |
| CorporateReporting.CsvRow | memberpress-corporate-reporting.php:356-371 | every data record has as many fields as the 13-column header; the parent username, parent email, formatted last login (empty when absent), signup date and transaction status fields carry the row's values |
| CorporateReporting.CsvRowNumbers | memberpress-corporate-reporting.php:339-365 | the ID, membership, sub-account count and total-logins fields sit under their headers and read back as the row's numbers |
| CorporateReporting.CsvRowPlaceholders | memberpress-corporate-reporting.php:361-370 | missing company, location and subscription status print 'N/A', and a missing last-login date prints 'Never'; present values print as they are |
| CorporateReporting.CsvRowText | memberpress-corporate-reporting.php:339-370 | the parent username, parent email, human last login, signup date and transaction status fields sit under their headers and print the row's values as they are; an absent human last login prints '' |
| CorporateReporting.CsvRecords | memberpress-corporate-reporting.php:339-371 | the records are the header, then one record per data row, in order |
| CorporateReporting.WriteRecords | memberpress-corporate-reporting.php:342-371 | the fputcsv calls write exactly the header and then one record per data row, in order |
| CorporateReporting.AjaxExportCsv | memberpress-corporate-reporting.php:309-376 | the export writes the byte order mark EF BB BF, then the header and one record per row of the data for the GET filters |
| CorporateReporting.ExportMatchesTable | memberpress-corporate-reporting.php:316-325 | for the same request values, the CSV lists the same rows as the on-screen table |
| Text.ParseDecimalString | memberpress-corporate-reporting.php:203 | intval (and parseInt) of a decimal rendering gives the number back |
| Sorting.StableSortPermutation | recoveryfit-member-dashboard/assets/js/rf-member-dashboard.js:242 | sorting only rearranges: the result is a permutation of the input |
| Sorting.StableSortSorted | recoveryfit-member-dashboard/assets/js/rf-member-dashboard.js:242-254 | with a consistent comparator, the result is ordered by it |
| Sorting.StableSortOfSorted | recoveryfit-corp-dashboard/assets/js/rf-corp-dashboard.js:209-221 | an already ordered list is left as it is |
| Sorting.StableSortStable | recoveryfit-member-dashboard/assets/js/rf-member-dashboard.js:242-254 | with a consistent comparator the sort is stable: the elements that rank equal to any given one keep their input order |
| Sorting.InsertionSort | recoveryfit-member-dashboard/assets/js/rf-member-dashboard.js:242 | the in-place sort leaves the array holding the stable sort of its old contents |
| Sorting.SortCopy | recoveryfit-corp-dashboard/assets/js/rf-corp-dashboard.js:209-221 | sorting a copy gives the stable sort and leaves the input as it was |

## Left out

- **SQL and WordPress calls.** SQL text and the database are not modelled: the query's rows are the `query` and `subRowsOf` parameters. The only SQL text modelled is the membership-ID `IN` list and the ORDER BY clause. The search and location `LIKE` clauses, `esc_like` and `prepare` are not modelled. `get_user_meta`, `WP_User_Query`, `MeprUser` and `MPCA_Corporate_Account` become input records. A failed account construction is `None`.
- **Date and time calls.** `strtotime`, `date_i18n`, `gmdate`, `human_time_diff`, `current_time`, `time()`, `Date.now` and `new Date(..)` are parameters. Formatted dates are symbolic. An unparsable registration date, which gives NaN in the member dashboard's 'registered' sort, is not modelled: `dateMs` always returns an integer.
- **Collation.** `localeCompare` is approximated by ordinal (code unit) order. `toLowerCase` is ASCII-only, and `Lower` lower-cases only ASCII letters. PHP `strtolower` is taken as ASCII too.
- **Leading-number parsing.** `Text.LeadingInt`: `intval` and `parseInt` skip the PCRE whitespace set only. Exponent and hexadecimal forms, and PHP's 64-bit overflow saturation, are not modelled.
- **Average.** `average_logins_per_account` keeps the total and the account count (`Mean`), not the rounded float quotient.
- **SQL values.** Numeric SQL columns (`total_logins`, `sub_account_count`, the IDs) are carried as integers. Their text is the decimal rendering MySQL gives them.
- **Presentation.** `formatNumber`, `formatDate`, `toLocaleString`, DOM construction, event wiring, jQuery AJAX and `window.location` are not modelled. The member dashboard's `renderMemberships` and `renderResults` are markup only.
- **Plugin glue.** Menus, assets, nonces and capability checks are not part of this model. Neither are the singletons and bootstrap files, or `templates/dashboard.php`.
- **admin.js escapeHtml.** The `escapeHtml` in `assets/admin.js` maps every falsy value to '' and otherwise duplicates the modelled one. It is not modelled separately.
- **CSV writing.** HTTP headers, `fopen`/`fputcsv` quoting and `exit` are not modelled. The export is the byte order mark and the record sequence.
- **By-reference loops.** The by-reference `foreach` of `get_sub_accounts` builds a new sequence rather than updating rows in place. The one of `get_corporate_data` updates an array in place (`EnhanceRows`).
- **Corporate dashboard data.** The invoice list may hold null invoices (`Option`). Invoice `parents` elements and sub-account users are taken to be objects.

## Findings

| source | as written | input that shows it | evidently intended | confidence | as-written member | corrected member |
|---|---|---|---|---|---|---|
| memberpress-corporate-reporting.php:200-205 | `array_filter` keeps the original keys, so after a min_logins filter that drops a leading row `$data` is not a list. `wp_send_json_success` then encodes it as a JSON object, and `assets/admin.js:102` tests `data.length > 0`, which is false for an object, so the page says there is no data. | rows with total_logins 5, 17, 10 and min_logins 10: the kept rows are under keys 1 and 2 | the kept rows re-indexed from 0 (`array_values`), so the table shows whenever some row reaches min_logins | not executed | CorporateReporting.MinLoginsHidesTable | CorporateReporting.MinLoginsFilterShows |
