# GitBell, modelled in Dafny

GitBell is a browser extension. It watches a list of GitHub repositories and raises a desktop
notification for every new issue opened in one of them. This project models its core and proves
properties of that model:

- **the store** (`storage.js`). Four stored keys hold the monitored repositories, the settings,
  the notification log and the run statistics. Each operation reads a key, transforms its value
  and writes it back. Here the store is the class `Storage.Store`, with one field per key. Each
  method is proved to change its fields exactly as a pure function says, and to leave the other
  keys alone.
- **the GitHub client's decisions** (`github-api.js`):
  - which request is sent;
  - how a reply is classified: 404, 403, another failing status, a network failure or a body
    that does not decode;
  - how pull requests are dropped;
  - which fetched issues are new, relative to the repository's watermark (`lastIssueNumber`).
- **the reconciliation pass** (`checkAllRepositories` in `background.js`). It runs over a snapshot
  of the repository list. Each repository is marked 'checking', its new issues are notified and
  logged, and its watermark, check time and status are written back. A failure turns into the
  'error' status. At the end the statistics are updated once.
- **the alert dispatcher**: the notification text, the beginner-friendly classification, the
  priority, the platform-specific options, and the table from alert identifiers to issue URLs
  that the click handlers consume. Also the message handler the popup talks to.
- **the popup's logic**: validating the `owner/repo` input, the add-repository flow against the
  existence check and the store, `formatTimeAgo`, and the placeholders of the repository list and
  the statistics bar.

The modules follow the program:

| module | file | contents |
|---|---|---|
| `Wrappers` | `wrappers.dfy` | `Option`, `Result` |
| `Js` | `js.dfy` | JavaScript truthiness, `\|\| 0`, `filter`, `slice(0, n)` |
| `Text` | `text.dfy` | decimal rendering, `trim`, `split`/`join`, ASCII `toLowerCase`, `includes` |
| `Storage` | `storage.dfy` | records, patches, and the class `Store` |
| `GitHubApi` | `github_api.dfy` | requests, responses, `fetchIssues`, `getNewIssues`, `checkRepository`, `validateToken` |
| `Background` | `background.dfy` | the pass as functions on a `World`, and the class `BackgroundScript` |
| `PassProperties` | `pass_properties.dfy` | what a pass does, proved over the `Background` functions |
| `Popup` | `popup.dfy` | input parsing, `addRepository`, relative times, display defaults |

The background script's operations are first written as functions on values. A `World` is the
stored state together with the dispatcher's state: the URL table, the effects asked of the
browser so far, and the number of alerts created. The methods of `BackgroundScript` are proved
to change the `Store` and the script's fields exactly as those functions say. The lemmas of
`PassProperties` then state what the functions mean.

The outside world becomes parameters:

- A fetch is a `Response` value. That is an HTTP reply (its status, the two rate-limit headers,
  and a body that decodes or fails to decode) or a network failure. For a pass, `first[i]` is the
  reply to the request `getNewIssues` sends for the i-th repository of the snapshot, and
  `second[i]` the reply to the re-fetch made when nothing is new. `OutcomeOf` reads only what the
  code reads.
- `Date.now()` is `now`.
- `typeof browser` is `Platform.isFirefox`.
- The identifier the platform hands to the callback of the n-th created alert is
  `Platform.assignId(n)`.

Where the code departs from what its comments and documentation describe, the model follows the code:

- **The watermark can go down.** In the no-new-issues branch the stored watermark becomes the
  highest open issue number re-fetched. That can be below the old one once the newest issue is
  closed (`WatermarkCanDecrease`).
- **A baseline keeps the old watermark** when the re-fetch finds no issue. The same happens when
  the highest number is 0.
- **The log holds at most 51 records, not 100.** `addNotification` reads the log back with the
  default limit of 50 before putting the new record in front (`WithNotificationShape`,
  `HistoryLength`).
- **A repository is deduplicated by owner and name.** Removal and updating, though, go by
  `fullName` (storage.js:49 and 56). A full name made by the popup determines its owner and name,
  so the two agree for lists built through the popup (`Popup.AddKeepsUnique`). A pass counts every
  new issue it notifies.
- **`lastError` is never cleared** by a successful check (`SettledState`).
- **A pass over an empty list does not touch the statistics** (`EmptyPass`).

## Model

| member | source | states |
|---|---|---|
| `Js.OrZero` | popup.js:96 | `x \|\| 0` is the number when it is truthy and 0 otherwise |
| `Js.Filter` | github-api.js:56 | the result is no longer than the input and holds only elements of the input that the predicate keeps |
| `Js.FilterMembership` | storage.js:49 | an element is in the filtered list exactly when it is in the list and the predicate keeps it |
| `Js.SlicePrefix` | storage.js:88 | `slice(0, n)` keeps the first n elements, all of them when n exceeds the length, and treats a negative n as counting from the end |
| `Text.NatToDecimal` | github-api.js:49 | the decimal rendering of a number is a non-empty digit string with no leading zero |
| `Text.DecimalRoundTrip` | github-api.js:49 | reading back the decimal rendering gives the number |
| `Text.IntToDecimal` | background.js:156 | a negative number is rendered as '-' followed by the digits of its absolute value |
| `Text.IntToDecimalInjective` | background.js:156 | different issue numbers are rendered differently |
| `Text.TrimStart` | popup.js:205 | the result is a suffix that does not start with white space, and everything cut off is white space |
| `Text.TrimEnd` | popup.js:205 | the result is a prefix that does not end with white space, and everything cut off is white space |
| `Text.TrimPadded` | popup.js:205 | `trim` removes exactly the white space around a core that neither starts nor ends with white space |
| `Text.TrimBlank` | popup.js:205-207 | input made only of white space trims to the empty string |
| `Text.Trim` | popup.js:205 | `trim` drops the white space at both ends; its properties are `TrimStart`, `TrimEnd` and `TrimPadded` |
| `Text.Split` | popup.js:213 | `split` returns at least one piece, and no piece contains the separator |
| `Text.JoinSplit` | popup.js:213 | joining the pieces of a split with the separator gives back the string |
| `Text.SplitJoin` | popup.js:213 | splitting a join of separator-free pieces gives back the pieces |
| `Text.SplitCount` | popup.js:214 | a split has one more piece than the string has separators |
| `Text.Join` | background.js:139 | `join(', ')` puts the separator between consecutive pieces; `JoinSplit` and `SplitJoin` make it the inverse of `split` |
| `Text.Lower` | background.js:145 | `toLowerCase` keeps the length and lowers each ASCII capital |
| `Text.IncludesIffOccurs` | background.js:145 | `includes` holds exactly when the substring occurs at some position |
| `Text.Includes` | background.js:145 | `includes` is a search from every position for the substring; `IncludesIffOccurs` characterises it |
| `Storage.NewRepo` | storage.js:31-39 | a new record is active, unchecked, without a watermark, and its full name is `owner/repo` |
| `Storage.IsMonitored` | storage.js:26 | `some(r => r.owner === owner && r.repo === repo)`: some record carries both parts; `Store.AddRepository` rejects exactly those |
| `Storage.UniqueNames` | storage.js:47-62 | no two records share a `fullName`, the key `removeRepository` and `updateRepository` go by; `RemovalKeepsUnique`, `UpdateKeepsUnique` and `Popup.AddKeepsUnique` keep it |
| `Storage.Merge` | storage.js:59 | `{ ...r, ...updates }`: each key the patch carries takes the patch's value, and the identifying keys never change |
| `Storage.MergeThen` | storage.js:59 | two successive updates equal one update by the combined patch, and repeating an update changes nothing |
| `Storage.FindIndex` | storage.js:56 | the index found is the first entry with that name; there is none exactly when no entry carries the name |
| `Storage.UpdateFirstEffect` | storage.js:54-62 | an update replaces the first entry with the name by its merge with the patch, and leaves every other entry and the length unchanged |
| `Storage.UpdateUnknownName` | storage.js:58-61 | updating a name no entry carries changes nothing |
| `Storage.UpdateFirstKeepsNames` | storage.js:54-62 | an update keeps every entry's name and the list's length |
| `Storage.UpdateFirst` | storage.js:54-62 | `updateRepository` on the list: the first entry with the name is merged with the patch; `UpdateFirstEffect` and `UpdateUnknownName` state it |
| `Storage.UpdateKeepsUnique` | storage.js:54-62 | an update keeps the full names distinct |
| `Storage.RemovalMembership` | storage.js:47-51 | after a removal no entry carries the name, every other entry is kept, and nothing new appears |
| `Storage.RemovalOrder` | storage.js:49 | a removal keeps the surviving entries in their order |
| `Storage.RemovalOfAbsentName` | storage.js:49 | removing a name no entry carries leaves the list as it was |
| `Storage.WithoutName` | storage.js:49 | `filter(r => r.fullName !== fullName)`; `RemovalMembership`, `RemovalOrder` and `RemovalOfAbsentName` state it |
| `Storage.RemovalKeepsUnique` | storage.js:47-51 | a removal keeps the full names distinct |
| `Storage.SettingsOrDefault` | storage.js:65-74 | without stored settings, the defaults are a 10-minute interval, no token, notifications and sound on, and the dark theme; otherwise the stored settings |
| `Storage.StatsOrDefault` | storage.js:110-117 | without stored statistics, 0 issues found, 0 checks and no last check; otherwise the stored statistics |
| `Storage.MergeSettings` | storage.js:79 | `{ ...currentSettings, ...newSettings }`; `MergeSettingsOverrides` states it key by key |
| `Storage.MergeStats` | storage.js:122 | `{ ...currentStats, ...updates }`; `MergeStatsOverrides` and `MergeStatsFull` state it |
| `Storage.MergeSettingsOverrides` | storage.js:77-82 | each of the five keys takes the update's value when the update carries it and keeps the current one otherwise; merging is idempotent, and an empty update changes nothing |
| `Storage.MergeStatsOverrides` | storage.js:120-125 | each of the three statistics keys takes the update's value when the update carries it and keeps the current one otherwise; merging is idempotent, and an empty update changes nothing |
| `Storage.MergeStatsFull` | storage.js:120-125 | a statistics update that carries every key does not depend on what was stored |
| `Storage.ThemeOf` | storage.js:5-8 | the theme is never empty: the stored theme, or 'dark' when that is empty |
| `Storage.WithNotification` | storage.js:92-102 | `addNotification` on the log: the new record in front of the 50 read back, trimmed to 100; `WithNotificationShape` states what that gives |
| `Storage.WithNotifications` | storage.js:92-102 | several `addNotification` calls in order; `WithNotificationsConcat` and `HistoryLength` state it |
| `Storage.WithNotificationShape` | storage.js:92-102 | the new record is first and is followed by the newest 50 old records at most, so the log never exceeds 51 records |
| `Storage.WithNotificationsConcat` | storage.js:92-102 | adding two batches of records is adding the first batch and then the second |
| `Storage.HistoryLength` | storage.js:92-102 | after n additions to a log of L records it holds min(L + n, 51) records, with the last one added first |
| `Storage.Store.constructor` | storage.js:16-19 | a fresh installation stores nothing |
| `Storage.Store.GetRepositories` | storage.js:16-19 | the stored list, empty when nothing is stored |
| `Storage.Store.AddRepository` | storage.js:22-44 | an already monitored owner/repo pair is rejected with "Repository already being monitored" and changes nothing; otherwise the new record is appended and returned |
| `Storage.Store.RemoveRepository` | storage.js:47-51 | the list loses exactly the entries with that name; the other keys are unchanged |
| `Storage.Store.UpdateRepository` | storage.js:54-62 | the first entry with the name is merged with the update; the other keys are unchanged |
| `Storage.Store.GetSettings` | storage.js:65-74 | the stored settings, or the defaults |
| `Storage.Store.UpdateSettings` | storage.js:77-82 | the merge of the current settings with the update is stored and returned |
| `Storage.Store.GetTheme` | storage.js:5-8 | the theme of the current settings, 'dark' when it is empty |
| `Storage.Store.SetTheme` | storage.js:11-13 | the current settings are stored with the new theme |
| `Storage.Store.GetNotificationHistory` | storage.js:85-89 | the newest `limit` records |
| `Storage.Store.AddNotification` | storage.js:92-102 | the log becomes the new record followed by the first 50 old ones, trimmed to 100 |
| `Storage.Store.ClearNotificationHistory` | storage.js:105-107 | the log is emptied and nothing else changes |
| `Storage.Store.GetStats` | storage.js:110-117 | the stored statistics, or the defaults |
| `Storage.Store.UpdateStats` | storage.js:120-125 | the merge of the current statistics with the update is stored and returned |
| `GitHubApi.IssuesRequestShape` | github-api.js:7-26 | the request always asks for the 30 newest open issues by creation date, adds `since` only when one is given, and carries credentials exactly when the token is non-empty |
| `GitHubApi.IssuesRequest` | github-api.js:7-26 | the URL, query and headers `fetchIssues` sends; `IssuesRequestShape` states them |
| `GitHubApi.StatusErrorDistinguishes` | github-api.js:43-51 | 404 and 403 have their own messages; any other failing status gives "GitHub API error: " followed by digits that read back as the status |
| `GitHubApi.StatusError` | github-api.js:43-51 | the message thrown for a failing status; `StatusErrorDistinguishes` shows the status can be read back from it |
| `GitHubApi.WithoutPullRequests` | github-api.js:56 | the result is no longer than the input, and every issue it holds is an issue of the input and not a pull request |
| `GitHubApi.LowQuotaWarning` | github-api.js:35-40 | the warning fires exactly for a reply whose remaining header is present and below 10, before the status is looked at |
| `GitHubApi.FetchIssues` | github-api.js:28-68 | succeeds exactly for an OK reply whose body decodes; a network failure fails with its own message, a failing status with `StatusError`, a body that does not decode with the decoding error |
| `GitHubApi.FetchIssuesSuccess` | github-api.js:53-64 | a successful reply yields exactly its entries that are not pull requests, in order, with the remaining quota and the reset time in milliseconds |
| `GitHubApi.FetchIssuesFailure` | github-api.js:43-51 | a failing status fails the fetch with that status's message, whatever the body |
| `GitHubApi.PullRequestsNeverReturned` | github-api.js:56 | no pull request is ever returned; a list of pull requests yields nothing, and a list without any is returned unchanged |
| `GitHubApi.GetNewIssuesSpec` | github-api.js:132-144 | a fetch error propagates even for a baseline; a falsy watermark yields no issues; otherwise the new issues are exactly the fetched issues numbered above the watermark, none of them a pull request |
| `GitHubApi.GetNewIssues` | github-api.js:132-144 | fails exactly when the fetch fails, with the fetch's message; a baseline yields no issues; never more issues than were fetched |
| `GitHubApi.AboveInOrder` | github-api.js:141 | the filter by watermark keeps fetch order: over a concatenation it filters each part, and it keeps a single issue exactly when that issue is above the watermark |
| `GitHubApi.MaxNumber` | background.js:91 | `Math.max` over issue numbers is a number of the list and is at least every other |
| `GitHubApi.CheckRepository` | github-api.js:98-129 | never fails; the repository exists exactly for an OK reply whose body decodes, and then the data is that body |
| `GitHubApi.ValidateToken` | github-api.js:72-95 | never fails; the token is valid exactly for an OK reply whose body decodes, and then the user is that body |
| `Background.OutcomeOf` | background.js:61-117 | a repository is notified only of a non-empty list of issues |
| `Background.Rebaseline` | background.js:99-105 | the watermark the no-new-issues branch stores; `PassProperties.RebaselineValue` states it |
| `Background.RepoStep` | background.js:62-117 | one iteration of the outer loop: mark, notify, write back; `PassProperties.RepoStepEffect` states what it changes |
| `Background.NotifyFrom` | background.js:79-88 | the inner loop, one alert and one log record per issue; `PassProperties.NotifyFromEffect` states it |
| `Background.Conclude` | background.js:54-125 | the loop followed by one statistics update, and nothing without repositories; `PassProperties.EmptyPass` and `PassProperties.ConcludeStats` state it |
| `Background.RunPass` | background.js:49-128 | `checkAllRepositories` over the stored list; `PassProperties.PassStats`, `PassRepositories`, `PassHistory` and `PassAlerts` state it |
| `Background.IsBeginnerFriendly` | background.js:143-146 | some lower-cased label includes a marker; `PassProperties.BeginnerFriendlyIff` states it by position |
| `Background.AlertFor` | background.js:139-164 | the options of the alert for an issue; `PassProperties.AlertClassification` states them |
| `Background.Notify` | background.js:131-172 | `sendNotification` on the dispatcher; `PassProperties.NotifyDisabled` and `PassProperties.NotifyEnabled` state it |
| `Background.Clicked` | background.js:178-185 | the click handler on the dispatcher; `PassProperties.ClickConsumesEntry` states it |
| `Background.ButtonClicked` | background.js:188-199 | the button handler on the dispatcher; `PassProperties.ButtonClickRules` states it |
| `Background.Outcomes` | background.js:61-118 | one outcome per repository of the snapshot, each decided by that repository's own snapshot record and replies alone |
| `Background.BackgroundScript.constructor` | background.js:175 | at load time the URL table is empty, nothing has happened, and no alarm is installed |
| `Background.BackgroundScript.SendNotification` | background.js:131-172 | the dispatcher changes as `Notify` says, from the settings in force; the alarm is untouched |
| `Background.BackgroundScript.CheckAllRepositories` | background.js:49-128 | the store and the dispatcher change exactly as `RunPass` says |
| `Background.BackgroundScript.ReconcileAll` | background.js:59-118 | the outer loop runs one step per repository of the snapshot and returns the number of new issues found |
| `Background.BackgroundScript.ReconcileRepository` | background.js:62-117 | one repository is checked as `RepoStep` says, `catch` included, and the number of its new issues is returned |
| `Background.BackgroundScript.NotifyAll` | background.js:79-88 | one alert and one log record per new issue, in fetch order |
| `Background.BackgroundScript.OnClicked` | background.js:178-185 | a click changes the dispatcher as `Clicked` says |
| `Background.BackgroundScript.OnButtonClicked` | background.js:188-199 | a button click changes the dispatcher as `ButtonClicked` says |
| `Background.BackgroundScript.SetupAlarm` | background.js:32-38 | the alarm is reinstalled with the given period |
| `Background.BackgroundScript.OnMessage` | background.js:202-216 | 'checkNow' runs a pass and answers success; 'updateInterval' reinstalls the alarm and answers success; any other action gets no answer and changes nothing |
| `PassProperties.RebaselineValue` | background.js:99-105 | with nothing new, the watermark becomes the highest re-fetched number unless there is none or it is 0, in which case the old one stays |
| `PassProperties.BaselineOutcome` | background.js:67-108 | a baseline check never notifies; it fails with the message of whichever fetch fails, and otherwise re-baselines to the open issues |
| `PassProperties.DeltaOutcome` | background.js:74-96 | with a watermark W, the new issues are the fetched issues above W; the new watermark is the highest of them, which is above W |
| `PassProperties.QuietOutcome` | background.js:97-108 | with nothing above the watermark, the stored watermark is the highest re-fetched number, and a failed re-fetch fails the repository |
| `PassProperties.WatermarkCanDecrease` | background.js:99-105 | a watermark of 10 with only issue 8 still open becomes 8 |
| `PassProperties.QuietIsStable` | background.js:99-108 | rechecking a repository whose watermark is already the highest open number stores the same watermark |
| `PassProperties.SettledState` | background.js:92-116 | after its check a repository is 'error' with the message exactly when it failed and 'active' otherwise, and was checked now; success keeps `lastError`, failure keeps the watermark |
| `PassProperties.NotifiedSettles` | background.js:74-96 | a repository is notified only when it had a watermark; it then ends 'active' with the highest new issue, above the old watermark, as its watermark |
| `PassProperties.EntriesOf` | background.js:81-87 | one log entry per new issue, in order, carrying the repository's full name and the issue's number, title, URL and labels |
| `PassProperties.AlertsFor` | background.js:79-88 | one `CreateAlert` per issue, in order: the k-th is the alert for the k-th issue |
| `PassProperties.AlertsForNext` | background.js:79-80 | one more issue appends its alert to the alerts of the issues before it |
| `PassProperties.FiledUrls` | background.js:166-171 | the URL table after alerts numbered from `base` have been created for the issues in order; `FiledUrlsMeaning` states it |
| `PassProperties.FiledUrlsNext` | background.js:168-170 | one more alert files one more URL, under its identifier when there is one |
| `PassProperties.FiledUrlsKeeps` | background.js:168-170 | an entry whose key no new alert is given keeps its URL |
| `PassProperties.FiledUrlsOnly` | background.js:168-170 | every key of the table was there before or is the identifier of a new alert |
| `PassProperties.FiledUrlsLatest` | background.js:168-170 | the key of a new alert, given to no later one, maps to the URL of that alert's issue |
| `PassProperties.FiledUrlsMeaning` | background.js:166-171 | the three facts together: old entries kept unless overwritten, nothing else added, each new key holding the URL of the last issue filed under it |
| `PassProperties.FiledUrlsConcat` | background.js:166-171 | filing two lists of issues in a row is filing their concatenation |
| `PassProperties.UrlsNext` | background.js:166-171 | one more `sendNotification` with notifications on extends the filed URLs by that issue's |
| `PassProperties.EffectsNext` | background.js:166 | one more `sendNotification` with notifications on appends the issue's alert |
| `PassProperties.AlertedNext` | background.js:79-80 | one more `sendNotification` with notifications on extends the alerts, the URL table and the count by one issue |
| `PassProperties.AlertedConcat` | background.js:61-88 | two runs of alerts in a row amount to one run over both lists of issues |
| `PassProperties.IssuesOf` | background.js:74-79 | the issues an outcome notifies, as many as it counts |
| `PassProperties.NotifyFromEffect` | background.js:79-88 | the inner loop leaves the repositories, settings and statistics alone and logs the entries in order. With notifications off the dispatcher is unchanged. With them on, the alerts `AlertsFor` are appended after the earlier effects in fetch order, their URLs are filed as `FiledUrls` says, and one alert is created per issue |
| `PassProperties.RepoStepEffect` | background.js:62-117 | one iteration updates its repository twice by name, logs its new issues, and leaves the settings and statistics alone. With notifications on, the dispatcher gains exactly the alerts and URL entries of its new issues, in order; with them off, it is unchanged |
| `PassProperties.RunPrefixEffect` | background.js:61-118 | the loop leaves the settings and statistics alone and logs every new issue in visiting order. With notifications on, the effects so far are followed by `PassAlertEffects`, one alert per new issue titled with its repository, and the URLs of `PassIssues` are filed. With notifications off, the dispatcher is unchanged |
| `PassProperties.EmptyPass` | background.js:54-57 | a pass over an empty list changes nothing, statistics included |
| `PassProperties.PassIssues` | background.js:61-88 | the new issues of a pass in the order notified, as many as the pass counts |
| `PassProperties.PassAlertEffects` | background.js:61-88 | the alerts of a pass in order, one per new issue it counts |
| `PassProperties.RunPrefixFrame` | background.js:61-118 | the loop leaves the settings and the statistics as they were |
| `PassProperties.ConcludeStats` | background.js:120-125 | otherwise the statistics are written once, from the values read at the start: the new issues found are added, the checks go up by one, and the last check time is now |
| `PassProperties.PassStats` | background.js:49-128 | the same for a whole pass over the stored list, and the settings are untouched |
| `PassProperties.SettleAt` | storage.js:54-62 | the two updates of a repository settle that repository alone when no earlier entry shares its name |
| `PassProperties.SettleNext` | background.js:61-117 | one more iteration extends the settled prefix of the repository list by one |
| `PassProperties.RunPrefixRepositories` | background.js:61-118 | after i iterations the first i repositories are settled and the rest are untouched |
| `PassProperties.PassRepositories` | background.js:61-118 | with distinct names, every repository ends in the state its own replies decide, whatever happens to the others, and none is added or lost |
| `PassProperties.PassEntriesCount` | background.js:76-87 | a pass logs as many records as the new issues it counts |
| `PassProperties.PassEntriesNames` | background.js:82 | every logged record names a repository of the snapshot |
| `PassProperties.ConcludeHistory` | background.js:79-88 | a pass adds one log record per new issue, in the order found, and a log of at most 51 records stays within 51 |
| `PassProperties.PassHistory` | background.js:49-128 | the same for a whole pass; no record names a repository outside the snapshot |
| `PassProperties.PassAlerts` | background.js:79-88 | with notifications on, a whole pass appends exactly the alerts `PassAlertEffects` after the earlier effects and files the URLs of its new issues in order; with notifications off it leaves the alerts and the URL table alone |
| `PassProperties.BeginnerFriendlyIff` | background.js:143-146 | an issue is beginner-friendly exactly when some lower-cased label contains one of the four markers at some position |
| `PassProperties.AlertClassification` | background.js:139-164 | a beginner-friendly issue gets priority 2 and the extra line, and outside Firefox an alert that stays until dismissed; other issues get priority 1; outside Firefox there is the one "View Issue" button, and in Firefox neither option |
| `PassProperties.LabelExamples` | background.js:143-146 | the label "Easy" makes an issue beginner-friendly and "bug" does not |
| `PassProperties.NotifyDisabled` | background.js:134-136 | with notifications off, `sendNotification` does nothing |
| `PassProperties.NotifyEnabled` | background.js:148-171 | with notifications on, one alert is created, and the issue's URL is filed under the alert's identifier when there is one; no other entry of the table changes |
| `PassProperties.ClickConsumesEntry` | background.js:178-185 | clicking a known alert opens its URL, clears the alert and forgets it; a second click, or a click on an unknown alert, changes nothing |
| `PassProperties.ButtonClickRules` | background.js:188-199 | only the first button acts, only outside Firefox, and it acts as a click |
| `PassProperties.NoPullRequests` | github-api.js:56 | a list without pull requests passes the filter unchanged |
| `PassProperties.FirstCheck` | background.js:67-108 | a new repository whose open issues are #5, #3 and #1 is not notified, and its watermark becomes 5 |
| `PassProperties.SecondCheck` | background.js:74-96 | once #7 is opened, it alone is notified and the watermark becomes 7 |
| `PassProperties.PullRequestIgnored` | github-api.js:56 | a pull request above the watermark is never notified |
| `PassProperties.MissingOutcome` | github-api.js:44-45 | a repository answering 404 fails with "Repository not found" |
| `PassProperties.LiveOutcome` | github-api.js:141 | with watermark 3 and open issues #5, #4 and #3, #5 and #4 are notified |
| `PassProperties.FailureThenNotice` | background.js:61-118 | in a pass over two repositories, the failure of the first does not stop the second |
| `PassProperties.FailureThenNoticeCounted` | background.js:121-125 | in that pass only the second repository's issues are counted |
| `PassProperties.FailureIsIsolated` | background.js:110-117 | a 404 on the first repository leaves it 'error' and the second 'active' with watermark 5 and two issues counted |
| `Popup.ParseSound` | popup.js:205-219 | the only errors are the two messages, the empty-input one exactly for blank input, and what is accepted is a repository name made of the two parts |
| `Popup.ParseAcceptsNames` | popup.js:205-219 | every repository name, with its surrounding white space, is accepted as its two parts |
| `Popup.ParseIff` | popup.js:205-219 | the input is accepted exactly when, trimmed, it is a repository name |
| `Popup.RejectsNonNames` | popup.js:213-216 | non-blank input that is not a repository name is rejected as malformed |
| `Popup.RejectsThreeParts` | popup.js:213-216 | a third part, as in "a/b/c", is rejected |
| `Popup.NameHasInnerSlash` | popup.js:214 | a repository name neither starts nor ends with '/' |
| `Popup.RejectsEmptyOwner` | popup.js:214 | an empty owner, as in "/b", is rejected |
| `Popup.RejectsEmptyRepository` | popup.js:214 | an empty repository part, as in "a/", is rejected |
| `Popup.RejectsBlank` | popup.js:205-210 | white space alone is an empty input |
| `Popup.AcceptsPadded` | popup.js:205 | white space around a valid name is dropped |
| `Popup.ParseRepositoryInput` | popup.js:203-219 | the validation step of `addRepository`; `ParseSound`, `ParseAcceptsNames` and `ParseIff` state it |
| `Popup.ValidRecords` | storage.js:31-39 | every record's full name is `owner/repo` made of its own owner and repository, as `addRepository` builds it |
| `Popup.NameDeterminesParts` | popup.js:213-219 | a repository name `owner/repo` determines its owner and repository |
| `Popup.AddKeepsUnique` | storage.js:22-44 | adding an accepted input that is not monitored yet keeps the full names distinct and every record well formed |
| `Popup.AddRepository` | popup.js:203-257 | malformed input, an unknown repository and a duplicate each show their message and leave the store as it was; otherwise the repository is appended and "Added owner/repo" is shown; the existence check uses the stored token; distinct full names and well-formed records stay so |
| `Popup.FormatTimeAgoBands` | popup.js:309-316 | "Just now" exactly under a minute; otherwise the whole number of minutes under an hour, of hours under a day, and of days beyond |
| `Popup.FutureIsJustNow` | popup.js:310-312 | a time in the future, or less than a minute ago, is "Just now" |
| `Popup.FormatTimeAgoEdges` | popup.js:312-315 | 59 999 ms is still "Just now", an hour is "1h ago" and two days are "2d ago" |
| `Popup.FormatTimeAgo` | popup.js:309-316 | `formatTimeAgo`; `FormatTimeAgoBands` states it band by band |
| `Popup.NeverPlaceholder` | popup.js:49-53 | a relative time is never "Not checked" or "Never" |
| `Popup.RepoItemOf` | popup.js:93-96 | the list shows "Not checked" exactly for a repository never checked, and an issue count of 0 exactly when there is no truthy watermark |
| `Popup.StatsBarOf` | popup.js:44-54 | the bar shows the repository count and issues found, and "Never" exactly when there was no check |

## Left out

- `settings.js` is not part of this model. It is the settings page, display aside. Saving goes through `updateSettings` and then sends 'updateInterval' with the new interval. Exporting reads the repositories, settings and statistics. Clearing writes `repositories: []` and the zero statistics to storage directly, bypassing the store's functions, and empties the log through `clearNotificationHistory`.
- DOM rendering, HTML escaping, toasts, the loading state of buttons, the theme toggle and the notification-history pane of the popup are left out. They are display only.
- The popup's `loadData`, its auto-refresh timer, and its `checkNow` and `removeRepository` handlers are left out. They only call the store, send a message and redraw.
- The installation welcome alert and the `onInstalled`, `onStartup` and `onAlarm` listeners are left out. They only install an alarm or start a pass.
- `fetch`, JSON decoding, URL encoding and HTTP headers are left out. A reply is a value: its status, the two rate-limit headers as optional integers, and a body that decodes or does not. `parseInt` of the headers is not modelled.
- The ISO 8601 formatting of `since` is left out. `since` is passed already formatted, and the pass never sends one.
- Console logging is left out, and so is the low-quota warning's output. `GitHubApi.LowQuotaWarning` only states when it fires.
- Concurrency is left out. Two passes can overlap in the extension (the alarm and 'checkNow'), and nothing guards against it; the model runs one pass at a time. Failed storage writes are also left out.
- `Date.now()` is read several times during a pass. The model uses one `now` for the whole pass.
- Background.BackgroundScript.OnMessage: does not model the `{ success: false }` reply to a failing pass, because every failure inside the loop is caught and the store is modelled without failing writes, so a pass cannot fail.
- Text.Lower: covers ASCII capitals only; `toLowerCase` also lowers other Unicode letters.
- Popup.RepoItemOf: does not model the fallback `|| 'active'` for the status, because every stored record carries a status.
- Background.Outcomes: the replies for a pass are fixed in advance, one pair per snapshot index. The model does not represent fetches whose answers depend on earlier writes of the same pass.
- The statistics bar's `|| 0` on `totalIssuesFound` is modelled, but stored statistics always hold a number.
