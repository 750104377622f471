/** What a reconciliation pass does, stated over the functions of module `Background` and proved:
    the decision for one repository (baseline, new issues, nothing new, failure), the final state of
    every repository, the notification log, the alerts and the statistics of a whole pass, and the
    click table. */
module PassProperties {
  import opened Wrappers
  import Js
  import Text
  import opened Storage
  import opened GitHubApi
  import opened Background

  // ---------------------------------------------------------------- one repository

  /** The watermark of the no-new-issues branch is the highest re-fetched number unless there is no
      re-fetched issue or that number is 0, in which case the old watermark stays. */
  lemma RebaselineValue(issues: seq<Issue>, previous: Option<int>)
    ensures |issues| > 0 && MaxNumber(issues) != 0 ==> Rebaseline(issues, previous) == Some(MaxNumber(issues))
    ensures |issues| == 0 || MaxNumber(issues) == 0 ==> Rebaseline(issues, previous) == previous
  {
  }

  /** A baseline check (no watermark, or 0) never notifies. When both fetches succeed it stores the
      highest number among the re-fetched issues (or keeps the old watermark when there is none);
      a failure of either fetch fails the repository with that fetch's message. */
  lemma BaselineOutcome(repo: Repo, first: Response, second: Response)
    requires !Js.Truthy(repo.lastIssueNumber)
    ensures !OutcomeOf(repo, first, second).Notified?
    ensures FetchIssues(first).Err? ==> OutcomeOf(repo, first, second) == Failed(FetchIssues(first).error)
    ensures FetchIssues(first).Ok? && FetchIssues(second).Err? ==>
              OutcomeOf(repo, first, second) == Failed(FetchIssues(second).error)
    ensures FetchIssues(first).Ok? && FetchIssues(second).Ok? ==>
              var issues := FetchIssues(second).value.issues;
              OutcomeOf(repo, first, second)
                == Quiet(if |issues| > 0 && MaxNumber(issues) != 0 then Some(MaxNumber(issues)) else repo.lastIssueNumber)
  {
    if FetchIssues(first).Ok? && FetchIssues(second).Ok? {
      RebaselineValue(FetchIssues(second).value.issues, repo.lastIssueNumber);
    }
  }

  /** With a watermark W, the new issues are the fetched non-pull-request issues above W, in fetch
      order; when there are any, the stored watermark becomes the highest of them, which is above W. */
  lemma DeltaOutcome(repo: Repo, first: Response, second: Response)
    requires Js.Truthy(repo.lastIssueNumber) && FetchIssues(first).Ok?
    requires |Above(FetchIssues(first).value.issues, repo.lastIssueNumber.value)| > 0
    ensures var newIssues := Above(FetchIssues(first).value.issues, repo.lastIssueNumber.value);
            && OutcomeOf(repo, first, second) == Notified(newIssues)
            && FinalPatch(repo, OutcomeOf(repo, first, second), 0).lastIssueNumber == Some(Some(MaxNumber(newIssues)))
            && MaxNumber(newIssues) > repo.lastIssueNumber.value
            && FoundCount(OutcomeOf(repo, first, second)) == |newIssues|
  {
    var w := repo.lastIssueNumber.value;
    var newIssues := Above(FetchIssues(first).value.issues, w);
    var k :| 0 <= k < |newIssues| && newIssues[k].number == MaxNumber(newIssues);
    assert newIssues[k] in newIssues;
  }

  /** With a watermark W and nothing above it, the pass re-fetches and stores the highest open number,
      even one below W; when the re-fetch fails the repository fails with its message. */
  lemma QuietOutcome(repo: Repo, first: Response, second: Response)
    requires Js.Truthy(repo.lastIssueNumber) && FetchIssues(first).Ok?
    requires forall k :: 0 <= k < |FetchIssues(first).value.issues| ==>
               FetchIssues(first).value.issues[k].number <= repo.lastIssueNumber.value
    ensures FetchIssues(second).Err? ==> OutcomeOf(repo, first, second) == Failed(FetchIssues(second).error)
    ensures FetchIssues(second).Ok? ==>
              OutcomeOf(repo, first, second) == Quiet(Rebaseline(FetchIssues(second).value.issues, repo.lastIssueNumber))
  {
    var issues := FetchIssues(first).value.issues;
    Js.FilterDropsAll(issues, (i: Issue) => i.number > repo.lastIssueNumber.value);
  }

  /** The branch without new issues (commented in background.js as only updating the check time) stores
      the highest open number as the watermark, so a watermark of 10 with only issue 8 still open
      (issue 10 was closed) drops to 8; the notifying branch, by contrast, keeps the larger of the two. */
  lemma WatermarkCanDecrease(repo: Repo, open: Response)
    requires repo.lastIssueNumber == Some(10)
    requires open == Reply(200, None, None, Parsed([Issue(8, "t", "u", [], false)]))
    ensures OutcomeOf(repo, open, open) == Quiet(Some(8))
  {
    var issues := [Issue(8, "t", "u", [], false)];
    NoPullRequests(issues);
    QuietOutcome(repo, open, open);
    RebaselineValue(issues, Some(10));
  }

  /** Rechecking a repository whose watermark already is the highest open number, while the same
      issues are open, stores that same watermark again. */
  lemma QuietIsStable(repo: Repo, response: Response)
    requires FetchIssues(response).Ok? && |FetchIssues(response).value.issues| > 0
    requires repo.lastIssueNumber == Some(MaxNumber(FetchIssues(response).value.issues))
    requires MaxNumber(FetchIssues(response).value.issues) != 0
    ensures OutcomeOf(repo, response, response) == Quiet(repo.lastIssueNumber)
  {
    QuietOutcome(repo, response, response);
  }

  /** The state a repository of the snapshot is left in: marked as checking, then given its final patch. */
  function Settled(repo: Repo, o: Outcome, now: int): Repo
    requires o.Notified? ==> |o.newIssues| > 0
  {
    Merge(Merge(repo, CheckingPatch), FinalPatch(repo, o, now))
  }

  /** After its check a repository is 'error' with the message exactly when it failed, 'active' otherwise, and
      checked now; a success leaves `lastError` as it was; a failure leaves the watermark as it was. */
  lemma SettledState(repo: Repo, o: Outcome, now: int)
    requires o.Notified? ==> |o.newIssues| > 0
    ensures var r := Settled(repo, o, now);
            && r.owner == repo.owner && r.repo == repo.repo && r.fullName == repo.fullName && r.addedAt == repo.addedAt
            && r.lastChecked == Some(now)
            && (o.Failed? <==> r.status == Error)
            && (o.Failed? ==> r.lastError == Some(o.message) && r.lastIssueNumber == repo.lastIssueNumber)
            && (!o.Failed? ==> r.status == Active && r.lastError == repo.lastError)
            && (o.Quiet? ==> r.lastIssueNumber == o.watermark)
  {
  }

  /** A repository is notified only when it had a watermark, and then it ends 'active' with the highest
      new issue, above the old watermark, as its watermark. */
  lemma NotifiedSettles(repo: Repo, first: Response, second: Response, now: int)
    requires OutcomeOf(repo, first, second).Notified?
    ensures var o := OutcomeOf(repo, first, second);
            && Js.Truthy(repo.lastIssueNumber)
            && MaxNumber(o.newIssues) > repo.lastIssueNumber.value
            && Settled(repo, o, now).status == Active
            && Settled(repo, o, now).lastIssueNumber == Some(MaxNumber(o.newIssues))
  {
    DeltaOutcome(repo, first, second);
    SettledState(repo, OutcomeOf(repo, first, second), now);
  }

  // ---------------------------------------------------------------- the inner loop

  /** The log entries for a list of new issues, in order. */
  function EntriesOf(repo: Repo, issues: seq<Issue>): (es: seq<NotificationEntry>)
    ensures |es| == |issues|
    ensures forall k :: 0 <= k < |issues| ==> es[k] == EntryOf(repo, issues[k])
  {
    if |issues| == 0 then [] else [EntryOf(repo, issues[0])] + EntriesOf(repo, issues[1..])
  }

  /** The entries of one more issue are the entries so far followed by its own. */
  lemma EntriesOfNext(repo: Repo, issues: seq<Issue>, j: nat)
    requires 0 < j <= |issues|
    ensures EntriesOf(repo, issues[..j]) == EntriesOf(repo, issues[..j - 1]) + [EntryOf(repo, issues[j - 1])]
  {
  }

  /** The alerts for a list of new issues of the repository `fullName`, in order. */
  function AlertsFor(fullName: string, issues: seq<Issue>, isFirefox: bool): (es: seq<Effect>)
    ensures |es| == |issues|
    ensures forall k :: 0 <= k < |issues| ==> es[k] == CreateAlert(AlertFor(fullName, issues[k], isFirefox))
  {
    if |issues| == 0 then [] else [CreateAlert(AlertFor(fullName, issues[0], isFirefox))] + AlertsFor(fullName, issues[1..], isFirefox)
  }

  /** The alerts of one more issue are the alerts so far followed by its own. */
  lemma AlertsForNext(fullName: string, issues: seq<Issue>, isFirefox: bool, j: nat)
    requires 0 < j <= |issues|
    ensures AlertsFor(fullName, issues[..j], isFirefox)
            == AlertsFor(fullName, issues[..j - 1], isFirefox) + [CreateAlert(AlertFor(fullName, issues[j - 1], isFirefox))]
  {
    var longer := AlertsFor(fullName, issues[..j], isFirefox);
    var shorter := AlertsFor(fullName, issues[..j - 1], isFirefox) + [CreateAlert(AlertFor(fullName, issues[j - 1], isFirefox))];
    forall k | 0 <= k < j
      ensures longer[k] == shorter[k]
    {
      if k < j - 1 {
        assert issues[..j][k] == issues[..j - 1][k];
      }
    }
  }

  /** The click table after alerts `base`, `base + 1`, ... have been created for `issues`, in order:
      each non-empty identifier the platform gives is filed with its issue's URL. */
  function FiledUrls(m: map<string, string>, issues: seq<Issue>, ids: nat -> string, base: nat): map<string, string>
    decreases |issues|
  {
    if |issues| == 0 then m
    else
      var last := |issues| - 1;
      var id := ids(base + last);
      if id != "" then FiledUrls(m, issues[..last], ids, base)[id := issues[last].htmlUrl]
      else FiledUrls(m, issues[..last], ids, base)
  }

  /** The table after one more alert: its identifier, when non-empty, is filed with its issue's URL. */
  lemma FiledUrlsNext(m: map<string, string>, issues: seq<Issue>, ids: nat -> string, base: nat, j: nat)
    requires 0 < j <= |issues|
    ensures var before := FiledUrls(m, issues[..j - 1], ids, base);
            var id := ids(base + j - 1);
            FiledUrls(m, issues[..j], ids, base) == if id != "" then before[id := issues[j - 1].htmlUrl] else before
  {
    assert issues[..j][..j - 1] == issues[..j - 1];
  }

  /** An entry whose key no alert got is kept. */
  lemma {:induction false} FiledUrlsKeeps(m: map<string, string>, issues: seq<Issue>, ids: nat -> string, base: nat, key: string)
    requires key in m && forall n :: base <= n < base + |issues| ==> ids(n) != key
    ensures key in FiledUrls(m, issues, ids, base) && FiledUrls(m, issues, ids, base)[key] == m[key]
    decreases |issues|
  {
    if |issues| > 0 {
      FiledUrlsKeeps(m, issues[..|issues| - 1], ids, base, key);
    }
  }

  /** Nothing is filed but under the identifier of some alert. */
  lemma {:induction false} FiledUrlsOnly(m: map<string, string>, issues: seq<Issue>, ids: nat -> string, base: nat, key: string)
    requires key in FiledUrls(m, issues, ids, base)
    ensures key in m || exists n :: base <= n < base + |issues| && ids(n) == key
    decreases |issues|
  {
    if |issues| > 0 {
      var last := |issues| - 1;
      if key != ids(base + last) {
        FiledUrlsOnly(m, issues[..last], ids, base, key);
      }
    }
  }

  /** An alert's identifier leads to its issue's URL unless a later alert got the same identifier. */
  lemma {:induction false} FiledUrlsLatest(m: map<string, string>, issues: seq<Issue>, ids: nat -> string, base: nat, k: nat)
    requires k < |issues| && ids(base + k) != ""
    requires forall n :: base + k < n < base + |issues| ==> ids(n) != ids(base + k)
    ensures ids(base + k) in FiledUrls(m, issues, ids, base) && FiledUrls(m, issues, ids, base)[ids(base + k)] == issues[k].htmlUrl
    decreases |issues|
  {
    var last := |issues| - 1;
    if k < last {
      FiledUrlsLatest(m, issues[..last], ids, base, k);
    }
  }

  /** What the filing means: an entry whose key no alert got is kept, nothing else is added, and each
      alert's identifier leads to its issue's URL unless a later alert got the same identifier
      (alert `n` is the one for `issues[n - base]`). */
  lemma FiledUrlsMeaning(m: map<string, string>, issues: seq<Issue>, ids: nat -> string, base: nat)
    ensures var r := FiledUrls(m, issues, ids, base);
            && (forall key :: key in m && (forall n :: base <= n < base + |issues| ==> ids(n) != key) ==> key in r && r[key] == m[key])
            && (forall key :: key in r ==> key in m || exists n :: base <= n < base + |issues| && ids(n) == key)
            && (forall n :: base <= n < base + |issues| && ids(n) != "" && (forall n' :: n < n' < base + |issues| ==> ids(n') != ids(n))
                  ==> ids(n) in r && r[ids(n)] == issues[n - base].htmlUrl)
  {
    forall key | key in m && (forall n :: base <= n < base + |issues| ==> ids(n) != key) {
      FiledUrlsKeeps(m, issues, ids, base, key);
    }
    forall key | key in FiledUrls(m, issues, ids, base) {
      FiledUrlsOnly(m, issues, ids, base, key);
    }
    forall n | base <= n < base + |issues| && ids(n) != "" && (forall n' :: n < n' < base + |issues| ==> ids(n') != ids(n)) {
      FiledUrlsLatest(m, issues, ids, base, n - base);
    }
  }

  /** Filing the URLs of two batches of alerts is filing the first batch and then the second. */
  lemma {:induction false} FiledUrlsConcat(m: map<string, string>, a: seq<Issue>, b: seq<Issue>, ids: nat -> string, base: nat)
    ensures FiledUrls(m, a + b, ids, base) == FiledUrls(FiledUrls(m, a, ids, base), b, ids, base + |a|)
    decreases |b|
  {
    if |b| == 0 {
      assert a + b == a;
    } else {
      var last := |b| - 1;
      assert (a + b)[..|a + b| - 1] == a + b[..last];
      assert (a + b)[|a + b| - 1] == b[last];
      FiledUrlsConcat(m, a, b[..last], ids, base);
    }
  }

  /** The dispatcher `after` is that of `w` once `alerts` have been created for `issues`, in order:
      the alerts appended, their URLs filed under the identifiers the platform gives, one more
      notification created per issue. */
  predicate Alerted(after: Dispatch, w: Dispatch, issues: seq<Issue>, alerts: seq<Effect>, platform: Platform) {
    && after.urlMap == FiledUrls(w.urlMap, issues, platform.assignId, w.created)
    && after.effects == w.effects + alerts
    && after.created == w.created + |issues|
  }

  /** Two runs of alerts in a row amount to one run over both lists. */
  lemma AlertedConcat(d0: Dispatch, d1: Dispatch, d2: Dispatch, a: seq<Issue>, ea: seq<Effect>, b: seq<Issue>, eb: seq<Effect>,
                      platform: Platform)
    requires Alerted(d1, d0, a, ea, platform) && Alerted(d2, d1, b, eb, platform)
    ensures Alerted(d2, d0, a + b, ea + eb, platform)
  {
    FiledUrlsConcat(d0.urlMap, a, b, platform.assignId, d0.created);
    assert d0.effects + ea + eb == d0.effects + (ea + eb);
  }

  /** The world `after` the first `j` iterations of the inner loop from `w`: the repositories, settings and
      statistics alone, the first `j` entries logged in order, and, exactly when notifications are
      on, the first `j` alerts created in order with their URLs filed. */
  predicate NotifiedUpTo(after: World, w: World, repo: Repo, issues: seq<Issue>, now: int, platform: Platform, j: nat)
    requires j <= |issues|
  {
    && after.store.repositories == w.store.repositories
    && after.store.settings == w.store.settings
    && after.store.stats == w.store.stats
    && after.store.history == WithNotifications(w.store.history, EntriesOf(repo, issues[..j]), now)
    && (!SettingsOrDefault(w.store.settings).notificationsEnabled ==> after.dispatch == w.dispatch)
    && (SettingsOrDefault(w.store.settings).notificationsEnabled ==>
          Alerted(after.dispatch, w.dispatch, issues[..j], AlertsFor(repo.fullName, issues[..j], platform.isFirefox), platform))
  }

  /** One more `sendNotification` with notifications on files one more URL ... */
  lemma UrlsNext(d: Dispatch, w: Dispatch, settings: Settings, fullName: string, issues: seq<Issue>, platform: Platform, j: nat)
    requires 0 < j <= |issues| && settings.notificationsEnabled
    requires d.urlMap == FiledUrls(w.urlMap, issues[..j - 1], platform.assignId, w.created) && d.created == w.created + j - 1
    ensures Notify(d, settings, fullName, issues[j - 1], platform).urlMap == FiledUrls(w.urlMap, issues[..j], platform.assignId, w.created)
  {
    FiledUrlsNext(w.urlMap, issues, platform.assignId, w.created, j);
  }

  /** ... and appends one more alert. */
  lemma EffectsNext(d: Dispatch, w: Dispatch, settings: Settings, fullName: string, issues: seq<Issue>, platform: Platform, j: nat)
    requires 0 < j <= |issues| && settings.notificationsEnabled
    requires d.effects == w.effects + AlertsFor(fullName, issues[..j - 1], platform.isFirefox)
    ensures Notify(d, settings, fullName, issues[j - 1], platform).effects == w.effects + AlertsFor(fullName, issues[..j], platform.isFirefox)
  {
    AlertsForNext(fullName, issues, platform.isFirefox, j);
  }

  /** So one more `sendNotification` with notifications on extends the alerts by one. */
  lemma AlertedNext(d: Dispatch, w: Dispatch, settings: Settings, fullName: string, issues: seq<Issue>, platform: Platform, j: nat)
    requires 0 < j <= |issues| && settings.notificationsEnabled
    requires Alerted(d, w, issues[..j - 1], AlertsFor(fullName, issues[..j - 1], platform.isFirefox), platform)
    ensures Alerted(Notify(d, settings, fullName, issues[j - 1], platform), w,
                    issues[..j], AlertsFor(fullName, issues[..j], platform.isFirefox), platform)
  {
    UrlsNext(d, w, settings, fullName, issues, platform, j);
    EffectsNext(d, w, settings, fullName, issues, platform, j);
  }

  /** The first `j` iterations of the inner loop do exactly that. */
  lemma {:induction false} NotifyFromEffect(w: World, repo: Repo, issues: seq<Issue>, now: int, platform: Platform, j: nat)
    requires j <= |issues|
    ensures NotifiedUpTo(NotifyFrom(w, repo, issues, now, platform, j), w, repo, issues, now, platform, j)
  {
    if j > 0 {
      NotifyFromEffect(w, repo, issues, now, platform, j - 1);
      EntriesOfNext(repo, issues, j);
      WithNotificationsConcat(w.store.history, EntriesOf(repo, issues[..j - 1]), [EntryOf(repo, issues[j - 1])], now);
      var before := NotifyFrom(w, repo, issues, now, platform, j - 1);
      var settings := SettingsOrDefault(w.store.settings);
      if settings.notificationsEnabled {
        AlertedNext(before.dispatch, w.dispatch, settings, repo.fullName, issues, platform, j);
      }
    }
  }

  /** The new issues an outcome notifies: none unless it is a notification. */
  function IssuesOf(o: Outcome): (issues: seq<Issue>)
    ensures |issues| == FoundCount(o)
  {
    if o.Notified? then o.newIssues else []
  }

  /** What one iteration of the outer loop does to each part of the world. */
  lemma RepoStepEffect(w: World, repo: Repo, o: Outcome, now: int, platform: Platform)
    requires Possible(o)
    ensures var after := RepoStep(w, repo, o, now, platform);
            var enabled := SettingsOrDefault(w.store.settings).notificationsEnabled;
            && after.store.repositories
               == UpdateFirst(UpdateFirst(w.store.repositories, repo.fullName, CheckingPatch), repo.fullName, FinalPatch(repo, o, now))
            && after.store.settings == w.store.settings
            && after.store.stats == w.store.stats
            && after.store.history == WithNotifications(w.store.history, EntriesOf(repo, IssuesOf(o)), now)
            && (!enabled ==> after.dispatch == w.dispatch)
            && (enabled ==> Alerted(after.dispatch, w.dispatch, IssuesOf(o), AlertsFor(repo.fullName, IssuesOf(o), platform.isFirefox), platform))
  {
    var checking := UpdateIn(w, repo.fullName, CheckingPatch);
    if o.Notified? {
      NotifyFromEffect(checking, repo, o.newIssues, now, platform, |o.newIssues|);
      assert o.newIssues[..|o.newIssues|] == o.newIssues;
    } else {
      assert w.dispatch.effects + AlertsFor(repo.fullName, [], platform.isFirefox) == w.dispatch.effects;
    }
  }

  // ---------------------------------------------------------------- frames and statistics of the pass

  /** The entries a pass logs, in the order the loop visits them. */
  function PassEntries(repos: seq<Repo>, outcomes: seq<Outcome>, i: nat): seq<NotificationEntry>
    requires i <= |repos| && i <= |outcomes|
  {
    if i == 0 then [] else PassEntries(repos, outcomes, i - 1) + EntriesOf(repos[i - 1], IssuesOf(outcomes[i - 1]))
  }

  /** The new issues of a pass, in the order the loop notifies them: as many as it counts. */
  function PassIssues(outcomes: seq<Outcome>, i: nat): (issues: seq<Issue>)
    requires i <= |outcomes|
    ensures |issues| == NewIssueCount(outcomes, i)
  {
    if i == 0 then [] else PassIssues(outcomes, i - 1) + IssuesOf(outcomes[i - 1])
  }

  /** The alerts a pass creates when notifications are on, in order, each titled with its repository. */
  function PassAlertEffects(repos: seq<Repo>, outcomes: seq<Outcome>, i: nat, isFirefox: bool): (es: seq<Effect>)
    requires i <= |repos| && i <= |outcomes|
    ensures |es| == NewIssueCount(outcomes, i)
  {
    if i == 0 then []
    else PassAlertEffects(repos, outcomes, i - 1, isFirefox) + AlertsFor(repos[i - 1].fullName, IssuesOf(outcomes[i - 1]), isFirefox)
  }

  /** The world `after` the first `i` iterations of the outer loop from `w`: the settings and statistics
      alone, the entries of `PassEntries` logged in order, and, exactly when notifications are on, the
      alerts of `PassAlertEffects` appended and the URLs of `PassIssues` filed. */
  predicate RanUpTo(after: World, w: World, repos: seq<Repo>, outcomes: seq<Outcome>, now: int, platform: Platform, i: nat)
    requires i <= |repos| && i <= |outcomes|
  {
    && after.store.settings == w.store.settings
    && after.store.stats == w.store.stats
    && after.store.history == WithNotifications(w.store.history, PassEntries(repos, outcomes, i), now)
    && (!SettingsOrDefault(w.store.settings).notificationsEnabled ==> after.dispatch == w.dispatch)
    && (SettingsOrDefault(w.store.settings).notificationsEnabled ==>
          Alerted(after.dispatch, w.dispatch, PassIssues(outcomes, i), PassAlertEffects(repos, outcomes, i, platform.isFirefox), platform))
  }

  /** The first `i` iterations of a pass's loop do exactly that. */
  lemma {:induction false} RunPrefixEffect(w: World, repos: seq<Repo>, outcomes: seq<Outcome>, now: int, platform: Platform, i: nat)
    requires Decided(repos, outcomes) && i <= |repos|
    ensures RanUpTo(RunPrefix(w, repos, outcomes, now, platform, i), w, repos, outcomes, now, platform, i)
  {
    if i > 0 {
      RunPrefixEffect(w, repos, outcomes, now, platform, i - 1);
      var o := outcomes[i - 1];
      var before := RunPrefix(w, repos, outcomes, now, platform, i - 1);
      RepoStepEffect(before, repos[i - 1], o, now, platform);
      WithNotificationsConcat(w.store.history, PassEntries(repos, outcomes, i - 1), EntriesOf(repos[i - 1], IssuesOf(o)), now);
      if SettingsOrDefault(w.store.settings).notificationsEnabled {
        AlertedConcat(w.dispatch, before.dispatch, RunPrefix(w, repos, outcomes, now, platform, i).dispatch,
                      PassIssues(outcomes, i - 1), PassAlertEffects(repos, outcomes, i - 1, platform.isFirefox),
                      IssuesOf(o), AlertsFor(repos[i - 1].fullName, IssuesOf(o), platform.isFirefox), platform);
      }
    }
  }

  /** An empty repository list makes the pass a no-op: the statistics are not even touched. */
  lemma EmptyPass(w: World, now: int, platform: Platform)
    requires |w.store.repositories| == 0
    ensures RunPass(w, [], [], now, platform) == w
  {
  }

  /** The loop of a pass leaves the settings and the statistics alone. */
  lemma RunPrefixFrame(w: World, repos: seq<Repo>, outcomes: seq<Outcome>, now: int, platform: Platform)
    requires Decided(repos, outcomes)
    ensures RunPrefix(w, repos, outcomes, now, platform, |repos|).store.settings == w.store.settings
    ensures RunPrefix(w, repos, outcomes, now, platform, |repos|).store.stats == w.store.stats
  {
    RunPrefixEffect(w, repos, outcomes, now, platform, |repos|);
  }

  /** Otherwise the statistics are written exactly once, from the values read at the start: the count of
      new issues found is added, the number of checks goes up by one, and the last check time is now. */
  lemma ConcludeStats(w: World, repos: seq<Repo>, outcomes: seq<Outcome>, now: int, platform: Platform)
    requires Decided(repos, outcomes) && |repos| > 0
    ensures var start := StatsOrDefault(w.store.stats);
            Conclude(w, repos, outcomes, now, platform).store.stats
              == Some(Stats(start.totalIssuesFound + NewIssueCount(outcomes, |repos|), start.totalChecks + 1, Some(now)))
    ensures Conclude(w, repos, outcomes, now, platform).store.settings == w.store.settings
  {
    RunPrefixFrame(w, repos, outcomes, now, platform);
    var start := StatsOrDefault(w.store.stats);
    var found := NewIssueCount(outcomes, |repos|);
    assert MergeStats(start, StatsUpdate(start, found, now)) == Stats(start.totalIssuesFound + found, start.totalChecks + 1, Some(now));
  }

  /** The same for a pass over the stored repositories. */
  lemma PassStats(w: World, first: seq<Response>, second: seq<Response>, now: int, platform: Platform)
    requires |first| == |w.store.repositories| && |second| == |w.store.repositories|
    requires |w.store.repositories| > 0
    ensures var start := StatsOrDefault(w.store.stats);
            var found := NewIssueCount(Outcomes(w.store.repositories, first, second), |w.store.repositories|);
            RunPass(w, first, second, now, platform).store.stats
              == Some(Stats(start.totalIssuesFound + found, start.totalChecks + 1, Some(now)))
    ensures RunPass(w, first, second, now, platform).store.settings == w.store.settings
  {
    ConcludeStats(w, w.store.repositories, Outcomes(w.store.repositories, first, second), now, platform);
  }

  // ---------------------------------------------------------------- repositories

  /** Two updates by the name of the k-th repository, when no earlier one shares it, settle that one
      repository and leave the others. */
  lemma SettleAt(rs: seq<Repo>, k: nat, repo: Repo, final: RepoPatch)
    requires k < |rs| && rs[k].fullName == repo.fullName
    requires forall j :: 0 <= j < k ==> rs[j].fullName != repo.fullName
    ensures var after := UpdateFirst(UpdateFirst(rs, repo.fullName, CheckingPatch), repo.fullName, final);
            && |after| == |rs|
            && after[k] == Merge(Merge(rs[k], CheckingPatch), final)
            && forall j :: 0 <= j < |rs| && j != k ==> after[j] == rs[j]
  {
    UpdateFirstEffect(rs, repo.fullName, CheckingPatch, k);
    var mid := UpdateFirst(rs, repo.fullName, CheckingPatch);
    assert forall j :: 0 <= j < k ==> mid[j].fullName != repo.fullName;
    UpdateFirstEffect(mid, repo.fullName, final, k);
  }

  /** The repository list `rs` after `i` iterations over `repos`: the checked ones settled, the rest untouched. */
  predicate SettledUpTo(rs: seq<Repo>, repos: seq<Repo>, outcomes: seq<Outcome>, now: int, i: nat)
    requires Decided(repos, outcomes) && i <= |repos|
  {
    && |rs| == |repos|
    && (forall j :: 0 <= j < i ==> rs[j] == Settled(repos[j], outcomes[j], now))
    && (forall j :: i <= j < |repos| ==> rs[j] == repos[j])
  }

  /** One more iteration extends the settled prefix of the repository list by one. */
  lemma SettleNext(rs: seq<Repo>, repos: seq<Repo>, outcomes: seq<Outcome>, now: int, k: nat)
    requires Decided(repos, outcomes) && k < |repos| && UniqueNames(repos)
    requires SettledUpTo(rs, repos, outcomes, now, k)
    ensures SettledUpTo(UpdateFirst(UpdateFirst(rs, repos[k].fullName, CheckingPatch), repos[k].fullName,
                                    FinalPatch(repos[k], outcomes[k], now)), repos, outcomes, now, k + 1)
  {
    assert forall j :: 0 <= j < k ==> rs[j].fullName == repos[j].fullName;
    SettleAt(rs, k, repos[k], FinalPatch(repos[k], outcomes[k], now));
  }

  /** The repository list after the first `i` iterations: the checked ones settled, the rest untouched. */
  lemma {:induction false} RunPrefixRepositories(w: World, repos: seq<Repo>, outcomes: seq<Outcome>, now: int,
                                                 platform: Platform, i: nat)
    requires Decided(repos, outcomes) && i <= |repos|
    requires w.store.repositories == repos && UniqueNames(repos)
    ensures SettledUpTo(RunPrefix(w, repos, outcomes, now, platform, i).store.repositories, repos, outcomes, now, i)
  {
    if i > 0 {
      var k := i - 1;
      RunPrefixRepositories(w, repos, outcomes, now, platform, k);
      var before := RunPrefix(w, repos, outcomes, now, platform, k);
      RepoStepEffect(before, repos[k], outcomes[k], now, platform);
      SettleNext(before.store.repositories, repos, outcomes, now, k);
    }
  }

  /** The isolation property of a pass: with distinct names, every repository ends in the state its own
      fetches decide, whatever happens to the others, and none is added or lost. */
  lemma PassRepositories(w: World, first: seq<Response>, second: seq<Response>, now: int, platform: Platform)
    requires |first| == |w.store.repositories| && |second| == |w.store.repositories|
    requires UniqueNames(w.store.repositories)
    ensures var repos := w.store.repositories;
            var after := RunPass(w, first, second, now, platform).store.repositories;
            && |after| == |repos|
            && forall j :: 0 <= j < |repos| ==> after[j] == Settled(repos[j], OutcomeOf(repos[j], first[j], second[j]), now)
  {
    var repos := w.store.repositories;
    if |repos| > 0 {
      RunPrefixRepositories(w, repos, Outcomes(repos, first, second), now, platform, |repos|);
    }
  }

  // ---------------------------------------------------------------- the notification log

  /** A pass logs one record per new issue: as many as it counts. */
  lemma {:induction false} PassEntriesCount(repos: seq<Repo>, outcomes: seq<Outcome>, i: nat)
    requires i <= |repos| && i <= |outcomes|
    ensures |PassEntries(repos, outcomes, i)| == NewIssueCount(outcomes, i)
  {
    if i > 0 {
      PassEntriesCount(repos, outcomes, i - 1);
    }
  }

  /** Every record a pass logs names a repository of the snapshot: a removed repository is never reported. */
  lemma {:induction false} PassEntriesNames(repos: seq<Repo>, outcomes: seq<Outcome>, i: nat, e: NotificationEntry)
    requires i <= |repos| && i <= |outcomes|
    requires e in PassEntries(repos, outcomes, i)
    ensures exists k :: 0 <= k < i && repos[k].fullName == e.repository
  {
    if e in PassEntries(repos, outcomes, i - 1) {
      PassEntriesNames(repos, outcomes, i - 1, e);
    } else {
      var es := EntriesOf(repos[i - 1], IssuesOf(outcomes[i - 1]));
      var m :| 0 <= m < |es| && es[m] == e;
      assert repos[i - 1].fullName == e.repository;
    }
  }

  /** A pass adds to the log exactly one record per new issue, in the order they were found, and a log
      of at most 51 records stays within 51. */
  lemma ConcludeHistory(w: World, repos: seq<Repo>, outcomes: seq<Outcome>, now: int, platform: Platform)
    requires Decided(repos, outcomes)
    ensures Conclude(w, repos, outcomes, now, platform).store.history
            == WithNotifications(w.store.history, PassEntries(repos, outcomes, |repos|), now)
    ensures |PassEntries(repos, outcomes, |repos|)| == NewIssueCount(outcomes, |repos|)
    ensures |w.store.history| <= 51 ==> |Conclude(w, repos, outcomes, now, platform).store.history| <= 51
  {
    PassEntriesCount(repos, outcomes, |repos|);
    if |repos| > 0 {
      RunPrefixEffect(w, repos, outcomes, now, platform, |repos|);
    }
    if |w.store.history| <= 51 {
      HistoryLength(w.store.history, PassEntries(repos, outcomes, |repos|), now);
    }
  }

  /** The same for a pass over the stored repositories; none of its records names a repository that was
      not in the list when the pass started. */
  lemma PassHistory(w: World, first: seq<Response>, second: seq<Response>, now: int, platform: Platform)
    requires |first| == |w.store.repositories| && |second| == |w.store.repositories|
    ensures var repos := w.store.repositories;
            var entries := PassEntries(repos, Outcomes(repos, first, second), |repos|);
            && RunPass(w, first, second, now, platform).store.history == WithNotifications(w.store.history, entries, now)
            && |entries| == NewIssueCount(Outcomes(repos, first, second), |repos|)
            && (forall e :: e in entries ==> exists k :: 0 <= k < |repos| && repos[k].fullName == e.repository)
    ensures |w.store.history| <= 51 ==> |RunPass(w, first, second, now, platform).store.history| <= 51
  {
    var repos := w.store.repositories;
    var outcomes := Outcomes(repos, first, second);
    ConcludeHistory(w, repos, outcomes, now, platform);
    forall e | e in PassEntries(repos, outcomes, |repos|)
      ensures exists k :: 0 <= k < |repos| && repos[k].fullName == e.repository
    {
      PassEntriesNames(repos, outcomes, |repos|, e);
    }
  }

  // ---------------------------------------------------------------- alerts

  /** A pass creates, when notifications are on, exactly the alerts of its new issues in the order it
      finds them, each titled with its repository, keeps the earlier effects, and files each new
      issue's URL under the identifier its alert got; with notifications off it leaves the alerts and
      the click table alone (the log and the count are kept all the same). */
  lemma PassAlerts(w: World, first: seq<Response>, second: seq<Response>, now: int, platform: Platform)
    requires |first| == |w.store.repositories| && |second| == |w.store.repositories|
    ensures var repos := w.store.repositories;
            var outcomes := Outcomes(repos, first, second);
            var d := RunPass(w, first, second, now, platform).dispatch;
            && (!SettingsOrDefault(w.store.settings).notificationsEnabled ==> d == w.dispatch)
            && (SettingsOrDefault(w.store.settings).notificationsEnabled ==>
                  Alerted(d, w.dispatch, PassIssues(outcomes, |repos|), PassAlertEffects(repos, outcomes, |repos|, platform.isFirefox), platform))
  {
    var repos := w.store.repositories;
    var outcomes := Outcomes(repos, first, second);
    if |repos| > 0 {
      RunPrefixEffect(w, repos, outcomes, now, platform, |repos|);
    } else {
      assert w.dispatch.effects + PassAlertEffects(repos, outcomes, 0, platform.isFirefox) == w.dispatch.effects;
    }
  }

  // ---------------------------------------------------------------- classification and clicks

  /** The beginner-friendly test is a plain occurrence test: some lower-cased label contains some marker. */
  lemma BeginnerFriendlyIff(labels: seq<string>)
    ensures IsBeginnerFriendly(labels) <==>
            exists k: nat, j: nat, i: nat :: k < |labels| && j < |BeginnerMarkers| && Text.OccursAt(Text.Lower(labels[k]), BeginnerMarkers[j], i)
  {
    if IsBeginnerFriendly(labels) {
      var k, j :| 0 <= k < |labels| && 0 <= j < |BeginnerMarkers| && Text.Includes(Text.Lower(labels[k]), BeginnerMarkers[j]);
      Text.IncludesIffOccurs(Text.Lower(labels[k]), BeginnerMarkers[j]);
      var i: nat :| Text.OccursAt(Text.Lower(labels[k]), BeginnerMarkers[j], i);
      assert k < |labels| && j < |BeginnerMarkers| && Text.OccursAt(Text.Lower(labels[k]), BeginnerMarkers[j], i);
    }
    if exists k: nat, j: nat, i: nat :: k < |labels| && j < |BeginnerMarkers| && Text.OccursAt(Text.Lower(labels[k]), BeginnerMarkers[j], i) {
      var k: nat, j: nat, i: nat :| k < |labels| && j < |BeginnerMarkers| && Text.OccursAt(Text.Lower(labels[k]), BeginnerMarkers[j], i);
      Text.IncludesIffOccurs(Text.Lower(labels[k]), BeginnerMarkers[j]);
    }
  }

  /** A beginner-friendly issue gets priority 2, the extra line at the end of its message and, outside
      Firefox, an alert that stays until dismissed; any other issue priority 1 and, outside Firefox, not.
      Outside Firefox the alert carries the one "View Issue" button; in Firefox neither option. */
  lemma AlertClassification(fullName: string, issue: Issue, isFirefox: bool)
    ensures var a := AlertFor(fullName, issue, isFirefox);
            var friendly := IsBeginnerFriendly(issue.labels);
            && (a.priority == 2 <==> friendly) && (a.priority == 1 <==> !friendly)
            && (friendly ==> |a.message| >= |GoodFirstIssueLine|
                             && a.message[|a.message| - |GoodFirstIssueLine|..] == GoodFirstIssueLine)
            && (isFirefox ==> a.requireInteraction == None && a.buttons == [])
            && (!isFirefox ==> a.requireInteraction == Some(friendly) && a.buttons == ["View Issue"])
            && a.title == TitlePrefix + fullName
            && a.message[..1] == "#"
  {
  }

  /** The test ignores case: a label "Easy" makes an issue beginner-friendly, a label "bug" does not. */
  lemma LabelExamples()
    ensures IsBeginnerFriendly(["Easy"])
    ensures !IsBeginnerFriendly(["bug"])
  {
    assert Text.Lower("Easy") == "easy";
    assert Text.Includes(Text.Lower(["Easy"][0]), BeginnerMarkers[2]);
    assert |Text.Lower("bug")| == 3;
  }

  /** With notifications off, `sendNotification` does nothing at all. */
  lemma NotifyDisabled(d: Dispatch, settings: Settings, fullName: string, issue: Issue, platform: Platform)
    requires !settings.notificationsEnabled
    ensures Notify(d, settings, fullName, issue, platform) == d
  {
  }

  /** With notifications on, `sendNotification` creates one alert and files the issue's URL under the
      alert's identifier when the platform gives one; no other entry of the table changes. */
  lemma NotifyEnabled(d: Dispatch, settings: Settings, fullName: string, issue: Issue, platform: Platform)
    requires settings.notificationsEnabled
    ensures var id := platform.assignId(d.created);
            var e := Notify(d, settings, fullName, issue, platform);
            && e.effects == d.effects + [CreateAlert(AlertFor(fullName, issue, platform.isFirefox))]
            && e.created == d.created + 1
            && (id != "" ==> id in e.urlMap && e.urlMap[id] == issue.htmlUrl)
            && (forall k :: k in d.urlMap && k != id ==> k in e.urlMap && e.urlMap[k] == d.urlMap[k])
            && (forall k :: k in e.urlMap ==> k in d.urlMap || k == id)
  {
  }

  /** Clicking a known alert opens its URL, clears the alert and forgets it, leaving the other entries;
      a second click on it, or a click on an unknown alert, changes nothing. */
  lemma ClickConsumesEntry(d: Dispatch, id: string)
    ensures id in d.urlMap && d.urlMap[id] != "" ==>
              && Clicked(d, id).effects == d.effects + [OpenTab(d.urlMap[id]), ClearAlert(id)]
              && id !in Clicked(d, id).urlMap
              && (forall k :: k in d.urlMap && k != id ==> k in Clicked(d, id).urlMap && Clicked(d, id).urlMap[k] == d.urlMap[k])
    ensures id !in d.urlMap ==> Clicked(d, id) == d
    ensures Clicked(Clicked(d, id), id) == Clicked(d, id)
  {
  }

  /** Only the first button acts, and only outside Firefox. */
  lemma ButtonClickRules(d: Dispatch, id: string, index: int, platform: Platform)
    ensures index != 0 || platform.isFirefox ==> ButtonClicked(d, id, index, platform) == d
    ensures index == 0 && !platform.isFirefox ==> ButtonClicked(d, id, index, platform) == Clicked(d, id)
  {
  }

  // ---------------------------------------------------------------- scenarios

  /** The fetched entries that are not pull requests, when none is one. */
  lemma NoPullRequests(issues: seq<Issue>)
    requires forall k :: 0 <= k < |issues| ==> !issues[k].isPullRequest
    ensures WithoutPullRequests(issues) == issues
  {
    PullRequestsNeverReturned(issues);
  }

  /** A repository added with no watermark, whose open issues are #5, #3 and #1: nothing is notified and
      the watermark becomes 5. */
  lemma FirstCheck(repo: Repo, page: Response, now: int)
    requires repo == NewRepo("octo", "demo", 0)
    requires page == Reply(200, Some(59), None, Parsed([Issue(5, "e", "u5", [], false), Issue(3, "c", "u3", [], false),
                                                        Issue(1, "a", "u1", [], false)]))
    ensures OutcomeOf(repo, page, page) == Quiet(Some(5))
    ensures Settled(repo, OutcomeOf(repo, page, page), now).lastIssueNumber == Some(5)
    ensures Settled(repo, OutcomeOf(repo, page, page), now).status == Active
  {
    var issues := [Issue(5, "e", "u5", [], false), Issue(3, "c", "u3", [], false), Issue(1, "a", "u1", [], false)];
    NoPullRequests(issues);
    assert MaxNumber(issues) == 5 by {
      assert issues[0].number <= MaxNumber(issues);
    }
    BaselineOutcome(repo, page, page);
    SettledState(repo, OutcomeOf(repo, page, page), now);
  }

  /** At the next check #7 has been opened: it alone is notified and the watermark becomes 7. */
  lemma SecondCheck(repo: Repo, page: Response, now: int)
    requires repo == NewRepo("octo", "demo", 0).(lastIssueNumber := Some(5))
    requires page == Reply(200, Some(58), None, Parsed([Issue(7, "g", "u7", [], false), Issue(5, "e", "u5", [], false),
                                                        Issue(3, "c", "u3", [], false)]))
    ensures OutcomeOf(repo, page, page) == Notified([Issue(7, "g", "u7", [], false)])
    ensures FoundCount(OutcomeOf(repo, page, page)) == 1
    ensures Settled(repo, OutcomeOf(repo, page, page), now).lastIssueNumber == Some(7)
  {
    var seven, rest := Issue(7, "g", "u7", [], false), [Issue(5, "e", "u5", [], false), Issue(3, "c", "u3", [], false)];
    var issues := [seven] + rest;
    assert issues == [seven, Issue(5, "e", "u5", [], false), Issue(3, "c", "u3", [], false)];
    NoPullRequests(issues);
    Js.FilterConcat([seven], rest, (i: Issue) => i.number > 5);
    Js.FilterKeepsAll([seven], (i: Issue) => i.number > 5);
    Js.FilterDropsAll(rest, (i: Issue) => i.number > 5);
    assert Above(issues, 5) == [seven];
    assert MaxNumber([seven]) == 7;
  }

  /** A pull request among the fetched entries is never notified, even when its number is above the watermark. */
  lemma PullRequestIgnored(repo: Repo, page: Response)
    requires repo.lastIssueNumber == Some(5)
    requires page == Reply(200, None, None, Parsed([Issue(6, "pr", "u6", [], true), Issue(5, "e", "u5", [], false)]))
    ensures OutcomeOf(repo, page, page) == Quiet(Some(5))
  {
    var pr, five := Issue(6, "pr", "u6", [], true), Issue(5, "e", "u5", [], false);
    assert [pr, five] == [pr] + [five];
    Js.FilterConcat([pr], [five], (i: Issue) => !i.isPullRequest);
    Js.FilterDropsAll([pr], (i: Issue) => !i.isPullRequest);
    Js.FilterKeepsAll([five], (i: Issue) => !i.isPullRequest);
    assert WithoutPullRequests([pr, five]) == [five];
    QuietOutcome(repo, page, page);
    RebaselineValue([five], Some(5));
  }

  /** A repository that answers 404 fails with "Repository not found". */
  lemma MissingOutcome(gone: Repo, missing: Response, page: Response)
    requires missing == Reply(404, None, None, Malformed("not JSON"))
    ensures OutcomeOf(gone, missing, page) == Failed(NotFoundMessage)
  {
    assert FetchIssues(missing) == Err(StatusError(404));
  }

  /** One with watermark 3 whose open issues are #5, #4 and #3 is notified of #5 and #4. */
  lemma LiveOutcome(live: Repo, page: Response)
    requires live.lastIssueNumber == Some(3)
    requires page == Reply(200, None, None, Parsed([Issue(5, "e", "u5", [], false), Issue(4, "d", "u4", [], false),
                                                    Issue(3, "c", "u3", [], false)]))
    ensures OutcomeOf(live, page, page) == Notified([Issue(5, "e", "u5", [], false), Issue(4, "d", "u4", [], false)])
  {
    var five, four, three := Issue(5, "e", "u5", [], false), Issue(4, "d", "u4", [], false), Issue(3, "c", "u3", [], false);
    assert Above([five, four, three], 3) == [five, four] by {
      assert [five, four, three] == [five, four] + [three];
      Js.FilterConcat([five, four], [three], (i: Issue) => i.number > 3);
      Js.FilterKeepsAll([five, four], (i: Issue) => i.number > 3);
      Js.FilterDropsAll([three], (i: Issue) => i.number > 3);
    }
    NoPullRequests([five, four, three]);
  }

  /** In a pass over two repositories, the failure of the first does not stop the second: the first ends
      'error' with the failure's message, the second 'active' with its newest issue as the watermark. */
  lemma FailureThenNotice(w: World, first: seq<Response>, second: seq<Response>, now: int, platform: Platform,
                          message: string, issues: seq<Issue>)
    requires |w.store.repositories| == 2 && UniqueNames(w.store.repositories)
    requires |first| == 2 && |second| == 2
    requires OutcomeOf(w.store.repositories[0], first[0], second[0]) == Failed(message)
    requires OutcomeOf(w.store.repositories[1], first[1], second[1]) == Notified(issues)
    ensures var after := RunPass(w, first, second, now, platform);
            && |after.store.repositories| == 2
            && after.store.repositories[0].status == Error
            && after.store.repositories[0].lastError == Some(message)
            && after.store.repositories[1].status == Active
            && after.store.repositories[1].lastIssueNumber == Some(MaxNumber(issues))
  {
    var repos := w.store.repositories;
    SettledState(repos[0], Failed(message), now);
    NotifiedSettles(repos[1], first[1], second[1], now);
    PassRepositories(w, first, second, now, platform);
  }

  /** In that pass the second repository's new issues, and nothing for the failed one, are counted. */
  lemma FailureThenNoticeCounted(w: World, first: seq<Response>, second: seq<Response>, now: int, platform: Platform,
                                 message: string, issues: seq<Issue>)
    requires |w.store.repositories| == 2
    requires |first| == 2 && |second| == 2
    requires OutcomeOf(w.store.repositories[0], first[0], second[0]) == Failed(message)
    requires OutcomeOf(w.store.repositories[1], first[1], second[1]) == Notified(issues)
    ensures var after := RunPass(w, first, second, now, platform);
            && after.store.stats.Some?
            && after.store.stats.value.totalIssuesFound == StatsOrDefault(w.store.stats).totalIssuesFound + |issues|
  {
    var outcomes := Outcomes(w.store.repositories, first, second);
    assert NewIssueCount(outcomes, 2) == |issues| by {
      assert NewIssueCount(outcomes, 1) == 0;
    }
    PassStats(w, first, second, now, platform);
  }

  /** A pass over those two repositories: the 404 of the first does not stop the second, which ends
      'active' with its watermark at 5, and the two issues are counted. */
  lemma FailureIsIsolated(w: World, now: int, platform: Platform, missing: Response, page: Response)
    requires |w.store.repositories| == 2 && UniqueNames(w.store.repositories)
    requires w.store.repositories[1].lastIssueNumber == Some(3)
    requires missing == Reply(404, None, None, Malformed("not JSON"))
    requires page == Reply(200, None, None, Parsed([Issue(5, "e", "u5", [], false), Issue(4, "d", "u4", [], false),
                                                    Issue(3, "c", "u3", [], false)]))
    ensures var after := RunPass(w, [missing, page], [page, page], now, platform);
            && |after.store.repositories| == 2
            && after.store.repositories[0].status == Error
            && after.store.repositories[0].lastError == Some(NotFoundMessage)
            && after.store.repositories[1].status == Active
            && after.store.repositories[1].lastIssueNumber == Some(5)
            && after.store.stats.Some?
            && after.store.stats.value.totalIssuesFound == StatsOrDefault(w.store.stats).totalIssuesFound + 2
  {
    var issues := [Issue(5, "e", "u5", [], false), Issue(4, "d", "u4", [], false)];
    MissingOutcome(w.store.repositories[0], missing, page);
    LiveOutcome(w.store.repositories[1], page);
    assert MaxNumber(issues) == 5;
    FailureThenNotice(w, [missing, page], [page, page], now, platform, NotFoundMessage, issues);
    FailureThenNoticeCounted(w, [missing, page], [page, page], now, platform, NotFoundMessage, issues);
  }
}
