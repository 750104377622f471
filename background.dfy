/** The background script: the reconciliation pass over all monitored repositories, the notification
    dispatcher with its click table, and the message handler the popup talks to.

    Each operation is first written as a function on values (a `World` is the stored state together
    with the dispatcher's state), and the `BackgroundScript` class's methods are proved to change
    the objects exactly as those functions say. Effects on the browser (alerts, tabs) are recorded in
    the order they happen. */
module Background {
  import opened Wrappers
  import Js
  import Text
  import opened Storage
  import opened GitHubApi

  // ---------------------------------------------------------------- notifications

  /** The label markers that make an issue beginner-friendly. */
  const BeginnerMarkers := ["good first issue", "beginner-friendly", "easy", "help wanted"]
  const GoodFirstIssueLine := "\n\U{2B50} Good First Issue!"
  const LabelLinePrefix := "\n\U{1F3F7}\U{FE0F} "
  const TitlePrefix := "\U{1F195} New Issue in "
  const ViewIssueButton := "View Issue"

  /** The options of a platform alert; `requireInteraction` is absent where the platform lacks it. */
  datatype AlertOptions = AlertOptions(title: string, message: string, priority: int,
                                       requireInteraction: Option<bool>, buttons: seq<string>)

  /** What the script asks of the browser, in order. */
  datatype Effect = CreateAlert(options: AlertOptions) | OpenTab(url: string) | ClearAlert(id: string)

  /** What the script learns from the browser: whether it runs in Firefox (`typeof browser`), and the
      identifier the platform hands to the callback of the n-th alert created ("" when it hands none). */
  datatype Platform = Platform(isFirefox: bool, assignId: nat -> string)

  /** The dispatcher's state: `notificationUrlMap`, the effects so far and the number of alerts created. */
  datatype Dispatch = Dispatch(urlMap: map<string, string>, effects: seq<Effect>, created: nat)

  /** Everything a pass can change. */
  datatype World = World(store: StoreState, dispatch: Dispatch)

  /** Some label's lower-cased name contains one of the markers. */
  predicate IsBeginnerFriendly(labels: seq<string>) {
    exists k, j :: 0 <= k < |labels| && 0 <= j < |BeginnerMarkers| && Text.Includes(Text.Lower(labels[k]), BeginnerMarkers[j])
  }

  /** The alert `sendNotification` creates for an issue of the repository `fullName`. */
  function AlertFor(fullName: string, issue: Issue, isFirefox: bool): AlertOptions {
    var labels := Text.Join(issue.labels, ", ");
    var labelText := if labels != "" then LabelLinePrefix + labels else "";
    var friendly := IsBeginnerFriendly(issue.labels);
    AlertOptions(TitlePrefix + fullName,
                 "#" + Text.IntToDecimal(issue.number) + ": " + issue.title + labelText
                   + (if friendly then GoodFirstIssueLine else ""),
                 if friendly then 2 else 1,
                 if isFirefox then None else Some(friendly),
                 if isFirefox then [] else [ViewIssueButton])
  }

  /** `sendNotification(repo, issue)` on the dispatcher's state: nothing when notifications are off;
      otherwise one alert, and the issue's URL under the alert's identifier when there is one. */
  function Notify(d: Dispatch, settings: Settings, fullName: string, issue: Issue, platform: Platform): Dispatch {
    if !settings.notificationsEnabled then d
    else
      var id := platform.assignId(d.created);
      Dispatch(if id != "" then d.urlMap[id := issue.htmlUrl] else d.urlMap,
               d.effects + [CreateAlert(AlertFor(fullName, issue, platform.isFirefox))], d.created + 1)
  }

  /** A click on the alert `id`: when a non-empty URL is recorded for it, open the URL, clear the alert
      and forget the entry; otherwise nothing. */
  function Clicked(d: Dispatch, id: string): Dispatch {
    if id in d.urlMap && d.urlMap[id] != "" then
      Dispatch(d.urlMap - {id}, d.effects + [OpenTab(d.urlMap[id]), ClearAlert(id)], d.created)
    else d
  }

  /** A click on button `index` of the alert `id`: only the first button of a non-Firefox alert acts,
      as a click on the alert does (Firefox registers no button listener). */
  function ButtonClicked(d: Dispatch, id: string, index: int, platform: Platform): Dispatch {
    if !platform.isFirefox && index == 0 then Clicked(d, id) else d
  }

  // ---------------------------------------------------------------- one repository

  /** What the body of the pass decides for one repository, from its snapshot and the two responses
      it may ask for (the one `getNewIssues` fetches, and the re-fetch when nothing is new). */
  datatype Outcome = Failed(message: string) | Notified(newIssues: seq<Issue>) | Quiet(watermark: Option<int>)

  /** The watermark the no-new-issues branch stores: the highest open issue number when that is a
      truthy number, and the old watermark otherwise. */
  function Rebaseline(issues: seq<Issue>, previous: Option<int>): Option<int> {
    var latest := if |issues| > 0 then Some(MaxNumber(issues)) else previous;
    if Js.Truthy(latest) then latest else previous
  }

  function OutcomeOf(repo: Repo, first: Response, second: Response): (o: Outcome)
    ensures o.Notified? ==> |o.newIssues| > 0
  {
    match GetNewIssues(first, repo.lastIssueNumber)
    case Err(message) => Failed(message)
    case Ok(newIssues) =>
      if |newIssues| > 0 then Notified(newIssues)
      else match FetchIssues(second)
        case Err(message) => Failed(message)
        case Ok(all) => Quiet(Rebaseline(all.issues, repo.lastIssueNumber))
  }

  /** How many new issues an outcome adds to `totalNewIssues`. */
  function FoundCount(o: Outcome): nat {
    if o.Notified? then |o.newIssues| else 0
  }

  function Max(a: int, b: int): int {
    if a >= b then a else b
  }

  /** The first update of every repository: mark it as being checked. */
  const CheckingPatch := RepoPatch(Some(Checking), None, None, None)

  /** The last update of a repository, as each branch of the loop body (and its `catch`) writes it. */
  function FinalPatch(repo: Repo, o: Outcome, now: int): RepoPatch
    requires o.Notified? ==> |o.newIssues| > 0
  {
    match o
    case Failed(message) => RepoPatch(Some(Error), None, Some(now), Some(message))
    case Notified(newIssues) =>
      RepoPatch(Some(Active), Some(Some(Max(MaxNumber(newIssues), Js.OrZero(repo.lastIssueNumber)))), Some(now), None)
    case Quiet(watermark) => RepoPatch(Some(Active), Some(watermark), Some(now), None)
  }

  /** The log entry recorded for a new issue. */
  function EntryOf(repo: Repo, issue: Issue): NotificationEntry {
    NotificationEntry(repo.fullName, issue.number, issue.title, issue.htmlUrl, issue.labels)
  }

  /** One iteration of the inner loop: the alert, then the log record. */
  function NotifyOne(w: World, repo: Repo, issue: Issue, now: int, platform: Platform): World {
    World(w.store.(history := WithNotification(w.store.history, EntryOf(repo, issue), now)),
          Notify(w.dispatch, SettingsOrDefault(w.store.settings), repo.fullName, issue, platform))
  }

  /** The first `j` iterations of the inner loop. */
  function NotifyFrom(w: World, repo: Repo, issues: seq<Issue>, now: int, platform: Platform, j: nat): World
    requires j <= |issues|
  {
    if j == 0 then w else NotifyOne(NotifyFrom(w, repo, issues, now, platform, j - 1), repo, issues[j - 1], now, platform)
  }

  /** `updateRepository` on a world. */
  function UpdateIn(w: World, name: string, patch: RepoPatch): World {
    w.(store := w.store.(repositories := UpdateFirst(w.store.repositories, name, patch)))
  }

  /** An outcome that can arise: a notification always carries at least one issue. */
  predicate Possible(o: Outcome) {
    o.Notified? ==> |o.newIssues| > 0
  }

  /** One iteration of the outer loop, given what was decided for the repository: mark it, notify what
      is new, write its final state. */
  function RepoStep(w: World, repo: Repo, o: Outcome, now: int, platform: Platform): World
    requires Possible(o)
  {
    var checking := UpdateIn(w, repo.fullName, CheckingPatch);
    var notified := if o.Notified? then NotifyFrom(checking, repo, o.newIssues, now, platform, |o.newIssues|) else checking;
    UpdateIn(notified, repo.fullName, FinalPatch(repo, o, now))
  }

  // ---------------------------------------------------------------- the pass

  /** What is decided for each repository of the snapshot. It depends on that repository's snapshot and
      responses alone, never on what the pass did before it. */
  function Outcomes(repos: seq<Repo>, first: seq<Response>, second: seq<Response>): (os: seq<Outcome>)
    requires |first| == |repos| && |second| == |repos|
    ensures |os| == |repos|
    ensures forall k :: 0 <= k < |repos| ==> os[k] == OutcomeOf(repos[k], first[k], second[k]) && Possible(os[k])
  {
    if |repos| == 0 then []
    else Outcomes(repos[..|repos| - 1], first[..|repos| - 1], second[..|repos| - 1])
         + [OutcomeOf(repos[|repos| - 1], first[|repos| - 1], second[|repos| - 1])]
  }

  /** The outcomes of a snapshot, one per repository, each possible. */
  predicate Decided(repos: seq<Repo>, outcomes: seq<Outcome>) {
    |outcomes| == |repos| && forall k :: 0 <= k < |outcomes| ==> Possible(outcomes[k])
  }

  /** The first `i` iterations of the outer loop over the snapshot `repos`. */
  function RunPrefix(w: World, repos: seq<Repo>, outcomes: seq<Outcome>, now: int, platform: Platform, i: nat): World
    requires Decided(repos, outcomes) && i <= |repos|
  {
    if i == 0 then w
    else RepoStep(RunPrefix(w, repos, outcomes, now, platform, i - 1), repos[i - 1], outcomes[i - 1], now, platform)
  }

  /** `totalNewIssues` after the first `i` iterations. */
  function NewIssueCount(outcomes: seq<Outcome>, i: nat): nat
    requires i <= |outcomes|
  {
    if i == 0 then 0 else NewIssueCount(outcomes, i - 1) + FoundCount(outcomes[i - 1])
  }

  /** The statistics update at the end of a pass, from the statistics read when it started. */
  function StatsUpdate(start: Stats, found: nat, now: int): StatsPatch {
    StatsPatch(Some(start.totalIssuesFound + found), Some(start.totalChecks + 1), Some(Some(now)))
  }

  /** The end of a pass over `repos` whose outcomes are `outcomes`: nothing at all without repositories;
      otherwise every repository in turn, then one statistics update. */
  function Conclude(w: World, repos: seq<Repo>, outcomes: seq<Outcome>, now: int, platform: Platform): World
    requires Decided(repos, outcomes)
  {
    if |repos| == 0 then w
    else
      var start := StatsOrDefault(w.store.stats);
      var after := RunPrefix(w, repos, outcomes, now, platform, |repos|);
      var stats := MergeStats(StatsOrDefault(after.store.stats), StatsUpdate(start, NewIssueCount(outcomes, |repos|), now));
      after.(store := after.store.(stats := Some(stats)))
  }

  /** `checkAllRepositories`: `first[i]` and `second[i]` are the responses to the fetches made for the
      i-th repository of the snapshot. */
  function RunPass(w: World, first: seq<Response>, second: seq<Response>, now: int, platform: Platform): World
    requires |first| == |w.store.repositories| && |second| == |w.store.repositories|
  {
    Conclude(w, w.store.repositories, Outcomes(w.store.repositories, first, second), now, platform)
  }

  // ---------------------------------------------------------------- the script

  /** A message from the popup or the settings page. */
  datatype Message = Message(action: string, interval: int)

  /** The argument passed to `sendResponse`. */
  datatype MessageReply = MessageReply(success: bool)

  class BackgroundScript {
    const store: Store
    const platform: Platform
    var urlMap: map<string, string>
    var effects: seq<Effect>
    var created: nat
    /** The period of the `checkRepositories` alarm, once one is installed. */
    var alarmPeriod: Option<int>

    /** At load time the click table is empty and nothing has happened yet. */
    constructor (store: Store, platform: Platform)
      ensures this.store == store && this.platform == platform
      ensures urlMap == map[] && effects == [] && created == 0 && alarmPeriod == None
    {
      this.store := store;
      this.platform := platform;
      urlMap, effects, created, alarmPeriod := map[], [], 0, None;
    }

    function Dispatched(): Dispatch
      reads this
    {
      Dispatch(urlMap, effects, created)
    }

    function Now(): World
      reads this, store
    {
      World(store.State(), Dispatched())
    }

    /** `sendNotification(repo, issue)`. */
    method SendNotification(repo: Repo, issue: Issue)
      modifies this
      ensures Dispatched() == Notify(old(Dispatched()), SettingsOrDefault(store.settings), repo.fullName, issue, platform)
      ensures alarmPeriod == old(alarmPeriod)
    {
      var settings := store.GetSettings();
      if !settings.notificationsEnabled {
        return;
      }
      var options := AlertFor(repo.fullName, issue, platform.isFirefox);
      var id := platform.assignId(created);
      effects := effects + [CreateAlert(options)];
      created := created + 1;
      if id != "" {
        urlMap := urlMap[id := issue.htmlUrl];
      }
    }

    /** `checkAllRepositories`. */
    method CheckAllRepositories(first: seq<Response>, second: seq<Response>, now: int)
      requires |first| == |store.repositories| && |second| == |store.repositories|
      modifies this, store
      ensures Now() == RunPass(old(Now()), first, second, now, platform)
      ensures alarmPeriod == old(alarmPeriod)
    {
      var repositories := store.GetRepositories();
      var stats := store.GetStats();
      if |repositories| == 0 {
        return;
      }
      var totalNewIssues := ReconcileAll(repositories, first, second, now);
      var _ := store.UpdateStats(StatsUpdate(stats, totalNewIssues, now));
    }

    /** The loop of `checkAllRepositories` over the snapshot `repositories`; returns `totalNewIssues`. */
    method ReconcileAll(repositories: seq<Repo>, first: seq<Response>, second: seq<Response>, now: int)
      returns (totalNewIssues: nat)
      requires |first| == |repositories| && |second| == |repositories|
      modifies this, store
      ensures Now() == RunPrefix(old(Now()), repositories, Outcomes(repositories, first, second), now, platform, |repositories|)
      ensures totalNewIssues == NewIssueCount(Outcomes(repositories, first, second), |repositories|)
      ensures alarmPeriod == old(alarmPeriod)
    {
      ghost var start := Now();
      ghost var outcomes := Outcomes(repositories, first, second);
      totalNewIssues := 0;
      for i := 0 to |repositories|
        invariant Now() == RunPrefix(start, repositories, outcomes, now, platform, i)
        invariant totalNewIssues == NewIssueCount(outcomes, i)
        invariant alarmPeriod == old(alarmPeriod)
      {
        var found := ReconcileRepository(repositories[i], first[i], second[i], now);
        totalNewIssues := totalNewIssues + found;
      }
    }

    /** The body of the loop of `checkAllRepositories` for one repository of the snapshot, `try` and
        `catch` included; returns what it adds to `totalNewIssues`. */
    method ReconcileRepository(repo: Repo, first: Response, second: Response, now: int) returns (found: nat)
      modifies this, store
      ensures Now() == RepoStep(old(Now()), repo, OutcomeOf(repo, first, second), now, platform)
      ensures found == FoundCount(OutcomeOf(repo, first, second))
      ensures alarmPeriod == old(alarmPeriod)
    {
      store.UpdateRepository(repo.fullName, CheckingPatch);
      var result := GetNewIssues(first, repo.lastIssueNumber);
      if result.Err? {
        store.UpdateRepository(repo.fullName, RepoPatch(Some(Error), None, Some(now), Some(result.error)));
        found := 0;
      } else if |result.value| > 0 {
        var newIssues := result.value;
        found := |newIssues|;
        NotifyAll(repo, newIssues, now);
        var latest := MaxNumber(newIssues);
        store.UpdateRepository(repo.fullName,
          RepoPatch(Some(Active), Some(Some(Max(latest, Js.OrZero(repo.lastIssueNumber)))), Some(now), None));
      } else {
        found := 0;
        var all := FetchIssues(second);
        if all.Err? {
          store.UpdateRepository(repo.fullName, RepoPatch(Some(Error), None, Some(now), Some(all.error)));
        } else {
          var latest := if |all.value.issues| > 0 then Some(MaxNumber(all.value.issues)) else repo.lastIssueNumber;
          store.UpdateRepository(repo.fullName,
            RepoPatch(Some(Active), Some(if Js.Truthy(latest) then latest else repo.lastIssueNumber), Some(now), None));
        }
      }
    }

    /** The inner loop: an alert and a log record for each new issue, in fetch order. */
    method NotifyAll(repo: Repo, newIssues: seq<Issue>, now: int)
      modifies this, store
      ensures Now() == NotifyFrom(old(Now()), repo, newIssues, now, platform, |newIssues|)
      ensures alarmPeriod == old(alarmPeriod)
    {
      ghost var start := Now();
      for j := 0 to |newIssues|
        invariant Now() == NotifyFrom(start, repo, newIssues, now, platform, j)
        invariant alarmPeriod == old(alarmPeriod)
      {
        SendNotification(repo, newIssues[j]);
        store.AddNotification(EntryOf(repo, newIssues[j]), now);
      }
    }

    /** The `onClicked` listener. */
    method OnClicked(id: string)
      modifies this
      ensures Dispatched() == Clicked(old(Dispatched()), id)
      ensures alarmPeriod == old(alarmPeriod)
    {
      if id in urlMap && urlMap[id] != "" {
        var url := urlMap[id];
        effects := effects + [OpenTab(url), ClearAlert(id)];
        urlMap := urlMap - {id};
      }
    }

    /** The `onButtonClicked` listener, registered only outside Firefox. */
    method OnButtonClicked(id: string, buttonIndex: int)
      modifies this
      ensures Dispatched() == ButtonClicked(old(Dispatched()), id, buttonIndex, platform)
      ensures alarmPeriod == old(alarmPeriod)
    {
      if !platform.isFirefox && buttonIndex == 0 {
        OnClicked(id);
      }
    }

    /** `setupAlarm(intervalMinutes)`: the old alarm is cleared and a new one installed. */
    method SetupAlarm(intervalMinutes: int)
      modifies this
      ensures alarmPeriod == Some(intervalMinutes)
      ensures Dispatched() == old(Dispatched())
    {
      alarmPeriod := None;
      alarmPeriod := Some(intervalMinutes);
    }

    /** The `onMessage` listener: 'checkNow' runs a pass and 'updateInterval' reinstalls the alarm, each
        answering success; any other action gets no answer. */
    method OnMessage(request: Message, first: seq<Response>, second: seq<Response>, now: int)
      returns (reply: Option<MessageReply>)
      requires request.action == "checkNow" ==> |first| == |store.repositories| && |second| == |store.repositories|
      modifies this, store
      ensures request.action == "checkNow" ==>
                && reply == Some(MessageReply(true))
                && Now() == RunPass(old(Now()), first, second, now, platform)
                && alarmPeriod == old(alarmPeriod)
      ensures request.action != "checkNow" && request.action == "updateInterval" ==>
                reply == Some(MessageReply(true)) && alarmPeriod == Some(request.interval) && Now() == old(Now())
      ensures request.action != "checkNow" && request.action != "updateInterval" ==>
                reply == None && alarmPeriod == old(alarmPeriod) && Now() == old(Now())
    {
      if request.action == "checkNow" {
        CheckAllRepositories(first, second, now);
        reply := Some(MessageReply(true));
      } else if request.action == "updateInterval" {
        SetupAlarm(request.interval);
        reply := Some(MessageReply(true));
      } else {
        reply := None;
      }
    }
  }
}
