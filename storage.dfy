/** The extension's persistent state: the monitored repositories and the settings (the synchronized
    partition), the notification log and the run statistics (the local partition). Each JavaScript
    `Storage` operation reads a key, transforms the value and writes it back; here the four keys are
    the fields of a `Store` object, an absent key is `None` (or the empty list, which the source
    cannot tell apart from an absent list), and the transformations are the functions below. */
module Storage {
  import opened Wrappers
  import Js

  // ---------------------------------------------------------------- records

  /** The `status` of a repository: 'active', 'checking' or 'error'. */
  datatype Status = Active | Checking | Error

  function StatusName(s: Status): string {
    match s
    case Active => "active"
    case Checking => "checking"
    case Error => "error"
  }

  /** A monitored repository; `fullName` is the key every other operation uses. */
  datatype Repo = Repo(owner: string, repo: string, fullName: string, addedAt: int,
                       lastChecked: Option<int>, lastIssueNumber: Option<int>,
                       status: Status, lastError: Option<string>)

  /** The keys an `updateRepository` call may carry; `None` means the key is absent from `updates`.
      Every caller that sets `lastChecked` sets it to a timestamp. */
  datatype RepoPatch = RepoPatch(status: Option<Status>, lastIssueNumber: Option<Option<int>>,
                                 lastChecked: Option<int>, lastError: Option<string>)

  datatype Settings = Settings(checkInterval: int, githubToken: string, notificationsEnabled: bool,
                               soundEnabled: bool, theme: string)

  /** The keys an `updateSettings` call may carry. */
  datatype SettingsPatch = SettingsPatch(checkInterval: Option<int>, githubToken: Option<string>,
                                         notificationsEnabled: Option<bool>, soundEnabled: Option<bool>,
                                         theme: Option<string>)

  datatype Stats = Stats(totalIssuesFound: int, totalChecks: int, lastCheckTime: Option<int>)

  /** The keys an `updateStats` call may carry. */
  datatype StatsPatch = StatsPatch(totalIssuesFound: Option<int>, totalChecks: Option<int>,
                                   lastCheckTime: Option<Option<int>>)

  /** What the pass hands to `addNotification`. */
  datatype NotificationEntry = NotificationEntry(repository: string, issueNumber: int, issueTitle: string,
                                                 issueUrl: string, labels: seq<string>)

  /** A record of the notification log: the entry and the time it was logged. */
  datatype LoggedNotification = LoggedNotification(entry: NotificationEntry, timestamp: int)

  /** The whole stored state, as a value. */
  datatype StoreState = StoreState(repositories: seq<Repo>, settings: Option<Settings>,
                                   history: seq<LoggedNotification>, stats: Option<Stats>)

  const DuplicateMessage := "Repository already being monitored"
  /** `getNotificationHistory()` without an argument returns at most this many records. */
  const DefaultHistoryLimit := 50
  /** `addNotification` trims the log to this many records. */
  const HistoryRetention := 100

  // ---------------------------------------------------------------- repositories

  /** `repositories.some(r => r.owner === owner && r.repo === repo)`. */
  predicate IsMonitored(repos: seq<Repo>, owner: string, repo: string) {
    exists i :: 0 <= i < |repos| && repos[i].owner == owner && repos[i].repo == repo
  }

  /** No two repositories of the list share a `fullName`, the key by which they are updated and removed. */
  predicate UniqueNames(repos: seq<Repo>) {
    forall i, j :: 0 <= i < j < |repos| ==> repos[i].fullName != repos[j].fullName
  }

  /** The record `addRepository` creates. */
  function NewRepo(owner: string, repo: string, now: int): (r: Repo)
    ensures r.owner == owner && r.repo == repo && r.fullName == owner + "/" + repo
    ensures r.addedAt == now && r.lastChecked == None && r.lastIssueNumber == None
    ensures r.status == Active && r.lastError == None
  {
    Repo(owner, repo, owner + "/" + repo, now, None, None, Active, None)
  }

  /** `{ ...r, ...p }`: every key present in the patch takes the patch's value; the others, and the
      identifying keys, keep theirs. */
  function Merge(r: Repo, p: RepoPatch): (m: Repo)
    ensures m.owner == r.owner && m.repo == r.repo && m.fullName == r.fullName && m.addedAt == r.addedAt
    ensures m.status == (if p.status.Some? then p.status.value else r.status)
    ensures m.lastIssueNumber == (if p.lastIssueNumber.Some? then p.lastIssueNumber.value else r.lastIssueNumber)
    ensures m.lastChecked == (if p.lastChecked.Some? then p.lastChecked else r.lastChecked)
    ensures m.lastError == (if p.lastError.Some? then p.lastError else r.lastError)
  {
    r.(status := p.status.GetOr(r.status),
       lastIssueNumber := p.lastIssueNumber.GetOr(r.lastIssueNumber),
       lastChecked := if p.lastChecked.Some? then p.lastChecked else r.lastChecked,
       lastError := if p.lastError.Some? then p.lastError else r.lastError)
  }

  /** The patch equivalent to applying `p` and then `q`: the later value of each key wins. */
  function Then(p: RepoPatch, q: RepoPatch): RepoPatch {
    RepoPatch(if q.status.Some? then q.status else p.status,
              if q.lastIssueNumber.Some? then q.lastIssueNumber else p.lastIssueNumber,
              if q.lastChecked.Some? then q.lastChecked else p.lastChecked,
              if q.lastError.Some? then q.lastError else p.lastError)
  }

  /** Two successive merges are one merge of the combined patch, and merging a patch twice is merging it once. */
  lemma MergeThen(r: Repo, p: RepoPatch, q: RepoPatch)
    ensures Merge(Merge(r, p), q) == Merge(r, Then(p, q))
    ensures Merge(Merge(r, p), p) == Merge(r, p)
  {
  }

  /** `repositories.findIndex(r => r.fullName === name)`, with `None` for -1: the first index whose
      entry carries that name. */
  function FindIndex(repos: seq<Repo>, name: string): (r: Option<nat>)
    ensures r.Some? ==> r.value < |repos| && repos[r.value].fullName == name
    ensures r.Some? ==> forall j :: 0 <= j < r.value ==> repos[j].fullName != name
    ensures r.None? <==> forall j :: 0 <= j < |repos| ==> repos[j].fullName != name
  {
    if |repos| == 0 then None
    else if repos[0].fullName == name then Some(0)
    else match FindIndex(repos[1..], name)
      case None => None
      case Some(i) => Some(i + 1)
  }

  /** What `updateRepository(name, patch)` stores: the first entry with that name merged with the patch. */
  function UpdateFirst(repos: seq<Repo>, name: string, patch: RepoPatch): seq<Repo> {
    match FindIndex(repos, name)
    case None => repos
    case Some(i) => repos[i := Merge(repos[i], patch)]
  }

  /** `updateRepository` changes the first entry named `name` and nothing else; with no such entry it changes nothing. */
  lemma UpdateFirstEffect(repos: seq<Repo>, name: string, patch: RepoPatch, i: nat)
    requires i < |repos| && repos[i].fullName == name
    requires forall j :: 0 <= j < i ==> repos[j].fullName != name
    ensures |UpdateFirst(repos, name, patch)| == |repos|
    ensures UpdateFirst(repos, name, patch)[i] == Merge(repos[i], patch)
    ensures forall j :: 0 <= j < |repos| && j != i ==> UpdateFirst(repos, name, patch)[j] == repos[j]
  {
    assert FindIndex(repos, name) == Some(i);
  }

  /** An update names no entry when no entry carries that name. */
  lemma UpdateUnknownName(repos: seq<Repo>, name: string, patch: RepoPatch)
    requires forall j :: 0 <= j < |repos| ==> repos[j].fullName != name
    ensures UpdateFirst(repos, name, patch) == repos
  {
  }

  /** Updates rename nothing: every index keeps its `fullName`. */
  lemma UpdateFirstKeepsNames(repos: seq<Repo>, name: string, patch: RepoPatch)
    ensures |UpdateFirst(repos, name, patch)| == |repos|
    ensures forall j :: 0 <= j < |repos| ==> UpdateFirst(repos, name, patch)[j].fullName == repos[j].fullName
  {
  }

  /** What `removeRepository(name)` stores: `repositories.filter(r => r.fullName !== name)`. */
  function WithoutName(repos: seq<Repo>, name: string): seq<Repo> {
    Js.Filter(repos, (r: Repo) => r.fullName != name)
  }

  /** After a removal no entry carries the name, every other entry is still there, and nothing new appears. */
  lemma RemovalMembership(repos: seq<Repo>, name: string, x: Repo)
    ensures x in WithoutName(repos, name) <==> x in repos && x.fullName != name
  {
    Js.FilterMembership(repos, (r: Repo) => r.fullName != name, x);
  }

  /** A removal keeps the surviving entries in their original order: removing from a concatenation
      removes from each part. */
  lemma RemovalOrder(a: seq<Repo>, b: seq<Repo>, name: string)
    ensures WithoutName(a + b, name) == WithoutName(a, name) + WithoutName(b, name)
  {
    Js.FilterConcat(a, b, (r: Repo) => r.fullName != name);
  }

  /** Removal keeps the names distinct. */
  lemma {:induction false} RemovalKeepsUnique(repos: seq<Repo>, name: string)
    requires UniqueNames(repos)
    ensures UniqueNames(WithoutName(repos, name))
  {
    if |repos| > 0 {
      var rest := repos[1..];
      assert UniqueNames(rest) by {
        forall i, j | 0 <= i < j < |rest| ensures rest[i].fullName != rest[j].fullName {
          assert rest[i] == repos[i + 1] && rest[j] == repos[j + 1];
        }
      }
      RemovalKeepsUnique(rest, name);
      var kept := WithoutName(rest, name);
      if repos[0].fullName != name {
        assert WithoutName(repos, name) == [repos[0]] + kept;
        forall j | 0 <= j < |kept| ensures kept[j].fullName != repos[0].fullName {
          assert kept[j] in kept;
          var idx :| 0 <= idx < |rest| && rest[idx] == kept[j];
          assert rest[idx] == repos[idx + 1];
        }
        forall i, j | 0 <= i < j < |[repos[0]] + kept|
          ensures ([repos[0]] + kept)[i].fullName != ([repos[0]] + kept)[j].fullName
        {
          if i > 0 {
            assert ([repos[0]] + kept)[i] == kept[i - 1];
          }
          assert ([repos[0]] + kept)[j] == kept[j - 1];
        }
      } else {
        assert WithoutName(repos, name) == kept;
      }
    }
  }

  /** Updates keep the names distinct. */
  lemma UpdateKeepsUnique(repos: seq<Repo>, name: string, patch: RepoPatch)
    requires UniqueNames(repos)
    ensures UniqueNames(UpdateFirst(repos, name, patch))
  {
    UpdateFirstKeepsNames(repos, name, patch);
  }

  /** Removing a name nobody carries leaves the list as it was. */
  lemma RemovalOfAbsentName(repos: seq<Repo>, name: string)
    requires forall j :: 0 <= j < |repos| ==> repos[j].fullName != name
    ensures WithoutName(repos, name) == repos
  {
    Js.FilterKeepsAll(repos, (r: Repo) => r.fullName != name);
  }

  // ---------------------------------------------------------------- settings and stats

  /** The settings `getSettings` returns when none are stored. */
  const DefaultSettings := Settings(10, "", true, true, "dark")

  /** The statistics `getStats` returns when none are stored. */
  const DefaultStats := Stats(0, 0, None)

  /** `result.settings || { defaults }`. */
  function SettingsOrDefault(stored: Option<Settings>): (s: Settings)
    ensures stored.None? ==> s.checkInterval == 10 && s.githubToken == "" && s.notificationsEnabled
                             && s.soundEnabled && s.theme == "dark"
    ensures stored.Some? ==> s == stored.value
  {
    stored.GetOr(DefaultSettings)
  }

  /** `result.stats || { defaults }`. */
  function StatsOrDefault(stored: Option<Stats>): (s: Stats)
    ensures stored.None? ==> s.totalIssuesFound == 0 && s.totalChecks == 0 && s.lastCheckTime == None
    ensures stored.Some? ==> s == stored.value
  {
    stored.GetOr(DefaultStats)
  }

  /** `{ ...current, ...updates }` for settings. */
  function MergeSettings(s: Settings, p: SettingsPatch): Settings {
    Settings(p.checkInterval.GetOr(s.checkInterval), p.githubToken.GetOr(s.githubToken),
             p.notificationsEnabled.GetOr(s.notificationsEnabled), p.soundEnabled.GetOr(s.soundEnabled),
             p.theme.GetOr(s.theme))
  }

  /** `{ ...current, ...updates }` for statistics. */
  function MergeStats(s: Stats, p: StatsPatch): Stats {
    Stats(p.totalIssuesFound.GetOr(s.totalIssuesFound), p.totalChecks.GetOr(s.totalChecks),
          p.lastCheckTime.GetOr(s.lastCheckTime))
  }

  /** A settings update overrides exactly the keys it carries; applying it again changes nothing more. */
  lemma MergeSettingsOverrides(s: Settings, p: SettingsPatch)
    ensures p.checkInterval.Some? ==> MergeSettings(s, p).checkInterval == p.checkInterval.value
    ensures p.checkInterval.None? ==> MergeSettings(s, p).checkInterval == s.checkInterval
    ensures p.githubToken.Some? ==> MergeSettings(s, p).githubToken == p.githubToken.value
    ensures p.githubToken.None? ==> MergeSettings(s, p).githubToken == s.githubToken
    ensures p.notificationsEnabled.Some? ==> MergeSettings(s, p).notificationsEnabled == p.notificationsEnabled.value
    ensures p.notificationsEnabled.None? ==> MergeSettings(s, p).notificationsEnabled == s.notificationsEnabled
    ensures p.soundEnabled.Some? ==> MergeSettings(s, p).soundEnabled == p.soundEnabled.value
    ensures p.soundEnabled.None? ==> MergeSettings(s, p).soundEnabled == s.soundEnabled
    ensures p.theme.Some? ==> MergeSettings(s, p).theme == p.theme.value
    ensures p.theme.None? ==> MergeSettings(s, p).theme == s.theme
    ensures MergeSettings(MergeSettings(s, p), p) == MergeSettings(s, p)
    ensures MergeSettings(s, SettingsPatch(None, None, None, None, None)) == s
  {
  }

  /** A statistics update overrides exactly the keys it carries; applying it again changes nothing more. */
  lemma MergeStatsOverrides(s: Stats, p: StatsPatch)
    ensures p.totalIssuesFound.Some? ==> MergeStats(s, p).totalIssuesFound == p.totalIssuesFound.value
    ensures p.totalIssuesFound.None? ==> MergeStats(s, p).totalIssuesFound == s.totalIssuesFound
    ensures p.totalChecks.Some? ==> MergeStats(s, p).totalChecks == p.totalChecks.value
    ensures p.totalChecks.None? ==> MergeStats(s, p).totalChecks == s.totalChecks
    ensures p.lastCheckTime.Some? ==> MergeStats(s, p).lastCheckTime == p.lastCheckTime.value
    ensures p.lastCheckTime.None? ==> MergeStats(s, p).lastCheckTime == s.lastCheckTime
    ensures MergeStats(MergeStats(s, p), p) == MergeStats(s, p)
    ensures MergeStats(s, StatsPatch(None, None, None)) == s
  {
  }

  /** A statistics update that carries every key does not depend on what was stored before. */
  lemma MergeStatsFull(s: Stats, t: Stats, found: int, checks: int, last: Option<int>)
    ensures MergeStats(s, StatsPatch(Some(found), Some(checks), Some(last)))
         == MergeStats(t, StatsPatch(Some(found), Some(checks), Some(last)))
         == Stats(found, checks, last)
  {
  }

  /** `settings.theme || 'dark'`. */
  function ThemeOf(s: Settings): (theme: string)
    ensures theme != ""
    ensures s.theme != "" ==> theme == s.theme
  {
    if s.theme != "" then s.theme else "dark"
  }

  // ---------------------------------------------------------------- notification log

  /** What `addNotification(entry)` stores: the new record in front of the first `DefaultHistoryLimit`
      records (read with the default limit of `getNotificationHistory`), trimmed to `HistoryRetention`. */
  function WithNotification(history: seq<LoggedNotification>, entry: NotificationEntry, now: int): seq<LoggedNotification> {
    Js.SlicePrefix([LoggedNotification(entry, now)] + Js.SlicePrefix(history, DefaultHistoryLimit), HistoryRetention)
  }

  /** The log is newest first and holds at most 51 records: the trim to 100 never removes anything,
      because only 50 old records are read back before the new one is put in front. */
  lemma WithNotificationShape(history: seq<LoggedNotification>, entry: NotificationEntry, now: int)
    ensures var h := WithNotification(history, entry, now);
            && |h| == 1 + (if |history| < 50 then |history| else 50)
            && h[0] == LoggedNotification(entry, now)
            && h[1..] == history[..|h| - 1]
  {
  }

  /** The log after adding each entry of `entries` in turn. */
  function WithNotifications(history: seq<LoggedNotification>, entries: seq<NotificationEntry>, now: int): seq<LoggedNotification>
    decreases |entries|
  {
    if |entries| == 0 then history
    else WithNotifications(WithNotification(history, entries[0], now), entries[1..], now)
  }

  /** Adding a concatenation of entries is adding the first part and then the second. */
  lemma {:induction false} WithNotificationsConcat(history: seq<LoggedNotification>, a: seq<NotificationEntry>,
                                                   b: seq<NotificationEntry>, now: int)
    ensures WithNotifications(history, a + b, now) == WithNotifications(WithNotifications(history, a, now), b, now)
    decreases |a|
  {
    if |a| == 0 {
      assert a + b == b;
    } else {
      assert (a + b)[1..] == a[1..] + b;
      WithNotificationsConcat(WithNotification(history, a[0], now), a[1..], b, now);
    }
  }

  /** However many records are added, the log never exceeds 51 records, and after n insertions into a log
      of length L it holds min(L + n, 51) records with the newest entry first. */
  lemma {:induction false} HistoryLength(history: seq<LoggedNotification>, entries: seq<NotificationEntry>, now: int)
    requires |history| <= 51
    ensures var h := WithNotifications(history, entries, now);
            |h| == if |history| + |entries| < 51 then |history| + |entries| else 51
    ensures entries != [] ==> WithNotifications(history, entries, now)[0] == LoggedNotification(entries[|entries| - 1], now)
    decreases |entries|
  {
    if |entries| > 0 {
      var h1 := WithNotification(history, entries[0], now);
      WithNotificationShape(history, entries[0], now);
      HistoryLength(h1, entries[1..], now);
    }
  }

  // ---------------------------------------------------------------- the store

  /** The extension's storage, one field per stored key. */
  class Store {
    var repositories: seq<Repo>
    var settings: Option<Settings>
    var history: seq<LoggedNotification>
    var stats: Option<Stats>

    /** A fresh installation: nothing is stored. */
    constructor ()
      ensures repositories == [] && settings == None && history == [] && stats == None
    {
      repositories, settings, history, stats := [], None, [], None;
    }

    function State(): StoreState
      reads this
    {
      StoreState(repositories, settings, history, stats)
    }

    /** `getRepositories`: the stored list, empty when nothing is stored. */
    method GetRepositories() returns (repos: seq<Repo>)
      ensures repos == repositories
    {
      repos := repositories;
    }

    /** `addRepository(owner, repo)`: rejects a pair already monitored, otherwise appends a new record. */
    method AddRepository(owner: string, repo: string, now: int) returns (r: Result<Repo, string>)
      modifies this
      ensures IsMonitored(old(repositories), owner, repo) ==>
                r == Err(DuplicateMessage) && repositories == old(repositories)
      ensures !IsMonitored(old(repositories), owner, repo) ==>
                r == Ok(NewRepo(owner, repo, now)) && repositories == old(repositories) + [NewRepo(owner, repo, now)]
      ensures settings == old(settings) && history == old(history) && stats == old(stats)
    {
      var current := GetRepositories();
      if IsMonitored(current, owner, repo) {
        return Err(DuplicateMessage);
      }
      var created := NewRepo(owner, repo, now);
      repositories := current + [created];
      r := Ok(created);
    }

    /** `removeRepository(fullName)`. */
    method RemoveRepository(fullName: string)
      modifies this
      ensures repositories == WithoutName(old(repositories), fullName)
      ensures settings == old(settings) && history == old(history) && stats == old(stats)
    {
      var current := GetRepositories();
      repositories := WithoutName(current, fullName);
    }

    /** `updateRepository(fullName, updates)`: merges into the first entry with that name; no write otherwise. */
    method UpdateRepository(fullName: string, updates: RepoPatch)
      modifies this
      ensures repositories == UpdateFirst(old(repositories), fullName, updates)
      ensures settings == old(settings) && history == old(history) && stats == old(stats)
    {
      var current := GetRepositories();
      var index := FindIndex(current, fullName);
      if index.Some? {
        repositories := current[index.value := Merge(current[index.value], updates)];
      }
    }

    /** `getSettings`. */
    method GetSettings() returns (s: Settings)
      ensures s == SettingsOrDefault(settings)
    {
      s := SettingsOrDefault(settings);
    }

    /** `updateSettings(newSettings)`: stores and returns the merge of the current settings with the update. */
    method UpdateSettings(newSettings: SettingsPatch) returns (updated: Settings)
      modifies this
      ensures updated == MergeSettings(SettingsOrDefault(old(settings)), newSettings)
      ensures settings == Some(updated)
      ensures repositories == old(repositories) && history == old(history) && stats == old(stats)
    {
      var current := GetSettings();
      updated := MergeSettings(current, newSettings);
      settings := Some(updated);
    }

    /** `getTheme`. */
    method GetTheme() returns (theme: string)
      ensures theme == ThemeOf(SettingsOrDefault(settings))
    {
      var s := GetSettings();
      theme := ThemeOf(s);
    }

    /** `setTheme(theme)`. */
    method SetTheme(theme: string)
      modifies this
      ensures settings == Some(SettingsOrDefault(old(settings)).(theme := theme))
      ensures repositories == old(repositories) && history == old(history) && stats == old(stats)
    {
      var _ := UpdateSettings(SettingsPatch(None, None, None, None, Some(theme)));
    }

    /** `getNotificationHistory(limit)`: the newest `limit` records (`slice(0, limit)`). */
    method GetNotificationHistory(limit: int) returns (h: seq<LoggedNotification>)
      ensures h == Js.SlicePrefix(history, limit)
    {
      h := Js.SlicePrefix(history, limit);
    }

    /** `addNotification(entry)`. */
    method AddNotification(entry: NotificationEntry, now: int)
      modifies this
      ensures history == WithNotification(old(history), entry, now)
      ensures repositories == old(repositories) && settings == old(settings) && stats == old(stats)
    {
      var h := GetNotificationHistory(DefaultHistoryLimit);
      h := [LoggedNotification(entry, now)] + h;
      history := Js.SlicePrefix(h, HistoryRetention);
    }

    /** `clearNotificationHistory`. */
    method ClearNotificationHistory()
      modifies this
      ensures history == []
      ensures repositories == old(repositories) && settings == old(settings) && stats == old(stats)
    {
      history := [];
    }

    /** `getStats`. */
    method GetStats() returns (s: Stats)
      ensures s == StatsOrDefault(stats)
    {
      s := StatsOrDefault(stats);
    }

    /** `updateStats(updates)`: stores and returns the merge of the current statistics with the update. */
    method UpdateStats(updates: StatsPatch) returns (updated: Stats)
      modifies this
      ensures updated == MergeStats(StatsOrDefault(old(stats)), updates)
      ensures stats == Some(updated)
      ensures repositories == old(repositories) && settings == old(settings) && history == old(history)
    {
      var current := GetStats();
      updated := MergeStats(current, updates);
      stats := Some(updated);
    }
  }
}
