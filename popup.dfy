/** The popup's logic without its page: reading the `owner/repo` input, the add-repository flow against
    the store and the existence check, the relative times it shows, and the defaults of the repository
    list and the statistics bar. */
module Popup {
  import opened Wrappers
  import Js
  import Text
  import opened Storage
  import opened GitHubApi

  const EmptyInputMessage := "Please enter a repository"
  const InvalidFormatMessage := "Invalid format. Use: owner/repository"
  const NotFoundToast := "Repository not found"

  // ---------------------------------------------------------------- the input

  /** The input is a repository name: one '/' between two non-empty parts. */
  predicate IsRepositoryName(value: string, owner: string, repo: string) {
    owner != "" && repo != "" && '/' !in owner && '/' !in repo && value == owner + "/" + repo
  }

  /** The validation at the start of `addRepository`: the input is trimmed; empty is one error, anything
      that does not split on '/' into exactly two non-empty parts is the other. */
  function ParseRepositoryInput(input: string): Result<(string, string), string> {
    var value := Text.Trim(input);
    if value == "" then Err(EmptyInputMessage)
    else
      var parts := Text.Split(value, '/');
      if |parts| != 2 || parts[0] == "" || parts[1] == "" then Err(InvalidFormatMessage)
      else Ok((parts[0], parts[1]))
  }

  /** The two errors are the only ones, the empty one exactly for blank input, and what is accepted is
      a repository name whose parts are the owner and the repository. */
  lemma ParseSound(input: string)
    ensures var r := ParseRepositoryInput(input);
            && (r.Err? ==> r.error == EmptyInputMessage || r.error == InvalidFormatMessage)
            && (r == Err(EmptyInputMessage) <==> Text.Trim(input) == "")
            && (r.Ok? ==> IsRepositoryName(Text.Trim(input), r.value.0, r.value.1))
  {
    var value := Text.Trim(input);
    var parts := Text.Split(value, '/');
    if value != "" && |parts| == 2 && parts[0] != "" && parts[1] != "" {
      Text.JoinSplit(value, '/');
      assert Text.Join(parts, "/") == parts[0] + "/" + parts[1];
    }
  }

  /** Every repository name is accepted, with its surrounding white space, as its two parts. */
  lemma ParseAcceptsNames(input: string, owner: string, repo: string)
    requires IsRepositoryName(Text.Trim(input), owner, repo)
    ensures ParseRepositoryInput(input) == Ok((owner, repo))
  {
    assert Text.Join([owner, repo], "/") == owner + "/" + repo;
    Text.SplitJoin([owner, repo], '/');
  }

  /** So the input is accepted exactly when, trimmed, it is a repository name. */
  lemma ParseIff(input: string)
    ensures ParseRepositoryInput(input).Ok? <==>
            exists owner, repo :: IsRepositoryName(Text.Trim(input), owner, repo)
  {
    ParseSound(input);
    if exists owner, repo :: IsRepositoryName(Text.Trim(input), owner, repo) {
      var owner, repo :| IsRepositoryName(Text.Trim(input), owner, repo);
      ParseAcceptsNames(input, owner, repo);
    }
  }

  /** Input that is not blank and not, trimmed, a repository name is rejected as malformed. */
  lemma RejectsNonNames(input: string)
    requires Text.Trim(input) != ""
    requires forall owner, repo :: !IsRepositoryName(Text.Trim(input), owner, repo)
    ensures ParseRepositoryInput(input) == Err(InvalidFormatMessage)
  {
    ParseSound(input);
    ParseIff(input);
  }

  /** A third part is rejected, as in "a/b/c": the split has more than two pieces. */
  lemma RejectsThreeParts(input: string, first: string, second: string, third: string)
    requires Text.Trim(input) == first + "/" + second + "/" + third
    ensures ParseRepositoryInput(input) == Err(InvalidFormatMessage)
  {
    var value := Text.Trim(input);
    Text.OccurrencesConcat(first + "/" + second + "/", third, '/');
    Text.OccurrencesConcat(first + "/" + second, "/", '/');
    Text.OccurrencesConcat(first + "/", second, '/');
    Text.OccurrencesConcat(first, "/", '/');
    assert Text.Occurrences("/", '/') == 1;
    Text.SplitCount(value, '/');
  }

  /** A repository name neither starts nor ends with '/'. */
  lemma NameHasInnerSlash(value: string, owner: string, repo: string)
    ensures IsRepositoryName(value, owner, repo) ==> value[0] != '/' && value[|value| - 1] != '/'
  {
    assert owner != "" ==> owner[0] in owner;
    assert repo != "" ==> repo[|repo| - 1] in repo;
  }

  /** An empty owner is rejected, as in "/b": the trimmed input starts with '/'. */
  lemma RejectsEmptyOwner(input: string)
    requires Text.Trim(input) != "" && Text.Trim(input)[0] == '/'
    ensures ParseRepositoryInput(input) == Err(InvalidFormatMessage)
  {
    forall owner, repo ensures !IsRepositoryName(Text.Trim(input), owner, repo) {
      NameHasInnerSlash(Text.Trim(input), owner, repo);
    }
    RejectsNonNames(input);
  }

  /** An empty repository part is rejected, as in "a/": the trimmed input ends with '/'. */
  lemma RejectsEmptyRepository(input: string)
    requires Text.Trim(input) != "" && Text.Trim(input)[|Text.Trim(input)| - 1] == '/'
    ensures ParseRepositoryInput(input) == Err(InvalidFormatMessage)
  {
    forall owner, repo ensures !IsRepositoryName(Text.Trim(input), owner, repo) {
      NameHasInnerSlash(Text.Trim(input), owner, repo);
    }
    RejectsNonNames(input);
  }

  /** White space alone is an empty input. */
  lemma RejectsBlank(input: string)
    requires forall k :: 0 <= k < |input| ==> Text.IsWhitespace(input[k])
    ensures ParseRepositoryInput(input) == Err(EmptyInputMessage)
  {
    Text.TrimBlank(input);
  }

  /** White space around a repository name is dropped. */
  lemma AcceptsPadded(before: string, owner: string, repo: string, after: string)
    requires forall k :: 0 <= k < |before| ==> Text.IsWhitespace(before[k])
    requires forall k :: 0 <= k < |after| ==> Text.IsWhitespace(after[k])
    requires IsRepositoryName(owner + "/" + repo, owner, repo)
    requires !Text.IsWhitespace(owner[0]) && !Text.IsWhitespace(repo[|repo| - 1])
    ensures ParseRepositoryInput(before + owner + "/" + repo + after) == Ok((owner, repo))
  {
    var name := owner + "/" + repo;
    assert name[0] == owner[0] && name[|name| - 1] == repo[|repo| - 1];
    assert before + owner + "/" + repo + after == before + name + after;
    Text.TrimPadded(before, name, after);
    ParseAcceptsNames(before + name + after, owner, repo);
  }

  // ---------------------------------------------------------------- adding a repository

  /** Every record's full name is the repository name made of its owner and repository parts, as for
      the records the popup adds. */
  predicate ValidRecords(repos: seq<Repo>) {
    forall k :: 0 <= k < |repos| ==> IsRepositoryName(repos[k].fullName, repos[k].owner, repos[k].repo)
  }

  /** A repository name determines its two parts. */
  lemma NameDeterminesParts(value: string, owner: string, repo: string, owner2: string, repo2: string)
    requires IsRepositoryName(value, owner, repo) && IsRepositoryName(value, owner2, repo2)
    ensures owner == owner2 && repo == repo2
  {
    assert Text.Join([owner, repo], "/") == value;
    assert Text.Join([owner2, repo2], "/") == value;
    Text.SplitJoin([owner, repo], '/');
    Text.SplitJoin([owner2, repo2], '/');
  }

  /** So the duplicate check by owner and repository, which `addRepository` makes, also keeps the full
      names distinct: adding an accepted input that is not monitored yet keeps both invariants. */
  lemma AddKeepsUnique(repos: seq<Repo>, input: string, now: int)
    requires UniqueNames(repos) && ValidRecords(repos)
    requires ParseRepositoryInput(input).Ok?
    requires !IsMonitored(repos, ParseRepositoryInput(input).value.0, ParseRepositoryInput(input).value.1)
    ensures var (owner, repo) := ParseRepositoryInput(input).value;
            var added := repos + [NewRepo(owner, repo, now)];
            UniqueNames(added) && ValidRecords(added)
  {
    var (owner, repo) := ParseRepositoryInput(input).value;
    ParseSound(input);
    var created := NewRepo(owner, repo, now);
    var added := repos + [created];
    forall k | 0 <= k < |repos| ensures repos[k].fullName != created.fullName {
      if repos[k].fullName == created.fullName {
        NameDeterminesParts(created.fullName, owner, repo, repos[k].owner, repos[k].repo);
        assert false;
      }
    }
    forall i, j | 0 <= i < j < |added| ensures added[i].fullName != added[j].fullName {
      assert added[i] == repos[i];
    }
    forall k | 0 <= k < |added| ensures IsRepositoryName(added[k].fullName, added[k].owner, added[k].repo) {
      if k < |repos| {
        assert added[k] == repos[k];
      }
    }
  }

  datatype ToastKind = Success | Failure

  /** The message the popup shows, and whether it reports success. */
  datatype Toast = Toast(message: string, kind: ToastKind)

  /** `addRepository` on the input `input`: validate it, ask whether the repository exists (`probe` is the
      answer to the request it returns), add it to the store and report. Every failure is a toast and
      leaves the store as it was. */
  method AddRepository(store: Store, input: string, probe: Probe<RepoInfo>, now: int)
    returns (request: Option<Request>, toast: Toast)
    modifies store
    ensures store.settings == old(store.settings) && store.history == old(store.history) && store.stats == old(store.stats)
    ensures ParseRepositoryInput(input).Err? ==>
              request == None && toast == Toast(ParseRepositoryInput(input).error, Failure)
              && store.repositories == old(store.repositories)
    ensures ParseRepositoryInput(input).Ok? ==>
              var (owner, repo) := ParseRepositoryInput(input).value;
              && request == Some(RepositoryRequest(owner, repo, SettingsOrDefault(old(store.settings)).githubToken))
              && (!CheckRepository(probe).found ==>
                    toast == Toast(NotFoundToast, Failure) && store.repositories == old(store.repositories))
              && (CheckRepository(probe).found && IsMonitored(old(store.repositories), owner, repo) ==>
                    toast == Toast(DuplicateMessage, Failure) && store.repositories == old(store.repositories))
              && (CheckRepository(probe).found && !IsMonitored(old(store.repositories), owner, repo) ==>
                    toast == Toast("Added " + owner + "/" + repo, Success)
                    && store.repositories == old(store.repositories) + [NewRepo(owner, repo, now)])
    ensures UniqueNames(old(store.repositories)) && ValidRecords(old(store.repositories)) ==>
              UniqueNames(store.repositories) && ValidRecords(store.repositories)
  {
    var parsed := ParseRepositoryInput(input);
    if parsed.Err? {
      return None, Toast(parsed.error, Failure);
    }
    var (owner, repo) := parsed.value;
    var settings := store.GetSettings();
    request := Some(RepositoryRequest(owner, repo, settings.githubToken));
    var repoCheck := CheckRepository(probe);
    if !repoCheck.found {
      return request, Toast(NotFoundToast, Failure);
    }
    var added := store.AddRepository(owner, repo, now);
    if added.Err? {
      return request, Toast(added.error, Failure);
    }
    toast := Toast("Added " + owner + "/" + repo, Success);
    if UniqueNames(old(store.repositories)) && ValidRecords(old(store.repositories)) {
      AddKeepsUnique(old(store.repositories), input, now);
    }
  }

  // ---------------------------------------------------------------- relative times

  /** `formatTimeAgo(timestamp)` at time `now` (milliseconds): whole seconds elapsed, rounded down, shown
      in the largest unit that fits, or "Just now" under a minute (and for times in the future). */
  function FormatTimeAgo(now: int, timestamp: int): string {
    // Math.floor of a division by a positive number is Dafny's division.
    var seconds := (now - timestamp) / 1000;
    if seconds < 60 then "Just now"
    else if seconds < 3600 then Text.NatToDecimal(seconds / 60) + "m ago"
    else if seconds < 86400 then Text.NatToDecimal(seconds / 3600) + "h ago"
    else Text.NatToDecimal(seconds / 86400) + "d ago"
  }

  /** `r` reads as the number `n` followed by `unit` and " ago". */
  ghost predicate ReadsAs(r: string, n: nat, unit: string) {
    exists count: string :: |count| >= 1 && Text.AllDigits(count) && Text.DecimalValue(count) == n && r == count + unit + " ago"
  }

  /** The relative time of each band: "Just now" exactly under a minute, otherwise the whole number of
      minutes under an hour, of hours under a day, and of days beyond. */
  lemma FormatTimeAgoBands(now: int, timestamp: int)
    ensures var s := (now - timestamp) / 1000;
            var r := FormatTimeAgo(now, timestamp);
            && (r == "Just now" <==> s < 60)
            && (60 <= s < 3600 ==> ReadsAs(r, s / 60, "m") && 1 <= s / 60 < 60)
            && (3600 <= s < 86400 ==> ReadsAs(r, s / 3600, "h") && 1 <= s / 3600 < 24)
            && (86400 <= s ==> ReadsAs(r, s / 86400, "d") && 1 <= s / 86400)
  {
    var s := (now - timestamp) / 1000;
    var r := FormatTimeAgo(now, timestamp);
    if s >= 60 {
      var unit, divisor := if s < 3600 then "m" else if s < 86400 then "h" else "d",
                           if s < 3600 then 60 else if s < 86400 then 3600 else 86400;
      var count := Text.NatToDecimal(s / divisor);
      Text.DecimalRoundTrip(s / divisor);
      assert r == count + unit + " ago";
      assert ReadsAs(r, s / divisor, unit);
      assert r[|r| - 1] == 'o';
    }
  }

  /** A time in the future, or less than a minute ago, is "Just now". */
  lemma FutureIsJustNow(now: int, timestamp: int)
    requires timestamp >= now - 59999
    ensures FormatTimeAgo(now, timestamp) == "Just now"
  {
  }

  /** Two bands side by side: 59 999 ms is still "Just now", and 3 600 000 ms is "1h ago". */
  lemma FormatTimeAgoEdges()
    ensures FormatTimeAgo(59999, 0) == "Just now"
    ensures FormatTimeAgo(3600000, 0) == "1h ago"
    ensures FormatTimeAgo(172800000, 0) == "2d ago"
  {
  }

  // ---------------------------------------------------------------- display defaults

  /** What `createRepoItem` shows of a repository. */
  datatype RepoItem = RepoItem(statusClass: string, lastChecked: string, issueCount: int)

  function RepoItemOf(now: int, repo: Repo): (item: RepoItem)
    ensures item.statusClass == StatusName(repo.status)
    ensures item.lastChecked == "Not checked" <==> !Js.Truthy(repo.lastChecked)
    ensures Js.Truthy(repo.lastChecked) ==> item.lastChecked == FormatTimeAgo(now, repo.lastChecked.value)
    ensures item.issueCount == 0 <==> !Js.Truthy(repo.lastIssueNumber)
    ensures Js.Truthy(repo.lastIssueNumber) ==> item.issueCount == repo.lastIssueNumber.value
  {
    if Js.Truthy(repo.lastChecked) then
      NeverPlaceholder(now, repo.lastChecked.value);
      RepoItem(StatusName(repo.status), FormatTimeAgo(now, repo.lastChecked.value), Js.OrZero(repo.lastIssueNumber))
    else RepoItem(StatusName(repo.status), "Not checked", Js.OrZero(repo.lastIssueNumber))
  }

  /** A relative time is never one of the placeholders, so the placeholders say exactly "no time". */
  lemma NeverPlaceholder(now: int, timestamp: int)
    ensures FormatTimeAgo(now, timestamp) != "Not checked"
    ensures FormatTimeAgo(now, timestamp) != "Never"
  {
    var r := FormatTimeAgo(now, timestamp);
    if r != "Just now" {
      assert r[|r| - 1] == 'o';
    }
  }

  /** What `updateStats` shows: the number of repositories, the issues found, and the last check. */
  datatype StatsBar = StatsBar(repoCount: nat, issueCount: int, lastCheck: string)

  /** `stats` is what `getStats` returned. */
  function StatsBarOf(now: int, repositories: seq<Repo>, stats: Stats): (bar: StatsBar)
    ensures bar.repoCount == |repositories| && bar.issueCount == stats.totalIssuesFound
    ensures bar.lastCheck == "Never" <==> !Js.Truthy(stats.lastCheckTime)
    ensures Js.Truthy(stats.lastCheckTime) ==> bar.lastCheck == FormatTimeAgo(now, stats.lastCheckTime.value)
  {
    if Js.Truthy(stats.lastCheckTime) then
      NeverPlaceholder(now, stats.lastCheckTime.value);
      StatsBar(|repositories|, Js.OrZero(Some(stats.totalIssuesFound)), FormatTimeAgo(now, stats.lastCheckTime.value))
    else StatsBar(|repositories|, Js.OrZero(Some(stats.totalIssuesFound)), "Never")
  }
}
