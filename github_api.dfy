/** The decision logic of the GitHub REST client: which request is sent, how a response is
    classified, how pull requests are told apart from issues, and which fetched issues are new.
    The network is not modelled: a response is a value handed to the functions below. */
module GitHubApi {
  import opened Wrappers
  import Js
  import Text

  const BaseUrl := "https://api.github.com"
  const AcceptHeader := ("Accept", "application/vnd.github.v3+json")
  /** Status 404 (section 15.5.5 of RFC 9110, Not Found). */
  const NotFoundMessage := "Repository not found"
  /** Status 403 (section 15.5.4 of RFC 9110, Forbidden), the status GitHub uses for an exhausted quota. */
  const RateLimitMessage := "Rate limit exceeded. " + "Please add a GitHub token in settings."
  const ApiErrorPrefix := "GitHub API error: "
  /** Below this many remaining requests the client warns that the quota is running low. */
  const LowQuotaThreshold := 10

  /** An entry of the issues list. GitHub lists pull requests as issues with a `pull_request` member;
      `isPullRequest` says whether that member is present. `labels` are the labels' names. */
  datatype Issue = Issue(number: int, title: string, htmlUrl: string, labels: seq<string>, isPullRequest: bool)

  /** The outcome of `response.json()`: the decoded value, or the message of the error it throws. */
  datatype Body<+T> = Parsed(value: T) | Malformed(message: string)

  /** What `fetch` produces for the issues endpoint: an HTTP response with the two rate-limit headers
      (absent headers are `None`), or a rejection with an error message. */
  datatype Response =
    | Reply(status: nat, remaining: Option<int>, reset: Option<int>, body: Body<seq<Issue>>)
    | NetworkFailure(message: string)

  /** A request: the URL without its query, the query parameters in order, and the headers in order. */
  datatype Request = Request(url: string, query: seq<(string, string)>, headers: seq<(string, string)>)

  /** `rateLimit.remaining` and `rateLimit.reset` (in milliseconds since the epoch). */
  datatype RateLimit = RateLimit(remaining: Option<int>, resetMillis: Option<int>)

  /** The value `fetchIssues` resolves to. */
  datatype Fetched = Fetched(issues: seq<Issue>, rateLimit: RateLimit)

  // ---------------------------------------------------------------- requests

  /** The value of the first header called `name`, if any. */
  function HeaderValue(headers: seq<(string, string)>, name: string): Option<string> {
    if |headers| == 0 then None
    else if headers[0].0 == name then Some(headers[0].1)
    else HeaderValue(headers[1..], name)
  }

  /** The headers `fetchIssues` and `checkRepository` send: `Accept`, and `Authorization` for a non-empty token. */
  function AuthHeaders(token: string): seq<(string, string)> {
    [AcceptHeader] + (if token != "" then [("Authorization", "token " + token)] else [])
  }

  /** The request `fetchIssues(owner, repo, token, since)` sends; `since` is given already in ISO 8601 form. */
  function IssuesRequest(owner: string, repo: string, token: string, since: Option<string>): Request {
    Request(BaseUrl + "/repos/" + owner + "/" + repo + "/issues",
            [("state", "open"), ("sort", "created"), ("direction", "desc"), ("per_page", "30")]
              + (if since.Some? then [("since", since.value)] else []),
            AuthHeaders(token))
  }

  /** The issues request always asks for the 30 newest open issues sorted by creation, adds `since` only
      when one is given, and carries credentials exactly when the token is non-empty. */
  lemma IssuesRequestShape(owner: string, repo: string, token: string, since: Option<string>)
    ensures var r := IssuesRequest(owner, repo, token, since);
            && r.query[..4] == [("state", "open"), ("sort", "created"), ("direction", "desc"), ("per_page", "30")]
            && (since.None? ==> |r.query| == 4)
            && (since.Some? ==> r.query[4..] == [("since", since.value)])
            && HeaderValue(r.headers, "Accept") == Some("application/vnd.github.v3+json")
            && (HeaderValue(r.headers, "Authorization").Some? <==> token != "")
            && (token != "" ==> HeaderValue(r.headers, "Authorization") == Some("token " + token))
  {
  }

  /** The request `checkRepository(owner, repo, token)` sends. */
  function RepositoryRequest(owner: string, repo: string, token: string): Request {
    Request(BaseUrl + "/repos/" + owner + "/" + repo, [], AuthHeaders(token))
  }

  /** The request `validateToken(token)` sends: the token is sent even when it is empty. */
  function UserRequest(token: string): Request {
    Request(BaseUrl + "/user", [], [("Authorization", "token " + token), AcceptHeader])
  }

  // ---------------------------------------------------------------- responses

  /** `response.ok`: a 2xx status. */
  predicate IsOk(status: nat) {
    200 <= status <= 299
  }

  /** The message `fetchIssues` throws for a status that is not OK. */
  function StatusError(status: nat): string {
    if status == 404 then NotFoundMessage
    else if status == 403 then RateLimitMessage
    else ApiErrorPrefix + Text.NatToDecimal(status)
  }

  /** Every failing status has its own message, except that 404 and 403 each have a fixed one:
      the status can be read back from the generic message. */
  lemma StatusErrorDistinguishes(status: nat)
    ensures status == 404 <==> StatusError(status) == NotFoundMessage
    ensures status == 403 <==> StatusError(status) == RateLimitMessage
    ensures status != 404 && status != 403 ==>
              var m := StatusError(status);
              && |m| > |ApiErrorPrefix| && m[..|ApiErrorPrefix|] == ApiErrorPrefix
              && Text.AllDigits(m[|ApiErrorPrefix|..]) && Text.DecimalValue(m[|ApiErrorPrefix|..]) == status
  {
    if status != 404 && status != 403 {
      var m := StatusError(status);
      assert m[|ApiErrorPrefix|..] == Text.NatToDecimal(status);
      Text.DecimalRoundTrip(status);
      assert m[0] == ApiErrorPrefix[0] == 'G';
      assert m != NotFoundMessage by { assert NotFoundMessage[0] == 'R'; }
      assert m != RateLimitMessage by { assert RateLimitMessage[0] == 'R'; }
    }
  }

  /** `issues.filter(issue => !issue.pull_request)`. */
  function WithoutPullRequests(issues: seq<Issue>): (r: seq<Issue>)
    ensures |r| <= |issues|
    ensures forall x :: x in r ==> x in issues && !x.isPullRequest
  {
    Js.Filter(issues, (i: Issue) => !i.isPullRequest)
  }

  /** The low-quota warning: the remaining header is present and below the threshold (it is checked
      before the status, so it fires on failing responses too). */
  predicate LowQuotaWarning(response: Response) {
    response.Reply? && response.remaining.Some? && response.remaining.value < LowQuotaThreshold
  }

  /** `fetchIssues`: a rejection or a decoding error propagates its message, a failing status throws
      its message, and a successful reply yields its issues without pull requests. */
  function FetchIssues(response: Response): (r: Result<Fetched, string>)
    ensures r.Ok? <==> response.Reply? && IsOk(response.status) && response.body.Parsed?
    ensures response.NetworkFailure? ==> r == Err(response.message)
    ensures response.Reply? && !IsOk(response.status) ==> r == Err(StatusError(response.status))
    ensures response.Reply? && IsOk(response.status) && response.body.Malformed? ==> r == Err(response.body.message)
  {
    match response
    case NetworkFailure(message) => Err(message)
    case Reply(status, remaining, reset, body) =>
      if !IsOk(status) then Err(StatusError(status))
      else match body
        case Malformed(message) => Err(message)
        case Parsed(entries) =>
          Ok(Fetched(WithoutPullRequests(entries),
                     RateLimit(remaining, if reset.Some? then Some(reset.value * 1000) else None)))
  }

  /** The issues `fetchIssues` returns are exactly the fetched entries that are not pull requests, in
      their original order, and the reset time is the header's seconds in milliseconds. */
  lemma FetchIssuesSuccess(status: nat, remaining: Option<int>, reset: Option<int>, entries: seq<Issue>)
    requires IsOk(status)
    ensures var r := FetchIssues(Reply(status, remaining, reset, Parsed(entries)));
            && r.Ok?
            && r.value.issues == WithoutPullRequests(entries)
            && (forall x :: x in r.value.issues <==> x in entries && !x.isPullRequest)
            && r.value.rateLimit.remaining == remaining
            && (reset.None? ==> r.value.rateLimit.resetMillis.None?)
            && (reset.Some? ==> r.value.rateLimit.resetMillis == Some(reset.value * 1000))
  {
    forall x {
      Js.FilterMembership(entries, (i: Issue) => !i.isPullRequest, x);
    }
  }

  /** A failing status fails the fetch with the status's message, whatever the body. */
  lemma FetchIssuesFailure(status: nat, remaining: Option<int>, reset: Option<int>, body: Body<seq<Issue>>)
    requires !IsOk(status)
    ensures FetchIssues(Reply(status, remaining, reset, body)) == Err(StatusError(status))
    ensures status == 404 ==> FetchIssues(Reply(status, remaining, reset, body)) == Err(NotFoundMessage)
    ensures status == 403 ==> FetchIssues(Reply(status, remaining, reset, body)) == Err(RateLimitMessage)
    ensures status != 404 && status != 403 ==>
              FetchIssues(Reply(status, remaining, reset, body)) == Err(ApiErrorPrefix + Text.NatToDecimal(status))
  {
  }

  /** Pull requests never reach the caller: the filter removes them wherever they stand. */
  lemma PullRequestsNeverReturned(entries: seq<Issue>)
    ensures forall k :: 0 <= k < |WithoutPullRequests(entries)| ==> !WithoutPullRequests(entries)[k].isPullRequest
    ensures (forall k :: 0 <= k < |entries| ==> entries[k].isPullRequest) ==> WithoutPullRequests(entries) == []
    ensures (forall k :: 0 <= k < |entries| ==> !entries[k].isPullRequest) ==> WithoutPullRequests(entries) == entries
  {
    var keep := (i: Issue) => !i.isPullRequest;
    forall k | 0 <= k < |WithoutPullRequests(entries)| ensures !WithoutPullRequests(entries)[k].isPullRequest {
      assert WithoutPullRequests(entries)[k] in WithoutPullRequests(entries);
    }
    if forall k :: 0 <= k < |entries| ==> entries[k].isPullRequest {
      Js.FilterDropsAll(entries, keep);
    }
    if forall k :: 0 <= k < |entries| ==> !entries[k].isPullRequest {
      Js.FilterKeepsAll(entries, keep);
    }
  }

  // ---------------------------------------------------------------- new issues

  /** `issues.filter(issue => issue.number > lastIssueNumber)`. */
  function Above(issues: seq<Issue>, watermark: int): seq<Issue> {
    Js.Filter(issues, (i: Issue) => i.number > watermark)
  }

  /** `getNewIssues(owner, repo, lastIssueNumber, token)`: always fetches first, so a failing fetch
      fails it; a falsy watermark (null or 0) is a baseline with no new issues; otherwise the
      fetched issues numbered above the watermark. */
  function GetNewIssues(response: Response, lastIssueNumber: Option<int>): (r: Result<seq<Issue>, string>)
    ensures r.Err? <==> FetchIssues(response).Err?
    ensures r.Err? ==> r.error == FetchIssues(response).error
    ensures r.Ok? && !Js.Truthy(lastIssueNumber) ==> r.value == []
    ensures r.Ok? ==> |r.value| <= |FetchIssues(response).value.issues|
  {
    match FetchIssues(response)
    case Err(message) => Err(message)
    case Ok(fetched) =>
      if !Js.Truthy(lastIssueNumber) then Ok([]) else Ok(Above(fetched.issues, lastIssueNumber.value))
  }

  /** Keeping the issues above the watermark preserves fetch order: the kept issues of a list come
      in the order of the list, an issue at a time. */
  lemma AboveInOrder(a: seq<Issue>, b: seq<Issue>, x: Issue, watermark: int)
    ensures Above(a + b, watermark) == Above(a, watermark) + Above(b, watermark)
    ensures Above([x], watermark) == if x.number > watermark then [x] else []
  {
    Js.FilterConcat(a, b, (i: Issue) => i.number > watermark);
  }

  /** The new issues are exactly the fetched non-pull-request issues above the watermark, in fetch order
      (`AboveInOrder`);
      errors propagate even for a baseline, and a baseline yields none. */
  lemma GetNewIssuesSpec(response: Response, lastIssueNumber: Option<int>)
    ensures FetchIssues(response).Err? ==> GetNewIssues(response, lastIssueNumber) == Err(FetchIssues(response).error)
    ensures FetchIssues(response).Ok? && !Js.Truthy(lastIssueNumber) ==> GetNewIssues(response, lastIssueNumber) == Ok([])
    ensures FetchIssues(response).Ok? && Js.Truthy(lastIssueNumber) ==>
              var newOnes := GetNewIssues(response, lastIssueNumber).value;
              && (forall x :: x in newOnes <==> x in FetchIssues(response).value.issues && x.number > lastIssueNumber.value)
              && (forall k :: 0 <= k < |newOnes| ==> newOnes[k].number > lastIssueNumber.value && !newOnes[k].isPullRequest)
  {
    if FetchIssues(response).Ok? && Js.Truthy(lastIssueNumber) {
      var all := FetchIssues(response).value.issues;
      var w := lastIssueNumber.value;
      var newOnes := Above(all, w);
      forall x {
        Js.FilterMembership(all, (i: Issue) => i.number > w, x);
      }
      var entries := response.body.value;
      forall k | 0 <= k < |newOnes| ensures !newOnes[k].isPullRequest {
        assert newOnes[k] in newOnes;
        assert newOnes[k] in all;
        Js.FilterMembership(entries, (i: Issue) => !i.isPullRequest, newOnes[k]);
      }
    }
  }

  /** `Math.max(...issues.map(i => i.number))` for a non-empty list: a number of the list, at least every other. */
  function MaxNumber(issues: seq<Issue>): (m: int)
    requires |issues| > 0
    ensures exists k :: 0 <= k < |issues| && issues[k].number == m
    ensures forall k :: 0 <= k < |issues| ==> issues[k].number <= m
  {
    if |issues| == 1 then issues[0].number
    else
      var rest := MaxNumber(issues[1..]);
      if issues[0].number >= rest then issues[0].number else rest
  }

  // ---------------------------------------------------------------- existence and token checks

  /** What `checkRepository` keeps of the repository document. */
  datatype RepoInfo = RepoInfo(fullName: string, description: Option<string>, stars: int,
                               language: Option<string>, isPrivate: bool)

  /** What `validateToken` keeps of the user document. */
  datatype UserInfo = UserInfo(login: string, name: Option<string>)

  /** A response to a single-document request, or a rejection. */
  datatype Probe<+T> = ProbeReply(status: nat, body: Body<T>) | ProbeFailure(message: string)

  /** `{ exists, data }`; `data` is present exactly when `found` is. */
  datatype RepoCheck = RepoCheck(found: bool, data: Option<RepoInfo>)

  /** `{ valid, username, name }`. */
  datatype TokenCheck = TokenCheck(valid: bool, user: Option<UserInfo>)

  /** `checkRepository`: never fails; found exactly for an OK reply whose body decodes. */
  function CheckRepository(probe: Probe<RepoInfo>): (r: RepoCheck)
    ensures r.found <==> probe.ProbeReply? && IsOk(probe.status) && probe.body.Parsed?
    ensures r.found ==> r.data == Some(probe.body.value)
    ensures !r.found ==> r.data == None
  {
    match probe
    case ProbeFailure(_) => RepoCheck(false, None)
    case ProbeReply(status, body) =>
      if IsOk(status) then
        match body
        case Parsed(info) => RepoCheck(true, Some(info))
        case Malformed(_) => RepoCheck(false, None)
      else RepoCheck(false, None)
  }

  /** `validateToken`: never fails; valid exactly for an OK reply whose body decodes. */
  function ValidateToken(probe: Probe<UserInfo>): (r: TokenCheck)
    ensures r.valid <==> probe.ProbeReply? && IsOk(probe.status) && probe.body.Parsed?
    ensures r.valid ==> r.user == Some(probe.body.value)
    ensures !r.valid ==> r.user == None
  {
    match probe
    case ProbeFailure(_) => TokenCheck(false, None)
    case ProbeReply(status, body) =>
      if IsOk(status) then
        match body
        case Parsed(user) => TokenCheck(true, Some(user))
        case Malformed(_) => TokenCheck(false, None)
      else TokenCheck(false, None)
  }
}
