/**
 * The two GraphQL fetchers of src/lib/github.ts: `fetchGitHubContributions`,
 * which throws a descriptive `Error` on every failure, and
 * `fetchRepositoryLineCounts`, which never throws and falls back to
 * `{ totalLinesOfCode: "0", linesByLanguage: "N/A" }`.
 *
 * The network is a parameter `respond` from the request that would be sent to
 * what `fetch` would produce: a rejection, or a response whose body parses as
 * JSON or not. The token is the value of `GITHUB_TOKEN`.
 */
module GitHubFetch {
  import opened Outcomes
  import opened ContributionTypes
  import LanguageSummary
  import Decimal

  /** `if (!token)`: an unset variable and the empty string are both missing. */
  predicate HasToken(token: Option<string>)
  {
    token.Some? && token.value != ""
  }

  datatype Query = ContributionsQuery | RepositoriesQuery

  /** The parts of the POST request that vary: the header, the query and `variables.username`. */
  datatype Request = Request(authorization: string, query: Query, username: string)

  function RequestFor(token: string, query: Query, username: string): (r: Request)
    ensures |r.authorization| == |token| + 7 && r.authorization[..7] == "Bearer " && r.authorization[7..] == token
  {
    Request("Bearer " + token, query, username)
  }

  /** What a `catch` clause can receive: an `Error` with its message, or any other value. */
  datatype Thrown = ErrorObject(message: string) | NonError

  /** One entry of `result.errors`; `message` is absent when the entry or its message is missing. */
  datatype GraphQLError = GraphQLError(message: Option<string>)

  /** The top level of a GraphQL response; `None` stands for an absent or null member. */
  datatype Envelope<D> = Envelope(errors: Option<seq<GraphQLError>>, data: Option<D>)

  /** The outcome of `response.json()`: a `SyntaxError` with its message, or a value. */
  datatype Body<D> = Unparsable(syntaxError: string) | Json(envelope: Envelope<D>)

  datatype HttpResponse<D> = HttpResponse(status: nat, statusText: string, text: string, body: Body<D>)

  /** The outcome of `await fetch(...)`. */
  datatype Transport<D> = Rejected(thrown: Thrown) | Responded(response: HttpResponse<D>)

  /** `response.ok`: the status is in the range 200-299. */
  predicate IsOk(status: nat)
  {
    200 <= status <= 299
  }

  /**
   * The checks both fetchers make in the same order: the HTTP status, then the
   * JSON parse, then `"errors" in result && result.errors` (a present array is
   * truthy even when empty), and only then the data.
   */
  datatype Reception<D> =
    | Threw(thrown: Thrown)
    | HttpError(status: nat, statusText: string, text: string)
    | GraphQLFailed(errors: seq<GraphQLError>)
    | Received(data: Option<D>)

  function Receive<D>(t: Transport<D>): (r: Reception<D>)
    ensures r.Received? <==>
      t.Responded? && IsOk(t.response.status) && t.response.body.Json? && t.response.body.envelope.errors.None?
    ensures r.HttpError? <==> t.Responded? && !IsOk(t.response.status)
    ensures r.Received? ==> r.data == t.response.body.envelope.data
  {
    match t
    case Rejected(thrown) => Threw(thrown)
    case Responded(response) =>
      if !IsOk(response.status) then HttpError(response.status, response.statusText, response.text)
      else match response.body
        case Unparsable(message) => Threw(ErrorObject(message))
        case Json(envelope) =>
          if envelope.errors.Some? then GraphQLFailed(envelope.errors.value) else Received(envelope.data)
  }

  // ------------------------------------------------------------ contributions

  datatype CalendarPayload = CalendarPayload(totalContributions: nat, weeks: seq<Week>)
  datatype CollectionPayload = CollectionPayload(
    totalCommitContributions: nat,
    totalPullRequestContributions: nat,
    totalRepositoryContributions: nat,
    contributionCalendar: Option<CalendarPayload>)
  datatype ContributionsUser = ContributionsUser(contributionsCollection: Option<CollectionPayload>)
  datatype ContributionsData = ContributionsData(user: Option<ContributionsUser>)

  const MissingTokenMessage: string :=
    "GITHUB_TOKEN environment variable is not set. "
    + "Please create a Personal Access Token at https://github.com/settings/tokens "
    + "with read:user scope and add it to your .env.local file."
  const InvalidStructureMessage: string := "Invalid response structure from GitHub API"
  const UnexpectedMessage: string := "An unexpected error occurred while fetching contributions"

  function HttpErrorMessage(status: nat, statusText: string, text: string): (m: string)
    ensures exists digits :: (Decimal.IsDecimal(digits) && Decimal.ToNat(digits) == status
      && m == "GitHub API HTTP error: " + digits + " " + statusText + ". " + text)
  {
    Decimal.RoundTrip(status);
    "GitHub API HTTP error: " + Decimal.FromNat(status) + " " + statusText + ". " + text
  }

  /** `result.errors[0]?.message || "Unknown error"` */
  function FirstErrorMessage(errors: seq<GraphQLError>): (m: string)
    ensures m != ""
    ensures m == "Unknown error" || (|errors| > 0 && errors[0].message == Some(m))
    ensures |errors| > 0 && errors[0].message.Some? && errors[0].message.value != "" ==> m == errors[0].message.value
  {
    if |errors| > 0 && errors[0].message.Some? && errors[0].message.value != "" then errors[0].message.value
    else "Unknown error"
  }

  /** `data?.user?.contributionsCollection?.contributionCalendar`, combined with the collection totals. */
  function CalendarOf(data: Option<ContributionsData>): (r: Option<Calendar>)
    ensures r.Some? <==>
      data.Some? && data.value.user.Some? && data.value.user.value.contributionsCollection.Some?
      && data.value.user.value.contributionsCollection.value.contributionCalendar.Some?
  {
    match data
    case None => None
    case Some(d) =>
      match d.user
      case None => None
      case Some(user) =>
        match user.contributionsCollection
        case None => None
        case Some(collection) =>
          match collection.contributionCalendar
          case None => None
          case Some(calendar) =>
            Some(Calendar(
              calendar.totalContributions,
              collection.totalCommitContributions,
              collection.totalPullRequestContributions,
              collection.totalRepositoryContributions,
              calendar.weeks))
  }

  /** What the `try`/`catch` makes of each reception: an `Error` is rethrown as it is. */
  function ContributionsOutcome(r: Reception<ContributionsData>): Result<Calendar>
  {
    match r
    case Threw(ErrorObject(message)) => Failure(message)
    case Threw(NonError) => Failure(UnexpectedMessage)
    case HttpError(status, statusText, text) => Failure(HttpErrorMessage(status, statusText, text))
    case GraphQLFailed(errors) => Failure("GitHub GraphQL error: " + FirstErrorMessage(errors))
    case Received(data) =>
      match CalendarOf(data)
      case None => Failure(InvalidStructureMessage)
      case Some(calendar) => Success(calendar)
  }

  /** `fetchGitHubContributions(username)` */
  function FetchGitHubContributions(
    username: string, token: Option<string>, respond: Request -> Transport<ContributionsData>): (r: Result<Calendar>)
    ensures !HasToken(token) ==> r == Failure(MissingTokenMessage)
    ensures r.Success? ==> HasToken(token)
  {
    if !HasToken(token) then Failure(MissingTokenMessage)
    else ContributionsOutcome(Receive(respond(RequestFor(token.value, ContributionsQuery, username))))
  }

  /** The response `fetch` would give for the contributions request. */
  function ContributionsResponse(
    username: string, token: Option<string>, respond: Request -> Transport<ContributionsData>): Transport<ContributionsData>
    requires HasToken(token)
  {
    respond(RequestFor(token.value, ContributionsQuery, username))
  }

  /**
   * The fetch succeeds exactly when there is a token and the response is 2xx,
   * parses, carries no `errors` and holds the calendar; the calendar is then the
   * response's, with the collection's three totals copied unchanged.
   */
  lemma ContributionsSucceedExactly(
    username: string, token: Option<string>, respond: Request -> Transport<ContributionsData>)
    ensures var r := FetchGitHubContributions(username, token, respond);
      r.Success? <==> (HasToken(token) &&
        var t := ContributionsResponse(username, token, respond);
        t.Responded? && IsOk(t.response.status) && t.response.body.Json?
        && t.response.body.envelope.errors.None? && CalendarOf(t.response.body.envelope.data).Some?)
    ensures var r := FetchGitHubContributions(username, token, respond);
      r.Success? ==>
        var collection := ContributionsResponse(username, token, respond).response.body.envelope.data.value.user.value.contributionsCollection.value;
        && r.value.totalCommitContributions == collection.totalCommitContributions
        && r.value.totalPullRequestContributions == collection.totalPullRequestContributions
        && r.value.totalRepositoryContributions == collection.totalRepositoryContributions
        && r.value.weeks == collection.contributionCalendar.value.weeks
        && r.value.totalContributions == collection.contributionCalendar.value.totalContributions
  {
    if HasToken(token) {
      var t := ContributionsResponse(username, token, respond);
      var rec := Receive(t);
      if rec.Received? {
        assert t.response.body.envelope.data == rec.data;
      }
    }
  }

  /**
   * A successful response whose `errors` member is present fails with the first
   * error's message, or "Unknown error" when that message is missing or empty,
   * whatever `data` holds.
   */
  lemma GraphQLErrorsWin(
    username: string, token: Option<string>, respond: Request -> Transport<ContributionsData>)
    requires HasToken(token)
    requires var t := ContributionsResponse(username, token, respond);
      t.Responded? && IsOk(t.response.status) && t.response.body.Json? && t.response.body.envelope.errors.Some?
    ensures var errors := ContributionsResponse(username, token, respond).response.body.envelope.errors.value;
      FetchGitHubContributions(username, token, respond) == Failure("GitHub GraphQL error: " + FirstErrorMessage(errors))
  {
  }

  // ------------------------------------------------------------- line counts

  datatype RepositoryNodes = RepositoryNodes(nodes: Option<seq<LanguageSummary.Repository>>)
  datatype RepositoriesUser = RepositoriesUser(repositories: Option<RepositoryNodes>)
  datatype RepositoriesData = RepositoriesData(user: Option<RepositoriesUser>)

  datatype LineCounts = LineCounts(totalLinesOfCode: string, linesByLanguage: string)

  const Fallback := LineCounts("0", "N/A")

  /** `result.data?.user?.repositories?.nodes`, when the response got that far. */
  function NodesOf(r: Reception<RepositoriesData>): (nodes: Option<seq<LanguageSummary.Repository>>)
    ensures nodes.Some? <==> (r.Received? && r.data.Some? && r.data.value.user.Some?
      && r.data.value.user.value.repositories.Some? && r.data.value.user.value.repositories.value.nodes.Some?)
  {
    if r.Received? && r.data.Some? && r.data.value.user.Some? && r.data.value.user.value.repositories.Some?
    then r.data.value.user.value.repositories.value.nodes
    else None
  }

  /** The two strings computed from the language totals (src/lib/github.ts:436-453). */
  function Summarize(tally: seq<LanguageSummary.LanguageTotal>, thousands: nat -> string): LineCounts
  {
    LineCounts(LanguageSummary.TotalLinesOfCode(tally, thousands), LanguageSummary.LinesByLanguage(tally, thousands))
  }

  /** The line counts the fetcher returns, as a function of its inputs. */
  function LineCountsOf(
    username: string, token: Option<string>, respond: Request -> Transport<RepositoriesData>,
    thousands: nat -> string): LineCounts
  {
    if !HasToken(token) then Fallback
    else
      var nodes := NodesOf(Receive(respond(RequestFor(token.value, RepositoriesQuery, username))));
      if nodes.None? then Fallback
      else Summarize(LanguageSummary.Tally(LanguageSummary.AllEdges(nodes.value)), thousands)
  }

  /**
   * `fetchRepositoryLineCounts(username)`: returns a value on every path;
   * `thousands(n)` stands for the text of `(n / 1000).toFixed(1)`.
   */
  method FetchRepositoryLineCounts(
    username: string, token: Option<string>, respond: Request -> Transport<RepositoriesData>,
    thousands: nat -> string) returns (counts: LineCounts)
    ensures counts == LineCountsOf(username, token, respond, thousands)
  {
    if !HasToken(token) {
      return Fallback;
    }
    var reception := Receive(respond(RequestFor(token.value, RepositoriesQuery, username)));
    var nodes := NodesOf(reception);
    if nodes.None? {
      return Fallback;
    }
    var tally := LanguageSummary.AggregateLanguages(nodes.value);
    counts := Summarize(tally, thousands);
  }

  /**
   * Every failure path gives the fallback: no token, a rejected fetch, a non-2xx
   * status, an unparsable body, a GraphQL error, or no repository nodes.
   */
  lemma LineCountsFallBack(
    username: string, token: Option<string>, respond: Request -> Transport<RepositoriesData>,
    thousands: nat -> string)
    requires !HasToken(token)
      || var t := respond(RequestFor(token.value, RepositoriesQuery, username));
         t.Rejected? || !IsOk(t.response.status) || t.response.body.Unparsable?
         || t.response.body.envelope.errors.Some? || NodesOf(Receive(t)).None?
    ensures LineCountsOf(username, token, respond, thousands) == Fallback
  {
  }

  /**
   * A successful response gives the fallback exactly when its repositories have
   * no language edge at all: the summary of an empty tally is `{"0", "N/A"}`,
   * and any edge makes the language text different from "N/A".
   */
  lemma SummaryIsFallbackExactlyWithoutEdges(repositories: seq<LanguageSummary.Repository>, thousands: nat -> string)
    ensures Summarize(LanguageSummary.Tally(LanguageSummary.AllEdges(repositories)), thousands) == Fallback
      <==> |LanguageSummary.AllEdges(repositories)| == 0
  {
    var edges := LanguageSummary.AllEdges(repositories);
    LanguageSummary.LinesByLanguageNotAvailable(repositories, thousands);
    if |edges| == 0 {
      var tally := LanguageSummary.Tally(edges);
      assert |tally| == 0;
      assert LanguageSummary.Lines(0) == 0;
      assert Decimal.FromNat(0) == "0";
    }
  }
}
