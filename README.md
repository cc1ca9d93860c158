# GitHub tool server: request/response contract layer, in Dafny

This project models the decision logic of a small MCP server that exposes GitHub operations as tools. It covers four Python files.

- `github/common/errors.py`: the seven `GitHubError` classes and `create_github_error`. That function turns an HTTP status and a parsed body into one of those classes.
- `github/common/utils.py`:
  - the three name validators;
  - `build_url` and the `urlencode` it relies on;
  - the header merge and outcome routing of `github_request`, and `parse_response_body`;
  - `check_branch_exists` and `check_user_exists`.
- `github/branches.py`: reading a branch's sha, resolving the default branch (`main`, then `master`), and creating and moving branches.
- `github/commits.py`: the commits URL with its optional paging parameters, and the one request `list_commits` makes.

Everything is pure: functions over datatypes, with lemmas relating them.

- **Exceptions.** A Python exception is a value of `Errors.Exception`.
- **Runs.** Every operation that talks to GitHub returns a `Utils.Run<T>`. It holds the outcome and the exact list of requests sent, in order. That makes statements such as "master is never requested" checkable.
- **The remote server.** It is a function parameter from `Request` to `Reply`. A reply is either a response (status, content type, decoded JSON, text) or the exception `requests.request` raised. `response.ok` is derived from the status as `requests` does: false exactly for 400 to 599.
- **Environment.** The `GITHUB_PERSONAL_ACCESS_TOKEN` variable and the current time come in as an `Env` parameter.
- **JSON.** Bodies are a `Json` datatype: null, booleans, integers, strings, lists and string-keyed dicts.

Strings are modelled closely enough that the validators' verdicts are exact:

- `str.strip` uses Python's full `isspace` set.
- `str.lower` covers every character whose lower case is ASCII.
- `$` in a regular expression also matches before a final newline, as in Python's `re`.

Each regular expression is modelled as the engine reads it. A lemma then ties it to a plain description (`Utils.OwnerPatternIff` shows the owner pattern accepts exactly the GitHub login shape). Each validator is also stated declaratively: an ordered rule list (`Utils.BranchRules`, `Utils.RepositoryRules`, `Utils.OwnerRules`), where the first broken rule gives the message.

Where the code and the documented intent differ, the model follows the code:

- A 401 with no message in the body gets "GitHub API error", not "Authentication failed" (`Errors.ClassifiedMessage`).
- A 429 with no message also gets "GitHub API error", not "Rate limit exceeded".
- An empty `master` body raises `ValueError`, not a not-found error (`Branches.DefaultBranchNeither`).
- As written, a 404 on `main` is raised and `master` is never tried (`Branches.DefaultBranchMainMissing`).

Where the code is evidently wrong, both versions are modelled; see "## Findings".

## Model

| member | source | states |
|---|---|---|
| Errors.NewGitHubError | github/common/errors.py:5-10 | keeps the given message, status and response; name "GitHubError"; well-formed |
| Errors.NewValidationError | github/common/errors.py:13-16 | keeps message, status and response; name "GitHubValidationError" |
| Errors.NewResourceNotFoundError | github/common/errors.py:19-26 | status 404, message "Resource not found: " + str(resource), response {"message": str(resource) + " not found"} |
| Errors.NewAuthenticationError | github/common/errors.py:29-32 | status 401, response {"message": message}, default message "Authentication failed" |
| Errors.NewPermissionError | github/common/errors.py:35-38 | status 403, response {"message": message}, default "Insufficient permissions" |
| Errors.NewRateLimitError | github/common/errors.py:41-50 | status 429, reset time is the given one or now, response holds message and reset_at |
| Errors.NewConflictError | github/common/errors.py:53-56 | status 409, response {"message": message} |
| Errors.IsGitHubError | github/common/errors.py:59-60 | true exactly for `GitHubError` and its subclasses (the `GitHub` exceptions), false for every other exception |
| Errors.CreateGitHubError | github/common/errors.py:63-83 | a truthy non-dict body raises AttributeError; a 429 whose reset_at is not text raises TypeError; otherwise the error keeps the input status, has the kind the status table gives (401, 403, 404, 409, 422, 429, else generic), the matching name, and is well-formed |
| Errors.ClassifiedMessage | github/common/errors.py:64-83 | the message is the body's `message` or the status's default ("Resource" for 404, "Conflict occurred" for 409, "Validation failed" for 422, "GitHub API error" otherwise), wrapped as "Resource not found: ..." for 404 |
| Errors.ClassifiedResponse | github/common/errors.py:63-83 | 422 and unmapped statuses keep the body (None/empty read as {}); 401/403/409 replace it by {"message": message}; 404 by {"message": m + " not found"}; 429 by message and reset_at |
| Errors.RateLimitResetAt | github/common/errors.py:79-81 | a 429's reset time is the body's reset_at when present, else now |
| JsonValues.Get | github/common/errors.py:65 | `dict.get` gives the entry when the key is present, else the default |
| Strings.Strip | github/common/utils.py:58 | the stripped text has no whitespace at either end |
| Strings.StripPadded | github/common/utils.py:58 | stripping whitespace-padded trimmed text gives back exactly that text |
| Strings.StripTrimmed | github/common/utils.py:58 | stripping already-stripped text changes nothing |
| Strings.Lower | github/common/utils.py:73 | lower-casing keeps the length and maps each character on its own |
| Strings.LowerIdempotent | github/common/utils.py:73 | lower-casing twice is lower-casing once |
| Strings.LowerKeepsTrimmed | github/common/utils.py:73 | lower-casing stripped text leaves it stripped |
| Strings.ContainsIff | github/common/utils.py:61 | `needle in s` holds iff the needle occurs at some position |
| Strings.SplitJoin | github/common/utils.py:22 | splitting a join at its separator gives back the pieces, when no piece holds the separator |
| Strings.IntToString | github/commits.py:30-31 | `str(n)` is non-empty, starts with '-' iff n is negative, and is otherwise digits |
| Strings.NatToStringRoundTrip | github/commits.py:30-31 | the decimal text of n reads back as n and has no leading zero |
| UrlEncoding.Quote | github/common/utils.py:22 | an encoded component holds only always-safe characters, '+' and '%' |
| UrlEncoding.QuoteSafe | github/common/utils.py:22 | a component of always-safe characters is sent unchanged |
| UrlEncoding.EncodePair | github/common/utils.py:22 | a pair holds no '&' and splits at '=' into the encoded key and value |
| UrlEncoding.UrlEncode | github/common/utils.py:22 | the query is empty iff there are no pairs |
| UrlEncoding.UrlEncodeSplit | github/common/utils.py:22 | the query splits at '&' back into the encoded pairs, in order |
| Utils.FirstBroken | github/common/utils.py:57-93 | no rule is reported iff every rule holds |
| Utils.FirstBrokenAt | github/common/utils.py:57-93 | the reported rule is the first broken one in list order |
| Utils.SearchBracketPatternIff | github/common/utils.py:63 | the search at line 63 succeeds iff some character of the class is directly followed by ']' |
| Utils.MatchRepoRunIff | github/common/utils.py:76 | the repository pattern matches iff every character is in [a-z0-9_.-] (no final newline) |
| Utils.MatchOwnerTokensIff | github/common/utils.py:89 | the bounded repetition matches iff at most 38 characters remain and each is a valid token |
| Utils.OwnerPatternIff | github/common/utils.py:89 | the owner pattern matches iff the text is 1 to 39 of [a-z0-9-], with no '-' at either end and no "--" |
| Utils.ValidateBranchName | github/common/utils.py:57-69 | success returns the stripped name; failure is a ValueError |
| Utils.CheckBranchName | github/common/utils.py:59-69 | the five checks on the stripped name: success returns it, failure is a ValueError |
| Utils.DoubleDotIff | github/common/utils.py:61 | `".." in t` iff two adjacent periods occur |
| Utils.ValidateBranchNameFollowsRules | github/common/utils.py:57-69 | the validator returns the stripped name when all five rules hold, else the message of the first one broken |
| Utils.CheckBranchNameFollowsRules | github/common/utils.py:59-69 | the checks agree with the ordered rule list on every text |
| Utils.ValidateRepositoryName | github/common/utils.py:72-82 | success returns the stripped, lower-cased name; failure is a ValueError |
| Utils.CheckRepositoryName | github/common/utils.py:74-82 | the three checks: success returns the name, failure is a ValueError |
| Utils.SanitizedNoFinalNewline | github/common/utils.py:73 | a stripped, lower-cased name has no final newline, so `$` acts as end of text |
| Utils.ValidateRepositoryNameFollowsRules | github/common/utils.py:72-82 | success iff the sanitized name is non-empty, all [a-z0-9_.-], with no '.' at either end; otherwise the first broken rule's message |
| Utils.CheckRepositoryNameFollowsRules | github/common/utils.py:74-82 | the checks agree with the ordered rule list |
| Utils.ValidateOwnerName | github/common/utils.py:85-93 | success returns the stripped, lower-cased name; failure is a ValueError |
| Utils.CheckOwnerName | github/common/utils.py:87-93 | the two checks: success returns the name, failure is a ValueError |
| Utils.ValidateOwnerNameFollowsRules | github/common/utils.py:85-93 | success iff the sanitized name has the GitHub login shape; otherwise the first broken rule's message |
| Utils.CheckOwnerNameFollowsRules | github/common/utils.py:87-93 | the checks agree with the ordered rule list |
| Utils.ValidateBranchNameIdempotent | github/common/utils.py:57-69 | validating an accepted branch name again returns it unchanged |
| Utils.SanitizeIdempotent | github/common/utils.py:73 | strip-and-lower applied twice equals applied once |
| Utils.ValidateRepositoryNameIdempotent | github/common/utils.py:72-82 | validating an accepted repository name again returns it unchanged |
| Utils.ValidateOwnerNameIdempotent | github/common/utils.py:85-93 | validating an accepted owner name again returns it unchanged |
| Utils.BranchPatternAcceptsSpaceAndTilde | github/common/utils.py:63-64 | as written, "a b" and "x~1" pass every branch check |
| Utils.BranchPatternRejectsSBracket | github/common/utils.py:63-64 | as written, "fixes]" is refused as invalid characters while "fix]" passes |
| Utils.SearchInvalidCharIff | github/common/utils.py:63 | the intended search succeeds iff some character is whitespace, one of `~ ^ : ? * [`, or a backslash |
| Utils.ValidateBranchNameIntended | github/common/utils.py:57-69 | success returns the stripped name; failure is a ValueError |
| Utils.CheckBranchNameIntended | github/common/utils.py:59-69 | the five checks with the intended character class |
| Utils.CheckBranchNameIntendedFollowsRules | github/common/utils.py:59-69 | the intended checks agree with the intended ordered rule list |
| Utils.ValidateBranchNameIntendedFollowsRules | github/common/utils.py:57-69 | the intended validator follows its rules, and an accepted name contains no invalid character anywhere |
| Utils.BranchIntendedRejects | github/common/utils.py:63-64 | the intended validator refuses "a b" and "x~1" as invalid characters |
| Utils.Present | github/common/utils.py:22 | the entries whose value is not None, never more than given; empty iff every value is None |
| Utils.PresentEntries | github/common/utils.py:22 | every entry with a value is kept as (key, value), and every kept pair comes from such an entry |
| Utils.PresentAppend | github/common/utils.py:22 | filtering keeps order: the filter of a concatenation is the concatenation of the filters |
| Utils.BuildUrl | github/common/utils.py:20-23 | the URL is the bare base iff every value is None, else base + "?" + the encoded present entries |
| Utils.BuildUrlPrefix | github/common/utils.py:21-23 | a built URL always starts with its base |
| Utils.BuildUrlQuery | github/common/utils.py:20-23 | the query after '?' splits at '&' into one encoded pair per present entry, in insertion order |
| Utils.BuildUrlThree | github/common/utils.py:20-23 | three given parameters appear in the query in the order listed |
| Utils.EncodeSafePair | github/common/utils.py:22 | a single pair of always-safe text encodes to key + "=" + value |
| Utils.BuildRequest | github/common/utils.py:42-47 | the request goes to the given URL; the method is the option's, GET when absent; the headers are the merged ones; the body is sent iff it is truthy, and then unchanged |
| Utils.RequestHeaders | github/common/utils.py:30-39 | the headers are the defaults, the caller's and Authorization (only with a non-empty token); caller headers override the defaults; the token gives "Bearer <token>" |
| Utils.ParseResponseBody | github/common/utils.py:13-17 | decoded JSON when the content type contains application/json (a decode failure raises), else the text |
| Utils.GitHubRequest | github/common/utils.py:26-54 | exactly one request is sent; a transport exception is raised; an ok status returns the parsed body; a failing status raises: the decode error when its JSON body does not decode (the body is parsed before `ok` is checked), otherwise what `create_github_error` gives for the parsed body |
| Utils.RaisedIsGitHubError | github/common/utils.py:51-52 | what a failing status raises is a GitHub error exactly when `create_github_error` could classify the body |
| Utils.FailingResponseRaisesGitHubError | github/common/utils.py:49-52 | a failing status with a dict or empty body raises a GitHub error with that status and its kind |
| Utils.ExistsFromLookup | github/common/utils.py:97-103 | true iff the lookup succeeded; false iff it raised an error whose status is 404; any other error is raised again |
| Utils.CheckBranchExists | github/common/utils.py:96-103 | one GET of the branch URL, read by ExistsFromLookup |
| Utils.CheckUserExists | github/common/utils.py:106-113 | one GET of the user URL, read by ExistsFromLookup |
| Utils.CheckBranchExistsOnFailure | github/common/utils.py:96-103 | for a failing answer the branch is absent iff the status is 404; other statuses raise the classified error |
| Utils.CheckBranchExistsUndecodable | github/common/utils.py:49-52 | a 404 whose JSON body does not decode raises JSONDecodeError rather than reporting the branch absent |
| Utils.CheckBranchExistsAsWritten | github/common/utils.py:96-103 | as written (no await): no request is sent and the answer is true |
| Utils.CheckUserExistsAsWritten | github/common/utils.py:106-113 | as written (no await): no request is sent and the answer is true |
| Utils.UnawaitedChecksMissAbsence | github/common/utils.py:96-113 | for a branch or user the server reports missing, the checks as written say true and the awaited ones say false |
| Branches.ParseReference | github/branches.py:22-23 | a non-dict body raises TypeError; a dict parses iff its `object` is a dict of strings, else ValidationError; the parsed reference is that dict |
| Branches.ParseReferenceBody | github/branches.py:22-23 | a reference written as a body parses back to itself, whatever other entries the body has |
| Branches.ShaOf | github/branches.py:32 | `object["sha"]` when present, else KeyError("sha") |
| Branches.ShaFromLookup | github/branches.py:28-32 | request errors propagate; then schema errors; then the sha lookup |
| Branches.ShaFromReferenceBody | github/branches.py:31-32 | a reference body with a sha reads as that sha |
| Branches.GetBranchSha | github/branches.py:61-67 | exactly one GET of `.../git/refs/heads/<branch>`; the result is the sha read from its answer |
| Branches.GetBranchShaAnswered | github/branches.py:62-67 | when the server answers with a reference, the branch's sha is the reference's |
| Branches.MasterSha | github/branches.py:34-42 | a falsy master body raises ValueError("Could not find default branch (tried 'main' and 'master')"); otherwise its sha; master errors propagate |
| Branches.DefaultBranchSha | github/branches.py:26-42 | the GET of main; when reading it raises a caught error, the GET of master follows and master's body decides (ValueError when falsy, else its sha); otherwise main's outcome stands and nothing else is sent. Which errors are caught is the parameter |
| Branches.GetDefaultBranchShaAsWritten | github/branches.py:26-42 | main is requested first; master is requested iff reading main raised requests.HTTPError or ValidationError, and then the second request is the GET of master and master's body decides; otherwise main's outcome stands |
| Branches.GetDefaultBranchSha | github/branches.py:26-42 | as above, with GitHub errors on main also falling back to master |
| Branches.DefaultBranchMainFound | github/branches.py:27-32 | a valid main reference is returned and master is never requested |
| Branches.DefaultBranchMissingSha | github/branches.py:31-33 | a main reference without sha raises KeyError and does not fall back, as written and as intended |
| Branches.DefaultBranchNeither | github/branches.py:27-40 | empty answers for both main and master raise the ValueError |
| Branches.DefaultBranchMainMissing | github/branches.py:27-35 | as written, a 404 on main raises a not-found error without requesting master; the intended version requests master |
| Branches.CallGitHubRequest | github/branches.py:50-57 | undeclared keyword arguments raise TypeError before any request; otherwise the request is made |
| Branches.ReferenceFrom | github/branches.py:58 | request errors propagate, otherwise the body is parsed as a reference; the requests are kept |
| Branches.CreateBranchAsWritten | github/branches.py:45-58 | as written: TypeError, no request sent |
| Branches.CreateBranch | github/branches.py:45-58 | one POST to `.../git/refs` with body {"ref": "refs/heads/" + ref, "sha": sha} and the default headers; the result is that request's outcome read as a reference, so request errors are raised unchanged |
| Branches.UpdateBranchAsWritten | github/branches.py:81-93 | as written: TypeError, no request sent |
| Branches.UpdateBranch | github/branches.py:81-93 | one PATCH to `.../git/refs/heads/<branch>` with body {"sha": sha, "force": true} and the default headers; the result is that request's outcome read as a reference, so request errors are raised unchanged |
| Branches.WriteRefused | github/branches.py:50-58 | a create or update the server refuses (409, 422, ...) with a dict body is raised as the GitHub error of that status |
| Branches.UpdateBodyForces | github/branches.py:88-91 | the update body has exactly the keys sha and force, with force true |
| Branches.CreateBranchAnswered | github/branches.py:50-58 | a create answered with a reference returns that reference |
| Branches.WritesNeverSent | github/branches.py:50-57 | as written, create and update send nothing; the corrected versions send their request |
| Branches.SourceSha | github/branches.py:74-77 | with a non-empty source branch the sha is that branch's (`get_branch_sha`), otherwise the default branch's; one or two requests, all GETs |
| Branches.CreateBranchFromRef | github/branches.py:70-78 | a failed sha lookup is raised and nothing is created; otherwise the lookup's requests are followed by the create at the found sha |
| Branches.FromExplicitBranch | github/branches.py:74-78 | with a non-empty source branch: exactly a GET of that branch and a POST creating refs/heads/<new> at its sha |
| Branches.FromDefaultBranch | github/branches.py:74-77 | with no or an empty source branch the first request is the GET of main |
| Branches.FromRefCreatesLast | github/branches.py:70-78 | a successful creation sends two or three requests: GETs, then the POST last |
| Commits.OptionalText | github/commits.py:30-31 | a page number is stringified iff it is not None (0 included) |
| Commits.CommitsParams | github/commits.py:29-33 | the parameters page, per_page and sha, in that order; page and per_page have a value iff given, and then it is `str` of the number; sha is passed as is |
| Commits.CommitsUrl | github/commits.py:27-34 | the URL starts with the commits endpoint, and is exactly that endpoint iff no parameter is given |
| Commits.ListCommits | github/commits.py:17-35 | exactly one GET of the commits URL, with no body; a transport exception is raised; a failing status raises; an ok answer's parsed body is returned unchanged |
| Commits.CommitsPresent | github/commits.py:29-33 | the query entries are the non-None ones among page, per_page and sha, in that order |
| Commits.CommitsUrlBare | github/commits.py:27-34 | with no parameter the URL is exactly `https://api.github.com/repos/<owner>/<repo>/commits` |
| Commits.CommitsUrlQueried | github/commits.py:27-34 | any parameter given, page 0 included, adds '?' and one encoded pair per given parameter |
| Commits.CommitsQueryOrder | github/commits.py:29-33 | with all three given the query is page, per_page, sha in that order |
| Commits.IntToStringSafe | github/commits.py:30-31 | a stringified number needs no escaping |
| Commits.CommitsUrlPageOnly | github/commits.py:27-34 | with only a page given the URL is the base + "?page=" + str(page), for 0 and negative pages too |

## Findings

| source | as written | input that shows it | evidently intended | confidence | as-written member | corrected member |
|---|---|---|---|---|---|---|
| github/common/utils.py:63 | the raw pattern's class closes at its first `]`, so it only matches one of `\ s ~ ^ : ? * [` directly followed by `]` | "a b" and "x~1" are accepted; "fixes]" is refused | refuse any whitespace, `~ ^ : ? * [` or backslash anywhere | high, not executed | Utils.BranchPatternAcceptsSpaceAndTilde | Utils.ValidateBranchNameIntendedFollowsRules |
| github/common/utils.py:96-113 | `github_request` is a coroutine function called without `await`, so the call neither sends a request nor raises | a branch the server answers 404 for is reported as existing | await the request and answer false on 404 | high, not executed | Utils.UnawaitedChecksMissAbsence | Utils.CheckBranchExists |
| github/branches.py:33 | the handler catches `requests.HTTPError`, but `github_request` reports a failing status as a `GitHubError` | a 404 for `main` raises a not-found error and `master` is never requested | fall back to `master` when `main` cannot be read | medium, not executed | Branches.DefaultBranchMainMissing | Branches.GetDefaultBranchSha |
| github/branches.py:50-57 | `method=` and `body=` are passed as keywords that `github_request(url, options)` does not declare | every call raises TypeError and no branch is created | pass `{"method": "POST", "body": ...}` as the options | high, not executed | Branches.CreateBranchAsWritten | Branches.CreateBranch |
| github/branches.py:85-92 | the same undeclared `method=` and `body=` keywords | every call raises TypeError and no branch is moved | pass `{"method": "PATCH", "body": ...}` as the options | high, not executed | Branches.UpdateBranchAsWritten | Branches.UpdateBranch |

`Branches.CreateBranchFromRef` uses the corrected `Branches.CreateBranch` and `Branches.GetDefaultBranchSha`.

## Left out

- Asynchronous execution: apart from `Utils.CheckBranchExistsAsWritten` and `Utils.CheckUserExistsAsWritten`, every call of `github_request` is modelled as awaited. As executed, the unawaited calls in github/branches.py and github/commits.py fail in different ways:
  - `get_branch_sha` and `get_default_branch_sha` fail on `**coroutine`;
  - `create_branch` and `update_branch` raise TypeError on the undeclared keywords first (`Branches.CreateBranchAsWritten`, `Branches.UpdateBranchAsWritten`);
  - `create_branch_from_ref` fails in pydantic when building `CreateBranchOptions` with a coroutine as its sha;
  - `list_commits` returns the coroutine itself.
- Commits.ListCommits: models the awaited request; `list_commits` is a plain function that returns the unawaited coroutine.
- Branches.CreateBranchFromRef: models awaited lookups, and uses the corrected `Branches.GetDefaultBranchSha` and `Branches.CreateBranch`. So without a source branch, a 404 on `main` falls back to `master` in the model, while the source raises the not-found error (`Branches.DefaultBranchMainMissing`). As written, the sha passed to `CreateBranchOptions` is a coroutine.
- Errors.CreateGitHubError: a textual `reset_at` is kept verbatim. The model leaves out the `fromisoformat`/`isoformat` normalisation and the ValueError for text that is not an ISO timestamp.
- Errors.RateLimitResetAt: the same `reset_at` simplification.
- Errors.ClassifiedResponse: the same `reset_at` simplification.
- JsonValues.Show: lists and dicts inserted into a 404 message are shown as the placeholders "[...]" and "{...}", not as Python's `repr`.
- Strings.Lower: lowers only A-Z and the KELVIN SIGN, the characters whose lower case is ASCII. Any other character makes a repository or owner name fail the character check either way, so the verdicts and messages are exact.
- JSON floats: numbers are integers only.
- Header names are compared case-sensitively when the caller's headers are merged. `requests` treats them case-insensitively afterwards; that is not modelled.
- `json.dumps` of the request body: the model keeps the body as a JSON value.
- The `print` calls, including the one that writes the token to standard output.
- The clock and the environment variable: both are the `Env` parameter.
- Transport failures: whatever `requests.request` raises is one `Reply` case carrying the exception.
- Branches.ParseReference: follows pydantic v2's default mode. Non-string values in `object` are refused, and entries other than `object` are ignored. The rest of pydantic's machinery is not modelled.
- The tool-argument schemas (`CreateBranch`, `ListCommitsSchema`) and the `register_tool` decorator: they only validate and register the MCP tool arguments.
- github/common/types.py, client.py, mcp_instance.py and server.py are not part of this model. The `list_commits` in server.py repeats the one in github/commits.py.
