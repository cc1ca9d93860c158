// Branch tools: reading a branch's head commit, finding the default branch,
// creating a branch from another one and moving a branch.

module Branches {
  import opened Wrappers
  import opened JsonValues
  import opened Errors
  import opened Utils

  /** `GitHubReferenceSchema`: the `object` dict of a git reference, string to string. */
  datatype Reference = Reference(target: map<string, string>)

  /** `CreateBranchOptions`: the short name of the new branch and the commit it points at. */
  datatype CreateBranchOptions = CreateBranchOptions(ref: string, sha: string)

  function RefsUrl(owner: string, repo: string): string {
    "https://api.github.com/repos/" + owner + "/" + repo + "/git/refs"
  }

  function HeadUrl(owner: string, repo: string, branch: string): string {
    RefsUrl(owner, repo) + "/heads/" + branch
  }

  const NoDefaultBranch := "Could not find default branch (tried 'main' and 'master')"

  // ---------------------------------------------------------------------------
  // Reading a reference
  // ---------------------------------------------------------------------------

  predicate AllStrings(fields: map<string, Json>) {
    forall k :: k in fields ==> fields[k].JStr?
  }

  /** A string-to-string dict as JSON. */
  function StringsJson(m: map<string, string>): (j: Json)
    ensures j.JObj? && j.fields.Keys == m.Keys && AllStrings(j.fields)
    ensures forall k :: k in m ==> j.fields[k] == JStr(m[k])
  {
    JObj(map k | k in m :: JStr(m[k]))
  }

  /**
   * `GitHubReferenceSchema(**body)`: a body that is not a dict cannot be
   * unpacked; a dict needs an `object` entry that is a dict of strings, and its
   * other entries are ignored.
   */
  function ParseReference(body: Json): (r: Result<Reference, Exception>)
    ensures !body.JObj? ==> r == Err(TypeError)
    ensures body.JObj? && r.Err? ==> r == Err(ValidationError)
    ensures r.Ok? <==>
              && body.JObj? && "object" in body.fields
              && body.fields["object"].JObj? && AllStrings(body.fields["object"].fields)
    ensures r.Ok? ==> StringsJson(r.value.target) == body.fields["object"]
  {
    match body
    case JObj(fields) =>
      if "object" in fields && fields["object"].JObj? && AllStrings(fields["object"].fields) then
        var inner := fields["object"].fields;
        var target := map k | k in inner :: inner[k].s;
        assert StringsJson(target).fields == inner;
        Ok(Reference(target))
      else Err(ValidationError)
    case _ => Err(TypeError)
  }

  /** A reference written as the API returns it, with any further entries beside `object`. */
  function ReferenceBody(target: map<string, string>, extra: map<string, Json>): Json {
    JObj(extra["object" := StringsJson(target)])
  }

  /** Parsing gives back the reference that was written, whatever else the body holds. */
  lemma ParseReferenceBody(target: map<string, string>, extra: map<string, Json>)
    ensures ParseReference(ReferenceBody(target, extra)) == Ok(Reference(target))
  {
    var body := ReferenceBody(target, extra);
    assert body.fields["object"] == StringsJson(target);
    var r := ParseReference(body);
    assert r.Ok?;
    assert StringsJson(r.value.target) == StringsJson(target);
    assert r.value.target.Keys == target.Keys;
    forall k | k in target ensures r.value.target[k] == target[k] {
      assert StringsJson(r.value.target).fields[k] == JStr(r.value.target[k]);
    }
    assert r.value.target == target;
  }

  /** `data.object["sha"]` */
  function ShaOf(reference: Reference): (r: Result<string, Exception>)
    ensures r.Ok? <==> "sha" in reference.target
    ensures r.Ok? ==> r.value == reference.target["sha"]
    ensures r.Err? ==> r.error == KeyError("sha")
  {
    if "sha" in reference.target then Ok(reference.target["sha"]) else Err(KeyError("sha"))
  }

  /** The schema parse followed by the `sha` lookup, after a request that returned `lookup`. */
  function ShaFromLookup(lookup: Result<Json, Exception>): (r: Result<string, Exception>)
    ensures lookup.Err? ==> r == Err(lookup.error)
    ensures lookup.Ok? && ParseReference(lookup.value).Err? ==> r == Err(ParseReference(lookup.value).error)
    ensures lookup.Ok? && ParseReference(lookup.value).Ok? ==> r == ShaOf(ParseReference(lookup.value).value)
  {
    match lookup
    case Err(x) => Err(x)
    case Ok(body) =>
      match ParseReference(body)
      case Err(x) => Err(x)
      case Ok(reference) => ShaOf(reference)
  }

  /** A reference body whose `object` has a `sha` reads as that sha. */
  lemma ShaFromReferenceBody(target: map<string, string>, extra: map<string, Json>)
    requires "sha" in target
    ensures ShaFromLookup(Ok(ReferenceBody(target, extra))) == Ok(target["sha"])
  {
    ParseReferenceBody(target, extra);
  }

  // ---------------------------------------------------------------------------
  // get_branch_sha
  // ---------------------------------------------------------------------------

  /** `get_branch_sha`, awaited: one GET of the branch's head reference. */
  function GetBranchSha(remote: Remote, env: Env, owner: string, repo: string, branch: string): (r: Run<string>)
    ensures r.sent == [BuildRequest(HeadUrl(owner, repo, branch), NoOptions, env.token)]
    ensures r.sent[0].httpMethod == "GET" && r.sent[0].data.None?
    ensures r.result == ShaFromLookup(GitHubRequest(remote, env, HeadUrl(owner, repo, branch), NoOptions).result)
  {
    var lookup := GitHubRequest(remote, env, HeadUrl(owner, repo, branch), NoOptions);
    Run(ShaFromLookup(lookup.result), lookup.sent)
  }

  /** A JSON answer with a success status. */
  predicate AnswersJson(reply: Reply, body: Json) {
    && reply.Response? && ResponseOk(reply.status)
    && IsJsonContent(reply.contentType) && reply.json == Some(body)
  }

  /** When the server answers the GET with a reference, the branch's sha is the reference's. */
  lemma GetBranchShaAnswered(remote: Remote, env: Env, owner: string, repo: string, branch: string,
                             target: map<string, string>, extra: map<string, Json>)
    requires "sha" in target
    requires AnswersJson(remote(BuildRequest(HeadUrl(owner, repo, branch), NoOptions, env.token)),
                         ReferenceBody(target, extra))
    ensures GetBranchSha(remote, env, owner, repo, branch).result == Ok(target["sha"])
  {
    ShaFromReferenceBody(target, extra);
  }

  // ---------------------------------------------------------------------------
  // get_default_branch_sha
  // ---------------------------------------------------------------------------

  /** `except (requests.HTTPError, ValidationError)` */
  predicate CaughtAsWritten(x: Exception) {
    x.HTTPError? || x.ValidationError?
  }

  /**
   * The handler as the authors evidently meant it: `github_request` reports a
   * failing status as a GitHub error, not as `requests.HTTPError`, so those are
   * caught as well.
   */
  predicate CaughtIntended(x: Exception) {
    CaughtAsWritten(x) || x.GitHub?
  }

  /** The `except` branch: the `master` body, where a falsy one means there is no default branch. */
  function MasterSha(lookup: Result<Json, Exception>): (r: Result<string, Exception>)
    ensures lookup.Ok? && !Truthy(lookup.value) ==> r == Err(ValueError(NoDefaultBranch))
    ensures lookup.Ok? && Truthy(lookup.value) ==> r == ShaFromLookup(lookup)
    ensures lookup.Err? ==> r == Err(lookup.error)
  {
    if lookup.Ok? && !Truthy(lookup.value) then Err(ValueError(NoDefaultBranch)) else ShaFromLookup(lookup)
  }

  /**
   * `get_default_branch_sha`, with a handler that also catches GitHub errors when `catchGitHub` holds: the sha
   * of `main`; when reading `main` fails with a caught error, the sha of
   * `master`.
   */
  function DefaultBranchSha(remote: Remote, env: Env, owner: string, repo: string, catchGitHub: bool): (r: Run<string>)
    ensures var mainGet := BuildRequest(HeadUrl(owner, repo, "main"), NoOptions, env.token);
            var masterGet := BuildRequest(HeadUrl(owner, repo, "master"), NoOptions, env.token);
            var attempt := ShaFromLookup(GitHubRequest(remote, env, HeadUrl(owner, repo, "main"), NoOptions).result);
            var master := GitHubRequest(remote, env, HeadUrl(owner, repo, "master"), NoOptions);
            var caught := attempt.Err? &&
                          (if catchGitHub then CaughtIntended(attempt.error) else CaughtAsWritten(attempt.error));
            && (caught ==> r == Run(MasterSha(master.result), [mainGet, masterGet]))
            && (!caught ==> r == Run(attempt, [mainGet]))
  {
    var main := GitHubRequest(remote, env, HeadUrl(owner, repo, "main"), NoOptions);
    var attempt := ShaFromLookup(main.result);
    if attempt.Err? && (if catchGitHub then CaughtIntended(attempt.error) else CaughtAsWritten(attempt.error)) then
      var master := GitHubRequest(remote, env, HeadUrl(owner, repo, "master"), NoOptions);
      Run(MasterSha(master.result), main.sent + master.sent)
    else
      Run(attempt, main.sent)
  }

  /** `get_default_branch_sha` as written: only `requests.HTTPError` and pydantic's `ValidationError` fall back. */
  function GetDefaultBranchShaAsWritten(remote: Remote, env: Env, owner: string, repo: string): (r: Run<string>)
    ensures var attempt := ShaFromLookup(GitHubRequest(remote, env, HeadUrl(owner, repo, "main"), NoOptions).result);
            && 1 <= |r.sent| <= 2
            && r.sent[0] == BuildRequest(HeadUrl(owner, repo, "main"), NoOptions, env.token)
            && (|r.sent| == 2 <==> attempt.Err? && CaughtAsWritten(attempt.error))
            && (|r.sent| != 2 ==> |r.sent| == 1 && r.result == attempt)
    ensures |r.sent| == 2 ==>
              && r.sent[1] == BuildRequest(HeadUrl(owner, repo, "master"), NoOptions, env.token)
              && r.result == MasterSha(GitHubRequest(remote, env, HeadUrl(owner, repo, "master"), NoOptions).result)
  {
    DefaultBranchSha(remote, env, owner, repo, false)
  }

  /** `get_default_branch_sha` as intended: a GitHub error on `main` also falls back to `master`. */
  function GetDefaultBranchSha(remote: Remote, env: Env, owner: string, repo: string): (r: Run<string>)
    ensures var attempt := ShaFromLookup(GitHubRequest(remote, env, HeadUrl(owner, repo, "main"), NoOptions).result);
            && 1 <= |r.sent| <= 2
            && r.sent[0] == BuildRequest(HeadUrl(owner, repo, "main"), NoOptions, env.token)
            && (|r.sent| == 2 <==> attempt.Err? && CaughtIntended(attempt.error))
            && (|r.sent| != 2 ==> |r.sent| == 1 && r.result == attempt)
    ensures |r.sent| == 2 ==>
              && r.sent[1] == BuildRequest(HeadUrl(owner, repo, "master"), NoOptions, env.token)
              && r.result == MasterSha(GitHubRequest(remote, env, HeadUrl(owner, repo, "master"), NoOptions).result)
  {
    DefaultBranchSha(remote, env, owner, repo, true)
  }

  /** A `main` that reads correctly is the answer; `master` is never asked for. */
  lemma DefaultBranchMainFound(remote: Remote, env: Env, owner: string, repo: string,
                               target: map<string, string>, extra: map<string, Json>)
    requires "sha" in target
    requires AnswersJson(remote(BuildRequest(HeadUrl(owner, repo, "main"), NoOptions, env.token)),
                         ReferenceBody(target, extra))
    ensures GetDefaultBranchSha(remote, env, owner, repo) ==
              Run(Ok(target["sha"]), [BuildRequest(HeadUrl(owner, repo, "main"), NoOptions, env.token)])
    ensures GetDefaultBranchShaAsWritten(remote, env, owner, repo) ==
              Run(Ok(target["sha"]), [BuildRequest(HeadUrl(owner, repo, "main"), NoOptions, env.token)])
  {
    ShaFromReferenceBody(target, extra);
  }

  /** A `main` reference without a `sha` raises `KeyError` and is not a reason to try `master`. */
  lemma DefaultBranchMissingSha(remote: Remote, env: Env, owner: string, repo: string,
                                target: map<string, string>, extra: map<string, Json>)
    requires "sha" !in target
    requires AnswersJson(remote(BuildRequest(HeadUrl(owner, repo, "main"), NoOptions, env.token)),
                         ReferenceBody(target, extra))
    ensures GetDefaultBranchSha(remote, env, owner, repo).result == Err(KeyError("sha"))
    ensures |GetDefaultBranchSha(remote, env, owner, repo).sent| == 1
    ensures GetDefaultBranchShaAsWritten(remote, env, owner, repo).result == Err(KeyError("sha"))
    ensures |GetDefaultBranchShaAsWritten(remote, env, owner, repo).sent| == 1
  {
    ParseReferenceBody(target, extra);
  }

  /** Both `main` and `master` answering with an empty body: no default branch. */
  lemma DefaultBranchNeither(remote: Remote, env: Env, owner: string, repo: string)
    requires AnswersJson(remote(BuildRequest(HeadUrl(owner, repo, "main"), NoOptions, env.token)), JObj(map[]))
    requires AnswersJson(remote(BuildRequest(HeadUrl(owner, repo, "master"), NoOptions, env.token)), JObj(map[]))
    ensures GetDefaultBranchSha(remote, env, owner, repo).result == Err(ValueError(NoDefaultBranch))
    ensures GetDefaultBranchShaAsWritten(remote, env, owner, repo).result == Err(ValueError(NoDefaultBranch))
  {
    assert ParseReference(JObj(map[])) == Err(ValidationError);
  }

  /**
   * The handler as written never sees a failing status: a `main` that the server
   * reports missing (404, with a dict body) is raised as a not-found error and
   * `master` is never asked for, while the intended handler goes on to `master`.
   */
  lemma DefaultBranchMainMissing(remote: Remote, env: Env, owner: string, repo: string, body: map<string, Json>)
    requires var reply := remote(BuildRequest(HeadUrl(owner, repo, "main"), NoOptions, env.token));
             && reply.Response? && reply.status == 404
             && IsJsonContent(reply.contentType) && reply.json == Some(JObj(body))
    ensures var r := GetDefaultBranchShaAsWritten(remote, env, owner, repo);
            && |r.sent| == 1
            && r.result.Err? && r.result.error.GitHub? && r.result.error.error.kind == ResourceNotFound
    ensures var r := GetDefaultBranchSha(remote, env, owner, repo);
            && |r.sent| == 2
            && r.sent[1] == BuildRequest(HeadUrl(owner, repo, "master"), NoOptions, env.token)
  {
    FailingResponseRaisesGitHubError(remote, env, HeadUrl(owner, repo, "main"), NoOptions);
  }

  // ---------------------------------------------------------------------------
  // create_branch / update_branch
  // ---------------------------------------------------------------------------

  /**
   * Calling `github_request(url, options=None)`: keyword arguments it does not
   * declare make Python raise `TypeError` when binding the call, before any
   * request is made.
   */
  function CallGitHubRequest(remote: Remote, env: Env, url: string, options: Options,
                             undeclared: set<string>): (r: Run<Json>)
    ensures undeclared != {} ==> r == Run(Err(TypeError), [])
    ensures undeclared == {} ==> r == GitHubRequest(remote, env, url, options)
  {
    if undeclared != {} then Run(Err(TypeError), []) else GitHubRequest(remote, env, url, options)
  }

  /** The reference returned by a request, read with the schema. */
  function ReferenceFrom(call: Run<Json>): (r: Run<Reference>)
    ensures r.sent == call.sent
    ensures call.result.Err? ==> r.result == Err(call.result.error)
    ensures call.result.Ok? ==> r.result == ParseReference(call.result.value)
  {
    Run(match call.result case Err(x) => Err(x) case Ok(body) => ParseReference(body), call.sent)
  }

  function CreateBody(options: CreateBranchOptions): Json {
    JObj(map["ref" := JStr("refs/heads/" + options.ref), "sha" := JStr(options.sha)])
  }

  function UpdateBody(sha: string): Json {
    JObj(map["sha" := JStr(sha), "force" := JBool(true)])
  }

  /** `create_branch` as written: `method=` and `body=` are passed as keywords `github_request` does not take. */
  function CreateBranchAsWritten(remote: Remote, env: Env, owner: string, repo: string,
                                 options: CreateBranchOptions): (r: Run<Reference>)
    ensures r.sent == [] && r.result == Err(TypeError)
  {
    ReferenceFrom(CallGitHubRequest(remote, env, RefsUrl(owner, repo), NoOptions, {"method", "body"}))
  }

  /**
   * `create_branch` as intended: one POST to the repository's refs whose body
   * names `refs/heads/<ref>` and the commit, read back as a reference.
   */
  function CreateBranch(remote: Remote, env: Env, owner: string, repo: string,
                        options: CreateBranchOptions): (r: Run<Reference>)
    ensures |r.sent| == 1
    ensures r.sent[0].httpMethod == "POST" && r.sent[0].url == RefsUrl(owner, repo)
    ensures r.sent[0].data == Some(CreateBody(options))
    ensures r.sent[0].headers == RequestHeaders(map[], env.token)
    ensures r == ReferenceFrom(GitHubRequest(remote, env, RefsUrl(owner, repo),
                                             Options(Some("POST"), CreateBody(options), map[])))
  {
    var call := Options(Some("POST"), CreateBody(options), map[]);
    assert Truthy(call.body) by { assert "ref" in call.body.fields; }
    ReferenceFrom(CallGitHubRequest(remote, env, RefsUrl(owner, repo), call, {}))
  }

  /** `update_branch` as written: the same undeclared keywords. */
  function UpdateBranchAsWritten(remote: Remote, env: Env, owner: string, repo: string,
                                 branch: string, sha: string): (r: Run<Reference>)
    ensures r.sent == [] && r.result == Err(TypeError)
  {
    ReferenceFrom(CallGitHubRequest(remote, env, HeadUrl(owner, repo, branch), NoOptions, {"method", "body"}))
  }

  /** `update_branch` as intended: one forced PATCH of the branch's head reference to `sha`. */
  function UpdateBranch(remote: Remote, env: Env, owner: string, repo: string,
                        branch: string, sha: string): (r: Run<Reference>)
    ensures |r.sent| == 1
    ensures r.sent[0].httpMethod == "PATCH" && r.sent[0].url == HeadUrl(owner, repo, branch)
    ensures r.sent[0].data == Some(UpdateBody(sha))
    ensures r.sent[0].headers == RequestHeaders(map[], env.token)
    ensures r == ReferenceFrom(GitHubRequest(remote, env, HeadUrl(owner, repo, branch),
                                             Options(Some("PATCH"), UpdateBody(sha), map[])))
  {
    var call := Options(Some("PATCH"), UpdateBody(sha), map[]);
    assert Truthy(call.body) by { assert "sha" in call.body.fields; }
    ReferenceFrom(CallGitHubRequest(remote, env, HeadUrl(owner, repo, branch), call, {}))
  }

  /** The body of an update always forces the move and carries exactly the sha and the flag. */
  lemma UpdateBodyForces(sha: string)
    ensures UpdateBody(sha).fields.Keys == {"sha", "force"}
    ensures UpdateBody(sha).fields["force"] == JBool(true) && UpdateBody(sha).fields["sha"] == JStr(sha)
  {
  }

  /** A created branch answered with a reference reads back as that reference. */
  lemma CreateBranchAnswered(remote: Remote, env: Env, owner: string, repo: string,
                             options: CreateBranchOptions, target: map<string, string>, extra: map<string, Json>)
    requires AnswersJson(remote(CreateBranch(remote, env, owner, repo, options).sent[0]), ReferenceBody(target, extra))
    ensures CreateBranch(remote, env, owner, repo, options).result == Ok(Reference(target))
  {
    ParseReferenceBody(target, extra);
  }

  /**
   * A write the server refuses -- 409 for a branch that already exists, 422 for
   * an unknown sha -- is raised as the GitHub error of that status, for both
   * the creation and the update.
   */
  lemma WriteRefused(remote: Remote, env: Env, url: string, verb: string, body: Json)
    requires Truthy(body)
    requires var reply := remote(BuildRequest(url, Options(Some(verb), body, map[]), env.token));
             && reply.Response? && !ResponseOk(reply.status)
             && ParseResponseBody(reply).Ok? && Gettable(ParseResponseBody(reply).value)
             && (reply.status == 429 ==> ResetAtText(OrEmpty(ParseResponseBody(reply).value).fields, env.now).Some?)
    ensures var r := ReferenceFrom(GitHubRequest(remote, env, url, Options(Some(verb), body, map[])));
            var reply := remote(BuildRequest(url, Options(Some(verb), body, map[]), env.token));
            && |r.sent| == 1 && r.sent[0].httpMethod == verb && r.sent[0].data == Some(body)
            && r.result.Err? && IsGitHubError(r.result.error)
            && r.result.error.error.status == reply.status
            && r.result.error.error.kind == KindOf(reply.status)
  {
    FailingResponseRaisesGitHubError(remote, env, url, Options(Some(verb), body, map[]));
  }

  /** As written, neither write ever reaches the server, whatever it would answer. */
  lemma WritesNeverSent(remote: Remote, env: Env, owner: string, repo: string,
                        options: CreateBranchOptions, branch: string, sha: string)
    ensures CreateBranchAsWritten(remote, env, owner, repo, options).sent == []
    ensures UpdateBranchAsWritten(remote, env, owner, repo, branch, sha).sent == []
    ensures CreateBranch(remote, env, owner, repo, options).sent != []
    ensures UpdateBranch(remote, env, owner, repo, branch, sha).sent != []
  {
  }

  // ---------------------------------------------------------------------------
  // create_branch_from_ref
  // ---------------------------------------------------------------------------

  /** `if from_branch:` -- an absent or empty source branch means the default branch. */
  predicate HasSource(fromBranch: Option<string>) {
    fromBranch.Some? && fromBranch.value != ""
  }

  /** Where the new branch's commit comes from. */
  function SourceSha(remote: Remote, env: Env, owner: string, repo: string, fromBranch: Option<string>): (r: Run<string>)
    ensures HasSource(fromBranch) ==> r == GetBranchSha(remote, env, owner, repo, fromBranch.value)
    ensures !HasSource(fromBranch) ==> r == GetDefaultBranchSha(remote, env, owner, repo)
    ensures 1 <= |r.sent| <= 2
    ensures forall i :: 0 <= i < |r.sent| ==> r.sent[i].httpMethod == "GET"
  {
    if HasSource(fromBranch) then GetBranchSha(remote, env, owner, repo, fromBranch.value)
    else GetDefaultBranchSha(remote, env, owner, repo)
  }

  /**
   * `create_branch_from_ref`, awaited: the source branch's sha (or the default
   * branch's), then the creation of `new_branch` at it. A failed lookup is
   * raised and nothing is created.
   */
  function CreateBranchFromRef(remote: Remote, env: Env, owner: string, repo: string,
                               newBranch: string, fromBranch: Option<string>): (r: Run<Reference>)
    ensures var source := SourceSha(remote, env, owner, repo, fromBranch);
            && (source.result.Err? ==> r == Run(Err(source.result.error), source.sent))
            && (source.result.Ok? ==>
                  var created := CreateBranch(remote, env, owner, repo, CreateBranchOptions(newBranch, source.result.value));
                  r == Run(created.result, source.sent + created.sent))
  {
    var source := SourceSha(remote, env, owner, repo, fromBranch);
    match source.result
    case Err(x) => Run(Err(x), source.sent)
    case Ok(sha) =>
      var created := CreateBranch(remote, env, owner, repo, CreateBranchOptions(newBranch, sha));
      Run(created.result, source.sent + created.sent)
  }

  /**
   * With a source branch, exactly two requests go out: the GET of the source
   * branch and the POST creating `refs/heads/<new_branch>` at the sha it read.
   */
  lemma FromExplicitBranch(remote: Remote, env: Env, owner: string, repo: string,
                           newBranch: string, fromBranch: string, target: map<string, string>, extra: map<string, Json>)
    requires fromBranch != "" && "sha" in target
    requires AnswersJson(remote(BuildRequest(HeadUrl(owner, repo, fromBranch), NoOptions, env.token)),
                         ReferenceBody(target, extra))
    ensures var r := CreateBranchFromRef(remote, env, owner, repo, newBranch, Some(fromBranch));
            && |r.sent| == 2
            && r.sent[0].httpMethod == "GET" && r.sent[0].url == HeadUrl(owner, repo, fromBranch)
            && r.sent[1].httpMethod == "POST" && r.sent[1].url == RefsUrl(owner, repo)
            && r.sent[1].data == Some(JObj(map["ref" := JStr("refs/heads/" + newBranch),
                                               "sha" := JStr(target["sha"])]))
  {
    GetBranchShaAnswered(remote, env, owner, repo, fromBranch, target, extra);
  }

  /** Without a source branch the first request is the GET of `main`. */
  lemma FromDefaultBranch(remote: Remote, env: Env, owner: string, repo: string, newBranch: string,
                          fromBranch: Option<string>)
    requires !HasSource(fromBranch)
    ensures var r := CreateBranchFromRef(remote, env, owner, repo, newBranch, fromBranch);
            && r.sent != []
            && r.sent[0] == BuildRequest(HeadUrl(owner, repo, "main"), NoOptions, env.token)
            && r.sent[0].httpMethod == "GET"
  {
  }

  /** Whenever a branch is created, the POST is the last request and the lookups come before it. */
  lemma FromRefCreatesLast(remote: Remote, env: Env, owner: string, repo: string,
                            newBranch: string, fromBranch: Option<string>)
    ensures var r := CreateBranchFromRef(remote, env, owner, repo, newBranch, fromBranch);
            r.result.Ok? ==>
              && 2 <= |r.sent| <= 3
              && r.sent[|r.sent| - 1].httpMethod == "POST"
              && forall i :: 0 <= i < |r.sent| - 1 ==> r.sent[i].httpMethod == "GET"
  {
    var r := CreateBranchFromRef(remote, env, owner, repo, newBranch, fromBranch);
    var source := SourceSha(remote, env, owner, repo, fromBranch);
    if r.result.Ok? {
      var created := CreateBranch(remote, env, owner, repo, CreateBranchOptions(newBranch, source.result.value));
      assert r.sent == source.sent + created.sent;
    }
  }
}
