// The commit listing tool: one GET of a repository's commits, with optional
// paging and a starting sha in the query string.

module Commits {
  import opened Wrappers
  import opened Strings
  import opened JsonValues
  import opened UrlEncoding
  import opened Utils

  function CommitsBase(owner: string, repo: string): string {
    "https://api.github.com/repos/" + owner + "/" + repo + "/commits"
  }

  /** `str(x) if x is not None else None` */
  function OptionalText(x: Option<int>): (r: Option<string>)
    ensures r.Some? <==> x.Some?
    ensures x.Some? ==> r.value == IntToString(x.value)
  {
    match x
    case Some(n) => Some(IntToString(n))
    case None => None
  }

  /** The query parameters, in the order the dict literal lists them. */
  function CommitsParams(page: Option<int>, perPage: Option<int>, sha: Option<string>): (r: seq<(string, Option<string>)>)
    ensures |r| == 3 && r[0].0 == "page" && r[1].0 == "per_page" && r[2].0 == "sha"
    ensures r[0].1.Some? <==> page.Some?
    ensures r[1].1.Some? <==> perPage.Some?
    ensures page.Some? ==> r[0].1 == Some(IntToString(page.value))
    ensures perPage.Some? ==> r[1].1 == Some(IntToString(perPage.value))
    ensures r[2].1 == sha
  {
    [("page", OptionalText(page)), ("per_page", OptionalText(perPage)), ("sha", sha)]
  }

  /** The commits endpoint, followed by a query string exactly when some parameter is given. */
  function CommitsUrl(owner: string, repo: string, page: Option<int>, perPage: Option<int>, sha: Option<string>): (url: string)
    ensures |CommitsBase(owner, repo)| <= |url| && url[..|CommitsBase(owner, repo)|] == CommitsBase(owner, repo)
    ensures url == CommitsBase(owner, repo) <==> page.None? && perPage.None? && sha.None?
  {
    var base := CommitsBase(owner, repo);
    var params := CommitsParams(page, perPage, sha);
    assert (forall i :: 0 <= i < |params| ==> params[i].1.None?) <==>
           params[0].1.None? && params[1].1.None? && params[2].1.None?;
    BuildUrlPrefix(base, params);
    BuildUrl(base, params)
  }

  /** `list_commits`, awaited: exactly one GET of the commits URL, whose parsed body is returned. */
  function ListCommits(remote: Remote, env: Env, owner: string, repo: string,
                       page: Option<int>, perPage: Option<int>, sha: Option<string>): (r: Run<Json>)
    ensures r.sent == [BuildRequest(CommitsUrl(owner, repo, page, perPage, sha), NoOptions, env.token)]
    ensures r.sent[0].httpMethod == "GET" && r.sent[0].data.None?
    ensures var reply := remote(r.sent[0]);
            && (reply.TransportFailure? ==> r.result == Err(reply.raised))
            && (reply.Response? && ResponseOk(reply.status) ==> r.result == ParseResponseBody(reply))
            && (reply.Response? && !ResponseOk(reply.status) ==> r.result.Err?)
    ensures r == GitHubRequest(remote, env, CommitsUrl(owner, repo, page, perPage, sha), NoOptions)
  {
    GitHubRequest(remote, env, CommitsUrl(owner, repo, page, perPage, sha), NoOptions)
  }

  /** The entries that are not `None`, in order. */
  lemma {:induction false} CommitsPresent(page: Option<int>, perPage: Option<int>, sha: Option<string>)
    ensures Present(CommitsParams(page, perPage, sha)) ==
              (if page.Some? then [("page", IntToString(page.value))] else [])
              + (if perPage.Some? then [("per_page", IntToString(perPage.value))] else [])
              + (if sha.Some? then [("sha", sha.value)] else [])
  {
    var params := CommitsParams(page, perPage, sha);
    PresentThree(params[0], params[1], params[2]);
  }

  /** With no parameter given, the URL is the bare commits endpoint. */
  lemma CommitsUrlBare(owner: string, repo: string)
    ensures CommitsUrl(owner, repo, None, None, None) == CommitsBase(owner, repo)
  {
    CommitsPresent(None, None, None);
  }

  /** Any parameter given -- page 0 included -- adds a query string. */
  lemma CommitsUrlQueried(owner: string, repo: string, page: Option<int>, perPage: Option<int>, sha: Option<string>)
    requires page.Some? || perPage.Some? || sha.Some?
    ensures CommitsUrl(owner, repo, page, perPage, sha) != CommitsBase(owner, repo)
    ensures var url := CommitsUrl(owner, repo, page, perPage, sha);
            var base := CommitsBase(owner, repo);
            && url[..|base|] == base && url[|base|] == '?'
            && Split(url[|base| + 1..], '&') == EncodePairs(Present(CommitsParams(page, perPage, sha)))
  {
    CommitsPresent(page, perPage, sha);
    BuildUrlQuery(CommitsBase(owner, repo), CommitsParams(page, perPage, sha));
  }

  /** With every parameter given, the query lists page, per_page and sha, in that order. */
  lemma CommitsQueryOrder(owner: string, repo: string, page: int, perPage: int, sha: string)
    ensures var url := CommitsUrl(owner, repo, Some(page), Some(perPage), Some(sha));
            var base := CommitsBase(owner, repo);
            Split(url[|base| + 1..], '&') ==
              [EncodePair("page", IntToString(page)), EncodePair("per_page", IntToString(perPage)),
               EncodePair("sha", sha)]
  {
    BuildUrlThree(CommitsBase(owner, repo), "page", IntToString(page), "per_page", IntToString(perPage), "sha", sha);
  }

  /** A decimal number, signed or not, needs no escaping in a query. */
  lemma IntToStringSafe(n: int)
    ensures forall i :: 0 <= i < |IntToString(n)| ==> SafeChar(IntToString(n)[i])
  {
  }

  /** Only a page given: the URL ends in `?page=<n>`, for 0 and negative pages too. */
  lemma CommitsUrlPageOnly(owner: string, repo: string, page: int)
    ensures CommitsUrl(owner, repo, Some(page), None, None)
            == CommitsBase(owner, repo) + "?" + ("page" + "=" + IntToString(page))
  {
    CommitsPresent(Some(page), None, None);
    IntToStringSafe(page);
    assert SafeChar('p') && SafeChar('a') && SafeChar('g') && SafeChar('e');
    assert forall i :: 0 <= i < |"page"| ==> SafeChar("page"[i]) by {
      forall i | 0 <= i < |"page"| ensures SafeChar("page"[i]) {
        if i == 0 {} else if i == 1 {} else if i == 2 {} else {}
      }
    }
    EncodeSafePair("page", IntToString(page));
  }
}
