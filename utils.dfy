/**
 * `github/common/utils.py`: the name validators, `build_url`, the decision
 * skeleton of `github_request` over an abstract transport, and the two
 * existence checks built on it.
 */
module Utils {
  import opened Wrappers
  import opened Strings
  import opened JsonValues
  import opened UrlEncoding
  import opened Errors

  // ---------------------------------------------------------------------------
  // Validation rules, stated declaratively and in the order the source checks them
  // ---------------------------------------------------------------------------

  datatype Check =
    | NotEmpty
    | NoDoubleDot
    | NoBracketPattern
    | NoEdgeSlash
    | NoLockSuffix
    | RepoCharset
    | NoEdgePeriod
    | OwnerShape
    | NoInvalidChar

  /** A check and the `ValueError` message raised when it fails. */
  datatype Rule = Rule(check: Check, message: string)

  predicate DotDotAt(t: string, i: int) {
    0 <= i && i + 1 < |t| && t[i] == '.' && t[i + 1] == '.'
  }

  /**
   * The character class of the branch-name pattern as the regex engine reads it:
   * the raw pattern `[\\s~^:?*[\\\\]]` is a class of backslash, `s`, `~`, `^`,
   * `:`, `?`, `*` and `[`, closed by the first `]`, followed by a literal `]`.
   */
  predicate InBracketClass(c: char) {
    c == '\\' || c == 's' || c == '~' || c == '^' || c == ':' || c == '?' || c == '*' || c == '['
  }

  /** The class the branch pattern evidently means: whitespace, `~ ^ : ? * [` and backslash. */
  predicate InvalidBranchChar(c: char) {
    IsSpace(c) || c == '~' || c == '^' || c == ':' || c == '?' || c == '*' || c == '[' || c == '\\'
  }

  predicate BracketPatternAt(t: string, i: int) {
    0 <= i && i + 1 < |t| && InBracketClass(t[i]) && t[i + 1] == ']'
  }

  predicate RepoChar(c: char) {
    ('a' <= c <= 'z') || ('0' <= c <= '9') || c == '_' || c == '.' || c == '-'
  }

  predicate LowerAlnum(c: char) {
    ('a' <= c <= 'z') || ('0' <= c <= '9')
  }

  predicate DashDashAt(t: string, i: int) {
    0 <= i && i + 1 < |t| && t[i] == '-' && t[i + 1] == '-'
  }

  /** A GitHub login: 1 to 39 of `[a-z0-9-]`, no `-` at either end, no `--`. */
  predicate OwnerNameShape(t: string) {
    && 1 <= |t| <= 39
    && (forall i :: 0 <= i < |t| ==> LowerAlnum(t[i]) || t[i] == '-')
    && t[0] != '-' && t[|t| - 1] != '-'
    && !exists i :: 0 <= i < |t| && DashDashAt(t, i)
  }

  predicate Holds(check: Check, t: string) {
    match check
    case NotEmpty => t != []
    case NoDoubleDot => !exists i :: 0 <= i < |t| && DotDotAt(t, i)
    case NoBracketPattern => !exists i :: 0 <= i < |t| && BracketPatternAt(t, i)
    case NoEdgeSlash => t == [] || (t[0] != '/' && t[|t| - 1] != '/')
    case NoLockSuffix => !EndsWith(t, ".lock")
    case RepoCharset => forall i :: 0 <= i < |t| ==> RepoChar(t[i])
    case NoEdgePeriod => t == [] || (t[0] != '.' && t[|t| - 1] != '.')
    case OwnerShape => OwnerNameShape(t)
    case NoInvalidChar => forall i :: 0 <= i < |t| ==> !InvalidBranchChar(t[i])
  }

  /** The first rule in the list that `t` breaks. */
  function FirstBroken(rules: seq<Rule>, t: string): (r: Option<Rule>)
    ensures r.None? <==> forall k :: 0 <= k < |rules| ==> Holds(rules[k].check, t)
  {
    if rules == [] then None
    else if !Holds(rules[0].check, t) then Some(rules[0])
    else
      var rest := FirstBroken(rules[1..], t);
      assert forall k :: 1 <= k < |rules| ==> rules[k] == rules[1..][k - 1];
      rest
  }

  lemma {:induction false} FirstBrokenAt(rules: seq<Rule>, t: string, k: nat)
    requires k < |rules| && !Holds(rules[k].check, t)
    requires forall j :: 0 <= j < k ==> Holds(rules[j].check, t)
    ensures FirstBroken(rules, t) == Some(rules[k])
  {
    if k > 0 {
      assert Holds(rules[0].check, t);
      FirstBrokenAt(rules[1..], t, k - 1);
    }
  }

  /** A validator's verdict on `t`: `t` itself, or the message of the first broken rule. */
  function Verdict(rules: seq<Rule>, t: string): Result<string, Exception> {
    match FirstBroken(rules, t)
    case None => Ok(t)
    case Some(rule) => Err(ValueError(rule.message))
  }

  // The `ValueError` messages of the three validators.
  const BranchEmpty := "Branch name cannot be empty"
  const BranchDoubleDot := "Branch name cannot contain '..'"
  const BranchInvalidChars := "Branch name contains invalid characters"
  const BranchEdgeSlash := "Branch name cannot start or end with '/'"
  const BranchLockSuffix := "Branch name cannot end with '.lock'"
  const RepoEmpty := "Repository name cannot be empty"
  const RepoCharsetMessage := "Repository name can only contain lowercase letters, numbers, hyphens, periods, and underscores"
  const RepoEdgePeriod := "Repository name cannot start or end with a period"
  const OwnerEmpty := "Owner name cannot be empty"
  const OwnerShapeMessage := "Owner name must start with a letter or number and can contain up to 39 characters"

  const BranchRules := [
    Rule(NotEmpty, BranchEmpty),
    Rule(NoDoubleDot, BranchDoubleDot),
    Rule(NoBracketPattern, BranchInvalidChars),
    Rule(NoEdgeSlash, BranchEdgeSlash),
    Rule(NoLockSuffix, BranchLockSuffix)]

  /** The branch rules with the character rule as evidently intended. */
  const IntendedBranchRules := [
    Rule(NotEmpty, BranchEmpty),
    Rule(NoDoubleDot, BranchDoubleDot),
    Rule(NoInvalidChar, BranchInvalidChars),
    Rule(NoEdgeSlash, BranchEdgeSlash),
    Rule(NoLockSuffix, BranchLockSuffix)]

  const RepositoryRules := [
    Rule(NotEmpty, RepoEmpty),
    Rule(RepoCharset, RepoCharsetMessage),
    Rule(NoEdgePeriod, RepoEdgePeriod)]

  const OwnerRules := [
    Rule(NotEmpty, OwnerEmpty),
    Rule(OwnerShape, OwnerShapeMessage)]

  // ---------------------------------------------------------------------------
  // The regular expressions as Python's `re` evaluates them
  // ---------------------------------------------------------------------------

  /** `re.search` tries every start position from the left. */
  predicate SearchBracketPattern(t: string, from: nat)
    decreases |t| - from
  {
    from < |t| && (BracketPatternAt(t, from) || SearchBracketPattern(t, from + 1))
  }

  lemma {:induction false} SearchBracketPatternIff(t: string, from: nat)
    ensures SearchBracketPattern(t, from) <==> exists i :: from <= i && BracketPatternAt(t, i)
    decreases |t| - from
  {
    if from < |t| {
      SearchBracketPatternIff(t, from + 1);
      if exists i :: from <= i && BracketPatternAt(t, i) {
        var i :| from <= i && BracketPatternAt(t, i);
        assert i == from || (from + 1 <= i && BracketPatternAt(t, i));
      }
    }
  }

  /** `$` matches at the end, or just before a final newline. */
  predicate EndAnchor(t: string, i: int) {
    i == |t| || (i == |t| - 1 && 0 <= i && t[i] == '\n')
  }

  predicate NoFinalNewline(t: string) {
    t == [] || t[|t| - 1] != '\n'
  }

  /** `[a-z0-9_.-]+$` from position `i`. */
  predicate MatchRepoRun(t: string, i: nat)
    decreases |t| - i
  {
    i < |t| && RepoChar(t[i]) && (EndAnchor(t, i + 1) || MatchRepoRun(t, i + 1))
  }

  /** `re.match(r"^[a-z0-9_.-]+$", t)` */
  predicate RepoPatternMatch(t: string) {
    MatchRepoRun(t, 0)
  }

  lemma {:induction false} MatchRepoRunIff(t: string, i: nat)
    requires NoFinalNewline(t)
    ensures MatchRepoRun(t, i) <==> i < |t| && forall j :: i <= j < |t| ==> RepoChar(t[j])
    decreases |t| - i
  {
    if i < |t| {
      MatchRepoRunIff(t, i + 1);
    }
  }

  /** One repetition of `(?:[a-z0-9]|-(?=[a-z0-9]))` at position `i`. */
  predicate OwnerTokenAt(t: string, i: int) {
    0 <= i < |t| && (LowerAlnum(t[i]) || (t[i] == '-' && i + 1 < |t| && LowerAlnum(t[i + 1])))
  }

  /** `(?:...){0,budget}$` from position `i`. */
  predicate MatchOwnerTokens(t: string, i: nat, budget: nat)
    decreases budget
  {
    EndAnchor(t, i) || (budget > 0 && OwnerTokenAt(t, i) && MatchOwnerTokens(t, i + 1, budget - 1))
  }

  /** `re.match(r"^[a-z0-9](?:[a-z0-9]|-(?=[a-z0-9])){0,38}$", t)` */
  predicate OwnerPatternMatch(t: string) {
    t != [] && LowerAlnum(t[0]) && MatchOwnerTokens(t, 1, 38)
  }

  lemma {:induction false} MatchOwnerTokensIff(t: string, i: nat, budget: nat)
    requires NoFinalNewline(t) && i <= |t|
    ensures MatchOwnerTokens(t, i, budget)
            <==> |t| - i <= budget && forall j :: i <= j < |t| ==> OwnerTokenAt(t, j)
    decreases budget
  {
    if budget > 0 && i < |t| {
      MatchOwnerTokensIff(t, i + 1, budget - 1);
    }
  }

  /** The owner pattern accepts exactly the GitHub login shape. */
  lemma OwnerPatternIff(t: string)
    requires NoFinalNewline(t)
    ensures OwnerPatternMatch(t) <==> OwnerNameShape(t)
  {
    if t != [] {
      MatchOwnerTokensIff(t, 1, 38);
      if OwnerPatternMatch(t) {
        assert forall j :: 1 <= j < |t| ==> OwnerTokenAt(t, j);
        forall i | 0 <= i < |t| ensures LowerAlnum(t[i]) || t[i] == '-' {
          if i > 0 { assert OwnerTokenAt(t, i); }
        }
        if |t| > 1 { assert OwnerTokenAt(t, |t| - 1); }
        forall i | 0 < i < |t| ensures !DashDashAt(t, i) {
          assert OwnerTokenAt(t, i);
        }
      }
      if OwnerNameShape(t) {
        forall j | 1 <= j < |t| ensures OwnerTokenAt(t, j) {
          if t[j] == '-' {
            assert j + 1 < |t|;
            assert !DashDashAt(t, j);
          }
        }
      }
    }
  }

  // ---------------------------------------------------------------------------
  // The validators
  // ---------------------------------------------------------------------------

  /** `validate_branch_name`: the stripped name, or the first check it fails. */
  function ValidateBranchName(branch: string): (r: Result<string, Exception>)
    ensures r.Ok? ==> r.value == Strip(branch)
    ensures r.Err? ==> r.error.ValueError?
  {
    CheckBranchName(Strip(branch))
  }

  /** The checks of `validate_branch_name` on the stripped name, in source order. */
  function CheckBranchName(sanitized: string): (r: Result<string, Exception>)
    ensures r.Ok? ==> r.value == sanitized
    ensures r.Err? ==> r.error.ValueError?
  {
    if sanitized == [] then Err(ValueError(BranchEmpty))
    else if Contains(sanitized, "..") then Err(ValueError(BranchDoubleDot))
    else if SearchBracketPattern(sanitized, 0) then Err(ValueError(BranchInvalidChars))
    else if StartsWith(sanitized, "/") || EndsWith(sanitized, "/") then
      Err(ValueError(BranchEdgeSlash))
    else if EndsWith(sanitized, ".lock") then Err(ValueError(BranchLockSuffix))
    else Ok(sanitized)
  }

  lemma DoubleDotIff(t: string)
    ensures Contains(t, "..") <==> exists i :: DotDotAt(t, i)
  {
    ContainsIff(t, "..");
    forall i ensures OccursAt(t, "..", i) <==> DotDotAt(t, i) {
      if 0 <= i && i + 2 <= |t| {
        assert t[i..i + 2] == [t[i], t[i + 1]];
      }
    }
  }

  /**
   * `validate_branch_name` applies its five rules in order: it returns the
   * stripped name when all hold and otherwise fails with the message of the
   * first one broken.
   */
  lemma ValidateBranchNameFollowsRules(branch: string)
    ensures ValidateBranchName(branch) == Verdict(BranchRules, Strip(branch))
  {
    CheckBranchNameFollowsRules(Strip(branch));
  }

  lemma CheckBranchNameFollowsRules(t: string)
    ensures CheckBranchName(t) == Verdict(BranchRules, t)
  {
    var rs := BranchRules;
    DoubleDotIff(t);
    SearchBracketPatternIff(t, 0);
    if t != [] {
      assert t[..1] == [t[0]] && t[|t| - 1..] == [t[|t| - 1]];
    }
    // the index of the first rule the source finds broken, or 5 when none is
    var k := if t == [] then 0 else if Contains(t, "..") then 1 else if SearchBracketPattern(t, 0) then 2
             else if StartsWith(t, "/") || EndsWith(t, "/") then 3 else if EndsWith(t, ".lock") then 4 else 5;
    forall j | 0 <= j < k ensures Holds(rs[j].check, t) {
      if j == 0 {} else if j == 1 {} else if j == 2 {} else if j == 3 {} else {}
    }
    if k < 5 {
      FirstBrokenAt(rs, t, k);
    }
  }

  /** `validate_repository_name`: the stripped, lower-cased name, or the first check it fails. */
  function ValidateRepositoryName(name: string): (r: Result<string, Exception>)
    ensures r.Ok? ==> r.value == Lower(Strip(name))
    ensures r.Err? ==> r.error.ValueError?
  {
    CheckRepositoryName(Lower(Strip(name)))
  }

  /** The checks of `validate_repository_name` on the sanitized name, in source order. */
  function CheckRepositoryName(sanitized: string): (r: Result<string, Exception>)
    ensures r.Ok? ==> r.value == sanitized
    ensures r.Err? ==> r.error.ValueError?
  {
    if sanitized == [] then Err(ValueError(RepoEmpty))
    else if !RepoPatternMatch(sanitized) then
      Err(ValueError(RepoCharsetMessage))
    else if StartsWith(sanitized, ".") || EndsWith(sanitized, ".") then
      Err(ValueError(RepoEdgePeriod))
    else Ok(sanitized)
  }

  /** The lower-cased, stripped text has no whitespace at its ends, so no final newline. */
  lemma SanitizedNoFinalNewline(s: string)
    ensures Trimmed(Lower(Strip(s))) && NoFinalNewline(Lower(Strip(s)))
  {
    LowerKeepsTrimmed(Strip(s));
  }

  /**
   * `validate_repository_name` succeeds exactly on non-empty names of
   * `[a-z0-9_.-]` that neither start nor end with a period, after stripping
   * and lower-casing, and reports the first broken rule otherwise.
   */
  lemma ValidateRepositoryNameFollowsRules(name: string)
    ensures ValidateRepositoryName(name) == Verdict(RepositoryRules, Lower(Strip(name)))
  {
    SanitizedNoFinalNewline(name);
    CheckRepositoryNameFollowsRules(Lower(Strip(name)));
  }

  lemma CheckRepositoryNameFollowsRules(t: string)
    requires NoFinalNewline(t)
    ensures CheckRepositoryName(t) == Verdict(RepositoryRules, t)
  {
    var rs := RepositoryRules;
    MatchRepoRunIff(t, 0);
    if t != [] {
      assert t[..1] == [t[0]] && t[|t| - 1..] == [t[|t| - 1]];
    }
    // the index of the first rule the source finds broken, or 3 when none is
    var k := if t == [] then 0 else if !RepoPatternMatch(t) then 1
             else if StartsWith(t, ".") || EndsWith(t, ".") then 2 else 3;
    forall j | 0 <= j < k ensures Holds(rs[j].check, t) {
      if j == 0 {} else if j == 1 {} else {}
    }
    if k < 3 {
      FirstBrokenAt(rs, t, k);
    }
  }

  /** `validate_owner_name`: the stripped, lower-cased name, or the first check it fails. */
  function ValidateOwnerName(owner: string): (r: Result<string, Exception>)
    ensures r.Ok? ==> r.value == Lower(Strip(owner))
    ensures r.Err? ==> r.error.ValueError?
  {
    CheckOwnerName(Lower(Strip(owner)))
  }

  /** The checks of `validate_owner_name` on the sanitized name, in source order. */
  function CheckOwnerName(sanitized: string): (r: Result<string, Exception>)
    ensures r.Ok? ==> r.value == sanitized
    ensures r.Err? ==> r.error.ValueError?
  {
    if sanitized == [] then Err(ValueError(OwnerEmpty))
    else if !OwnerPatternMatch(sanitized) then
      Err(ValueError(OwnerShapeMessage))
    else Ok(sanitized)
  }

  /**
   * `validate_owner_name` succeeds exactly on GitHub login shapes (1 to 39 of
   * `[a-z0-9-]`, no `-` at either end, no `--`) after stripping and lower-casing.
   */
  lemma ValidateOwnerNameFollowsRules(owner: string)
    ensures ValidateOwnerName(owner) == Verdict(OwnerRules, Lower(Strip(owner)))
  {
    SanitizedNoFinalNewline(owner);
    CheckOwnerNameFollowsRules(Lower(Strip(owner)));
  }

  lemma CheckOwnerNameFollowsRules(t: string)
    requires NoFinalNewline(t)
    ensures CheckOwnerName(t) == Verdict(OwnerRules, t)
  {
    OwnerPatternIff(t);
    var k := if t == [] then 0 else if !OwnerPatternMatch(t) then 1 else 2;
    forall j | 0 <= j < k ensures Holds(OwnerRules[j].check, t) {
      if j == 0 {} else {}
    }
    if k < 2 {
      FirstBrokenAt(OwnerRules, t, k);
    }
  }

  /** Validating an accepted branch name again returns it unchanged. */
  lemma ValidateBranchNameIdempotent(branch: string)
    ensures ValidateBranchName(branch).Ok? ==>
              ValidateBranchName(ValidateBranchName(branch).value) == ValidateBranchName(branch)
  {
    StripTrimmed(Strip(branch));
  }

  lemma SanitizeIdempotent(s: string)
    ensures Lower(Strip(Lower(Strip(s)))) == Lower(Strip(s))
  {
    SanitizedNoFinalNewline(s);
    StripTrimmed(Lower(Strip(s)));
    LowerIdempotent(Strip(s));
  }

  /** Validating an accepted repository name again returns it unchanged. */
  lemma ValidateRepositoryNameIdempotent(name: string)
    ensures ValidateRepositoryName(name).Ok? ==>
              ValidateRepositoryName(ValidateRepositoryName(name).value) == ValidateRepositoryName(name)
  {
    SanitizeIdempotent(name);
  }

  /** Validating an accepted owner name again returns it unchanged. */
  lemma ValidateOwnerNameIdempotent(owner: string)
    ensures ValidateOwnerName(owner).Ok? ==>
              ValidateOwnerName(ValidateOwnerName(owner).value) == ValidateOwnerName(owner)
  {
    SanitizeIdempotent(owner);
  }

  /** As written, the branch pattern lets a space or a `~` through. */
  lemma BranchPatternAcceptsSpaceAndTilde()
    ensures CheckBranchName("a b") == Ok("a b")
    ensures CheckBranchName("x~1") == Ok("x~1")
  {
    DoubleDotIff("a b");
    SearchBracketPatternIff("a b", 0);
    DoubleDotIff("x~1");
    SearchBracketPatternIff("x~1", 0);
  }

  /** As written, the branch pattern rejects an `s` followed by `]`, but not other letters before `]`. */
  lemma BranchPatternRejectsSBracket()
    ensures CheckBranchName("fixes]") == Err(ValueError(BranchInvalidChars))
    ensures CheckBranchName("fix]") == Ok("fix]")
  {
    DoubleDotIff("fixes]");
    assert BracketPatternAt("fixes]", 4);
    SearchBracketPatternIff("fixes]", 0);
    DoubleDotIff("fix]");
    SearchBracketPatternIff("fix]", 0);
  }

  /** `re.search(r"[\s~^:?*[\\]]", t)` as evidently intended: any one character of the class. */
  predicate SearchInvalidChar(t: string, from: nat)
    decreases |t| - from
  {
    from < |t| && (InvalidBranchChar(t[from]) || SearchInvalidChar(t, from + 1))
  }

  lemma {:induction false} SearchInvalidCharIff(t: string, from: nat)
    ensures SearchInvalidChar(t, from) <==> exists i :: from <= i < |t| && InvalidBranchChar(t[i])
    decreases |t| - from
  {
    if from < |t| {
      SearchInvalidCharIff(t, from + 1);
      if exists i :: from <= i < |t| && InvalidBranchChar(t[i]) {
        var i :| from <= i < |t| && InvalidBranchChar(t[i]);
        assert i == from || (from + 1 <= i < |t| && InvalidBranchChar(t[i]));
      }
    }
  }

  /** The intended character rule holds exactly when the search finds nothing. */
  lemma NoInvalidCharIff(t: string)
    ensures Holds(NoInvalidChar, t) <==> !SearchInvalidChar(t, 0)
  {
    SearchInvalidCharIff(t, 0);
  }

  /** `validate_branch_name` with the character check it evidently means. */
  function ValidateBranchNameIntended(branch: string): (r: Result<string, Exception>)
    ensures r.Ok? ==> r.value == Strip(branch)
    ensures r.Err? ==> r.error.ValueError?
  {
    CheckBranchNameIntended(Strip(branch))
  }

  function CheckBranchNameIntended(sanitized: string): (r: Result<string, Exception>)
    ensures r.Ok? ==> r.value == sanitized
    ensures r.Err? ==> r.error.ValueError?
  {
    if sanitized == [] then Err(ValueError(BranchEmpty))
    else if Contains(sanitized, "..") then Err(ValueError(BranchDoubleDot))
    else if SearchInvalidChar(sanitized, 0) then Err(ValueError(BranchInvalidChars))
    else if StartsWith(sanitized, "/") || EndsWith(sanitized, "/") then
      Err(ValueError(BranchEdgeSlash))
    else if EndsWith(sanitized, ".lock") then Err(ValueError(BranchLockSuffix))
    else Ok(sanitized)
  }

  lemma CheckBranchNameIntendedFollowsRules(t: string)
    ensures CheckBranchNameIntended(t) == Verdict(IntendedBranchRules, t)
  {
    var rs := IntendedBranchRules;
    DoubleDotIff(t);
    NoInvalidCharIff(t);
    if t != [] {
      assert t[..1] == [t[0]] && t[|t| - 1..] == [t[|t| - 1]];
    }
    // the index of the first rule found broken, or 5 when none is
    var k := if t == [] then 0 else if Contains(t, "..") then 1 else if SearchInvalidChar(t, 0) then 2
             else if StartsWith(t, "/") || EndsWith(t, "/") then 3 else if EndsWith(t, ".lock") then 4 else 5;
    forall j | 0 <= j < k ensures Holds(rs[j].check, t) {
      if j == 0 {} else if j == 1 {} else if j == 2 {} else if j == 3 {} else {}
    }
    if k < 5 {
      FirstBrokenAt(rs, t, k);
    }
  }

  /**
   * The intended validator applies its five rules in order; in particular an
   * accepted name holds no whitespace, `~ ^ : ? * [` or backslash anywhere.
   */
  lemma ValidateBranchNameIntendedFollowsRules(branch: string)
    ensures ValidateBranchNameIntended(branch) == Verdict(IntendedBranchRules, Strip(branch))
    ensures ValidateBranchNameIntended(branch).Ok? ==>
              forall i :: 0 <= i < |Strip(branch)| ==> !InvalidBranchChar(Strip(branch)[i])
  {
    var t := Strip(branch);
    CheckBranchNameIntendedFollowsRules(t);
    SearchInvalidCharIff(t, 0);
  }

  /** The intended validator refuses the names the written pattern lets through. */
  lemma BranchIntendedRejects()
    ensures CheckBranchNameIntended("a b") == Err(ValueError(BranchInvalidChars))
    ensures CheckBranchNameIntended("x~1") == Err(ValueError(BranchInvalidChars))
  {
    DoubleDotIff("a b");
    DoubleDotIff("x~1");
    assert InvalidBranchChar("a b"[1]) && InvalidBranchChar("x~1"[1]);
    SearchInvalidCharIff("a b", 0);
    SearchInvalidCharIff("x~1", 0);
  }

  // ---------------------------------------------------------------------------
  // build_url
  // ---------------------------------------------------------------------------

  /** The parameters whose value is not `None`, in their original order. */
  function Present(params: seq<(string, Option<string>)>): (r: seq<(string, string)>)
    ensures |r| <= |params|
    ensures r == [] <==> forall i :: 0 <= i < |params| ==> params[i].1.None?
  {
    if params == [] then []
    else
      assert forall i :: 1 <= i < |params| ==> params[i] == params[1..][i - 1];
      PresentEntry(params[0]) + Present(params[1..])
  }

  /** Every given entry is kept, and nothing but given entries appears. */
  lemma {:induction false} PresentEntries(params: seq<(string, Option<string>)>)
    ensures forall i :: 0 <= i < |params| && params[i].1.Some? ==>
              (params[i].0, params[i].1.value) in Present(params)
    ensures forall p :: p in Present(params) ==> (p.0, Some(p.1)) in params
  {
    if params != [] {
      PresentEntries(params[1..]);
      assert forall i :: 1 <= i < |params| ==> params[i] == params[1..][i - 1];
    }
  }

  function PresentEntry(entry: (string, Option<string>)): seq<(string, string)> {
    match entry.1
    case Some(v) => [(entry.0, v)]
    case None => []
  }

  lemma {:induction false} PresentAppend(a: seq<(string, Option<string>)>, b: seq<(string, Option<string>)>)
    ensures Present(a + b) == Present(a) + Present(b)
  {
    if a != [] {
      assert (a + b)[0] == a[0] && (a + b)[1..] == a[1..] + b;
      PresentAppend(a[1..], b);
      calc {
        Present(a + b);
        PresentEntry(a[0]) + Present(a[1..] + b);
        PresentEntry(a[0]) + (Present(a[1..]) + Present(b));
        (PresentEntry(a[0]) + Present(a[1..])) + Present(b);
      }
    } else {
      assert a + b == b;
    }
  }

  /**
   * `build_url(base, params)`: the base alone when every value is `None`,
   * otherwise the base, `?` and the url-encoded non-`None` entries.
   */
  function BuildUrl(base: string, params: seq<(string, Option<string>)>): (url: string)
    ensures (forall i :: 0 <= i < |params| ==> params[i].1.None?) <==> url == base
    ensures Present(params) == [] <==> url == base
    ensures Present(params) != [] ==> url == base + "?" + UrlEncode(Present(params))
  {
    var query := UrlEncode(Present(params));
    if query != [] then base + "?" + query else base
  }

  /** A built URL always starts with its base. */
  lemma BuildUrlPrefix(base: string, params: seq<(string, Option<string>)>)
    ensures |base| <= |BuildUrl(base, params)| && BuildUrl(base, params)[..|base|] == base
  {
    var query := "?" + UrlEncode(Present(params));
    assert (base + query)[..|base|] == base;
  }

  /**
   * The query part of a built URL splits at `&` into one `key=value` piece per
   * non-`None` parameter, in insertion order.
   */
  lemma BuildUrlQuery(base: string, params: seq<(string, Option<string>)>)
    requires Present(params) != []
    ensures var url := BuildUrl(base, params);
            && |url| > |base| && url[..|base|] == base && url[|base|] == '?'
            && Split(url[|base| + 1..], '&') == EncodePairs(Present(params))
  {
    var url := BuildUrl(base, params);
    assert url[|base| + 1..] == UrlEncode(Present(params));
    UrlEncodeSplit(Present(params));
  }

  lemma PresentThree(e1: (string, Option<string>), e2: (string, Option<string>), e3: (string, Option<string>))
    ensures Present([e1, e2, e3]) == PresentEntry(e1) + PresentEntry(e2) + PresentEntry(e3)
  {
    assert [e1, e2, e3][1..] == [e2, e3] && [e2, e3][1..] == [e3] && [e3][1..] == [];
    assert Present([e3]) == PresentEntry(e3) + [];
    assert Present([e2, e3]) == PresentEntry(e2) + Present([e3]);
    assert Present([e1, e2, e3]) == PresentEntry(e1) + Present([e2, e3]);
  }

  /** Three given parameters appear in the query in the order they were listed. */
  lemma BuildUrlThree(base: string, k1: string, v1: string, k2: string, v2: string, k3: string, v3: string)
    ensures var url := BuildUrl(base, [(k1, Some(v1)), (k2, Some(v2)), (k3, Some(v3))]);
            && |url| > |base| && url[..|base|] == base && url[|base|] == '?'
            && Split(url[|base| + 1..], '&') == [EncodePair(k1, v1), EncodePair(k2, v2), EncodePair(k3, v3)]
  {
    var params := [(k1, Some(v1)), (k2, Some(v2)), (k3, Some(v3))];
    var pairs := [(k1, v1), (k2, v2), (k3, v3)];
    PresentThree(params[0], params[1], params[2]);
    assert Present(params) == pairs;
    BuildUrlQuery(base, params);
    var encoded := EncodePairs(pairs);
    assert encoded == [encoded[0], encoded[1], encoded[2]];
  }

  lemma EncodeSafePair(key: string, value: string)
    requires forall i :: 0 <= i < |key| ==> SafeChar(key[i])
    requires forall i :: 0 <= i < |value| ==> SafeChar(value[i])
    ensures UrlEncode([(key, value)]) == key + "=" + value
  {
    QuoteSafe(key);
    QuoteSafe(value);
    assert EncodePairs([(key, value)]) == [EncodePair(key, value)];
  }

  // ---------------------------------------------------------------------------
  // github_request over an abstract transport
  // ---------------------------------------------------------------------------

  /** The caller's `options` dict: an absent `body` is `JNull`. */
  datatype Options = Options(httpMethod: Option<string>, body: Json, headers: map<string, string>)

  const NoOptions := Options(None, JNull, map[])

  /** What `requests.request` is called with; `data` is the body before `json.dumps`. */
  datatype Request = Request(httpMethod: string, url: string, headers: map<string, string>, data: Option<Json>)

  /**
   * What the transport gives back: a response (with the decoded JSON, or `None`
   * when it is not valid JSON, and the raw text), or the exception it raised.
   */
  datatype Reply =
    | Response(status: int, contentType: Option<string>, json: Option<Json>, text: string)
    | TransportFailure(raised: Exception)

  /** The remote server: it answers each request. */
  type Remote = Request -> Reply

  /** The process environment: the `GITHUB_PERSONAL_ACCESS_TOKEN` variable and the clock. */
  datatype Env = Env(token: Option<string>, now: string)

  /** The outcome of an operation and the requests it sent, in order. */
  datatype Run<T> = Run(result: Result<T, Exception>, sent: seq<Request>)

  const DefaultHeaders: map<string, string> := map[
    "Accept" := "application/vnd.github.v3+json",
    "Content-Type" := "application/json"]

  /** `if token:` -- an unset or empty variable adds no credential. */
  predicate HasToken(token: Option<string>) {
    token.Some? && token.value != ""
  }

  /**
   * The headers sent: the caller's headers override the two defaults, and a
   * non-empty token sets `Authorization: Bearer <token>`, overriding the caller's.
   */
  function RequestHeaders(caller: map<string, string>, token: Option<string>): (h: map<string, string>)
    ensures h.Keys == DefaultHeaders.Keys + caller.Keys + (if HasToken(token) then {"Authorization"} else {})
    ensures forall k :: k in caller && (k != "Authorization" || !HasToken(token)) ==> h[k] == caller[k]
    ensures forall k :: k in DefaultHeaders && k !in caller ==> h[k] == DefaultHeaders[k]
    ensures HasToken(token) ==> h["Authorization"] == "Bearer " + token.value
    ensures !HasToken(token) ==> ("Authorization" in h <==> "Authorization" in caller)
  {
    var merged := DefaultHeaders + caller;
    if HasToken(token) then merged["Authorization" := "Bearer " + token.value] else merged
  }

  /**
   * The request `requests.request` is asked for: the method defaults to GET,
   * the headers are merged as above, and the body is sent as JSON only when it
   * is truthy.
   */
  function BuildRequest(url: string, options: Options, token: Option<string>): (r: Request)
    ensures r.url == url
    ensures options.httpMethod.None? ==> r.httpMethod == "GET"
    ensures options.httpMethod.Some? ==> r.httpMethod == options.httpMethod.value
    ensures r.headers == RequestHeaders(options.headers, token)
    ensures r.data.Some? <==> Truthy(options.body)
    ensures r.data.Some? ==> r.data.value == options.body
  {
    Request(
      options.httpMethod.GetOr("GET"),
      url,
      RequestHeaders(options.headers, token),
      if Truthy(options.body) then Some(options.body) else None)
  }

  /** `response.ok`: `requests` raises for exactly the statuses 400 to 599. */
  predicate ResponseOk(status: int) {
    !(400 <= status < 600)
  }

  predicate IsJsonContent(contentType: Option<string>) {
    contentType.Some? && Contains(contentType.value, "application/json")
  }

  /** `parse_response_body`: decoded JSON when the content type says so, else the text. */
  function ParseResponseBody(reply: Reply): (r: Result<Json, Exception>)
    requires reply.Response?
    ensures IsJsonContent(reply.contentType) && reply.json.Some? ==> r == Ok(reply.json.value)
    ensures IsJsonContent(reply.contentType) && reply.json.None? ==> r == Err(JSONDecodeError)
    ensures !IsJsonContent(reply.contentType) ==> r == Ok(JStr(reply.text))
  {
    if IsJsonContent(reply.contentType) then
      match reply.json
      case Some(body) => Ok(body)
      case None => Err(JSONDecodeError)
    else Ok(JStr(reply.text))
  }

  /** `raise create_github_error(...)`: the error built, or whatever building it raised. */
  function Raised(built: Result<GitHubError, Exception>): Exception {
    match built
    case Ok(e) => GitHub(e)
    case Err(x) => x
  }

  /** The raised exception is a GitHub error exactly when the error body could be classified. */
  lemma RaisedIsGitHubError(status: int, response: Json, now: string)
    ensures IsGitHubError(Raised(CreateGitHubError(status, response, now))) <==>
            CreateGitHubError(status, response, now).Ok?
  {
  }

  /**
   * `github_request(url, options)`, awaited. It sends exactly one request; a
   * failing status never returns the body but raises the classified error, and a
   * successful one returns the parsed body.
   */
  function GitHubRequest(remote: Remote, env: Env, url: string, options: Options): (r: Run<Json>)
    ensures r.sent == [BuildRequest(url, options, env.token)]
    ensures var reply := remote(r.sent[0]);
            && (reply.TransportFailure? ==> r.result == Err(reply.raised))
            && (reply.Response? && ResponseOk(reply.status) ==> r.result == ParseResponseBody(reply))
            && (reply.Response? && !ResponseOk(reply.status) ==>
                  && r.result.Err?
                  && (ParseResponseBody(reply).Err? ==> r.result == ParseResponseBody(reply))
                  && (ParseResponseBody(reply).Ok? ==>
                        r.result.error == Raised(CreateGitHubError(reply.status, ParseResponseBody(reply).value, env.now))))
  {
    var request := BuildRequest(url, options, env.token);
    var reply := remote(request);
    var result :=
      match reply
      case TransportFailure(x) => Err(x)
      case Response(status, _, _, _) =>
        match ParseResponseBody(reply)
        case Err(x) => Err(x)
        case Ok(body) =>
          if !ResponseOk(status) then Err(Raised(CreateGitHubError(status, body, env.now)))
          else Ok(body);
    Run(result, [request])
  }

  /**
   * A failing response whose body is a dict or empty raises a GitHub error with
   * the response's status (a 429 also needs a textual `reset_at`, if any).
   */
  lemma FailingResponseRaisesGitHubError(remote: Remote, env: Env, url: string, options: Options)
    requires var reply := remote(BuildRequest(url, options, env.token));
             && reply.Response? && !ResponseOk(reply.status)
             && ParseResponseBody(reply).Ok? && Gettable(ParseResponseBody(reply).value)
             && (reply.status == 429 ==> ResetAtText(OrEmpty(ParseResponseBody(reply).value).fields, env.now).Some?)
    ensures var r := GitHubRequest(remote, env, url, options);
            var reply := remote(BuildRequest(url, options, env.token));
            && r.result.Err? && IsGitHubError(r.result.error)
            && r.result.error.error.status == reply.status
            && r.result.error.error.kind == KindOf(reply.status)
  {
  }

  // ---------------------------------------------------------------------------
  // check_branch_exists / check_user_exists
  // ---------------------------------------------------------------------------

  /**
   * The `try`/`except` of both checks: success is `True`, an error whose
   * `status` is 404 is `False`, anything else is raised again.
   */
  function ExistsFromLookup(lookup: Result<Json, Exception>): (r: Result<bool, Exception>)
    ensures r == Ok(true) <==> lookup.Ok?
    ensures r == Ok(false) <==> lookup.Err? && lookup.error.GitHub? && lookup.error.error.status == 404
    ensures r.Err? ==> lookup.Err? && r.error == lookup.error
  {
    match lookup
    case Ok(_) => Ok(true)
    case Err(x) => if x.GitHub? && x.error.status == 404 then Ok(false) else Err(x)
  }

  function BranchUrl(owner: string, repo: string, branch: string): string {
    "https://api.github.com/repos/" + owner + "/" + repo + "/branches/" + branch
  }

  function UserUrl(username: string): string {
    "https://api.github.com/users/" + username
  }

  /** `check_branch_exists`: one GET of the branch, its outcome read as existence. */
  function CheckBranchExists(remote: Remote, env: Env, owner: string, repo: string, branch: string): (r: Run<bool>)
    ensures r.sent == [BuildRequest(BranchUrl(owner, repo, branch), NoOptions, env.token)]
    ensures r.sent[0].httpMethod == "GET"
    ensures r.result == ExistsFromLookup(GitHubRequest(remote, env, BranchUrl(owner, repo, branch), NoOptions).result)
  {
    var lookup := GitHubRequest(remote, env, BranchUrl(owner, repo, branch), NoOptions);
    Run(ExistsFromLookup(lookup.result), lookup.sent)
  }

  /** `check_user_exists`: one GET of the user, its outcome read as existence. */
  function CheckUserExists(remote: Remote, env: Env, username: string): (r: Run<bool>)
    ensures r.sent == [BuildRequest(UserUrl(username), NoOptions, env.token)]
    ensures r.sent[0].httpMethod == "GET"
    ensures r.result == ExistsFromLookup(GitHubRequest(remote, env, UserUrl(username), NoOptions).result)
  {
    var lookup := GitHubRequest(remote, env, UserUrl(username), NoOptions);
    Run(ExistsFromLookup(lookup.result), lookup.sent)
  }

  /**
   * `check_branch_exists` as written: `github_request` is a coroutine function
   * called without `await`, so the call only creates a coroutine; no request is
   * sent, nothing is raised, and the check answers `True`.
   */
  function CheckBranchExistsAsWritten(remote: Remote, env: Env, owner: string, repo: string, branch: string): (r: Run<bool>)
    ensures r.sent == [] && r.result == Ok(true)
  {
    Run(Ok(true), [])
  }

  /** `check_user_exists` as written, with the same missing `await`. */
  function CheckUserExistsAsWritten(remote: Remote, env: Env, username: string): (r: Run<bool>)
    ensures r.sent == [] && r.result == Ok(true)
  {
    Run(Ok(true), [])
  }

  /**
   * Where the missing `await` shows: for a branch or user the server reports
   * missing, the checks as written still answer `True`, while awaiting the
   * request answers `False`.
   */
  lemma UnawaitedChecksMissAbsence(remote: Remote, env: Env, owner: string, repo: string, branch: string,
                                   username: string, body: map<string, Json>)
    requires var reply := remote(BuildRequest(BranchUrl(owner, repo, branch), NoOptions, env.token));
             && reply.Response? && reply.status == 404
             && IsJsonContent(reply.contentType) && reply.json == Some(JObj(body))
    requires var reply := remote(BuildRequest(UserUrl(username), NoOptions, env.token));
             && reply.Response? && reply.status == 404
             && IsJsonContent(reply.contentType) && reply.json == Some(JObj(body))
    ensures CheckBranchExistsAsWritten(remote, env, owner, repo, branch).result == Ok(true)
    ensures CheckBranchExists(remote, env, owner, repo, branch).result == Ok(false)
    ensures CheckUserExistsAsWritten(remote, env, username).result == Ok(true)
    ensures CheckUserExists(remote, env, username).result == Ok(false)
  {
    FailingResponseRaisesGitHubError(remote, env, BranchUrl(owner, repo, branch), NoOptions);
    FailingResponseRaisesGitHubError(remote, env, UserUrl(username), NoOptions);
  }

  /**
   * A 404 answer with a dict or empty body makes the branch absent; any other
   * failing answer with such a body is raised again as the classified error.
   */
  lemma CheckBranchExistsOnFailure(remote: Remote, env: Env, owner: string, repo: string, branch: string)
    requires var reply := remote(BuildRequest(BranchUrl(owner, repo, branch), NoOptions, env.token));
             && reply.Response? && !ResponseOk(reply.status)
             && ParseResponseBody(reply).Ok? && Gettable(ParseResponseBody(reply).value)
             && (reply.status == 429 ==> ResetAtText(OrEmpty(ParseResponseBody(reply).value).fields, env.now).Some?)
    ensures var r := CheckBranchExists(remote, env, owner, repo, branch);
            var reply := remote(BuildRequest(BranchUrl(owner, repo, branch), NoOptions, env.token));
            && (reply.status == 404 <==> r.result == Ok(false))
            && (reply.status != 404 ==>
                  r.result.Err? && r.result.error.GitHub? && r.result.error.error.kind == KindOf(reply.status))
  {
    FailingResponseRaisesGitHubError(remote, env, BranchUrl(owner, repo, branch), NoOptions);
  }

  /**
   * The body is parsed before `response.ok` is looked at, so a 404 whose JSON
   * body does not decode raises the decode error: the branch is not reported absent.
   */
  lemma CheckBranchExistsUndecodable(remote: Remote, env: Env, owner: string, repo: string, branch: string)
    requires var reply := remote(BuildRequest(BranchUrl(owner, repo, branch), NoOptions, env.token));
             && reply.Response? && reply.status == 404
             && IsJsonContent(reply.contentType) && reply.json.None?
    ensures CheckBranchExists(remote, env, owner, repo, branch).result == Err(JSONDecodeError)
  {
  }
}
