/** Fetching code for a flow (pkg/source/source.go): the source's type and
    match decide the ref, then the git collaborator fetches that ref from the
    repository and checks out its remote-tracking branch. The collaborator
    runs git; here its answer to each command is a parameter. */
module Source {
  import opened Api

  /** The kinds of git source. The string value of the revision kind is not
      part of this model; the others are "branch", "release" and
      "pullRequest". */
  datatype GitSourceType = GitBranch | GitRelease | GitRevision | GitPullRequest | OtherType(name: string)

  datatype GitSource = GitSource(repository: string, sourceType: GitSourceType, matches: string)

  datatype CodeSource = CodeSource(git: GitSource)

  const DefaultBranch: string := "master"
  const RemotePrefix: string := "origin/"

  /** The ref a source resolves to: a branch or revision names its match, or
      master by default; a release must leave its match empty and resolves
      to the empty ref; pull requests and unknown kinds are refused. */
  function ResolveRef(s: GitSource): (r: Result<string>)
    ensures s.sourceType.GitBranch? || s.sourceType.GitRevision? ==>
      r == Ok(if s.matches == "" then DefaultBranch else s.matches)
    ensures s.sourceType.GitRelease? ==> (r.Ok? <==> s.matches == "") && (r.Ok? ==> r.value == "")
    ensures s.sourceType.GitPullRequest? || s.sourceType.OtherType? ==> r.Failure?
    ensures r.Ok? ==> r.value == s.matches || (s.matches == "" && r.value == DefaultBranch)
  {
    match s.sourceType
    case GitBranch => Ok(if s.matches == "" then DefaultBranch else s.matches)
    case GitRelease =>
      if s.matches != "" then Failure(Err("Release tag is not found")) else Ok(s.matches)
    case GitRevision => Ok(if s.matches == "" then DefaultBranch else s.matches)
    case GitPullRequest => Failure(Err("It has not been supported yet"))
    case OtherType(name) => Failure(Err("Unknown type " + name))
  }

  /** A git command the collaborator runs against a repository. */
  datatype GitCommand = GitFetch(repo: string, ref: string) | GitCheckout(repo: string, target: string)

  /** The collaborator's answer to each command: None for success. */
  type GitRunner = GitCommand -> Option<Err>

  /** The commands run, in order, and the error returned. */
  datatype GitOutcome = GitOutcome(commands: seq<GitCommand>, err: Option<Err>)

  /** Every checkout is of the remote-tracking branch of the ref fetched by
      the command just before it, and that fetch succeeded. */
  predicate CheckoutsFollowFetches(commands: seq<GitCommand>, run: GitRunner)
  {
    forall i :: 0 <= i < |commands| && commands[i].GitCheckout? ==>
      i > 0 && commands[i - 1].GitFetch? && run(commands[i - 1]).None? &&
      commands[i - 1].repo == commands[i].repo && commands[i].target == RemotePrefix + commands[i - 1].ref
  }

  /** gitCheckout: fetch the ref, then check out its remote-tracking branch;
      a failed fetch stops there. */
  function GitCheckoutOutcome(repo: string, ref: string, run: GitRunner): (r: GitOutcome)
    ensures 1 <= |r.commands| <= 2 && r.commands[0] == GitFetch(repo, ref)
    ensures CheckoutsFollowFetches(r.commands, run)
    ensures |r.commands| == 2 <==> run(GitFetch(repo, ref)).None?
    ensures r.err.None? <==> forall i :: 0 <= i < |r.commands| ==> run(r.commands[i]).None?
  {
    var fetch := GitFetch(repo, ref);
    match run(fetch)
    case Some(e) => GitOutcome([fetch], Some(e))
    case None =>
      var checkout := GitCheckout(repo, RemotePrefix + ref);
      assert [fetch, checkout][0] == fetch && [fetch, checkout][1] == checkout;
      GitOutcome([fetch, checkout], run(checkout))
  }

  /** FetchByGit: resolve the ref, then check it out; a source that does not
      resolve runs nothing. */
  function FetchByGit(s: GitSource, run: GitRunner): (r: GitOutcome)
    ensures ResolveRef(s).Failure? ==> r == GitOutcome([], Some(ResolveRef(s).err))
    ensures ResolveRef(s).Ok? ==> r.commands != [] && r.commands[0] == GitFetch(s.repository, ResolveRef(s).value)
    ensures forall c :: c in r.commands ==> c.repo == s.repository
    ensures CheckoutsFollowFetches(r.commands, run)
  {
    match ResolveRef(s)
    case Failure(e) => GitOutcome([], Some(e))
    case Ok(ref) => GitCheckoutOutcome(s.repository, ref, run)
  }

  /** Fetch: fetching a code source is fetching its git source. */
  function Fetch(cs: CodeSource, run: GitRunner): (r: GitOutcome)
    ensures r == FetchByGit(cs.git, run)
    ensures forall c :: c in r.commands ==> c.repo == cs.git.repository
    ensures ResolveRef(cs.git).Failure? ==> r.commands == [] && r.err.Some?
  {
    FetchByGit(cs.git, run)
  }

  /** A branch source without a match checks out origin/master once fetching succeeds. */
  lemma BranchDefaultsToMaster(repo: string, run: GitRunner)
    requires run(GitFetch(repo, DefaultBranch)).None?
    ensures FetchByGit(GitSource(repo, GitBranch, ""), run).commands ==
            [GitFetch(repo, DefaultBranch), GitCheckout(repo, "origin/master")]
  {
    assert RemotePrefix + DefaultBranch == "origin/master";
  }

  /** A release source resolves to the empty ref, so it fetches "" and checks
      out the bare "origin/" prefix. */
  lemma ReleaseFetchesEmptyRef(repo: string, run: GitRunner)
    requires run(GitFetch(repo, "")).None?
    ensures FetchByGit(GitSource(repo, GitRelease, ""), run).commands == [GitFetch(repo, ""), GitCheckout(repo, RemotePrefix)]
  {
    assert RemotePrefix + "" == RemotePrefix;
  }
}
