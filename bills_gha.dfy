/** The GitHub-facing helpers of the `bills` package
    (internal/bills/gha.go): which repository to report on, the
    conversion of billed milliseconds to minutes, and the paged listing of
    the repository's workflows.  The environment variable
    GITHUB_REPOSITORY is passed in as its value, "" when it is unset. */
module BillsGha {
  import opened Wrappers
  import opened Strings
  import opened GitHubApi

  /** The owner and the name of the repository to report on, from
      "owner/name". */
  function ExtractOwnerAndRepo(repo: string, envRepository: string): (r: Result<(string, string)>)
    ensures r == Err(MissingRepository) <==> RepositoryName(repo, envRepository) == ""
    ensures r.Ok? <==> RepositoryName(repo, envRepository) != "" && CountChar(RepositoryName(repo, envRepository), '/') == 1
    ensures RepositoryName(repo, envRepository) != "" && CountChar(RepositoryName(repo, envRepository), '/') != 1 ==>
      r == Err(InvalidFormat(RepositoryName(repo, envRepository)))
    ensures r.Ok? ==>
      '/' !in r.value.0 && '/' !in r.value.1 && r.value.0 + "/" + r.value.1 == RepositoryName(repo, envRepository)
  {
    var ownerRepo := if repo != "" then repo else envRepository;
    if ownerRepo == "" then Err(MissingRepository)
    else
      var parts := Split(ownerRepo, '/');
      if |parts| != 2 then Err(InvalidFormat(ownerRepo))
      else
        JoinSplit(ownerRepo, '/');
        assert Join(parts, '/') == parts[0] + "/" + parts[1];
        Ok((parts[0], parts[1]))
  }

  /** Any owner and name without a slash are read back from
      "owner/name", whatever the environment holds. */
  lemma ExtractJoined(owner: string, name: string, envRepository: string)
    requires '/' !in owner && '/' !in name
    ensures ExtractOwnerAndRepo(owner + "/" + name, envRepository) == Ok((owner, name))
  {
    var parts := [owner, name];
    SplitJoin(parts, '/');
    assert Join(parts, '/') == owner + "/" + name;
  }

  /** The package's tests: "owner/repo" given directly or through the
      environment. */
  lemma ExtractGiven()
    ensures ExtractOwnerAndRepo("owner/repo", "") == Ok(("owner", "repo"))
    ensures ExtractOwnerAndRepo("", "owner/repo") == Ok(("owner", "repo"))
  {
    assert "owner" + "/" + "repo" == "owner/repo";
    ExtractJoined("owner", "repo", "");
    ExtractJoined("owner", "repo", "owner/repo");
  }

  /** The package's tests: nothing given, and a name without a slash. */
  lemma ExtractRejected()
    ensures ExtractOwnerAndRepo("", "") == Err(MissingRepository)
    ensures ExtractOwnerAndRepo("foobar", "") == Err(InvalidFormat("foobar"))
    ensures Message(ExtractOwnerAndRepo("foobar", "").error) == "invalid repository name format: foobar"
  {
    assert CountChar("foobar", '/') == 0;
  }

  /** An empty name after the slash is accepted. */
  lemma ExtractEmptyName()
    ensures ExtractOwnerAndRepo("a/", "") == Ok(("a", ""))
  {
    assert "a" + "/" + "" == "a/";
    ExtractJoined("a", "", "");
  }

  /** The whole minutes billed for runner `env`; 0 when the map has no
      entry for it. */
  function GetMinutesForEnv(billMap: BillMap, env: string): (minutes: nat)
    ensures WholeMinutes(billMap, env, minutes)
  {
    if env !in billMap then 0 else billMap[env] / 60000
  }

  /** The whole minutes of a bill are unique: `GetMinutesForEnv` is the
      only count that fits. */
  lemma MinutesUnique(billMap: BillMap, env: string, minutes: nat)
    ensures WholeMinutes(billMap, env, minutes) <==> minutes == GetMinutesForEnv(billMap, env)
  {
  }

  /** The package's test: 7200000 ms on Ubuntu is 120 minutes, and a map
      without macOS bills 0 minutes there. */
  lemma MinutesExamples()
    ensures GetMinutesForEnv(map["UBUNTU" := 7200000, "WINDOWS" := 3000000], "UBUNTU") == 120
    ensures GetMinutesForEnv(map["UBUNTU" := 7200000, "WINDOWS" := 3000000], "MACOS") == 0
  {
  }

  /** Requests page after page, from the first, until a page says there
      is none after it, and returns all their workflows in order; a failed
      request returns its error and nothing else.  `bound` is a number of
      requests within which the listing ends. */
  method FetchWorkflows(listPage: nat -> Result<Page>, ghost bound: nat) returns (r: Result<seq<Workflow>>)
    requires ListingEnds(listPage, 0, bound)
    ensures r == Listing(listPage, 0, bound)
  {
    var allWorkflows: seq<Workflow> := [];
    var page: nat := 0;
    ghost var n := bound;
    assert Prepend([], Listing(listPage, 0, bound)) == Listing(listPage, 0, bound) by {
      var r := Listing(listPage, 0, bound);
      if r.Ok? {
        assert [] + r.value == r.value;
      }
    }
    while true
      invariant ListingEnds(listPage, page, n)
      invariant Listing(listPage, 0, bound) == Prepend(allWorkflows, Listing(listPage, page, n))
      decreases n
    {
      var response := listPage(page);
      if response.Err? {
        return Err(response.error);
      }
      if response.value.nextPage == 0 {
        allWorkflows := allWorkflows + response.value.workflows;
        break;
      }
      PrependPrepend(allWorkflows, response.value.workflows, Listing(listPage, response.value.nextPage, n - 1));
      allWorkflows := allWorkflows + response.value.workflows;
      page := response.value.nextPage;
      n := n - 1;
    }
    return Ok(allWorkflows);
  }

  /** Two pages of two and one workflows list as the three workflows in
      order, and a failure on the second page loses the first page's
      workflows too. */
  lemma ListingExamples(listPage: nat -> Result<Page>, a: Workflow, b: Workflow, c: Workflow, e: Error)
    requires listPage(0) == Ok(Page([a, b], 2))
    ensures listPage(2) == Ok(Page([c], 0)) ==> ListingEnds(listPage, 0, 2) && Listing(listPage, 0, 2) == Ok([a, b, c])
    ensures listPage(2) == Err(e) ==> ListingEnds(listPage, 0, 2) && Listing(listPage, 0, 2) == Err(e)
  {
    if listPage(2) == Ok(Page([c], 0)) {
      assert ListingEnds(listPage, 2, 1);
      assert [a, b] + [c] == [a, b, c];
    }
    if listPage(2) == Err(e) {
      assert ListingEnds(listPage, 2, 1);
    }
  }
}
