/** The older `gha` package (internal/gha/gha.go): the same repository
    and minute helpers as the `bills` package, a collection of billable
    minutes that leaves out workflows whose bill cannot be fetched, and a
    plain-text listing of the result.  GITHUB_REPOSITORY is passed in as
    its value, "" when it is unset; the listing is returned as the text
    the package prints. */
module Gha {
  import opened Wrappers
  import opened Strings
  import opened Order
  import opened GitHubApi
  import BillsGha

  /** Billable minutes of one workflow on each runner operating system. */
  datatype EnvBillableTime = EnvBillableTime(ubuntu: nat, windows: nat, macos: nat)

  /** Billable minutes per workflow name. */
  type WorkflowBillableTime = map<string, EnvBillableTime>

  /** The owner and the name of the repository to report on, from
      "owner/name". */
  function GetOwnerAndRepo(repo: string, envRepository: string): (r: Result<(string, string)>)
    ensures r == Err(MissingRepository) <==> RepositoryName(repo, envRepository) == ""
    ensures r.Ok? <==> RepositoryName(repo, envRepository) != "" && CountChar(RepositoryName(repo, envRepository), '/') == 1
    ensures RepositoryName(repo, envRepository) != "" && CountChar(RepositoryName(repo, envRepository), '/') != 1 ==>
      r == Err(InvalidFormat(RepositoryName(repo, envRepository)))
    ensures r.Ok? ==>
      '/' !in r.value.0 && '/' !in r.value.1 && r.value.0 + "/" + r.value.1 == RepositoryName(repo, envRepository)
  {
    var ownerRepo := if repo != "" then repo else envRepository;
    if ownerRepo == "" then Err(MissingRepository)
    else
      var parts := Split(ownerRepo, '/');
      if |parts| != 2 then Err(InvalidFormat(ownerRepo))
      else
        JoinSplit(ownerRepo, '/');
        assert Join(parts, '/') == parts[0] + "/" + parts[1];
        Ok((parts[0], parts[1]))
  }

  /** Any owner and name without a slash are read back from
      "owner/name". */
  lemma GetOwnerAndRepoJoined(owner: string, name: string, envRepository: string)
    requires '/' !in owner && '/' !in name
    ensures GetOwnerAndRepo(owner + "/" + name, envRepository) == Ok((owner, name))
  {
    var parts := [owner, name];
    SplitJoin(parts, '/');
    assert Join(parts, '/') == owner + "/" + name;
  }

  /** The package's tests: "owner/repo" given directly or through the
      environment. */
  lemma GetOwnerAndRepoGiven()
    ensures GetOwnerAndRepo("owner/repo", "") == Ok(("owner", "repo"))
    ensures GetOwnerAndRepo("", "owner/repo") == Ok(("owner", "repo"))
  {
    assert "owner" + "/" + "repo" == "owner/repo";
    GetOwnerAndRepoJoined("owner", "repo", "");
    GetOwnerAndRepoJoined("owner", "repo", "owner/repo");
  }

  /** The package's tests: nothing given, and a name without a slash. */
  lemma GetOwnerAndRepoRejected()
    ensures GetOwnerAndRepo("", "") == Err(MissingRepository)
    ensures GetOwnerAndRepo("foobar", "") == Err(InvalidFormat("foobar"))
  {
    assert CountChar("foobar", '/') == 0;
  }

  /** The two packages read a repository name alike. */
  lemma GetOwnerAndRepoAgrees(repo: string, envRepository: string)
    ensures GetOwnerAndRepo(repo, envRepository) == BillsGha.ExtractOwnerAndRepo(repo, envRepository)
  {
  }

  /** The whole minutes billed for runner `env`; 0 when the map has no
      entry for it. */
  function GetMinutesForEnv(billMap: BillMap, env: string): (minutes: nat)
    ensures WholeMinutes(billMap, env, minutes)
  {
    if env !in billMap then 0 else billMap[env] / 60000
  }

  /** The whole minutes of a bill are unique: `GetMinutesForEnv` is the
      only count that fits. */
  lemma GetMinutesForEnvUnique(billMap: BillMap, env: string, minutes: nat)
    ensures WholeMinutes(billMap, env, minutes) <==> minutes == GetMinutesForEnv(billMap, env)
  {
  }

  /** The package's test: 7200000 ms on Ubuntu is 120 minutes, and a map
      without macOS bills 0 minutes there. */
  lemma GetMinutesForEnvExamples()
    ensures GetMinutesForEnv(map["UBUNTU" := 7200000, "WINDOWS" := 3000000], "UBUNTU") == 120
    ensures GetMinutesForEnv(map["UBUNTU" := 7200000, "WINDOWS" := 3000000], "MACOS") == 0
  {
  }

  /** Requests page after page, from the first, until a page says there
      is none after it, and returns all their workflows in order; a failed
      request returns its error and nothing else.  `bound` is a number of
      requests within which the listing ends. */
  method GetWorkflows(listPage: nat -> Result<Page>, ghost bound: nat) returns (r: Result<seq<Workflow>>)
    requires ListingEnds(listPage, 0, bound)
    ensures r == Listing(listPage, 0, bound)
  {
    var allWorkflows: seq<Workflow> := [];
    var page: nat := 0;
    ghost var n := bound;
    assert Prepend([], Listing(listPage, 0, bound)) == Listing(listPage, 0, bound) by {
      var l := Listing(listPage, 0, bound);
      if l.Ok? {
        assert [] + l.value == l.value;
      }
    }
    while true
      invariant ListingEnds(listPage, page, n)
      invariant Listing(listPage, 0, bound) == Prepend(allWorkflows, Listing(listPage, page, n))
      decreases n
    {
      var response := listPage(page);
      if response.Err? {
        return Err(response.error);
      }
      if response.value.nextPage == 0 {
        allWorkflows := allWorkflows + response.value.workflows;
        break;
      }
      PrependPrepend(allWorkflows, response.value.workflows, Listing(listPage, response.value.nextPage, n - 1));
      allWorkflows := allWorkflows + response.value.workflows;
      page := response.value.nextPage;
      n := n - 1;
    }
    return Ok(allWorkflows);
  }

  /** A workflow's minutes per runner from its bill map. */
  function MinutesOf(billMap: BillMap): (t: EnvBillableTime)
    ensures WholeMinutes(billMap, "UBUNTU", t.ubuntu)
    ensures WholeMinutes(billMap, "WINDOWS", t.windows)
    ensures WholeMinutes(billMap, "MACOS", t.macos)
  {
    EnvBillableTime(GetMinutesForEnv(billMap, "UBUNTU"), GetMinutesForEnv(billMap, "WINDOWS"), GetMinutesForEnv(billMap, "MACOS"))
  }

  /** The workflow's bill map was fetched. */
  predicate Fetched(usage: int -> Result<BillMap>, workflow: Workflow)
  {
    usage(workflow.id).Ok?
  }

  /** The minutes of each workflow whose bill map could be fetched, by
      name; a workflow replaces an earlier one of the same name, and one
      whose fetch fails changes nothing. */
  function Kept(usage: int -> Result<BillMap>, workflows: seq<Workflow>): (wbt: WorkflowBillableTime)
    ensures forall name :: name in wbt <==>
      exists i :: 0 <= i < |workflows| && workflows[i].name == name && Fetched(usage, workflows[i])
    decreases |workflows|
  {
    if workflows == [] then map[]
    else
      var init := workflows[..|workflows| - 1];
      var last := workflows[|workflows| - 1];
      assert forall i :: 0 <= i < |init| ==> init[i] == workflows[i];
      var fetched := usage(last.id);
      if fetched.Err? then Kept(usage, init)
      else Kept(usage, init)[last.name := MinutesOf(fetched.value)]
  }

  /** The last fetched workflow of each name decides its minutes. */
  lemma {:induction false} KeptLastWins(usage: int -> Result<BillMap>, workflows: seq<Workflow>, i: nat)
    requires i < |workflows| && Fetched(usage, workflows[i])
    requires forall j :: i < j < |workflows| && Fetched(usage, workflows[j]) ==> workflows[j].name != workflows[i].name
    ensures Kept(usage, workflows)[workflows[i].name] == MinutesOf(usage(workflows[i].id).value)
    decreases |workflows|
  {
    var n := |workflows| - 1;
    var init, last := workflows[..n], workflows[n];
    var name := workflows[i].name;
    if i < n {
      assert init[i] == workflows[i];
      assert forall j :: i < j < |init| && Fetched(usage, init[j]) ==> init[j].name != name by {
        assert forall j :: i < j < |init| ==> init[j] == workflows[j];
      }
      KeptLastWins(usage, init, i);
      if usage(last.id).Ok? {
        assert last.name != name;
        assert Kept(usage, workflows) == Kept(usage, init)[last.name := MinutesOf(usage(last.id).value)];
      } else {
        assert Kept(usage, workflows) == Kept(usage, init);
      }
    } else {
      assert Kept(usage, workflows) == Kept(usage, init)[name := MinutesOf(usage(last.id).value)];
    }
  }

  /** Fetches each workflow's bill map in turn and records its minutes
      under its name, passing over a workflow whose fetch fails. */
  method GenerateWorkflowBillableTime(usage: int -> Result<BillMap>, workflows: seq<Workflow>)
    returns (wbt: WorkflowBillableTime)
    ensures wbt == Kept(usage, workflows)
  {
    wbt := map[];
    var i := 0;
    while i < |workflows|
      invariant 0 <= i <= |workflows|
      invariant wbt == Kept(usage, workflows[..i])
    {
      var workflow := workflows[i];
      assert workflows[..i + 1][..i] == workflows[..i];
      var billMap := usage(workflow.id);
      i := i + 1;
      if billMap.Err? {
        continue;
      }
      wbt := wbt[workflow.name := MinutesOf(billMap.value)];
    }
    assert workflows[..i] == workflows;
  }

  /** The package's test workflow: 60000 ms on Ubuntu and 600000 ms on
      Windows is 1 and 10 minutes, 0 on macOS; when its fetch fails it is
      left out and the result is empty, not an error. */
  lemma KeptExample(usage: int -> Result<BillMap>)
    ensures usage(123) == Ok(map["UBUNTU" := 60000, "WINDOWS" := 600000]) ==>
      Kept(usage, [Workflow(123, "workflow1")]) == map["workflow1" := EnvBillableTime(1, 10, 0)]
    ensures usage(123).Err? ==> Kept(usage, [Workflow(123, "workflow1")]) == map[]
  {
    var ws := [Workflow(123, "workflow1")];
    assert ws[..0] == [];
    assert ws[0].id == 123;
  }

  /** One printed line, `name, u, w, m`, and its newline. */
  function PrintLine(name: string, e: EnvBillableTime): (line: string)
    ensures line == LineText(name, e) + "\n"
    ensures line[..|name| + 2] == name + ", "
  {
    name + ", " + FormatDecimal(e.ubuntu) + ", " + FormatDecimal(e.windows) + ", " + FormatDecimal(e.macos) + "\n"
  }

  /** The printed lines for the given names, in that order. */
  function PrintLines(wbt: WorkflowBillableTime, names: seq<string>): (lines: seq<string>)
    requires forall k :: 0 <= k < |names| ==> names[k] in wbt
    ensures |lines| == |names|
    ensures forall k :: 0 <= k < |names| ==> lines[k] == PrintLine(names[k], wbt[names[k]])
  {
    seq(|names|, k requires 0 <= k < |names| => PrintLine(names[k], wbt[names[k]]))
  }

  /** What the listing prints: a line per workflow in ascending name
      order. */
  ghost function PrintedText(wbt: WorkflowBillableTime): string
  {
    Concat(PrintLines(wbt, SortedKeys(wbt.Keys)))
  }

  /** Collects and sorts the names, then prints a line for each; returns
      the printed text. */
  method PrintWorkflowBillableTime(wbt: WorkflowBillableTime) returns (output: string)
    ensures output == PrintedText(wbt)
  {
    var workflowNames := SortKeys(wbt.Keys);
    output := PrintAll(wbt, workflowNames);
  }

  /** Prints the line of each of `names`, in order. */
  method PrintAll(wbt: WorkflowBillableTime, names: seq<string>) returns (output: string)
    requires forall k :: 0 <= k < |names| ==> names[k] in wbt
    ensures output == Concat(PrintLines(wbt, names))
  {
    output := "";
    var i := 0;
    assert names[..0] == [];
    while i < |names|
      invariant 0 <= i <= |names|
      invariant output == Concat(PrintLines(wbt, names[..i]))
    {
      var line := PrintLine(names[i], wbt[names[i]]);
      assert PrintLines(wbt, names[..i + 1]) == PrintLines(wbt, names[..i]) + [line];
      ConcatSnoc(PrintLines(wbt, names[..i]), line);
      output := output + line;
      i := i + 1;
    }
    assert names[..|names|] == names;
  }

  /** The line the package's test workflow prints. */
  lemma PrintLineExample()
    ensures PrintLine("workflow1", EnvBillableTime(1, 10, 0)) == "workflow1, 1, 10, 0\n"
  {
    assert FormatDecimal(0) == "0" && FormatDecimal(1) == "1" && FormatDecimal(10) == "10";
  }

  /** A single workflow prints as its one line. */
  lemma PrintedSingle(name: string, e: EnvBillableTime)
    ensures PrintedText(map[name := e]) == PrintLine(name, e)
  {
    var wbt := map[name := e];
    assert wbt.Keys == {name};
    SortedKeysUnique([name], {name});
    var lines := PrintLines(wbt, [name]);
    assert lines == [PrintLine(name, e)];
    assert Concat(lines) == PrintLine(name, e) + Concat([]);
  }

  /** The package's single test workflow prints as one line. */
  lemma PrintedTextExample()
    ensures PrintedText(map["workflow1" := EnvBillableTime(1, 10, 0)]) == "workflow1, 1, 10, 0\n"
  {
    PrintedSingle("workflow1", EnvBillableTime(1, 10, 0));
    PrintLineExample();
  }

  /** The printed line without its newline. */
  function LineText(name: string, e: EnvBillableTime): string
  {
    name + ", " + FormatDecimal(e.ubuntu) + ", " + FormatDecimal(e.windows) + ", " + FormatDecimal(e.macos)
  }

  /** The printed lines without their newlines, for `names`. */
  function LineTexts(wbt: WorkflowBillableTime, names: seq<string>): (texts: seq<string>)
    requires forall k :: 0 <= k < |names| ==> names[k] in wbt
    ensures |texts| == |names|
    ensures forall k :: 0 <= k < |names| ==> texts[k] == LineText(names[k], wbt[names[k]])
  {
    seq(|names|, k requires 0 <= k < |names| => LineText(names[k], wbt[names[k]]))
  }

  /** When no name holds a newline, the printed text is one line per
      workflow, in strictly ascending name order, each naming its workflow
      first, and nothing after the last newline. */
  lemma PrintedLinesSplit(wbt: WorkflowBillableTime)
    requires forall name :: name in wbt ==> '\n' !in name
    ensures StrictlySorted(SortedKeys(wbt.Keys)) && |SortedKeys(wbt.Keys)| == |wbt|
    ensures Split(PrintedText(wbt), '\n') == LineTexts(wbt, SortedKeys(wbt.Keys)) + [""]
  {
    LinesSplit(wbt, SortedKeys(wbt.Keys));
  }

  lemma LinesSplit(wbt: WorkflowBillableTime, names: seq<string>)
    requires forall k :: 0 <= k < |names| ==> names[k] in wbt && '\n' !in names[k]
    ensures Split(Concat(PrintLines(wbt, names)), '\n') == LineTexts(wbt, names) + [""]
  {
    var texts := LineTexts(wbt, names);
    forall k | 0 <= k < |names|
      ensures PrintLines(wbt, names)[k] == Terminated(texts)[k] && '\n' !in texts[k]
    {
      var e := wbt[names[k]];
      assert AllDigits(FormatDecimal(e.ubuntu)) && AllDigits(FormatDecimal(e.windows)) && AllDigits(FormatDecimal(e.macos));
      assert "\n" == [] + "\n";
    }
    assert PrintLines(wbt, names) == Terminated(texts);
    SplitLines(texts, "");
    assert Concat(Terminated(texts)) + "" == Concat(Terminated(texts));
  }
}
