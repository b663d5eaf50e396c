/** The parts of the GitHub REST API the report reads: workflows, the
    pages of the workflow listing, and a workflow's billable-time map.
    The client itself is not modelled; a listing request is a function
    from a page number to a page or an error. */
module GitHubApi {
  import opened Wrappers

  /** The "owner/name" of the repository to report on: the argument
      when one is given, else the value of GITHUB_REPOSITORY ("" when that
      is unset). */
  function RepositoryName(repo: string, envRepository: string): string
  {
    if repo != "" then repo else envRepository
  }

  /** A workflow of the repository, as listed by the Actions API. */
  datatype Workflow = Workflow(id: int, name: string)

  /** One page of the workflow listing and the number of the page after
      it; 0 means this was the last page. */
  datatype Page = Page(workflows: seq<Workflow>, nextPage: nat)

  /** A workflow's billable time in milliseconds per runner operating
      system key ("UBUNTU", "WINDOWS", "MACOS"); a bill without a total
      reads as 0 milliseconds. */
  type BillMap = map<string, nat>

  /** `minutes` is the whole number of minutes in the milliseconds billed
      for runner `env`, the remainder dropped; 0 when there is no bill for
      that runner. */
  predicate WholeMinutes(billMap: BillMap, env: string, minutes: nat)
  {
    if env in billMap then minutes * 60000 <= billMap[env] < (minutes + 1) * 60000 else minutes == 0
  }

  /** Listing from `page` on meets, within `n` requests, a page that is
      the last one or a request that fails. */
  predicate ListingEnds(listPage: nat -> Result<Page>, page: nat, n: nat)
    decreases n
  {
    n > 0 &&
    match listPage(page)
    case Err(_) => true
    case Ok(p) => p.nextPage == 0 || ListingEnds(listPage, p.nextPage, n - 1)
  }

  /** The workflows of every page from `page` on, in page order, or the
      error of the first request that fails. */
  function Listing(listPage: nat -> Result<Page>, page: nat, n: nat): Result<seq<Workflow>>
    requires ListingEnds(listPage, page, n)
    decreases n
  {
    match listPage(page)
    case Err(e) => Err(e)
    case Ok(p) =>
      if p.nextPage == 0 then Ok(p.workflows)
      else Prepend(p.workflows, Listing(listPage, p.nextPage, n - 1))
  }

  /** `ws` in front of a successful result; an error stays an error. */
  function Prepend(ws: seq<Workflow>, r: Result<seq<Workflow>>): Result<seq<Workflow>>
  {
    match r
    case Err(e) => Err(e)
    case Ok(rest) => Ok(ws + rest)
  }

  lemma PrependPrepend(a: seq<Workflow>, b: seq<Workflow>, r: Result<seq<Workflow>>)
    ensures Prepend(a, Prepend(b, r)) == Prepend(a + b, r)
  {
    if r.Ok? {
      assert a + (b + r.value) == (a + b) + r.value;
    }
  }

  /** The listing does not depend on how many requests the bound allows,
      as long as it allows enough. */
  lemma {:induction false} ListingBoundIrrelevant(listPage: nat -> Result<Page>, page: nat, n: nat, k: nat)
    requires ListingEnds(listPage, page, n) && ListingEnds(listPage, page, k)
    ensures Listing(listPage, page, n) == Listing(listPage, page, k)
    decreases n
  {
    match listPage(page)
    case Err(_) =>
    case Ok(p) =>
      if p.nextPage != 0 {
        ListingBoundIrrelevant(listPage, p.nextPage, n - 1, k - 1);
      }
  }

  /** A listing is successful exactly when no request on the way fails:
      an error on any page discards the workflows of the pages before. */
  lemma {:induction false} ListingErrorDiscards(listPage: nat -> Result<Page>, page: nat, n: nat)
    requires ListingEnds(listPage, page, n)
    ensures Listing(listPage, page, n).Err? <==> RequestFails(listPage, page, n)
    decreases n
  {
    match listPage(page)
    case Err(_) =>
    case Ok(p) =>
      if p.nextPage != 0 {
        ListingErrorDiscards(listPage, p.nextPage, n - 1);
      }
  }

  /** Some request made while listing from `page` on, within `n`
      requests, fails. */
  predicate RequestFails(listPage: nat -> Result<Page>, page: nat, n: nat)
    decreases n
  {
    n > 0 &&
    match listPage(page)
    case Err(_) => true
    case Ok(p) => p.nextPage != 0 && RequestFails(listPage, p.nextPage, n - 1)
  }
}
