# actbills, modelled in Dafny

actbills is a GitHub Action and command-line tool. It lists a repository's
GitHub Actions workflows and fetches each workflow's billable milliseconds
per runner operating system (Ubuntu, Windows, macOS). It turns those into
whole minutes and reports them.

The repository holds two versions of this logic:

- The newer `internal/bills` package. It fails as soon as one bill cannot be
  fetched. It writes a markdown report: a title, a table with one row per
  workflow in name order, a bold row of totals, and a fixed note.
- The older `internal/gha` package. It leaves out workflows whose bill cannot
  be fetched. It can print a plain-text listing, or write a markdown table
  without a totals row.

Each package is modelled against its own code.

Modules:

- `Wrappers`: the `Result`/`Option` types and the error messages.
- `Strings`: the parts of Go's standard library the code uses.
  - `strings.Split` with a one-character separator.
  - The `%d` verb for naturals, with its parser.
  - Concatenation of many pieces.
- `Order`: Go's byte-wise `sort.Strings` order and an in-place sort on an
  array. It also shows that sorting a map's keys always gives the same
  sequence, that key set's unique strictly ascending order (`SortedKeys`).
- `Markdown`: the row format and a reader for tables in that format. The
  reader is what the table's read-back lemmas are stated against.
- `GitHubApi`: the workflow and page records, the bill map type, and the
  choice of repository name. `WholeMinutes` says what count of minutes a
  bill holds for a runner. The module also defines the meaning of a paginated
  listing (`Listing`). The listing is written against an abstract page
  function, because the API client is not modelled.
- `BillsGha` and `Bills`: internal/bills/gha.go and internal/bills/bills.go.
- `Gha` and `GhaMarkdown`: internal/gha/gha.go and internal/gha/markdown.go.

Inputs from outside are passed in as parameters:

- Environment values are plain strings, with `""` for an unset variable, as
  `os.Getenv` returns.
  - GITHUB_REPOSITORY is `envRepository`.
  - GITHUB_STEP_SUMMARY is `stepSummary`.
- Each API call is a function parameter:
  - `listPage: nat -> Result<Page>` answers a listing request for a page
    number.
  - `usage: int -> Result<BillMap>` answers a bill request for a workflow ID.
- The text that `printWorkflowBillableTime` prints is returned as a string.

Where the code and its own tests disagree, the model follows the code:

- The test at internal/gha/gha_test.go:254-269 expects an error from
  `generateWorkflowBillableTime`. That function has no error result, and the
  model omits the failed workflow, as the code does (`Gha.KeptExample`).
- The markdown test of the `gha` package, internal/gha/markdown_test.go:21,
  expects a different title.
- The `gha` package's report test, internal/gha/gha_test.go:402-415, expects
  a totals row. `generateMarkdownText` writes no totals row, and the model
  has none (`GhaMarkdown.MarkdownTextExample`).

## Model

| member | source | states |
|---|---|---|
| BillsGha.ExtractOwnerAndRepo | internal/bills/gha.go:54-71 | Picks the argument when it is non-empty, otherwise the environment value. The result is `MissingRepository` exactly when both are empty. It is Ok exactly when the chosen name has one slash, and `InvalidFormat(name)` otherwise. On Ok, neither part holds a slash and `owner + "/" + repo` is the chosen name. |
| BillsGha.ExtractJoined | internal/bills/gha.go:55-71 | Any owner and name without a slash are read back from "owner/name", whatever the environment holds. |
| BillsGha.ExtractGiven | internal/bills/gha_test.go:41-54 | "owner/repo", given directly or through the environment, gives ("owner", "repo"). |
| BillsGha.ExtractRejected | internal/bills/gha_test.go:55-68 | Nothing given is `MissingRepository`; "foobar" is `InvalidFormat("foobar")`, whose message is "invalid repository name format: foobar" as internal/bills/gha.go:68 formats it. |
| BillsGha.ExtractEmptyName | internal/bills/gha.go:66-71 | An empty segment is not rejected: "a/" gives ("a", ""). |
| BillsGha.GetMinutesForEnv | internal/bills/gha.go:75-82 | The result satisfies `WholeMinutes`: 0 when the runner has no bill, and otherwise minutes `m` with `m*60000 <= ms < (m+1)*60000`, so the division truncates. |
| BillsGha.MinutesUnique | internal/bills/gha.go:75-82 | A count of minutes satisfies `WholeMinutes` exactly when it is `GetMinutesForEnv`'s result. |
| BillsGha.MinutesExamples | internal/bills/gha_test.go:110-119 | 7200000 ms on Ubuntu is 120 minutes; a map without MACOS gives 0. |
| BillsGha.FetchWorkflows | internal/bills/gha.go:22-40 | The paging loop returns exactly `Listing`. |
| BillsGha.ListingExamples | internal/bills/gha_test.go:161-203 | Pages of [a, b] then [c] give [a, b, c] in order. An error on the second page gives that error alone, and the first page's workflows are dropped. |
| GitHubApi.ListingErrorDiscards | internal/bills/gha.go:26-31 | The listing is an error exactly when some request before the last page fails. |
| GitHubApi.ListingBoundIrrelevant | internal/bills/gha.go:26-37 | The listing does not depend on the request bound used to define it. |
| GitHubApi.PrependPrepend | internal/bills/gha.go:32 | Appending two batches one after the other is appending their concatenation. |
| Bills.CalculateTotal | internal/bills/bills.go:45-53 | The loop, over the map in any order, returns `Sum(w)`, the element-wise sum of all entries. |
| Bills.SumRemove | internal/bills/bills.go:46-51 | The sum is any entry plus the sum of the rest, so the order of iteration does not change the total. |
| Bills.SumInsert | internal/bills/bills.go:45-53 | The empty map totals (0,0,0). Adding a new entry adds its minutes to the total. |
| Bills.SumTwo | internal/bills/bills.go:45-53 | Two entries with different names total their element-wise sum. |
| Bills.SortWorkflowNames | internal/bills/bills.go:72-79 | Every key appears once, strictly ascending, as many names as keys: the key set's sorted order. |
| Order.SortKeys | internal/gha/markdown.go:37-41 | Collecting a map's keys in any order and sorting them gives `SortedKeys` of the key set. |
| Order.SortStrings | internal/bills/bills.go:77 | Sorting in place leaves the array with no element less than its predecessor, and a permutation of what it held. |
| Order.SortedKeys | internal/bills/bills.go:72-79 | The sorted key order is strictly ascending, has exactly the keys as elements, and has one element per key. |
| Order.SortedKeysUnique | internal/bills/bills.go:62-66 | Every strictly ascending sequence of exactly the keys is `SortedKeys`, so output depends only on the map's contents. |
| Order.LessTotal | internal/bills/bills.go:77 | Go's string order ranks any two different strings one way or the other. |
| Order.LessTransitive | internal/bills/bills.go:77 | Go's string order is transitive. |
| Strings.FormatDecimal | internal/bills/bills.go:83 | `%d` of a natural is a non-empty run of digits, with a leading zero only for 0. |
| Strings.ParseFormatDecimal | internal/bills/bills.go:83 | The digits that `%d` prints read back as the number. |
| Strings.Split | internal/bills/gha.go:66 | `strings.Split` gives one more part than there are separators. |
| Strings.JoinSplit | internal/bills/gha.go:66-71 | No part holds the separator, and joining the parts with it gives back the input. |
| Strings.SplitJoin | internal/bills/gha.go:66-71 | Splitting parts joined with a separator they do not hold gives them back. |
| Bills.FormatMarkdownRow | internal/bills/bills.go:82-84 | The title and the three counts, each cell between bars, and a newline. It begins with a bar, a space and the title, and ends with a space, a bar and the newline. `FormatMarkdownRowReadsBack` reads it back. |
| Bills.FormatBoldMarkdownRow | internal/bills/bills.go:87-89 | The same row with every cell in `**`. It begins with a bar, a space, `**` and the title, and ends with `** `, a bar and the newline. `FormatBoldMarkdownRowReadsBack` reads it back. |
| Bills.FormatMarkdownRowReadsBack | internal/bills/bills.go:82-84 | The row is the name and the three counts, each cell between bars with one space of padding, and a newline. For a name without a bar or newline, the row is one line that reads back as the name and the three counts. |
| Bills.FormatBoldMarkdownRowReadsBack | internal/bills/bills.go:87-89 | The bold row is the same with every cell in `**`. It is one line that reads back as the title and the counts. |
| Bills.Rows | internal/bills/bills.go:64-66 | One row per given name, in that order, the k-th being `formatMarkdownRow` of the k-th name. |
| Bills.GenerateMarkdownTable | internal/bills/bills.go:57-69 | Returns `TableText(w)`: header, separator, then one row per key in ascending name order. |
| Bills.WriteRows | internal/bills/bills.go:64-66 | Writing each name's row in turn appends the concatenation of those rows. |
| Bills.TableReadsBack | internal/bills/bills.go:57-69 | For names without bars or newlines, the table is exactly three more newline-separated pieces than there are workflows. Reading it back gives every workflow's name and minutes, and nothing else. |
| Bills.RowsTable | internal/bills/bills.go:57-69 | The same read-back for header, separator and the rows of any arrangement of the distinct names. |
| Bills.TableOrderIndependent | internal/bills/bills.go:62-66 | Any strictly ascending arrangement of the keys gives the same table. |
| Bills.GenerateMarkdownReport | internal/bills/bills.go:34-42 | Returns `ReportText(w)`: the title line and a blank line, the table, the bold `Total` row of `Sum(w)`, then a newline, the note and a newline. |
| Bills.TotalRowReadsBack | internal/bills/bills.go:38 | The totals row is one line that reads back as "Total" and the three element-wise sums. |
| Bills.ExampleNames | internal/bills/bills_test.go:77-87 | The test's names sort as Workflow1, Workflow2. |
| Bills.ExampleTotal | internal/bills/bills_test.go:77-87 | The test's minutes total (300, 120, 60). |
| Bills.ExampleRow1 | internal/bills/bills_test.go:92 | Workflow1's row prints as the test expects. |
| Bills.ExampleRow2 | internal/bills/bills_test.go:93 | Workflow2's row prints as the test expects. |
| Bills.ExampleTotalRow | internal/bills/bills_test.go:94 | The totals row prints as the test expects. |
| Bills.ExampleDecimals | internal/bills/bills_test.go:92-94 | `%d` of each count in the test. |
| Bills.ExampleRowsText | internal/bills/bills_test.go:92-93 | The two rows of the test, in order. |
| Bills.ExampleTable | internal/bills/bills_test.go:90-93 | The test's table: header, separator, Workflow1's row, Workflow2's row. |
| Bills.ReportExample | internal/bills/bills_test.go:76-101 | The whole report of the test, piece by piece as the test expects it. |
| Bills.MinutesOf | internal/bills/bills.go:126-130 | Each of the three counts is the `WholeMinutes` of its runner's bill: UBUNTU, WINDOWS and MACOS. |
| Bills.Collected | internal/bills/bills.go:120-131 | When every fetch succeeds, the map's keys are exactly the workflows' names. |
| Bills.CollectedLastWins | internal/bills/bills.go:126-130 | A name's minutes come from the last workflow with that name: its bill's Ubuntu, Windows and macOS minutes. |
| Bills.GenerateWorkflowBillableTimes | internal/bills/bills.go:117-134 | The result is Ok exactly when every fetch succeeds, and then it is `Collected`. On an error, the fetches before the failing workflow succeeded, and the result is that workflow's error with no map. |
| Bills.CollectedExample | internal/bills/bills_test.go:23-60 | 60000 and 600000 ms give (1, 10, 0). A failed fetch leaves nothing to collect. |
| Gha.GetOwnerAndRepo | internal/gha/gha.go:104-122 | The same precedence, errors and round trip as the `bills` version: the argument, then the environment, then `MissingRepository`. Exactly one slash is required, and the parts joined by "/" are the chosen name. |
| Gha.GetOwnerAndRepoJoined | internal/gha/gha.go:116-121 | Any owner and name without a slash are read back from "owner/name". |
| Gha.GetOwnerAndRepoGiven | internal/gha/gha_test.go:22-35 | "owner/repo", given directly or through the environment, gives ("owner", "repo"). |
| Gha.GetOwnerAndRepoRejected | internal/gha/gha_test.go:36-49 | Nothing given is `MissingRepository`; "foobar" is `InvalidFormat("foobar")`. |
| Gha.GetOwnerAndRepoAgrees | internal/gha/gha.go:104-122 | The two packages read repository names alike. |
| Gha.GetMinutesForEnv | internal/gha/gha.go:125-132 | The result satisfies `WholeMinutes`: 0 when the runner has no bill, otherwise the truncated quotient of the milliseconds by 60000. |
| Gha.GetMinutesForEnvUnique | internal/gha/gha.go:125-132 | A count of minutes satisfies `WholeMinutes` exactly when it is `GetMinutesForEnv`'s result. |
| Gha.GetMinutesForEnvExamples | internal/gha/gha_test.go:110-119 | 7200000 ms is 120 minutes; MACOS missing gives 0. |
| Gha.GetWorkflows | internal/gha/gha.go:52-71 | The paging loop returns exactly `Listing`: every page in order, or the first error alone. |
| Gha.MinutesOf | internal/gha/gha.go:83-87 | Each of the three counts is the `WholeMinutes` of its runner's bill: UBUNTU, WINDOWS and MACOS. |
| Gha.Kept | internal/gha/gha.go:74-91 | A name is a key exactly when some workflow with that name had its bill fetched. Failed fetches are skipped. |
| Gha.KeptLastWins | internal/gha/gha.go:83-87 | A name's minutes come from the last fetched workflow with that name. |
| Gha.GenerateWorkflowBillableTime | internal/gha/gha.go:74-91 | The loop with `continue` returns exactly `Kept`, never an error. |
| Gha.KeptExample | internal/gha/gha_test.go:232-269 | 60000 and 600000 ms give (1, 10, 0). A failed fetch gives the empty map, not an error. |
| Gha.PrintLine | internal/gha/gha.go:146 | The line is `LineText`, the `%s, %d, %d, %d` text that `PrintedLinesSplit` splits the output into, and a newline. It begins with the name and a comma and a space. |
| Gha.PrintLines | internal/gha/gha.go:143-147 | One line per given name, in order, each `"name, u, w, m\n"`. |
| Gha.PrintWorkflowBillableTime | internal/gha/gha.go:135-148 | The printed text is `PrintedText`: the lines for the keys in ascending name order. |
| Gha.PrintAll | internal/gha/gha.go:143-147 | Printing each name's line in turn prints their concatenation. |
| Gha.PrintedLinesSplit | internal/gha/gha.go:135-148 | For names without newlines, the output splits into one line per workflow, strictly ascending by name, each `name, u, w, m`. Nothing follows the last newline. |
| Gha.LineTexts | internal/gha/gha.go:146 | The k-th line text is `name, u, w, m` for the k-th name. |
| Gha.PrintedSingle | internal/gha/gha.go:135-148 | A single workflow prints as its one line. |
| Gha.PrintLineExample | internal/gha/gha.go:146 | (1, 10, 0) for workflow1 prints "workflow1, 1, 10, 0". |
| Gha.PrintedTextExample | internal/gha/gha.go:135-148 | That single workflow's whole output is that one line. |
| GhaMarkdown.TableRow | internal/gha/markdown.go:45 | The row equals the `bills` package's `formatMarkdownRow` of the same counts and name. |
| GhaMarkdown.TableRows | internal/gha/markdown.go:43-46 | One row per given name, in order, each the name and the three counts between bars, with a newline. |
| GhaMarkdown.GenerateMarkdownTable | internal/gha/markdown.go:32-49 | Returns `TableText`: header, separator, then one row per key in ascending name order. |
| GhaMarkdown.AddRows | internal/gha/markdown.go:43-46 | Adding each name's row in turn appends their concatenation. |
| GhaMarkdown.ToBills | internal/gha/gha.go:14-21 | Converts the minutes to the `bills` package's form, keeping the keys and the three counts. |
| GhaMarkdown.TableAgrees | internal/gha/markdown.go:32-49 | The `gha` table equals the `bills` table for the same minutes. |
| GhaMarkdown.RowsAgree | internal/gha/markdown.go:45 | The two packages' rows for the same names are equal. |
| GhaMarkdown.TableReadsBack | internal/gha/markdown.go:32-49 | For names without bars or newlines, the table has three more newline-separated pieces than entries: header, separator, one data row per entry, and an empty remainder. Reading it back gives each entry's name and minutes exactly once. |
| GhaMarkdown.TableOrderIndependent | internal/gha/markdown.go:37-41 | Any strictly ascending arrangement of the keys gives the same table, whatever the insertion order. |
| GhaMarkdown.GenerateMarkdownText | internal/gha/markdown.go:22-28 | Returns `MarkdownText`: the title line and a blank line, the table, then a newline, the note and a newline. |
| GhaMarkdown.MarkdownTextWithoutTotal | internal/gha/markdown.go:22-28 | The text is the `bills` report for the same minutes with its bold `Total` row taken out. |
| GhaMarkdown.ExampleTimeInBills | internal/gha/markdown_test.go:10-20 | The test's minutes are the `bills` test's minutes. |
| GhaMarkdown.MarkdownTextExample | internal/gha/markdown_test.go:10-41 | The test's workflows give both rows in name order and no totals row. The title is the one in the code. |
| GhaMarkdown.GetOutputPath | internal/gha/markdown.go:53-59 | A non-empty GITHUB_STEP_SUMMARY is the path; an empty or unset one gives "/dev/stdout". Either way the path is never empty. |
| GhaMarkdown.GetOutputPathExamples | internal/gha/markdown_test.go:57-81 | "/path/to/out" is kept; unset gives "/dev/stdout". |
| Markdown.ReadTable | internal/bills/bills.go:57-69 | Header, separator and newline-free row lines, each with its newline, split back into those lines. They read back as the map of their rows. |
| Markdown.MapOfLastWins | internal/bills/bills.go:57-69 | The table reader, collecting rows into a map, keeps the last row of each name. It is a step of `Bills.TableReadsBack`. |
| Markdown.ReadRowLine | internal/bills/bills.go:83 | A row line reads back as its name and counts. |
| Markdown.ReadBoldRowLine | internal/bills/bills.go:88 | A bold row line reads back as its title and counts. |
| Strings.SplitLines | internal/gha/gha.go:143-147 | Newline-terminated lines written one after another split back into those lines. |

## Left out

- The GitHub API client is not part of this model, because it is network I/O through a library. That covers `createGitHubClient` and `newGitHubClient`, and the calls to `ListWorkflows` and `GetWorkflowUsageByID` inside `fetchWorkflows`, `getWorkflows`, `fetchWorkflowBillMap` and `getWorkflowBillableTime`. The listing and bill requests are function parameters instead. The token from GITHUB_TOKEN is not modelled.
- `CreateReport` in both packages is not modelled. It only chains the modelled operations, and it calls `appendToFile` and `fmt.Printf`.
- `appendToFile` is not part of this model, because it is file-system I/O.
- cmd/root.go is not part of this model, because it is command-line flag handling and `log.Fatal`.
- Reads of environment variables are not modelled; their values are parameters.
- Writing to standard output is not modelled. `PrintWorkflowBillableTime` returns the text instead.
- The Go error values are not modelled structurally. `Wrappers.Message` gives the texts of the two errors the code creates itself. An API error is carried as `ApiError` with its message.
- Minutes, totals and milliseconds are naturals. The code's int64 overflow when summing totals is not modelled. Nor are negative millisecond counts, for which Go's truncating division and Dafny's differ.
- A runner key that is present with a nil bill pointer is not modelled; go-github's `(*WorkflowBill).GetTotalMS` reads it as 0. A bill map here is a map from runner name to milliseconds, so a present key always has a count. A missing key gives 0 minutes, as in the code.
- The order in which Go ranges over a map is random. `CalculateTotal` and `SortKeys` take the entries in an arbitrary order, and their results are proved not to depend on it.
- `Order.SortStrings`: an insertion sort stands in for `sort.Strings`'s own algorithm. Its contract is the sort's promise: sorted, and a permutation. The sorted sequence of distinct keys is unique, so the result is the same.
- `BillsGha.FetchWorkflows` and `Gha.GetWorkflows` take a ghost `bound`, a number of requests within which the listing reaches its last page. If the page function never reports a last page, the Go loop runs forever, and that case is not modelled.
- Workflow IDs and names in the listing are always present. The code dereferences `*workflow.ID` and `*workflow.Name`, and the nil-pointer panic is not modelled.
- The `gha` package repeats the `bills` package's title, note, header and separator text. The model uses `Bills.Title`, `Bills.Note`, `Bills.TableHeader` and `Bills.TableSeparator` for both.
