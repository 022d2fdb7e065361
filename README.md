# databricks-cli in Dafny

A model of the command logic of `databricks-cli`, a console client for a
Databricks workspace. The client library returns clusters, jobs, SQL
queries and SQL dashboards. On those records the commands:

- resolve a cluster or a job from part of its id or name;
- start or stop a cluster, optionally waiting for it to settle;
- filter query and dashboard listings by tags and by name;
- back the listed items up to files named after them;
- list clusters in a fixed order;
- render state colours, the Tags column of the query listing and the Name cell of the dashboard listing.

Modules:

- `Wrappers`: `Option`, which stands for the source's nullable references.
- `Databricks` (entities.dfy): the records the client hands to the commands.
- `Text`: the .NET string operations the commands use:
  - ASCII case folding, `Contains`, `Split`, `string.Join`, `Trim`;
  - decimal rendering of integers, with its parser.
- `Seqs`:
  - LINQ `Where` as `Filter`;
  - LINQ `OrderBy`/`ThenBy` as a stable insertion sort `SortBy` over a total preorder;
  - the ordinal string order.
- `Ansi`: `Sparkup`, the zero/one/many lookup (`FindCluster`, `FindJob`), the start and stop pollers, and the tag and name filters (`ListQueries`, `ListDashboards`).
- `Compute`: the cluster listing order, the decision of `StopClusterCommand` and the guard of `StartClusterCommand`.
- `Backup`: what both backup commands share:
  - file-name sanitisation;
  - the `Q-`/`D-` backup file names;
  - the progress task, a class whose `maxValue` and `value` the commands assign.
- `SqlQueries`: the Tags column, `BackupQueriesCommand` and `DeleteQueryCommand`, which selects and reports candidates but deletes nothing. The backup's loop runs inside a callback passed to the progress display. It is modelled as a method of its own, `WriteQueryBackups`.
- `Dashboards`: the Name cell, built by successive appends, and `BackupDashboardCommand`, whose loop is `WriteDashboardBackups`.

What the program gets from outside is passed in as parameters:

- Client calls become parameters. A query or dashboard listing is an `Option<seq<...>>`, where `None` is a listing the client did not deliver, because the commands test those for `null`. The cluster and job listings are plain sequences, because the source never tests `LsClusters()` or `LsJobs()` for `null`.
- Polling a cluster's state becomes the finite sequence of states it is observed in.
- The console library's markup escaping, `Environment.NewLine` and the two emoji become the fields of a `Presentation` value, and are not interpreted.
- `Path.GetInvalidFileNameChars()` becomes a set of characters that never holds `_`.

`StopClusterCommand` repeats the filter of `FindCluster` inline rather than calling it. The model computes its decision from the filter directly, which keeps it independent of `FindCluster`. A lemma proves the two resolve alike.

## Model

The definitions the lemmas below speak about model these lines:

- `Ansi.TagTokens`: src/Ansi.cs:170.
- `Ansi.PassesTagFilter`: src/Ansi.cs:168-173.
- `Ansi.Selected`: src/Ansi.cs:168-177.
- `Backup.BackupFileName`: src/SqlQueries.cs:93 and src/Dashboards.cs:73.
- `Dashboards.TagLine`: src/Dashboards.cs:39.
- `Compute.ClusterLe`: src/Compute.cs:30-38.
- `SqlQueries.ReportHeading`: src/SqlQueries.cs:137.
- `SqlQueries.ReportLine`: src/SqlQueries.cs:140.

| member | source | states |
|---|---|---|
| Ansi.Sparkup | src/Ansi.cs:21-40 | `null` gives `""`. A state in the colour table (RUNNING and SUCCESS green, FAILED red, CANCELED, TERMINATED and None grey) is escaped and wrapped in its colour. Any other state is only escaped. |
| Ansi.SparkupLifecycle | src/Ansi.cs:26-39 | RUNNING renders green, TERMINATED renders grey, PENDING renders unwrapped. |
| Ansi.Resolve | src/Ansi.cs:45-64 | The shared lookup rule. It gives `NotFound` iff no candidate matches. It gives `Found` iff exactly one position matches, and then holds that candidate. It gives `Ambiguous` iff two positions match, and then holds the number of matches. |
| Ansi.FindCluster | src/Ansi.cs:42-65 | A cluster is found iff exactly one cluster's id or name contains the text, ignoring case, and then it is that cluster. No match, or two or more matches, give no cluster. |
| Ansi.FindJob | src/Ansi.cs:124-147 | The same zero/one/many rule over the decimal job id or the name. |
| Ansi.EmptySubstringMatchesAll | src/Ansi.cs:45-60 | An empty search text matches every cluster. So it finds a cluster iff the list has exactly one, and is ambiguous for two or more. |
| Ansi.ResolveExampleAmbiguous | src/Ansi.cs:51-59 | With clusters `abc1`/prod-cluster and `abc2`/dev-cluster, "abc" is ambiguous with 2 matches. |
| Ansi.ResolveExampleFound | src/Ansi.cs:62-64 | On the same clusters, "prod" finds the first one. |
| Ansi.ResolveExampleNotFound | src/Ansi.cs:51-54 | On the same clusters, "xyz" finds none. |
| Ansi.StartCluster | src/Ansi.cs:67-95 | A start request is issued iff the state is neither RUNNING nor PENDING. Without `wait` nothing is polled. With `wait`, every poll before the last saw neither RUNNING nor TERMINATED. The wait ends on RUNNING (success), on TERMINATED (failure), or by running out of observations that were all non-terminal. |
| Ansi.StopCluster | src/Ansi.cs:97-122 | A terminate request is issued iff the state is not TERMINATED. With `wait`, polling ends only on the first TERMINATED. There is no failure outcome. |
| Ansi.TrimmedTokensMembers | src/Ansi.cs:170 | `RemoveEmptyEntries \| TrimEntries`: the tokens are exactly the non-empty trimmed pieces. |
| Ansi.TrimmedTokensShape | src/Ansi.cs:170 | Every token is non-empty, holds no separator, and has no whitespace at either end. |
| Ansi.TagTokensSpec | src/Ansi.cs:170 | The tag tokens are exactly the non-empty trimmed comma-separated pieces. None of them holds a comma or edge whitespace. |
| Ansi.TagTokensExample | src/Ansi.cs:170 | "team-x, urgent" gives the tokens "team-x" and "urgent". |
| Ansi.TagFilterExample | src/Ansi.cs:172 | Tags Team-X, Urgent, Q3 pass the filter "team-x, urgent". Tags Team-X, Q3 fail it. |
| Ansi.SeparatorsOnlyTagFilter | src/Ansi.cs:168-173 | "," yields no tokens. It still drops items whose tags are `null`, and keeps an item with an empty tag array. |
| Ansi.ListQueries | src/Ansi.cs:149-180 | A missing listing gives `[]`. Otherwise the result is the listing filtered by the tag filter and the name filter together, which is an order-preserving subsequence of it. When neither filter is set the listing comes back whole. |
| Ansi.ListDashboards | src/Ansi.cs:182-213 | The same pipeline over dashboards. |
| Ansi.SelectedMembers | src/Ansi.cs:168-177 | A query is kept iff it is in the listing, passes the tag filter and passes the name filter. |
| Ansi.SelectedDashboardMembers | src/Ansi.cs:198-212 | A dashboard is kept iff it is in the listing, passes the tag filter and passes the name filter. |
| Ansi.DashboardSelectionIdempotent | src/Ansi.cs:198-212 | Filtering an already filtered dashboard listing again changes nothing. |
| Ansi.SelectionIdempotent | src/Ansi.cs:171-177 | Filtering an already filtered listing again changes nothing. |
| Compute.SourceRank | src/Compute.cs:31-36 | UI ranks 0 and API ranks 1. Every other source ranks 2. |
| Compute.ClusterLeTotalPreorder | src/Compute.cs:30-38 | The combined key order is total and transitive. |
| Compute.ClusterTiedSameKeys | src/Compute.cs:30-38 | Two clusters compare equal iff their source rank, state and lower-cased name all agree. |
| Compute.OrderClusters | src/Compute.cs:30-39 | The result is a permutation of the clusters. It is ordered by source rank, then by state within a rank, then by lower-cased name within a rank and state. |
| Compute.OrderClustersSources | src/Compute.cs:31-36 | No cluster precedes a UI cluster unless it is also UI. No UI or API cluster follows one of another source. |
| Compute.OrderClustersStable | src/Compute.cs:30-39 | Clusters that agree on every key keep their input order. |
| Compute.StopClusterCommand | src/Compute.cs:77-106 | The exit code is 1 iff no cluster matches, 2 iff two or more do, and 0 iff exactly one does. A terminate request is issued iff there is exactly one match and it is running, and it targets that cluster's id. |
| Compute.StopAgreesWithFindCluster | src/Compute.cs:80-97 | Exit 0, 1 and 2 correspond to `FindCluster`'s found, none and ambiguous. The cluster terminated is the one `FindCluster` finds. |
| Compute.StartClusterCommand | src/Compute.cs:66-72 | The start logic runs iff `FindCluster` found a unique cluster, and runs on that cluster. Otherwise nothing is requested or polled. Without `wait` nothing is polled. The wait ends at the first RUNNING or TERMINATED, or uses up every observation. |
| Backup.SafeName | src/SqlQueries.cs:91 | The sanitised name has the same length as the name. |
| Backup.SafeNameSpec | src/SqlQueries.cs:91 | Each forbidden character becomes `_` and every other character is kept. No forbidden character remains. |
| Backup.SafeNameIdempotent | src/SqlQueries.cs:91 | Sanitising twice equals sanitising once. |
| Backup.SafeNameOfValid | src/Dashboards.cs:71 | A name without forbidden characters is left unchanged. |
| Backup.BackupFileNameParts | src/SqlQueries.cs:93 | The file name reads back as the prefix, then the sanitised name, then `.json`, and its length adds up. |
| Backup.BackupFileNameValid | src/Dashboards.cs:73 | When the prefix and `.json` are both allowed, the whole file name holds no forbidden character. |
| Backup.SanitisedNamesCollide | src/SqlQueries.cs:91-95 | Two different names, one holding a forbidden character where the other holds `_`, get the same backup file. |
| Backup.ProgressTask.constructor | src/SqlQueries.cs:85 | A new task starts at value 0 with the given maximum. |
| SqlQueries.TagsColumnAsWritten | src/SqlQueries.cs:59 | As written, an empty tag array gives `""`. A `null` tag array throws: the result is `None` iff the tags are `null`. |
| SqlQueries.TagsColumn | src/SqlQueries.cs:59 | Corrected: `null` and empty tag arrays give `""`. |
| SqlQueries.TagsColumnAgrees | src/SqlQueries.cs:59 | Wherever the source does not throw, the corrected cell is the cell the source shows. |
| SqlQueries.TagsColumnStoredOrder | src/SqlQueries.cs:59 | For comma-free tags, the cell is the escape of a text that splits at its commas back into the stored tags, in stored order. |
| SqlQueries.WriteQueryBackups | src/SqlQueries.cs:83-99 | One write per query in listing order, to `Q-` plus the sanitised name plus `.json`, holding that query's id. A new progress task gets the number of queries as its maximum. Its value starts at 0, steps by one per query (loop invariant) and ends at that number. |
| SqlQueries.BackupQueriesCommand | src/SqlQueries.cs:78-100 | The queries backed up are exactly those `ListQueries` selects, with the writes and the final progress of `WriteQueryBackups`. |
| SqlQueries.DeleteCandidates | src/SqlQueries.cs:124-129 | Empty when the search text is `null` or empty. Otherwise a query is a candidate iff it is in the listing and its id or name contains the text, ignoring case. |
| SqlQueries.DeleteCandidatesInOrder | src/SqlQueries.cs:124-129 | The candidates are an order-preserving subsequence of the listing. |
| SqlQueries.DeleteQueryCommand | src/SqlQueries.cs:105-144 | A missing listing ends the command with no output. "Nothing to delete" iff no query matches, which always holds for an empty search text. Otherwise the non-empty candidates are reported under a heading, one line each. No path issues a delete request. |
| SqlQueries.DeleteReport | src/SqlQueries.cs:137-141 | One heading with the count, then one line `id: escaped name` per candidate, in order. |
| SqlQueries.DeleteReportCount | src/SqlQueries.cs:137 | The heading is `Queries to delete (`, digits, `):`, and the digits parse back to the number of candidates. |
| Dashboards.SortedTags | src/Dashboards.cs:39 | `OrderBy(t => t)` permutes the tags into ascending order. |
| Dashboards.SortedTagsIgnoreStoredOrder | src/Dashboards.cs:39 | Tags that are permutations of each other sort to the same sequence. |
| Dashboards.TagLineIgnoresStoredOrder | src/Dashboards.cs:39 | The tag line does not depend on the order the tags are stored in. |
| Dashboards.TagLinePieces | src/Dashboards.cs:39 | The tag line joins with ", " one `[grey]escaped[/]` piece per tag. The pieces are in ascending order and hold exactly the stored tags. |
| Dashboards.DisplayName | src/Dashboards.cs:32-44 | The successive appends build the star if a favourite, then the escaped name, then the tag line if tags are present, then the pencil if a draft. |
| Dashboards.DisplayNameMarkers | src/Dashboards.cs:33-35 | A favourite begins with the star. A non-favourite begins with the escaped name. A draft ends with the pencil. |
| Dashboards.DisplayNameLayout | src/Dashboards.cs:32-44 | The cell splits into those four parts at the positions their lengths give. |
| Dashboards.DisplayNameTags | src/Dashboards.cs:37-41 | Without a tag array there is no tag line. With one, the newline, three spaces and the sorted tag line follow the escaped name. |
| Dashboards.WriteDashboardBackups | src/Dashboards.cs:63-79 | As for queries, one write per dashboard to `D-` plus the sanitised name plus `.json`, with the progress task stepping from 0 to the number of dashboards. |
| Dashboards.BackupDashboardCommand | src/Dashboards.cs:58-80 | The dashboards backed up are exactly those `ListDashboards` selects. |
| Seqs.Filter | src/Ansi.cs:46-49 | `Where`: no longer than its input. It keeps exactly the elements that satisfy the predicate. |
| Seqs.FilterIsSubsequence | src/Ansi.cs:171-177 | `Where` keeps input order: its result is a subsequence of the input. |
| Seqs.FilterCount | src/Ansi.cs:51-60 | A filtered count of 0 means no position matches. A count of 1 means exactly one does, and that one is the element. A count of two or more means two distinct positions match. |
| Seqs.TwoStageFilter | src/Ansi.cs:171-177 | Two `Where`s in a row equal one `Where` by the conjunction. |
| Seqs.SortBySorted | src/Compute.cs:30-39 | The stable sort orders its output under any total preorder. |
| Seqs.SortByStable | src/Compute.cs:30-39 | Elements tied under the order keep their input order, as LINQ's `OrderBy` guarantees. |
| Seqs.SortedUnique | src/Dashboards.cs:39 | Under an antisymmetric order, two sorted permutations of the same multiset are equal. |
| Seqs.StringLeTotalPreorder | src/Compute.cs:37 | The ordinal string order is total and transitive. |
| Text.ContainsAt | src/Ansi.cs:47-48 | `Contains` holds iff the text occurs at some position. |
| Text.JoinSplit | src/SqlQueries.cs:59 | Joining the pieces of a split with the separator gives the string back. |
| Text.SplitJoin | src/SqlQueries.cs:59 | Splitting a join gives the parts back when no part holds the separator. |
| Text.TrimSlice | src/Ansi.cs:170 | `Trim` removes only whitespace, from both ends, and leaves no whitespace at either end. |
| Text.DecimalRoundTrip | src/Ansi.cs:129 | `Id.ToString()` is a well-formed decimal that parses back to the id. |
| Text.DecimalStringInjective | src/Ansi.cs:129 | Different job ids have different decimal strings. |

## Left out

- Client calls are not modelled. Their results are parameters: the listings, and the states observed while polling. They are `LsClusters`, `LsJobs`, `LsSqlQueries`, `LsSqlDashboards`, `LoadCluster`, `StartCluster`, `TerminateCluster`, `GetSqlQueryRaw` and `GetSqlDashboardRaw`. A start or terminate request is a boolean result.
- Ansi.StartCluster: the real loop polls once a second, with no bound on time or count, until it sees RUNNING or TERMINATED. The model runs over a finite sequence of observed states instead, and `Exhausted` is the outcome when it runs out. `Task.Delay` and async execution are not modelled.
- Ansi.StopCluster: the same finite-trace abstraction as the start loop.
- Ansi.FindCluster: the source returns `null` both for no match and for several matches. The model keeps the two apart, because the console line differs.
- Console output is not modelled: the "Looking for ..." markup, the found/none/matches lines, the `.STATE` progress dots and the table rendering. The one exception is the delete report's lines.
- The `ListClustersCommand` table and its JSON output are not modelled. Only the order is modelled.
- The other columns of the dashboard table (grey id, owner e-mail) are not modelled, nor the JSON output.
- The download progress bars of `ListQueries`, `ListDashboards` and `DeleteQueryCommand` are not modelled, because they are driven by the client's callback.
- Case folding is not .NET's invariant-culture case folding. `InvariantCultureIgnoreCase` comparison is modelled as equality after ASCII lower-casing, and `Name.ToLower()` in the cluster order is the same fold.
- `char.IsWhiteSpace`, used by `TrimEntries`, is modelled as ASCII whitespace plus NEL and NO-BREAK SPACE. The other Unicode space separators are not modelled.
- The default culture-sensitive comparer is not modelled. `ThenBy(c => c.State)`, `ThenBy(c => c.Name.ToLower())` and the tag `OrderBy(t => t)` use the ordinal string order instead.
- Markup escaping, `Environment.NewLine` and the emoji are not modelled. They are uninterpreted.
- Dashboards.DisplayNameMarkers: "begins with the star iff favourite" is stated one way only. A non-favourite is stated to begin with the escaped name. The converse cannot hold for arbitrary names, because an escaped name may itself begin with the star's characters.
- Backup files are modelled as a list of (file name, id) writes. Not modelled:
  - the JSON content fetched by id;
  - `Path.Combine` with the current directory;
  - the file system.
  A failed write raises an exception that ends the loop; that path is not modelled.
- Backup.ProgressTask: Spectre's task holds `double` values and has a description and timing. Only the two numbers the commands set are kept, as integers.
- `ClusterInfo.IsRunning` is computed inside the client library and is a plain field here.
- The following are not part of this model:
  - `ReadyCommand`, which handles the profile, client construction and `Environment.Exit`;
  - the settings classes (`ListSettings`, `ClusterSettings`, `TakeoverSettings`, `GetSettings`, `DeleteSettings`), which only hold arguments;
  - `GetQueryCommand`, which prints the raw text it is given;
  - `Ansi.NewTable`.

## Findings

| source | as written | input that shows it | evidently intended | confidence | as-written member | corrected member |
|---|---|---|---|---|---|---|
| src/SqlQueries.cs:59 | `q.Tags?.Length == 0 ? string.Empty : string.Join(",", q.Tags)`: a `null` tag array fails the length test, so it is passed to `string.Join`, which throws `ArgumentNullException` | a listing holding a query whose `Tags` is `null`, listed without a tag filter (the tag filter drops such queries, the name filter keeps them) | `null` tags show as an empty cell, as empty tag arrays do | not executed; medium, depends on the client leaving `Tags` null when a query has none | SqlQueries.TagsColumnAsWritten | SqlQueries.TagsColumn |
