# confexp core in Dafny

This is a model of the logic in confexp's `main.py`, a tool that exports Confluence pages. It covers these parts:

- **`_get`:** the HTTP retry loop. A 401 or 403 exits at once. A 429 is retried without logging. A request exception is logged, then retried. When the budget runs out, the last exception is raised.
- **Listings:** the three paginated loops `list_spaces`, `get_root_pages` and `get_children`.
- **Tree builder:** `build_tree_with_progress`, run sequentially over a FIFO of node records.
- **Picker list:** `flatten_tree_for_choices`, the flattening for the page picker.
- **Export:** `export_pages_html` and `export_pages_md`. They fetch the pages and assemble one combined document.
- **Cache:** `load_tree_cache` and `save_tree_cache`, the tree cache decision and its record.

The model replaces the network with oracles:

- `net(i)` is what the `i`-th request of one `_get` call gets back.
- A listing's server is the sequence of `_get` outcomes of its requests.
- The child listing of a page comes from `cp(id)`.
- During export, the `k`-th future's `_get` sees `nets(k)`.

Files, one module each:

- `options.dfy`: `Option`.
- `text.dfy`: ASCII `lower()`, Python's string order and indentation.
- `sorting.dfy`: a stable sort by key. It is proved to be the only stable sort, so the result does not depend on the algorithm Python uses.
- `pages.dfy`: page ids, `(id, title)` pairs, tree nodes, and sorting by lower-cased title.
- `fetcher.dfy`: `_get`.
- `pagination.dfy`: the three listings.
- `tree_builder.dfy`: the tree builder.
- `picker.dfy`: the flattening.
- `export.dfy`: the two export functions.
- `cache.dfy`: the cache.

Three behaviours of the code are easy to misread:

- **Duplicate pages:** child nodes are not deduplicated. Only the title index is keyed by page id. A child node is created without consulting `visited`, so a page listed under two parents appears under both (`TreeBuilder.SharedChild`).
- **TTL of zero or less:** the cache is not disabled. The code compares `age / 3600 > max(0, ttl)`, so a record whose age is exactly 0 is still used (`Cache.NonPositiveTtl`).
- **Failures during export:** a 401/403 during any page's fetch ends the whole export. It raises `SystemExit`, which `except Exception` inside `fetch` does not catch. `fut.result()` re-raises it (`Export.ExportExits`). Other failures stay with their page.

## Model

| member | source | states |
|---|---|---|
| Fetcher.Classify | main.py:152-168 | One attempt is treated as follows: a 401/403 exits, a 429 is retried, a status from 400 to 599 fails with `HTTPError`, a broken request fails with its exception, and any other status is returned. |
| Fetcher.Get | main.py:144-169 | The loop's outcome, request count, log and sleep exponents are exactly those of the recursive reference `Run`. |
| Fetcher.GetStopsAtFirstDecisive | main.py:151-164 | `_get` stops at the first attempt that is neither retried nor throttled, with exactly that many requests. It returns that response, or exits on a 401/403. |
| Fetcher.GetExhausted | main.py:149-169 | When every attempt is retried, exactly `retry` requests are made. The last recorded exception is raised, or `raise None` when every attempt was a 429. |
| Fetcher.GetLogsPerAttempt | main.py:154-166 | The log has one line per 401/403 or failed attempt, in order; each failed attempt's line carries `try i+1/retry`. A 429 and a success log nothing. |
| Fetcher.GetBounds | main.py:151-168 | At most `retry` requests are made. Every retried attempt `i` sleeps `backoff ** i`. Only a final success or exit does not sleep. |
| Fetcher.ThrottledThenOk | main.py:158-164 | A 429 followed by a 200 gives two requests, one sleep with exponent 0, no log and the response. |
| Fetcher.AllThrottled | main.py:149-169 | When every attempt gets a 429, `retry` requests are made, nothing is logged, and the call ends in `raise None`. |
| Fetcher.UnauthorizedExits | main.py:154-157 | A first 401 exits after one request, with one auth log line. |
| Pagination.Offsets | main.py:175-183 | The `k`-th request of a listing asks for `start = k * 100`. |
| Pagination.AppendSpaces | main.py:179-180 | The inner loop appends one space per result, in order. |
| Pagination.ListSpaces | main.py:171-184 | The listing and the request count equal the reference walk, and the offsets are `0, 100, ...`. |
| Pagination.ListSpacesCollectsAll | main.py:176-184 | `list_spaces` requests pages up to the first one without a `next` link or the first failure. It returns one space per result of those pages, in page order. A missing `key` or `name` becomes `""`. |
| Pagination.WalkCollects | main.py:176-217 | Each listing ends exactly at the first terminal page. It collects all results up to that page, or ends with that page's failure. |
| Pagination.AppendRoots | main.py:197-199 | Only results whose `ancestors` is missing or empty are appended, in order. |
| Pagination.GetRootPages | main.py:187-204 | The listing and the request count equal `RootPages`, and the offsets are `0, 100, ...`. |
| Pagination.RootPagesFiltered | main.py:194-203 | The roots are exactly the results without ancestors, sorted stably by lower-cased title. The listing stops at an empty page or at the first page without `next`. |
| Pagination.YieldChildren | main.py:213-214 | The inner loop yields one child per result, in order. |
| Pagination.GetChildren | main.py:206-217 | The listing and the request count equal the reference walk, and the offsets are `0, 100, ...`. |
| Pagination.GetChildrenCollectsAll | main.py:209-217 | One child per result of every fetched page, in page order. A failing page discards the whole listing. |
| Text.LowerString | main.py:203 | `lower()` keeps the length and folds every ASCII capital. |
| Text.Lower | main.py:203 | A folded character is never a capital, only capitals change, and it is a small letter exactly when the input is a letter. |
| Text.LowerStringIdempotent | main.py:203 | Folding a folded string changes nothing. |
| Sorting.StableSortIsUnique | main.py:203 | Any sequence that is sorted by the key and stable with respect to the input equals `SortBy`. |
| Pages.SortByTitle | main.py:203 | Sorting keeps exactly the same pages (multiset). |
| Pages.SortByTitleOrders | main.py:203 | The result is ordered by lower-cased title, stable, and the only sequence with both properties. |
| TreeBuilder.RootSlots | main.py:226-228 | One node record per root, in root order, each with no children. |
| TreeBuilder.FirstWinsKeys | main.py:243-246 | `id_to_title` has an entry for exactly the ids of the processed nodes. |
| TreeBuilder.FirstWinsFirst | main.py:243-246 | An id's entry is the title of the first processed node with that id. Later nodes never overwrite it. |
| TreeBuilder.AttachChildren | main.py:248-254 | The node's children become new records for its sorted listing, appended to the queue in sorted order. |
| TreeBuilder.Visit | main.py:235-254 | One completed task exits exactly when its listing raised `SystemExit`, with that status. Otherwise the node is marked visited, its title is indexed unless its id was visited, and it receives new child nodes for its sorted listing, appended to the arena and the queue. |
| TreeBuilder.Drain | main.py:232-256 | The loop, started from the root nodes, ends exactly as `Expand` does: with the same arena and, when no task exited, the first-wins index over all nodes in creation order. Otherwise it ends with the status of the first exiting task. |
| TreeBuilder.BuildTree | main.py:219-258 | The builder yields exactly `BuildSpec`. A failed root listing propagates; otherwise the result is the exit of a child listing, or the forest of the root nodes and the index. |
| TreeBuilder.ExpandArena | main.py:232-254 | Wherever the loop ends, every node before it is finished: its children are its sorted listing, and the node exists only as a child of an earlier node or as a root. An exit is the listing of the node it stopped at. |
| TreeBuilder.ConformsUnique | main.py:237-254 | A tree in which every node's children are its sorted listing is the recursive unfolding of its root's listings. The listings determine the tree. |
| TreeBuilder.BuiltForest | main.py:226-258 | A built tree is the root pages unfolded through their sorted listings. Its top level is the sorted roots, and no listing in it ended the process. |
| TreeBuilder.BuiltIndex | main.py:243-246 | The index of a built tree has an entry for exactly the ids in the tree. Each entry is the title of a node of the tree with that id. |
| TreeBuilder.BuildExits | main.py:234-241 | Once the roots are listed, the builder exits exactly when the listing of some page in the unfolded tree raises `SystemExit`, with that listing's status. |
| TreeBuilder.ForestConforms | main.py:226-254 | Once every node is finished, the forest read from the records has the roots in order, and every subtree conforms to the listings. |
| TreeBuilder.ChildrenSorted | main.py:237-254 | A node's children are its listing, sorted stably by lower-cased title, with the same pages. |
| TreeBuilder.FailedListingIsLeaf | main.py:237-241 | A node whose listing raised an `Exception` has no children. |
| TreeBuilder.SharedChild | main.py:248-252 | A page in the listings of two parents appears among the children of both. |
| Picker.FlattenTreeForChoices | main.py:260-268 | The loop with its recursive calls returns `Flatten(tree, prefix)`. |
| Picker.FlattenIsPreOrder | main.py:262-268 | Under the indentation of depth `d`, the items are the nodes in pre-order. Each item is two spaces per level, 📂 if the node has children and 📄 otherwise, a space and the title, with the id as the value. |
| Picker.FlattenTopLevel | main.py:260-268 | The top-level call yields the pre-order with roots unindented, one item per node of the forest. |
| Picker.FolderThenPage | main.py:264-267 | A folder with one page yields `📂 Docs` followed by `  📄 Intro`. |
| Export.FetchPage | main.py:272-281 | `fetch(pid)` is one `_get` with the default budget, then that outcome's title, body and error. |
| Export.CollectResults | main.py:283-290 | The results loop equals `Gather` over all futures. |
| Export.GatherHalts | main.py:284-290 | Collection halts exactly at the first future, in selection order, whose fetch exited. |
| Export.GatherResults | main.py:288-290 | Without an exit, `results` holds exactly the selected ids, each with the outcome of its latest fetch. |
| Export.Assemble | main.py:292-299 | The assembly loop builds the header, one section per selected id in order, and the footer, plus the warnings in order. |
| Export.ExportPages | main.py:270-338 | The HTML and Markdown export yields `ExportSpec`: an exit, or the document and the warnings. |
| Export.ExportExits | main.py:284-290 | The export exits with the status of the first future to hit a 401/403. |
| Export.ExportSections | main.py:293-298 | Without an exit, the document is the header, one section per selected id in order, each from the latest fetch of that id, and the footer. The `"No data"` default is never used. |
| Export.SectionIndependent | main.py:288-298 | A page's section depends only on the fetches of that id: other pages' outcomes do not change it. |
| Export.RepeatedIdSameSection | main.py:288-294 | An id selected twice gets two identical sections. |
| Export.TitleFallback | main.py:276-281 | The title is the API title if it is non-empty, else `id_to_title[pid]` if present, else the id. A failed page always uses the fallback. |
| Export.ErrorPlaceholder | main.py:295-298 | A failed page with no body gets `Export error: {err}` as its body, unless the message is empty; then the body is empty. |
| Export.NoDataPlaceholder | main.py:294-297 | An id with no entry gets its fallback title, the error `"No data"` and the placeholder. |
| Export.FetchedBody | main.py:277-278 | A fetched page keeps its body verbatim, or converted by `markdownify` in Markdown, and raises no warning. |
| Export.WarningsFor | main.py:295-296 | One warning per selected id whose error is non-empty, in order, with that page's title and message. |
| Export.FailingMembers | main.py:295-296 | Exactly the selected ids with a non-empty error are warned about. |
| Export.HtmlSection | main.py:298 | The HTML section text, spelled out. |
| Export.MarkdownSection | main.py:334 | The Markdown section text, spelled out. |
| Cache.HoursTest | main.py:351 | The source's test on reals, `age / 3600.0 > max(0, ttl)`, holds exactly when the age in seconds exceeds `TtlSeconds(ttl)`. |
| Cache.LoadHitIff | main.py:341-353 | A load succeeds if and only if a record is stored for the same site and space and is no older than the TTL. It then returns the stored tree and index. |
| Cache.SaveThenLoad | main.py:341-363 | Loading the record `save_tree_cache` writes returns exactly the saved tree and index while the TTL has not passed, and nothing afterwards. |
| Cache.OtherSourceMisses | main.py:348-349 | A record for another site or space is never used. |
| Cache.NonPositiveTtl | main.py:351-352 | With a TTL of zero or less, a record is used only if no time has passed since it was saved. |
| Cache.MissingTimestamp | main.py:350-352 | A record without `created_at` counts as saved at time 0. |
| Cache.FreshMonotone | main.py:351-352 | A record fresh now was fresh earlier, and stays fresh under a longer TTL. |

## Left out

- HTTP, JSON decoding and the service itself are oracles. Each request's outcome is a parameter, whether it is a response with a status or a `RequestException`. `r.json()` of a listing is taken to succeed, and an export page's body is either decoded or a decoding error.
- The sleep durations `backoff ** i` and the `timeout` are floats. Only the exponent `i` of each sleep is recorded.
- The text of `print` and `log_error` output is left out, as is the file that receives it. `_get`'s log is kept as a list of log lines. The export's `EXPORT ERROR` and the builder's `CHILD ERROR` log lines are not recorded.
- Threads, `as_completed`, `Lock` and `tqdm` are left out. The export runs future `k` as the `k`-th fetch. The `as_completed` loop only drives the progress bar, so completion order has no effect on the result. The tree builder completes tasks in creation order.
- `markdownify` is the parameter `toMarkdown`. `str(e)` of a request exception is the parameter `excText`. It takes the page id, because the text names the request's URL.
- `str.lower()` is ASCII case folding. Non-ASCII case folding is not modelled.
- `time.time()` is whole seconds (`now`). The hours comparison is written as `age > 3600 * max(0, ttl)`.
- The cache file is a value. `Absent` stands for a missing file, `Unreadable` for one that fails to read or parse, and `Stored` for the decoded record. JSON encoding is taken as lossless. A file whose JSON is not an object (which makes `data.get` raise) is not modelled.
- The file writes of the report and of the cache are left out. The model returns the document and the record instead.
- `argparse`, the config prompts, `main()` and the picker prompt are glue and are not modelled.
- The `workers` count is left out, because it does not affect results.
- TreeBuilder.BuildTree: it requires a rank on page ids that every listed child lowers. The source never terminates when the parent relation has a cycle (for example a page listed as its own descendant), and the model cannot state a non-terminating loop. The rank must decrease along every listed edge between any two page ids, including pages no root reaches. So it also excludes cycles the source would never meet, and the model says nothing about such inputs.
- TreeBuilder.BuildTree: the status of a 401/403 is kept as the HTTP status. The process exit code is always 1.
- Export.ExportPages: both export functions are modelled by one method. The method takes the format, which selects the document layout and whether `markdownify` is applied.
- Export.Body: a page record's `body.view.value` that is absent or `null` is modelled as `""`. In HTML the written document is the same either way, because `html or ''` prints nothing for both. In Markdown a `null` value is passed to `markdownify`, which may raise. The page would then get the fallback title, the error placeholder and a warning. The model instead converts `""`, keeps the API title and gives no warning.
- TreeBuilder.BuildTree: the child-listing oracle is keyed by page id, so both tasks that list a page shown under two parents see the same outcome. In the source each task makes its own requests, and one copy's listing can fail while the other succeeds. The model does not capture two copies of a page with different subtrees.
- Pagination.ListSpaces, Pagination.GetRootPages and Pagination.GetChildren: the model answers a request beyond the listed pages with an empty page without `next`. The source never stops on a server that always sends `next`, and the model cannot state a non-terminating loop.
- JSON `null` values are not modelled: `None` means a missing key. In the source `s.get("key", "")` returns `None` for a `null` key instead of `""`. A `null` `created_at` makes the TTL test raise `TypeError` out of `load_tree_cache`.
