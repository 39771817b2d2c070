# Fantasy name scraper and markdown link checker, modelled in Dafny

This project models three small pieces of a repository of scripts.

- **The name scraper** (`fantasy_name_data/data_scraper.py`). A `Page` collects name lists from a web page. It keeps an insertion-ordered, duplicate-free list of names. Each fetch gives a snapshot: the cleaned children of the first element that the CSS selector matches. Merging a snapshot returns how many of its items were already known (the collisions). A page has converged once a merge reports at least the collision threshold. Its names are then appended to its output file.
  - Two drivers run this rule. `Page.generate_list` is a single-threaded loop. `Worker.run` is a worker's loop over a shared `queue.Queue`. The queue's unfinished-task counter is what `queue.join()` waits on.
  - Modules `Names` and `DataScraper`. `Names` is the pure merge, the collision count and the text clean-up. `DataScraper` holds the classes `Page`, `Files`, `TaskQueue` and `Worker`.
- **The link checker** (`gitbooks/link_check.py`). It takes a markdown file's link targets and classifies each as an external web link or an internal relative path, using two regular expressions. It bumps the matching counter and records broken links in two error lists. Directories come from `get_path`. Module `LinkCheck`.
- **The session cache** (`fantasy_name_data/network.py`). `Network.get_session` memoises one browser session per URL in a dictionary. Module `Network`.

How the outside world enters the model:
- **Fetcher.** Each fetch is an input value `Fetch`. It is either the serialised children of every selector match, or `LoadError` (the fetch raised).
- **Files.** Output files are a map from path to lines (`Files`). A `SaveFault` says whether `open` raises or which line's write raises.
- **Worker steps.** A worker step takes one `StepInput`:
  - the fetch result;
  - the save fault.

  `Get` on an empty queue returns `None`. That stands for the call blocking.
- **Link checker host.** It gets a `Host` value with three parts:
  - the status that `urlopen` reports, or `None` when it raises;
  - `os.path.abspath`;
  - `os.path.isfile`.

  The link targets of a file are given as a sequence.

Points of the code's behaviour that the model keeps as written:
- **Persisting is not idempotent.** `save_names` opens the file in append mode, so a second save writes every name again (`DataScraper.SaveTwiceDuplicates`).
- **`task_done` comes before the save.** The worker calls `task_done` before `save_names` (data_scraper.py:75-76). An exception from either call is caught by the worker's `except` and the page is put back: a `task_done` that raises is outcome `TaskDoneRaised`, a failed save is outcome `SaveFailed`.
- **There is no per-page threshold.** Only `Worker` has a collision threshold, with default 1 (data_scraper.py:57). `Page.__init__` never sets the `collision_threshold` that `generate_list` reads (data_scraper.py:9-14, 18). So `GenerateList` takes the threshold as a parameter.

## Model

| member | source | states |
|---|---|---|
| `Names.MergedExtends` | fantasy_name_data/data_scraper.py:41-48 | Merging only appends: the old list is a prefix of the merged list. |
| `Names.MergedElements` | fantasy_name_data/data_scraper.py:43-47 | A name is in the merged list exactly when it is in the old list or in the snapshot (both directions). |
| `Names.MergedNoDup` | fantasy_name_data/data_scraper.py:43-47 | A duplicate-free list stays duplicate-free after a merge. |
| `Names.CollisionsPlusAppended` | fantasy_name_data/data_scraper.py:42-48 | The collision count plus the number of appended names equals the snapshot length, so the count is at most the snapshot length. |
| `Names.MergedFirstSeenOrder` | fantasy_name_data/data_scraper.py:43-47 | Every appended name comes from the snapshot and was not in the old list. Appended names follow the order of their first occurrence in the snapshot. |
| `Names.EmptySnapshot` | fantasy_name_data/data_scraper.py:41-48 | An empty snapshot leaves the list unchanged and reports 0 collisions. |
| `Names.RepeatInsideSnapshot` | fantasy_name_data/data_scraper.py:44-47 | On an empty page, `["a","b","a"]` leaves `["a","b"]` and reports 1: a repeat collides with its own earlier insertion. |
| `Names.MergedSnoc` | fantasy_name_data/data_scraper.py:43-47 | The effect of one more snapshot item: it is appended unless already present, and it counts a collision exactly when it is present. |
| `Names.MergedPair` | fantasy_name_data/data_scraper.py:43-47 | The list and count after a two-item snapshot, in terms of membership. |
| `Names.HistoryCons` | fantasy_name_data/data_scraper.py:18-20 | Merging a first snapshot and then the rest is the same as starting the rest from the merged list. |
| `Names.RoundCollisionsCons` | fantasy_name_data/data_scraper.py:18-20 | Round 0's count comes from the first snapshot; each later round's count is the previous round's count taken on the rest of the snapshots. |
| `Names.HistoryNoDup` | fantasy_name_data/data_scraper.py:18-20 | However many snapshots are merged in a row, the list stays duplicate-free. |
| `Names.ThreeRoundScenario` | fantasy_name_data/data_scraper.py:41-48 | `["Aldric","Bryn"]`, then `["Bryn","Corwin"]`, then `["Corwin","Corwin"]` report 0, 1 and 2 collisions and leave `["Aldric","Bryn","Corwin"]`. |
| `Names.StripBreaksShorter` | fantasy_name_data/data_scraper.py:34 | Removing `<br/>` never lengthens a child's text. |
| `Names.StripBreaksPlainText` | fantasy_name_data/data_scraper.py:34 | Text without `<` is left unchanged. |
| `Names.CleanNamesPlain` | fantasy_name_data/data_scraper.py:32-37 | Children that are non-empty and markup-free are returned as they are, in order. |
| `Names.StripBreaksTag` | fantasy_name_data/data_scraper.py:34-36 | A child that is only `<br/>` cleans to the empty string. A break followed by text is removed by itself. |
| `Names.StripBreaksSinglePass` | fantasy_name_data/data_scraper.py:34 | The replacement is one left-to-right pass: `<br<br/>/>` becomes `<br/>`. |
| `Names.CleanNamesSelects` | fantasy_name_data/data_scraper.py:30-39 | The result has one name for each child whose cleaned text is non-empty, exactly those, in child order. It is never longer than the children. |
| `Names.CleanNamesNonEmpty` | fantasy_name_data/data_scraper.py:36-37 | No returned name is the empty string. |
| `DataScraper.SaveAppends` | fantasy_name_data/data_scraper.py:52-54 | A successful save leaves the file as its old lines followed by the names in list order. Every other file is untouched. |
| `DataScraper.SaveTwiceDuplicates` | fantasy_name_data/data_scraper.py:52-54 | Saving a non-empty list twice writes every name twice, so the result differs from saving once: the save is not idempotent. |
| `DataScraper.SampleExit` | fantasy_name_data/data_scraper.py:17-21 | The loop ends with a count at or above the threshold exactly when it reached the threshold. Otherwise it ended because a fetch raised, at the exit round, or because the answers ran out. It never does more rounds than there are answers. |
| `DataScraper.SampleFromSentinel` | fantasy_name_data/data_scraper.py:17-18 | Starting from the sentinel -1, a threshold of 0 or more needs at least one fetch before the loop can finish. A negative threshold finishes with no fetch at all. |
| `DataScraper.SampleHistory` | fantasy_name_data/data_scraper.py:17-21 | The loop merges the snapshots of its first `rounds` fetches, in order. Its final count is the one the last of those merges returned. |
| `DataScraper.SnapshotsOfCons` | fantasy_name_data/data_scraper.py:19 | One more loaded fetch at the front adds its snapshot at the front. |
| `DataScraper.SampleLoaded` | fantasy_name_data/data_scraper.py:18-20 | Below the threshold, a loaded fetch is merged and the loop goes on with the next answer, starting from the merge's count. |
| `DataScraper.ThreeFetchRun` | fantasy_name_data/data_scraper.py:16-22 | Take threshold 2 and answers `[a,b]`, `[b,c]`, `[c,c]` for distinct plain names. The loop stops after the third fetch, whatever answers would follow, and holds `[a,b,c]`. |
| `DataScraper.Page.constructor` | fantasy_name_data/data_scraper.py:9-14 | A new page keeps its URL, selector and file name and starts with no names. |
| `DataScraper.Page.FetchNames` | fantasy_name_data/data_scraper.py:30-39 | The clean-up loop returns the snapshot: empty without matches, otherwise the cleaned, non-empty children of the first match. |
| `DataScraper.Page.UpdateNames` | fantasy_name_data/data_scraper.py:41-48 | The loop leaves the merged list and returns the collision count. The old list is a prefix of the new one, the count is at most the snapshot length, and a duplicate-free list stays duplicate-free. |
| `DataScraper.Page.SaveNames` | fantasy_name_data/data_scraper.py:50-54 | The file becomes its old lines plus the names, up to the first write that fails. When `open` fails the file is untouched. The method succeeds exactly when no fault applies. |
| `DataScraper.Page.GenerateList` | fantasy_name_data/data_scraper.py:16-22 | The loop leaves the names, round count and last count that `Sample` gives. It saves once, and only when the threshold was reached. When a fetch raised or the answers ran out, no file is touched. |
| `DataScraper.TaskQueue.constructor` | fantasy_name_data/data_scraper.py:133 | A new queue is empty and has no unfinished tasks. |
| `DataScraper.TaskQueue.Put` | fantasy_name_data/data_scraper.py:78 | `put` appends the page at the back and adds one unfinished task. |
| `DataScraper.TaskQueue.Get` | fantasy_name_data/data_scraper.py:67 | `get` removes the head page and leaves the unfinished count alone. An empty queue blocks. |
| `DataScraper.TaskQueue.TaskDone` | fantasy_name_data/data_scraper.py:75 | `task_done` subtracts one unfinished task. It raises, changing nothing, when none is unfinished. |
| `DataScraper.SeedPages` | fantasy_name_data/data_scraper.py:141-143 | Seeding appends every configured page once and adds one unfinished task per page. |
| `DataScraper.DecideFinalises` | fantasy_name_data/data_scraper.py:70-81 | A step puts its page back exactly when it does not finalise it. It finalises exactly when the fetch worked, the count reached the threshold, `task_done` returned and the save succeeded. |
| `DataScraper.RequeueKeepsNames` | fantasy_name_data/data_scraper.py:70-78 | A step keeps every name the page had, without duplicates (a failed fetch keeps the list as it was). A count below the threshold requeues the page. |
| `DataScraper.Worker.constructor` | fantasy_name_data/data_scraper.py:57-60 | A worker keeps its queue and threshold. The threshold defaults to 1. |
| `DataScraper.DefaultWorkerThreshold` | fantasy_name_data/data_scraper.py:57 | A worker built without a threshold uses 1. |
| `DataScraper.Worker.Harvest` | fantasy_name_data/data_scraper.py:70-71 | Fetch then merge. A raised fetch leaves the names unchanged and gives no count. |
| `DataScraper.Worker.Step` | fantasy_name_data/data_scraper.py:65-81 | One pass of the worker loop as written: the head page is taken, its names updated and the branch decided. The queue becomes the rest, plus the page at the back whenever it was put back. The file is saved only for a successful `task_done`. Unfinished tasks go up by one per put and down by one per successful `task_done`. |
| `DataScraper.Worker.Run` | fantasy_name_data/data_scraper.py:65-81 | Over many steps: unfinished tasks equal the start, plus the puts, minus the successful `task_done` calls. Pages leave the queue only by finalising. If every queued page starts as one unfinished task, `task_done` never raises. In that case the counter exceeds the queue length by one more for every step that put its page back without a `task_done`. |
| `DataScraper.Worker.StepJoinable` | fantasy_name_data/data_scraper.py:65-81 | The step with one `task_done` per `get`: the same branches with `task_done` never raising. The unfinished count minus the queue length never changes. |
| `DataScraper.Worker.RunJoinable` | fantasy_name_data/data_scraper.py:65-81 | With the balanced step, a run that starts with one task per queued page and finalises every page leaves `join` able to return. |
| `DataScraper.RequeueScenarioFacts` | fantasy_name_data/data_scraper.py:30-48 | For three distinct markup-free names and threshold 1: the snapshot `[a,b]` merges to `[a,b]` with 0 collisions and is requeued; `[b,c]` then merges to `[a,b,c]` with 1 collision and is finalised. |
| `DataScraper.RequeueThenConverge` | fantasy_name_data/data_scraper.py:65-81 | One seeded page: a first fetch below the threshold is requeued and a second converges and is saved. Afterwards the queue is empty and the file holds the merged names, but one task is still unfinished. |
| `DataScraper.RequeueThenConvergeBalanced` | fantasy_name_data/data_scraper.py:65-81 | The same run with the balanced step ends with no unfinished task. |
| `DataScraper.JoinAfterRequeue` | fantasy_name_data/data_scraper.py:141-145 | With threshold 1, snapshots `["Aldric","Bryn"]` and then `["Bryn","Corwin"]` save `["Aldric","Bryn","Corwin"]`. The queue is empty but `join` still waits on one task. |
| `DataScraper.JoinAfterRequeueBalanced` | fantasy_name_data/data_scraper.py:141-145 | The same snapshots with the balanced step leave no unfinished task. |
| `LinkCheck.Split` | gitbooks/link_check.py:40 | `split('/')` always gives at least one piece. |
| `LinkCheck.SplitJoin` | gitbooks/link_check.py:40 | No piece holds a slash, and joining the pieces with `/` gives the string back. |
| `LinkCheck.SplitNoSlash` | gitbooks/link_check.py:40 | A string without a slash splits into itself alone. |
| `LinkCheck.JoinSnoc` | gitbooks/link_check.py:40 | Joining one more piece adds a slash and the piece. |
| `LinkCheck.LastSlash` | gitbooks/link_check.py:6 | Finds the last slash: no slash follows it, and -1 means there is none. |
| `LinkCheck.LastSlashUnique` | gitbooks/link_check.py:6 | A slash with no slash after it is the last slash. |
| `LinkCheck.GetPathBeforeLastSlash` | gitbooks/link_check.py:39-40 | `get_path(p)` is everything before the last slash, or `""` when `p` has none. When there is one, `p` is the result, a slash and a final segment without slashes. |
| `LinkCheck.RelativePathIsRegex` | gitbooks/link_check.py:6 | The computed relative-path test agrees, both ways, with the pattern `^(.+)/([^/]+)$`: a non-empty head of non-newline characters, a slash, and a non-empty tail without slashes. |
| `LinkCheck.ClassifyPrecedence` | gitbooks/link_check.py:52-63 | A target is a web link exactly when the URL pattern matches. It is relative exactly when it is not a web link and the relative pattern matches, so no target counts as both. |
| `LinkCheck.ClassifyNeither` | gitbooks/link_check.py:6 | `foo.md`, `dir/` and `/index.md` increment neither counter. |
| `LinkCheck.ClassifyCounted` | gitbooks/link_check.py:4-6 | `docs/intro.md` is relative and `https://example.com` is a web link. `http://)` fails the URL pattern and counts as relative. |
| `LinkCheck.CheckLink` | gitbooks/link_check.py:52-68 | One target bumps exactly its own counter by 1, or nothing when it is neither kind, so the total grows by at most 1. A web link records `target status` only for a non-200 status under website validation. A raising `urlopen` stops the run. A relative link records `abs doesnt exist` when the file is missing. The other kind's counter and error list are untouched. |
| `LinkCheck.CheckLinksTotals` | gitbooks/link_check.py:49-68 | Over one file, each counter grows by the number of targets of its kind among those examined. That is all of them, unless a `urlopen` raised at `stop`. The error lists only grow at their end, by at most one entry per counted link. Without website validation nothing raises and the web error list is unchanged. |
| `LinkCheck.CheckLinksStopped` | gitbooks/link_check.py:56 | Once a `urlopen` has raised, later targets change nothing. |
| `LinkCheck.ReportTotal` | gitbooks/link_check.py:75-78 | After two files checked in a row without an exception, the reported total is the number of web plus relative targets in both. |
| `LinkCheck.LinkChecker.constructor` | gitbooks/link_check.py:8-11 | Both counters start at 0 and both error lists start empty. |
| `LinkCheck.LinkChecker.ValidateLinks` | gitbooks/link_check.py:42-69 | The loop over one file's targets, in the file's directory, leaves the globals as the `CheckLinks` fold gives them. It reports whether it finished or stopped at a raising `urlopen`. |
| `Network.Session.constructor` | fantasy_name_data/network.py:26 | A new session keeps the URL it was created for. |
| `Network.Session.SetAutoLoadImages` | fantasy_name_data/network.py:27 | Setting the attribute stores the value. |
| `Network.Network.constructor` | fantasy_name_data/network.py:7-9 | A new cache is empty, and every session in it is filed under its own base URL. |
| `Network.Network.GetSession` | fantasy_name_data/network.py:24-30 | Afterwards the URL is a key and the session is the one filed under it, with that base URL. An existing key leaves the table unchanged. A missing key adds exactly one fresh session, with images off, and changes no other entry. |
| `Network.GetSessionTwice` | fantasy_name_data/network.py:24-30 | Two calls in a row return the same session and leave the table as after the first call. |
| `Network.TwoPages` | fantasy_name_data/network.py:24-30 | Asking for one URL twice and another once gives the same session for the repeat, a different one for the other URL, and two cached sessions. |

## Left out

- Threads, daemon workers, a blocking `get` and `queue.join()` (data_scraper.py:135-145). Single steps run over a sequence, and `join` returning is the predicate `TaskQueue.JoinReturns`. Interleavings of the four workers are not modelled.
- Worker loops and the `generate_list` loop are unbounded in the code. The model runs them over a finite script of environment answers. `Worker.Run` takes one step per script entry, and a step on an empty queue is outcome `Idle`. In `Sample` the exit `Exhausted` marks a loop that ran out of fetch answers before reaching the threshold.
- The HTML side of `fetch_names`: `load_html`, `CSSSelector`, `getchildren` and `tostring` (data_scraper.py:26-33). Foreign libraries; the serialised children are inputs.
- `Network.clean_url` and `Network.cache_filename` (urllib quoting, md5). `load_and_cache_html` and `load_html` (dryscrape, file caching, lxml). They are thin wrappers over libraries that are not part of this model. `Page` takes its URL as given.
- The dryscrape `Session` itself. Only its base URL and `auto_load_images` attribute are modelled, and the constructor's default for that attribute is a stand-in.
- `Conf` (YAML, logging set-up, option parsing), all logging, `Worker.id` (it refers to an unimported `threading` module) and the report printing of link_check.py:78-89. `ReportTotal` states only the total's value.
- `file_list` and extracting link targets by `re.findall` with the markdown link pattern (link_check.py:5, 28-37, 50). Directory I/O and general regex matching, so each file's targets are an input sequence. Line numbers are logging only.
- `os.path.abspath`, `os.path.isfile`, `urlopen` and its status. These are the `Host` oracles. `urlopen`'s habit of raising on HTTP error statuses is folded into the oracle's `None`.
- `Page.GenerateList`: the code reads `self.collision_threshold`, which `Page.__init__` never sets, so the code as written raises `AttributeError`. The model takes the threshold as a parameter and does not model that exception.
- `DataScraper.Page.SaveNames`: a write that fails after earlier writes were buffered counts its earlier lines as written. OS-level buffering and flush failures are not modelled.
- `DataScraper.Page.SaveNames` / `DataScraper.AfterSave`: a file is one entry per `write` call, not per physical line. A name holding a newline (a serialised child's tail text can carry one) or an old file whose last line lacks a newline would split or join lines in the real file.

## Findings

| source | as written | input that shows it | evidently intended | confidence | as-written member | corrected member |
|---|---|---|---|---|---|---|
| fantasy_name_data/data_scraper.py:75-81 | Every requeue calls `queue.put`, which adds an unfinished task, but `task_done` is called only once, when the page converges. The unfinished count then never returns to 0 after any requeue, and `queue.join()` (line 145) waits forever. | One seeded page with threshold 1. The first snapshot `["Aldric","Bryn"]` has no collision, so the page is requeued. The second, `["Bryn","Corwin"]`, converges and is saved. The queue is then empty but one task is still unfinished. | One `task_done` per `get`, for instance in a `finally`. Then a run that finalises every page leaves 0 unfinished tasks and `join` returns. | not executed | `DataScraper.JoinAfterRequeue` | `DataScraper.JoinAfterRequeueBalanced` |
