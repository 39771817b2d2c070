/**
  The scraper of fantasy_name_data/data_scraper.py: pages that accumulate
  names, the work queue with its unfinished-task counter, and the worker
  step that decides whether a page has converged.

  The network and the HTML parser are not modelled: each fetch is an input
  value (`Fetch`), the selector matches given as their serialised children.
  The output files are a map from path to the lines written so far.
*/
module DataScraper {
  import opened Wrappers
  import opened Names

  /** What one call of `load_html` plus the CSS selector gave back:
      the serialised children of each match, or an exception. */
  datatype Fetch = Loaded(matches: seq<seq<string>>) | LoadError

  /** How a save goes wrong: `open` raises, or the write of line `line` raises. */
  datatype SaveFault = NoFault | OpenFails | WriteFailsAt(line: nat)

  /** Lines that reach the file when `n` lines are to be written. */
  function LinesWritten(fault: SaveFault, n: nat): nat {
    if fault.WriteFailsAt? && fault.line < n then fault.line else n
  }

  /** The save runs to the end without raising. */
  predicate SaveSucceeds(fault: SaveFault, n: nat) {
    !fault.OpenFails? && !(fault.WriteFailsAt? && fault.line < n)
  }

  /** The lines of file `path` (a missing file reads as no lines). */
  function Lines(fs: map<string, seq<string>>, path: string): seq<string> {
    if path in fs then fs[path] else []
  }

  /** The files after opening `path` in append mode and writing one line per name
      (as far as `fault` lets the writes go). */
  function AfterSave(fs: map<string, seq<string>>, path: string, names: seq<string>, fault: SaveFault)
    : map<string, seq<string>>
  {
    if fault.OpenFails? then fs
    else fs[path := Lines(fs, path) + names[..LinesWritten(fault, |names|)]]
  }

  /** Saving appends: the file keeps its old lines and gains the names in order,
      every other file is untouched. */
  lemma SaveAppends(fs: map<string, seq<string>>, path: string, names: seq<string>, other: string)
    requires other != path
    ensures Lines(AfterSave(fs, path, names, NoFault), path) == Lines(fs, path) + names
    ensures Lines(AfterSave(fs, path, names, NoFault), other) == Lines(fs, other)
  {
  }

  /** Saving twice writes every name twice: the save is not idempotent. */
  lemma SaveTwiceDuplicates(fs: map<string, seq<string>>, path: string, names: seq<string>)
    requires names != []
    ensures Lines(AfterSave(AfterSave(fs, path, names, NoFault), path, names, NoFault), path)
         == Lines(fs, path) + names + names
    ensures AfterSave(AfterSave(fs, path, names, NoFault), path, names, NoFault)
         != AfterSave(fs, path, names, NoFault)
  {
    var once := AfterSave(fs, path, names, NoFault);
    var twice := AfterSave(once, path, names, NoFault);
    assert names[..|names|] == names;
    assert |Lines(twice, path)| > |Lines(once, path)|;
  }

  /** The file system the scraper writes into: path -> lines. */
  class Files {
    var contents: map<string, seq<string>>

    constructor (contents: map<string, seq<string>>)
      ensures this.contents == contents
    {
      this.contents := contents;
    }
  }

  /** Every fetch in `fetches` delivered a page. */
  predicate AllLoaded(fetches: seq<Fetch>) {
    forall j :: 0 <= j < |fetches| ==> fetches[j].Loaded?
  }

  /** The snapshots that `fetch_names` makes of those pages, in order. */
  function SnapshotsOf(fetches: seq<Fetch>): seq<seq<string>>
    requires AllLoaded(fetches)
  {
    seq(|fetches|, j requires 0 <= j < |fetches| => Snapshot(fetches[j].matches))
  }

  /** How the `while collisions < threshold` loop of `generate_list` is left:
      the threshold is reached, a fetch raises, or the fetcher's answers run out. */
  datatype LoopExit = Reached | Raised | Exhausted

  /** The loop's state when it is left: the names, how many fetches were
      merged, and the last merge's count. */
  datatype Sampling = Sampling(names: seq<string>, rounds: nat, collisions: int, exit: LoopExit)

  /** The loop of `generate_list`, entered with `names` and `collisions`, on the
      fetcher's remaining answers `fetches`. */
  function Sample(names: seq<string>, threshold: int, fetches: seq<Fetch>, collisions: int): Sampling
    decreases |fetches|
  {
    if collisions >= threshold then Sampling(names, 0, collisions, Reached)
    else if fetches == [] then Sampling(names, 0, collisions, Exhausted)
    else match fetches[0]
      case LoadError => Sampling(names, 0, collisions, Raised)
      case Loaded(matches) =>
        var snapshot := Snapshot(matches);
        var r := Sample(Merged(names, snapshot), threshold, fetches[1..], Collisions(names, snapshot));
        r.(rounds := r.rounds + 1)
  }

  /** The loop is left with a count at or above the threshold exactly when the
      threshold was reached; a raising fetch or running out happens below it. */
  lemma {:induction false} SampleExit(names: seq<string>, threshold: int, fetches: seq<Fetch>, collisions: int)
    ensures var r := Sample(names, threshold, fetches, collisions);
      && r.rounds <= |fetches|
      && (r.exit.Reached? <==> r.collisions >= threshold)
      && (r.exit.Exhausted? ==> r.rounds == |fetches|)
      && (r.exit.Raised? ==> r.rounds < |fetches| && fetches[r.rounds].LoadError?)
      && (r.rounds == 0 ==> r.collisions == collisions)
    decreases |fetches|
  {
    if collisions < threshold && fetches != [] && fetches[0].Loaded? {
      var snapshot := Snapshot(fetches[0].matches);
      SampleExit(Merged(names, snapshot), threshold, fetches[1..], Collisions(names, snapshot));
    }
  }

  /** Started from the sentinel -1: with a threshold of 0 or more the loop
      fetches at least once before it can finish; with a negative one it
      finishes at once. */
  lemma SampleFromSentinel(names: seq<string>, threshold: int, fetches: seq<Fetch>)
    ensures var r := Sample(names, threshold, fetches, -1);
      && (threshold < 0 ==> r.rounds == 0 && r.exit.Reached?)
      && (threshold >= 0 && r.exit.Reached? ==> r.rounds >= 1)
  {
    SampleExit(names, threshold, fetches, -1);
  }

  /** The loop merges the snapshots of its first `rounds` fetches in order, and
      the count it leaves with is the one the last of those merges returned. */
  lemma {:induction false} SampleHistory(names: seq<string>, threshold: int, fetches: seq<Fetch>, collisions: int)
    ensures var r := Sample(names, threshold, fetches, collisions);
      && r.rounds <= |fetches| && AllLoaded(fetches[..r.rounds])
      && r.names == History(names, SnapshotsOf(fetches[..r.rounds]))
      && (r.rounds > 0 ==>
            r.collisions == RoundCollisions(names, SnapshotsOf(fetches[..r.rounds]), r.rounds - 1))
    decreases |fetches|
  {
    if collisions < threshold && fetches != [] && fetches[0].Loaded? {
      var snapshot := Snapshot(fetches[0].matches);
      var merged := Merged(names, snapshot);
      var rest := fetches[1..];
      var r' := Sample(merged, threshold, rest, Collisions(names, snapshot));
      SampleHistory(merged, threshold, rest, Collisions(names, snapshot));
      SampleExit(merged, threshold, rest, Collisions(names, snapshot));
      SnapshotsOfCons(fetches, r'.rounds);
      var later := SnapshotsOf(rest[..r'.rounds]);
      HistoryCons(names, snapshot, later);
      RoundCollisionsCons(names, snapshot, later, r'.rounds);
    } else {
      assert fetches[..0] == [];
    }
  }

  /** Taking one more loaded fetch at the front adds its snapshot at the front. */
  lemma SnapshotsOfCons(fetches: seq<Fetch>, k: nat)
    requires k < |fetches| && fetches[0].Loaded? && AllLoaded(fetches[1..][..k])
    ensures AllLoaded(fetches[..k + 1])
    ensures SnapshotsOf(fetches[..k + 1]) == [Snapshot(fetches[0].matches)] + SnapshotsOf(fetches[1..][..k])
  {
    assert fetches[..k + 1] == [fetches[0]] + fetches[1..][..k];
  }

  /** One page of the configuration: where to fetch, and the names found so far. */
  /** One loaded fetch below the threshold: merge, then go on with the rest. */
  lemma SampleLoaded(names: seq<string>, threshold: int, matches: seq<seq<string>>, rest: seq<Fetch>, collisions: int)
    requires collisions < threshold
    ensures var snapshot := Snapshot(matches);
      var r := Sample(Merged(names, snapshot), threshold, rest, Collisions(names, snapshot));
      Sample(names, threshold, [Loaded(matches)] + rest, collisions) == r.(rounds := r.rounds + 1)
  {
    assert ([Loaded(matches)] + rest)[1..] == rest;
  }

  /** Threshold 2 on the answers [a, b], [b, c], [c, c] for three distinct
      plain names: the counts run 0, 1, 2, the loop stops after the third
      fetch (a fourth answer is never asked for) and the page holds a, b, c. */
  lemma ThreeFetchRun(a: string, b: string, c: string, later: seq<Fetch>)
    requires a != b && b != c && a != c
    requires a != "" && b != "" && c != "" && '<' !in a && '<' !in b && '<' !in c
    ensures Sample([], 2, [Loaded([[a, b]]), Loaded([[b, c]]), Loaded([[c, c]])] + later, -1)
         == Sampling([a, b, c], 3, 2, Reached)
  {
    var abc := [a, b, c];
    var third := [Loaded([[c, c]])] + later;
    var second := [Loaded([[b, c]])] + third;
    assert [Loaded([[a, b]]), Loaded([[b, c]]), Loaded([[c, c]])] + later == [Loaded([[a, b]])] + second;
    assert Snapshot([[c, c]]) == [c, c] && Merged(abc, [c, c]) == abc && Collisions(abc, [c, c]) == 2 by {
      CleanNamesPlain([c, c]);
      MergedPair(abc, c, c);
    }
    assert Sample(abc, 2, third, 1) == Sampling(abc, 1, 2, Reached) by {
      SampleLoaded(abc, 2, [[c, c]], later, 1);
    }
    assert Snapshot([[b, c]]) == [b, c] && Merged([a, b], [b, c]) == abc && Collisions([a, b], [b, c]) == 1 by {
      CleanNamesPlain([b, c]);
      MergedPair([a, b], b, c);
    }
    assert Sample([a, b], 2, second, 0) == Sampling(abc, 2, 2, Reached) by {
      SampleLoaded([a, b], 2, [[b, c]], third, 0);
    }
    assert Snapshot([[a, b]]) == [a, b] && Merged([], [a, b]) == [a, b] && Collisions([], [a, b]) == 0 by {
      CleanNamesPlain([a, b]);
      MergedPair([], a, b);
    }
    SampleLoaded([], 2, [[a, b]], second, -1);
  }

  class Page {
    const url: string
    const selector: string
    const filename: string
    var names: seq<string>

    constructor (url: string, selector: string, filename: string)
      ensures this.url == url && this.selector == selector && this.filename == filename
      ensures names == []
    {
      this.url := url;
      this.selector := selector;
      this.filename := filename;
      names := [];
    }

    /** The clean-up loop of `fetch_names` over the selector's matches. */
    method FetchNames(matches: seq<seq<string>>) returns (found: seq<string>)
      ensures found == Snapshot(matches)
    {
      found := [];
      if |matches| > 0 {
        var children := matches[0];
        for i := 0 to |children|
          invariant found == CleanNames(children[..i])
        {
          assert children[..i + 1][..i] == children[..i];
          var name := StripBreaks(children[i]);
          if name != "" {
            found := found + [name];
          }
        }
        assert children[..|children|] == children;
      }
    }

    /** Merges one snapshot into `names`; returns how many items were already there. */
    method UpdateNames(snapshot: seq<string>) returns (collisions: nat)
      modifies this
      ensures names == Merged(old(names), snapshot)
      ensures collisions == Collisions(old(names), snapshot)
      ensures old(names) <= names && collisions <= |snapshot|
      ensures NoDup(old(names)) ==> NoDup(names)
    {
      collisions := 0;
      for i := 0 to |snapshot|
        invariant names == Merged(old(names), snapshot[..i])
        invariant collisions == Collisions(old(names), snapshot[..i])
      {
        assert snapshot[..i + 1] == snapshot[..i] + [snapshot[i]];
        MergedSnoc(old(names), snapshot[..i], snapshot[i]);
        if snapshot[i] in names {
          collisions := collisions + 1;
        } else {
          names := names + [snapshot[i]];
        }
      }
      assert snapshot[..|snapshot|] == snapshot;
      MergedExtends(old(names), snapshot);
      CollisionsPlusAppended(old(names), snapshot);
      if NoDup(old(names)) {
        MergedNoDup(old(names), snapshot);
      }
    }

    /** Opens `filename` in append mode and writes one line per name. */
    method SaveNames(files: Files, fault: SaveFault) returns (ok: bool)
      modifies files
      ensures ok == SaveSucceeds(fault, |names|)
      ensures files.contents == AfterSave(old(files.contents), filename, names, fault)
    {
      if fault.OpenFails? {
        return false;
      }
      var start := Lines(files.contents, filename);
      files.contents := files.contents[filename := start];
      assert start + names[..0] == start;
      for i := 0 to |names|
        invariant files.contents == old(files.contents)[filename := start + names[..i]]
        invariant !(fault.WriteFailsAt? && fault.line < i)
      {
        if fault == WriteFailsAt(i) {
          return false;
        }
        assert files.contents[filename] + [names[i]] == start + names[..i + 1] by {
          assert names[..i + 1] == names[..i] + [names[i]];
        }
        files.contents := files.contents[filename := files.contents[filename] + [names[i]]];
      }
      assert names[..|names|] == names;
      return true;
    }

    /** The single-threaded loop: fetch and merge until a merge reports at
        least `threshold` collisions, then save once. `fetches` supplies the
        fetcher's answers in order; a failed fetch propagates out of the loop. */
    method GenerateList(threshold: int, fetches: seq<Fetch>, files: Files, fault: SaveFault)
      returns (sampled: Sampling, saved: bool)
      modifies this, files
      ensures sampled == Sample(old(names), threshold, fetches, -1)
      ensures names == sampled.names
      ensures saved == (sampled.exit.Reached? && SaveSucceeds(fault, |names|))
      ensures files.contents == if sampled.exit.Reached? then AfterSave(old(files.contents), filename, names, fault)
                                else old(files.contents)
    {
      var collisions := -1;
      var i := 0;
      while collisions < threshold
        invariant 0 <= i <= |fetches|
        invariant var r := Sample(names, threshold, fetches[i..], collisions);
          Sample(old(names), threshold, fetches, -1) == r.(rounds := r.rounds + i)
        invariant files.contents == old(files.contents)
        decreases |fetches| - i
      {
        if i == |fetches| {
          return Sampling(names, i, collisions, Exhausted), false;
        }
        match fetches[i]
        case LoadError =>
          return Sampling(names, i, collisions, Raised), false;
        case Loaded(matches) =>
          assert fetches[i..][1..] == fetches[i + 1..];
          var found := FetchNames(matches);
          collisions := UpdateNames(found);
          i := i + 1;
      }
      sampled := Sampling(names, i, collisions, Reached);
      saved := SaveNames(files, fault);
    }
  }

  /** Python's `queue.Queue` as the scraper uses it: a FIFO of pages and the
      count of unfinished tasks that `join` waits on. */
  class TaskQueue {
    var items: seq<Page>
    var unfinished: nat
    // every page ever put on the queue
    ghost var pages: set<Page>

    ghost predicate Valid()
      reads this
    {
      forall p :: p in items ==> p in pages
    }

    constructor ()
      ensures Valid() && items == [] && unfinished == 0 && pages == {}
    {
      items := [];
      unfinished := 0;
      pages := {};
    }

    /** `join()` returns once no task is unfinished. */
    predicate JoinReturns()
      reads this
    {
      unfinished == 0
    }

    method Put(p: Page)
      requires Valid()
      modifies this
      ensures Valid() && pages == old(pages) + {p}
      ensures items == old(items) + [p] && unfinished == old(unfinished) + 1
    {
      items := items + [p];
      unfinished := unfinished + 1;
      pages := pages + {p};
    }

    /** `get()`; `None` stands for the call blocking on an empty queue. */
    method Get() returns (p: Option<Page>)
      requires Valid()
      modifies this
      ensures Valid() && pages == old(pages)
      ensures old(items) == [] ==> p == None && items == []
      ensures old(items) != [] ==> p == Some(old(items[0])) && items == old(items[1..])
      ensures unfinished == old(unfinished)
    {
      if items == [] {
        p := None;
      } else {
        p := Some(items[0]);
        items := items[1..];
      }
    }

    /** `task_done()`; raises `ValueError` (ok == false) when no task is unfinished. */
    method TaskDone() returns (ok: bool)
      requires Valid()
      modifies this
      ensures Valid() && pages == old(pages)
      ensures ok == (old(unfinished) > 0)
      ensures unfinished == if ok then old(unfinished) - 1 else old(unfinished)
      ensures items == old(items)
    {
      ok := unfinished > 0;
      if ok {
        unfinished := unfinished - 1;
      }
    }
  }

  /** The main block's seeding: every configured page is put on the queue once. */
  method SeedPages(queue: TaskQueue, pages: seq<Page>)
    requires queue.Valid()
    modifies queue
    ensures queue.Valid() && queue.pages == old(queue.pages) + set p | p in pages
    ensures queue.items == old(queue.items) + pages
    ensures queue.unfinished == old(queue.unfinished) + |pages|
  {
    for i := 0 to |pages|
      invariant queue.Valid() && queue.pages == old(queue.pages) + set p | p in pages[..i]
      invariant queue.items == old(queue.items) + pages[..i]
      invariant queue.unfinished == old(queue.unfinished) + i
    {
      assert pages[..i + 1] == pages[..i] + [pages[i]];
      queue.Put(pages[i]);
    }
    assert pages[..|pages|] == pages;
  }

  /** The threshold a worker uses when none is given. */
  const DefaultCollisionThreshold := 1

  /** What the environment does during one worker step. */
  datatype StepInput = StepInput(fetch: Fetch, fault: SaveFault)

  /** What one worker step did with the page at the head of the queue. */
  datatype StepOutcome =
    | Idle                          // the queue was empty: `get` blocks
    | FetchFailed                   // fetch raised; page put back
    | Requeued(collisions: nat)     // too few collisions; page put back
    | TaskDoneRaised(collisions: nat) // converged but `task_done` raised; page put back
    | Finalised(collisions: nat)    // converged, task done, names saved
    | SaveFailed(collisions: nat)   // converged, task done, save raised; page put back
  {
    /** The page went back to the queue (one `put`). */
    predicate PutBack() { FetchFailed? || Requeued? || TaskDoneRaised? || SaveFailed? }
    /** `task_done` was called successfully. */
    predicate MarkedDone() { Finalised? || SaveFailed? }
    /** Put back with no `task_done` to balance it. */
    predicate Stalled() { FetchFailed? || Requeued? || TaskDoneRaised? }
  }

  /** The kinds of step that the queue accounting counts. */
  datatype Tallied = PutBacks | TasksDone | Finalisations | TaskDoneErrors | Stalls

  predicate Counts(o: StepOutcome, k: Tallied) {
    match k
    case PutBacks => o.PutBack()
    case TasksDone => o.MarkedDone()
    case Finalisations => o.Finalised?
    case TaskDoneErrors => o.TaskDoneRaised?
    case Stalls => o.Stalled()
  }

  /** How many of `outcomes` are of kind `k`. */
  function Count(outcomes: seq<StepOutcome>, k: Tallied): nat
    decreases |outcomes|
  {
    if outcomes == [] then 0
    else Count(outcomes[..|outcomes| - 1], k) + (if Counts(outcomes[|outcomes| - 1], k) then 1 else 0)
  }

  /** The page's list after the first two lines of the worker's `try`:
      unchanged when the fetch raises, the merge of its snapshot otherwise. */
  function Harvested(names: seq<string>, fetch: Fetch): seq<string> {
    match fetch
    case LoadError => names
    case Loaded(matches) => Merged(names, Snapshot(matches))
  }

  /** The branch one worker step takes for a page holding `names`;
      `taskDoneOk` says whether a `task_done` at that point returns normally. */
  function Decide(names: seq<string>, input: StepInput, threshold: int, taskDoneOk: bool): StepOutcome {
    match input.fetch
    case LoadError => FetchFailed
    case Loaded(matches) =>
      var snapshot := Snapshot(matches);
      var c := Collisions(names, snapshot);
      if c < threshold then Requeued(c)
      else if !taskDoneOk then TaskDoneRaised(c)
      else if SaveSucceeds(input.fault, |Merged(names, snapshot)|) then Finalised(c)
      else SaveFailed(c)
  }

  /** A step never leaves its page both finished and queued, and it finishes it
      exactly when the merge reached the threshold, `task_done` returned and the
      save went through. */
  lemma DecideFinalises(names: seq<string>, input: StepInput, threshold: int, taskDoneOk: bool)
    ensures var o := Decide(names, input, threshold, taskDoneOk);
      && (o.PutBack() <==> !o.Finalised?)
      && (o.Finalised? <==>
            input.fetch.Loaded? && taskDoneOk
            && Collisions(names, Snapshot(input.fetch.matches)) >= threshold
            && SaveSucceeds(input.fault, |Harvested(names, input.fetch)|))
  {
  }

  /** A merge below the threshold requeues the page, and the page's list still
      keeps every name it had, without introducing duplicates. */
  lemma RequeueKeepsNames(names: seq<string>, input: StepInput, threshold: int, taskDoneOk: bool)
    requires NoDup(names)
    ensures names <= Harvested(names, input.fetch) && NoDup(Harvested(names, input.fetch))
    ensures input.fetch.Loaded? && Collisions(names, Snapshot(input.fetch.matches)) < threshold ==>
              Decide(names, input, threshold, taskDoneOk).Requeued?
  {
    if input.fetch.Loaded? {
      MergedExtends(names, Snapshot(input.fetch.matches));
      MergedNoDup(names, Snapshot(input.fetch.matches));
    }
  }

  class Worker {
    const queue: TaskQueue
    const collisionThreshold: int

    constructor (queue: TaskQueue, collisionThreshold: int := DefaultCollisionThreshold)
      ensures this.queue == queue && this.collisionThreshold == collisionThreshold
    {
      this.queue := queue;
      this.collisionThreshold := collisionThreshold;
    }

    /** The first two lines of the worker's `try`: fetch, then merge.
        `None` stands for the fetch raising. */
    method Harvest(page: Page, fetch: Fetch) returns (collisions: Option<nat>)
      modifies page
      ensures page.names == Harvested(old(page.names), fetch)
      ensures collisions == match fetch
                            case LoadError => None
                            case Loaded(matches) => Some(Collisions(old(page.names), Snapshot(matches)))
    {
      match fetch
      case LoadError =>
        collisions := None;
      case Loaded(matches) =>
        var found := page.FetchNames(matches);
        var c := page.UpdateNames(found);
        collisions := Some(c);
    }

    /** One pass of the `while True` loop of `run`, as written: `task_done`
        only when the page converged, `put` on every requeue. */
    method Step(input: StepInput, files: Files) returns (outcome: StepOutcome)
      requires queue.Valid()
      modifies queue, queue.pages, files
      ensures queue.Valid() && queue.pages == old(queue.pages)
      ensures old(queue.items) == [] ==>
                outcome == Idle && queue.items == [] && queue.unfinished == old(queue.unfinished)
                && files.contents == old(files.contents)
      ensures old(queue.items) != [] ==>
        var page := old(queue.items[0]);
        && outcome == Decide(old(page.names), input, collisionThreshold, old(queue.unfinished) > 0)
        && page.names == Harvested(old(page.names), input.fetch)
        && queue.items == old(queue.items[1..]) + (if outcome.PutBack() then [page] else [])
        && files.contents == (if outcome.MarkedDone() then AfterSave(old(files.contents), page.filename, page.names, input.fault)
                              else old(files.contents))
        && (forall p :: p in old(queue.pages) && p != page ==> p.names == old(p.names))
      ensures queue.unfinished + (if outcome.MarkedDone() then 1 else 0)
           == old(queue.unfinished) + (if outcome.PutBack() then 1 else 0)
    {
      var next := queue.Get();
      if next.None? {
        return Idle;
      }
      var page := next.value;
      var harvested := Harvest(page, input.fetch);
      if harvested.None? {
        queue.Put(page);
        return FetchFailed;
      }
      var c := harvested.value;
      if c >= collisionThreshold {
        var done := queue.TaskDone();
        if !done {
          queue.Put(page);
          return TaskDoneRaised(c);
        }
        var saved := page.SaveNames(files, input.fault);
        if saved {
          outcome := Finalised(c);
        } else {
          queue.Put(page);
          outcome := SaveFailed(c);
        }
      } else {
        queue.Put(page);
        outcome := Requeued(c);
      }
    }

    /** The worker loop over a finite script of environment inputs, one step each.
        When every queued page still counts as an unfinished task, `task_done`
        never raises, and `join` then waits on one extra task for every step
        that put its page back without a `task_done`. */
    method Run(script: seq<StepInput>, files: Files) returns (outcomes: seq<StepOutcome>)
      requires queue.Valid()
      modifies queue, queue.pages, files
      ensures |outcomes| == |script|
      ensures queue.unfinished + Count(outcomes, TasksDone)
           == old(queue.unfinished) + Count(outcomes, PutBacks)
      ensures |queue.items| + Count(outcomes, Finalisations) == |old(queue.items)|
      ensures old(queue.unfinished >= |queue.items|) ==>
                && Count(outcomes, TaskDoneErrors) == 0
                && queue.unfinished == |queue.items| + old(queue.unfinished - |queue.items|)
                                       + Count(outcomes, Stalls)
    {
      outcomes := [];
      for i := 0 to |script|
        invariant |outcomes| == i
        invariant queue.Valid() && queue.pages == old(queue.pages)
        invariant queue.unfinished + Count(outcomes, TasksDone)
               == old(queue.unfinished) + Count(outcomes, PutBacks)
        invariant |queue.items| + Count(outcomes, Finalisations) == |old(queue.items)|
        invariant old(queue.unfinished >= |queue.items|) ==>
                    && queue.unfinished >= |queue.items|
                    && Count(outcomes, TaskDoneErrors) == 0
                    && queue.unfinished == |queue.items| + old(queue.unfinished - |queue.items|)
                                           + Count(outcomes, Stalls)
      {
        var outcome := Step(script[i], files);
        assert (outcomes + [outcome])[..i] == outcomes;
        outcomes := outcomes + [outcome];
      }
    }

    /** The step with `task_done` moved into a `finally`, so that every `get`
        is balanced by exactly one `task_done`. */
    method StepJoinable(input: StepInput, files: Files) returns (outcome: StepOutcome)
      requires queue.Valid() && queue.unfinished >= |queue.items|
      modifies queue, queue.pages, files
      ensures queue.Valid() && queue.pages == old(queue.pages)
      ensures old(queue.items) == [] ==>
                outcome == Idle && queue.items == [] && queue.unfinished == old(queue.unfinished)
                && files.contents == old(files.contents)
      ensures old(queue.items) != [] ==>
        var page := old(queue.items[0]);
        && outcome == Decide(old(page.names), input, collisionThreshold, true)
        && page.names == Harvested(old(page.names), input.fetch)
        && queue.items == old(queue.items[1..]) + (if outcome.PutBack() then [page] else [])
        && files.contents == (if outcome.MarkedDone() then AfterSave(old(files.contents), page.filename, page.names, input.fault)
                              else old(files.contents))
        && (forall p :: p in old(queue.pages) && p != page ==> p.names == old(p.names))
        && queue.unfinished == old(queue.unfinished) - (if outcome.Finalised? then 1 else 0)
      ensures queue.unfinished - |queue.items| == old(queue.unfinished - |queue.items|)
    {
      var next := queue.Get();
      if next.None? {
        return Idle;
      }
      var page := next.value;
      var harvested := Harvest(page, input.fetch);
      if harvested.None? {
        queue.Put(page);
        outcome := FetchFailed;
      } else {
        var c := harvested.value;
        if c >= collisionThreshold {
          var saved := page.SaveNames(files, input.fault);
          if saved {
            outcome := Finalised(c);
          } else {
            queue.Put(page);
            outcome := SaveFailed(c);
          }
        } else {
          queue.Put(page);
          outcome := Requeued(c);
        }
      }
      var done := queue.TaskDone();
      assert done;
    }

    /** The worker loop with the balanced step. Started with one unfinished
        task per queued page, it never raises in `task_done`, and once every
        page is finalised `join` returns. */
    method RunJoinable(script: seq<StepInput>, files: Files) returns (outcomes: seq<StepOutcome>)
      requires queue.Valid() && queue.unfinished >= |queue.items|
      modifies queue, queue.pages, files
      ensures |outcomes| == |script| && Count(outcomes, TaskDoneErrors) == 0
      ensures queue.unfinished - |queue.items| == old(queue.unfinished - |queue.items|)
      ensures |queue.items| + Count(outcomes, Finalisations) == |old(queue.items)|
      ensures old(queue.unfinished == |queue.items|) && queue.items == [] ==> queue.JoinReturns()
    {
      outcomes := [];
      for i := 0 to |script|
        invariant |outcomes| == i && Count(outcomes, TaskDoneErrors) == 0
        invariant queue.Valid() && queue.pages == old(queue.pages)
        invariant queue.unfinished - |queue.items| == old(queue.unfinished - |queue.items|)
        invariant |queue.items| + Count(outcomes, Finalisations) == |old(queue.items)|
      {
        var outcome := StepJoinable(script[i], files);
        assert (outcomes + [outcome])[..i] == outcomes;
        outcomes := outcomes + [outcome];
      }
    }
  }

  /** The two steps of the requeue scenario below, for three distinct plain
      names and threshold 1: [a, b] has no collision and is requeued, [b, c]
      repeats b, converges and is saved as [a, b, c]. */
  lemma RequeueScenarioFacts(a: string, b: string, c: string)
    requires a != b && b != c && a != c
    requires a != "" && b != "" && c != "" && '<' !in a && '<' !in b && '<' !in c
    ensures Decide([], StepInput(Loaded([[a, b]]), NoFault), 1, true) == Requeued(0)
    ensures Harvested([], Loaded([[a, b]])) == [a, b]
    ensures Decide([a, b], StepInput(Loaded([[b, c]]), NoFault), 1, true) == Finalised(1)
    ensures Harvested([a, b], Loaded([[b, c]])) == [a, b, c]
  {
    assert Snapshot([[a, b]]) == [a, b] && Merged([], [a, b]) == [a, b] && Collisions([], [a, b]) == 0 by {
      CleanNamesPlain([a, b]);
      MergedPair([], a, b);
    }
    assert Snapshot([[b, c]]) == [b, c] && Merged([a, b], [b, c]) == [a, b, c] && Collisions([a, b], [b, c]) == 1 by {
      CleanNamesPlain([b, c]);
      MergedPair([a, b], b, c);
    }
  }

  /** One page on the queue; its first fetch stays below the threshold and is
      requeued, its second converges and is saved. As written, every task has
      been handled and the queue is empty, yet `join` still waits on one task. */
  method RequeueThenConverge(first: StepInput, second: StepInput, threshold: int)
    returns (pending: nat, unfinished: nat, saved: seq<string>)
    requires Decide([], first, threshold, true).Requeued?
    requires Decide(Harvested([], first.fetch), second, threshold, true).Finalised?
    ensures pending == 0 && unfinished == 1
    ensures saved == Harvested(Harvested([], first.fetch), second.fetch)
  {
    var files := new Files(map[]);
    var page := new Page("http://names.example/elves", "div.names", "elves.txt");
    var queue := new TaskQueue();
    SeedPages(queue, [page]);
    var worker := new Worker(queue, threshold);
    assert queue.items == [page] && queue.unfinished == 1;
    var r1 := worker.Step(first, files);
    assert queue.items == [page] && queue.unfinished == 2;
    var r2 := worker.Step(second, files);
    pending, unfinished := |queue.items|, queue.unfinished;
    saved := Lines(files.contents, "elves.txt");
  }

  /** The same run with the balanced step: every task is done and `join` returns. */
  method RequeueThenConvergeBalanced(first: StepInput, second: StepInput, threshold: int)
    returns (pending: nat, unfinished: nat, saved: seq<string>)
    requires Decide([], first, threshold, true).Requeued?
    requires Decide(Harvested([], first.fetch), second, threshold, true).Finalised?
    ensures pending == 0 && unfinished == 0
    ensures saved == Harvested(Harvested([], first.fetch), second.fetch)
  {
    var files := new Files(map[]);
    var page := new Page("http://names.example/elves", "div.names", "elves.txt");
    var queue := new TaskQueue();
    SeedPages(queue, [page]);
    var worker := new Worker(queue, threshold);
    assert queue.items == [page] && queue.unfinished == 1;
    var r1 := worker.StepJoinable(first, files);
    assert queue.items == [page] && queue.unfinished == 1;
    var r2 := worker.StepJoinable(second, files);
    pending, unfinished := |queue.items|, queue.unfinished;
    saved := Lines(files.contents, "elves.txt");
  }

  /** A worker built without a threshold finalises a page as soon as a single
      snapshot item was already known. */
  method DefaultWorkerThreshold() returns (threshold: int)
    ensures threshold == 1
  {
    var queue := new TaskQueue();
    var worker := new Worker(queue);
    threshold := worker.collisionThreshold;
  }

  /** Threshold 1: ["Aldric", "Bryn"] has no duplicate and is requeued;
      ["Bryn", "Corwin"] repeats "Bryn" and converges. */
  method JoinAfterRequeue() returns (pending: nat, unfinished: nat, saved: seq<string>)
    ensures pending == 0 && unfinished == 1
    ensures saved == ["Aldric", "Bryn", "Corwin"]
  {
    RequeueScenarioFacts("Aldric", "Bryn", "Corwin");
    pending, unfinished, saved := RequeueThenConverge(
      StepInput(Loaded([["Aldric", "Bryn"]]), NoFault), StepInput(Loaded([["Bryn", "Corwin"]]), NoFault), 1);
  }

  /** The same pages with the balanced step. */
  method JoinAfterRequeueBalanced() returns (pending: nat, unfinished: nat, saved: seq<string>)
    ensures pending == 0 && unfinished == 0
    ensures saved == ["Aldric", "Bryn", "Corwin"]
  {
    RequeueScenarioFacts("Aldric", "Bryn", "Corwin");
    pending, unfinished, saved := RequeueThenConvergeBalanced(
      StepInput(Loaded([["Aldric", "Bryn"]]), NoFault), StepInput(Loaded([["Bryn", "Corwin"]]), NoFault), 1);
  }
}
