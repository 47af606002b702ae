/** What a refresh leaves in the index, over any run of complete, cancelled and failed refreshes of any
    scopes (crates/files/src/lib.rs:132-142, 158-251). */
module IndexRuns {
  import opened Bytes
  import opened IndexTables

  // ---------- what a walk records ----------

  datatype FileInfo = FileInfo(size: nat, modified: Option<int>)

  /** The last metadata the walk shows for a path. */
  function LastFound(walk: seq<WalkEntry>, path: Path): Option<FileInfo>
    decreases |walk|
  {
    if walk == [] then None
    else
      var last := walk[|walk| - 1];
      if last.Found? && last.path == path then Some(FileInfo(last.size, last.modified))
      else LastFound(walk[..|walk| - 1], path)
  }

  predicate HasRow(tables: Tables, scope: Path, path: Path) {
    path in tables.files && tables.files[path].scope == scope
  }

  /** The row of `path` is as it was, present or absent. */
  predicate SameRow(before: Tables, after: Tables, path: Path) {
    && (path in before.files <==> path in after.files)
    && (path in before.files ==> before.files[path] == after.files[path])
  }

  predicate Recorded(tables: Tables, root: Path, generation: nat, path: Path, info: FileInfo) {
    path in tables.files && tables.files[path] == Row(root, NameOf(path), info.size, info.modified, generation)
  }

  /** The walk stamps exactly what it finds and touches nothing else. */
  lemma {:induction false} ScanRow(tables: Tables, root: Path, generation: nat, walk: seq<WalkEntry>, path: Path)
    requires Scan(tables, root, generation, walk).Ok?
    ensures var after := Scan(tables, root, generation, walk).value.tables;
            && after.generations == tables.generations
            && match LastFound(walk, path)
               case Some(info) => Recorded(after, root, generation, path, info)
               case None => SameRow(tables, after, path)
    decreases |walk|
  {
    if walk != [] {
      ScanRow(tables, root, generation, walk[..|walk| - 1], path);
    }
  }

  // ---------- exactness of one refresh ----------

  predicate Complete(refreshed: Refreshed) {
    refreshed.result.Ok? && !refreshed.result.value.cancelled
  }

  predicate Cancelled(refreshed: Refreshed) {
    refreshed.result.Ok? && refreshed.result.value.cancelled
  }

  /** A row that a cancelled refresh stamped with the generation the next refresh will use again. */
  predicate Reused(tables: Tables, root: Path, path: Path) {
    HasRow(tables, root, path) && tables.files[path].generation == Current(tables, root) + 1
  }

  /** After a complete refresh, a path is in the scope exactly when the walk found it or a cancelled refresh
      had stamped it; found paths carry the metadata of the walk. */
  lemma {:induction false} RefreshExact(tables: Tables, root: Path, walk: seq<WalkEntry>, patience: nat,
                                        commits: bool, path: Path)
    requires Complete(Refresh(tables, root, walk, patience, commits))
    ensures var after := Refresh(tables, root, walk, patience, commits).tables;
            && (HasRow(after, root, path) <==> LastFound(walk, path).Some? || Reused(tables, root, path))
            && (LastFound(walk, path).Some? ==>
                 Recorded(after, root, Current(tables, root) + 1, path, LastFound(walk, path).value))
            && (LastFound(walk, path).None? && HasRow(after, root, path) ==> SameRow(tables, after, path))
  {
    ScanRow(tables, root, Current(tables, root) + 1, walk, path);
    if LastFound(walk, path).None? {
      assert HasRow(Refresh(tables, root, walk, patience, commits).tables, root, path) <==> Reused(tables, root, path);
    }
  }

  /** So the scope holds exactly the walk's files if and only if the walk found again everything that
      cancelled refreshes had stamped. */
  lemma ExactIff(tables: Tables, root: Path, walk: seq<WalkEntry>, patience: nat, commits: bool)
    requires Complete(Refresh(tables, root, walk, patience, commits))
    ensures var after := Refresh(tables, root, walk, patience, commits).tables;
            (forall path :: HasRow(after, root, path) <==> LastFound(walk, path).Some?)
            <==> (forall path :: Reused(tables, root, path) ==> LastFound(walk, path).Some?)
  {
    forall path
      ensures var after := Refresh(tables, root, walk, patience, commits).tables;
              HasRow(after, root, path) <==> LastFound(walk, path).Some? || Reused(tables, root, path)
    {
      RefreshExact(tables, root, walk, patience, commits, path);
    }
  }

  /** A path that a refresh of another scope does not find keeps its row, and so do the paths a cancelled
      refresh does not reach. */
  lemma Untouched(tables: Tables, root: Path, walk: seq<WalkEntry>, patience: nat, commits: bool, path: Path)
    requires LastFound(Seen(walk, patience), path).None?
    ensures var refreshed := Refresh(tables, root, walk, patience, commits);
            !Complete(refreshed) || !HasRow(tables, root, path) ==> SameRow(tables, refreshed.tables, path)
  {
    var generation := Current(tables, root) + 1;
    if Refresh(tables, root, walk, patience, commits).result.Ok? {
      ScanRow(tables, root, generation, Seen(walk, patience), path);
    }
  }

  // ---------- the search table ----------

  lemma {:induction false} CountWithout(search: seq<SearchRow>, deleted: Path, path: Path)
    ensures Count(Without(search, deleted), path) == if path == deleted then 0 else Count(search, path)
  {
    if search != [] {
      CountWithout(search[1..], deleted, path);
      if search[0].path != deleted {
        assert Without(search, deleted)[1..] == Without(search[1..], deleted);
      }
    }
  }

  lemma {:induction false} CountWithoutAll(search: seq<SearchRow>, deleted: set<Path>, path: Path)
    ensures Count(WithoutAll(search, deleted), path) == if path in deleted then 0 else Count(search, path)
  {
    if search != [] {
      CountWithoutAll(search[1..], deleted, path);
      if search[0].path !in deleted {
        assert WithoutAll(search, deleted)[1..] == WithoutAll(search[1..], deleted);
      }
    }
  }

  lemma {:induction false} CountAppend(search: seq<SearchRow>, row: SearchRow, path: Path)
    ensures Count(search + [row], path) == Count(search, path) + if row.path == path then 1 else 0
  {
    if search == [] {
      assert search + [row] == [row] && [row][1..] == [];
    } else {
      assert (search + [row])[1..] == search[1..] + [row];
      CountAppend(search[1..], row, path);
    }
  }

  lemma {:induction false} WithoutKeeps(search: seq<SearchRow>, deleted: Path)
    ensures forall row :: row in Without(search, deleted) ==> row in search
  {
    if search != [] {
      WithoutKeeps(search[1..], deleted);
    }
  }

  lemma {:induction false} WithoutAllKeeps(search: seq<SearchRow>, deleted: set<Path>)
    ensures forall row :: row in WithoutAll(search, deleted) ==> row in search
  {
    if search != [] {
      WithoutAllKeeps(search[1..], deleted);
    }
  }

  /** `file_search` holds exactly one row for each indexed path, under the name of the file. */
  ghost predicate SearchAgrees(tables: Tables) {
    && (forall path :: Count(tables.search, path) == if path in tables.files then 1 else 0)
    && (forall row :: row in tables.search ==> row.name == NameOf(row.path))
    && (forall path :: path in tables.files ==> tables.files[path].name == NameOf(path))
  }

  lemma RecordAgrees(tables: Tables, root: Path, generation: nat, path: Path, size: nat, modified: Option<int>)
    requires SearchAgrees(tables)
    ensures SearchAgrees(Record(tables, root, generation, path, size, modified))
  {
    var after := Record(tables, root, generation, path, size, modified);
    if !Unchanged(tables, path, size, modified) {
      var row := SearchRow(path, NameOf(path), Relative(root, path));
      WithoutKeeps(tables.search, path);
      forall other ensures Count(after.search, other) == if other in after.files then 1 else 0 {
        CountWithout(tables.search, path, other);
        CountAppend(Without(tables.search, path), row, other);
      }
    }
  }

  lemma {:induction false} ScanAgrees(tables: Tables, root: Path, generation: nat, walk: seq<WalkEntry>)
    requires SearchAgrees(tables) && Scan(tables, root, generation, walk).Ok?
    ensures SearchAgrees(Scan(tables, root, generation, walk).value.tables)
    decreases |walk|
  {
    if walk != [] {
      ScanAgrees(tables, root, generation, walk[..|walk| - 1]);
      var before := Scan(tables, root, generation, walk[..|walk| - 1]).value.tables;
      match walk[|walk| - 1] {
        case Found(path, size, modified) => RecordAgrees(before, root, generation, path, size, modified);
        case _ =>
      }
    }
  }

  lemma PruneAgrees(tables: Tables, root: Path, generation: nat)
    requires SearchAgrees(tables)
    ensures SearchAgrees(Prune(tables, root, generation))
  {
    var stale := Stale(tables, root, generation);
    var after := Prune(tables, root, generation);
    WithoutAllKeeps(tables.search, stale);
    forall path ensures Count(after.search, path) == if path in after.files then 1 else 0 {
      CountWithoutAll(tables.search, stale, path);
    }
  }

  lemma RefreshAgrees(tables: Tables, root: Path, walk: seq<WalkEntry>, patience: nat, commits: bool)
    requires SearchAgrees(tables)
    ensures SearchAgrees(Refresh(tables, root, walk, patience, commits).tables)
  {
    var generation := Current(tables, root) + 1;
    if Refresh(tables, root, walk, patience, commits).result.Ok? {
      ScanAgrees(tables, root, generation, Seen(walk, patience));
      PruneAgrees(Scan(tables, root, generation, Seen(walk, patience)).value.tables, root, generation);
    }
  }

  // ---------- whole runs ----------

  datatype Call = Call(root: Path, walk: seq<WalkEntry>, patience: nat, commits: bool)

  function After(tables: Tables, call: Call): Refreshed {
    Refresh(tables, call.root, call.walk, call.patience, call.commits)
  }

  /** The tables after a run from an empty index. */
  function Run(calls: seq<Call>): Tables
    decreases |calls|
  {
    if calls == [] then Tables(map[], [], map[]) else After(Run(calls[..|calls| - 1]), calls[|calls| - 1]).tables
  }

  /** Whether cancelled refreshes of `root` since its last complete one found `path`. */
  predicate LeftOver(calls: seq<Call>, root: Path, path: Path)
    decreases |calls|
  {
    if calls == [] then false
    else
      var earlier, last := calls[..|calls| - 1], calls[|calls| - 1];
      if last.root == root && Complete(After(Run(earlier), last)) then false
      else
        || (&& last.root == root && Cancelled(After(Run(earlier), last))
            && LastFound(Seen(last.walk, last.patience), path).Some?)
        || LeftOver(earlier, root, path)
  }

  /** Rows never run ahead of their scope by more than one generation, and those that are ahead were stamped
      by a cancelled refresh since the last complete one. */
  predicate Explained(calls: seq<Call>, path: Path) {
    var tables := Run(calls);
    path in tables.files ==>
      var row := tables.files[path];
      && row.generation <= Current(tables, row.scope) + 1
      && (row.generation == Current(tables, row.scope) + 1 ==> LeftOver(calls, row.scope, path))
  }

  lemma {:induction false} RunExplained(calls: seq<Call>, path: Path)
    ensures Explained(calls, path)
    decreases |calls|
  {
    if calls != [] {
      var earlier, last := calls[..|calls| - 1], calls[|calls| - 1];
      RunExplained(earlier, path);
      var tables := Run(earlier);
      if After(tables, last).result.Ok? {
        ScanRow(tables, last.root, Current(tables, last.root) + 1, Seen(last.walk, last.patience), path);
      }
    }
  }

  /** In every run `file_search` agrees with `indexed_files` after each refresh, complete, cancelled or failed. */
  lemma {:induction false} RunAgrees(calls: seq<Call>)
    ensures SearchAgrees(Run(calls))
    decreases |calls|
  {
    if calls != [] {
      var last := calls[|calls| - 1];
      RunAgrees(calls[..|calls| - 1]);
      RefreshAgrees(Run(calls[..|calls| - 1]), last.root, last.walk, last.patience, last.commits);
    }
  }

  /** In every run, after a complete refresh the scope holds exactly the walk's files with the walk's
      metadata, plus only rows that cancelled refreshes since the last complete one had found. */
  lemma IndexExact(calls: seq<Call>, call: Call, path: Path)
    requires Complete(After(Run(calls), call))
    ensures var after := After(Run(calls), call).tables;
            && (LastFound(call.walk, path).Some? ==>
                  Recorded(after, call.root, Current(after, call.root), path, LastFound(call.walk, path).value))
            && (HasRow(after, call.root, path) && LastFound(call.walk, path).None? ==> LeftOver(calls, call.root, path))
  {
    RefreshExact(Run(calls), call.root, call.walk, call.patience, call.commits, path);
    RunExplained(calls, path);
  }

  predicate NoneOf(calls: seq<Call>, root: Path) {
    forall i :: 0 <= i < |calls| ==> calls[i].root != root
  }

  lemma {:induction false} NothingLeftOver(before: seq<Call>, first: Call, others: seq<Call>, path: Path)
    requires Complete(After(Run(before), first)) && NoneOf(others, first.root)
    ensures !LeftOver(before + [first] + others, first.root, path)
    decreases |others|
  {
    var calls := before + [first] + others;
    if others == [] {
      assert calls[..|calls| - 1] == before;
    } else {
      assert calls[..|calls| - 1] == before + [first] + others[..|others| - 1];
      NothingLeftOver(before, first, others[..|others| - 1], path);
    }
  }

  /** A second complete refresh removes every leftover: whatever ran before, and whatever refreshes of other
      scopes come between, the scope then holds exactly the walk's files. */
  lemma SecondRefreshExact(before: seq<Call>, first: Call, others: seq<Call>, second: Call, path: Path)
    requires Complete(After(Run(before), first)) && NoneOf(others, first.root)
    requires second.root == first.root && Complete(After(Run(before + [first] + others), second))
    ensures var after := After(Run(before + [first] + others), second).tables;
            && (HasRow(after, second.root, path) <==> LastFound(second.walk, path).Some?)
            && (LastFound(second.walk, path).Some? ==>
                  Recorded(after, second.root, Current(after, second.root), path, LastFound(second.walk, path).value))
  {
    var calls := before + [first] + others;
    NothingLeftOver(before, first, others, path);
    IndexExact(calls, second, path);
    RefreshExact(Run(calls), second.root, second.walk, second.patience, second.commits, path);
  }

  // ---------- counters ----------

  function FoundCount(walk: seq<WalkEntry>): nat
    decreases |walk|
  {
    if walk == [] then 0 else FoundCount(walk[..|walk| - 1]) + if walk[|walk| - 1].Found? then 1 else 0
  }

  function SkippedCount(walk: seq<WalkEntry>): nat
    decreases |walk|
  {
    if walk == [] then 0 else SkippedCount(walk[..|walk| - 1]) + if walk[|walk| - 1].Skipped? then 1 else 0
  }

  /** The report counts what the walk showed, and the rows it removed are those that are gone. */
  lemma {:induction false} ScanCounts(tables: Tables, root: Path, generation: nat, walk: seq<WalkEntry>)
    requires Scan(tables, root, generation, walk).Ok?
    ensures var progress := Scan(tables, root, generation, walk).value;
            && progress.scanned == FoundCount(walk) && progress.skipped == SkippedCount(walk)
            && progress.updated <= progress.scanned
            && tables.files.Keys <= progress.tables.files.Keys
            && |progress.tables.files| <= |tables.files| + progress.updated
    decreases |walk|
  {
    if walk != [] {
      ScanCounts(tables, root, generation, walk[..|walk| - 1]);
      var before := Scan(tables, root, generation, walk[..|walk| - 1]).value;
      VisitCounts(before, root, generation, walk[|walk| - 1]);
    }
  }

  lemma VisitCounts(before: Progress, root: Path, generation: nat, entry: WalkEntry)
    requires Visit(before, root, generation, entry).Ok?
    ensures var after := Visit(before, root, generation, entry).value;
            && after.scanned == before.scanned + (if entry.Found? then 1 else 0)
            && after.skipped == before.skipped + (if entry.Skipped? then 1 else 0)
            && before.updated <= after.updated
            && after.updated - before.updated <= after.scanned - before.scanned
            && before.tables.files.Keys <= after.tables.files.Keys
            && |after.tables.files| - |before.tables.files| <= after.updated - before.updated
  {
    match entry {
      case Found(path, size, modified) =>
        var after := Record(before.tables, root, generation, path, size, modified);
        assert after.files.Keys == before.tables.files.Keys + {path};
      case _ =>
    }
  }

  lemma ReportCounts(tables: Tables, root: Path, walk: seq<WalkEntry>, patience: nat, commits: bool)
    requires Refresh(tables, root, walk, patience, commits).result.Ok?
    ensures var refreshed := Refresh(tables, root, walk, patience, commits);
            var report := refreshed.result.value;
            && report.scanned == FoundCount(Seen(walk, patience))
            && report.skipped == SkippedCount(Seen(walk, patience))
            && report.updated <= report.scanned
            && |refreshed.tables.files| + report.removed <= |tables.files| + report.updated
            && (report.cancelled <==> patience < |walk|)
            && (report.cancelled ==> report.removed == 0 && tables.files.Keys <= refreshed.tables.files.Keys)
  {
    var generation := Current(tables, root) + 1;
    ScanCounts(tables, root, generation, Seen(walk, patience));
    var scanned := Scan(tables, root, generation, Seen(walk, patience)).value.tables;
    var stale := Stale(scanned, root, generation);
    assert stale <= scanned.files.Keys;
    assert (scanned.files - stale).Keys == scanned.files.Keys - stale;
  }

  // ---------- where the search path can be out of date ----------

  ghost predicate PathShown(tables: Tables, path: Path, searchable: string) {
    exists row :: row in tables.search && row.path == path && row.searchable == searchable
  }

  /** The searchable path of a recorded file is the one below its new root exactly when the file's metadata
      changed or it was already shown that way: a file that moves between nested scopes unchanged keeps the
      path below its old root. */
  lemma SearchablePathIff(tables: Tables, root: Path, generation: nat, path: Path, size: nat, modified: Option<int>)
    ensures PathShown(Record(tables, root, generation, path, size, modified), path, Relative(root, path))
       <==> !Unchanged(tables, path, size, modified) || PathShown(tables, path, Relative(root, path))
  {
    var after := Record(tables, root, generation, path, size, modified);
    if !Unchanged(tables, path, size, modified) {
      assert after.search[|after.search| - 1] == SearchRow(path, NameOf(path), Relative(root, path));
      assert SearchRow(path, NameOf(path), Relative(root, path)) in after.search;
    }
  }

  predicate AllShown(tables: Tables, path: Path, searchable: string) {
    forall row :: row in tables.search && row.path == path ==> row.searchable == searchable
  }

  /** The walk finds the path with metadata that its row did not have. */
  predicate Rewrites(tables: Tables, walk: seq<WalkEntry>, path: Path) {
    exists i :: 0 <= i < |walk| && walk[i].Found? && walk[i].path == path
                && !Unchanged(tables, path, walk[i].size, walk[i].modified)
  }

  /** The root of the last committed refresh that found the path with new metadata. */
  function WrittenUnder(calls: seq<Call>, path: Path): Path
    decreases |calls|
  {
    if calls == [] then ""
    else
      var earlier, last := calls[..|calls| - 1], calls[|calls| - 1];
      if After(Run(earlier), last).result.Ok? && Rewrites(Run(earlier), Seen(last.walk, last.patience), path)
      then last.root else WrittenUnder(earlier, path)
  }

  lemma {:induction false} WithoutDrops(search: seq<SearchRow>, deleted: Path)
    ensures forall row :: row in Without(search, deleted) ==> row.path != deleted
  {
    if search != [] {
      WithoutDrops(search[1..], deleted);
    }
  }

  lemma RecordShows(tables: Tables, root: Path, generation: nat, found: Path, size: nat, modified: Option<int>,
                    path: Path, shown: string)
    requires AllShown(tables, path, shown)
    ensures AllShown(Record(tables, root, generation, found, size, modified), path,
                     if found == path && !Unchanged(tables, path, size, modified) then Relative(root, path) else shown)
  {
    WithoutKeeps(tables.search, found);
    WithoutDrops(tables.search, found);
  }

  /** The row has the metadata it had, if it had any. */
  predicate SameInfo(before: Tables, after: Tables, path: Path) {
    && (path in before.files <==> path in after.files)
    && (path in before.files ==> before.files[path].size == after.files[path].size
                                 && before.files[path].modified == after.files[path].modified)
  }

  lemma RewritesOneMore(tables: Tables, walk: seq<WalkEntry>, path: Path)
    requires walk != []
    ensures var last := walk[|walk| - 1];
            Rewrites(tables, walk, path) <==>
              || Rewrites(tables, walk[..|walk| - 1], path)
              || (last.Found? && last.path == path && !Unchanged(tables, path, last.size, last.modified))
  {
    var earlier := walk[..|walk| - 1];
    if i :| 0 <= i < |earlier| && earlier[i].Found? && earlier[i].path == path
            && !Unchanged(tables, path, earlier[i].size, earlier[i].modified) {
      assert walk[i] == earlier[i];
    }
    if i :| 0 <= i < |walk| && walk[i].Found? && walk[i].path == path
            && !Unchanged(tables, path, walk[i].size, walk[i].modified) {
      if i < |earlier| {
        assert earlier[i] == walk[i];
      }
    }
  }

  lemma {:induction false} ScanShows(tables: Tables, root: Path, generation: nat, walk: seq<WalkEntry>, path: Path,
                                     shown: string)
    requires Scan(tables, root, generation, walk).Ok? && AllShown(tables, path, shown)
    ensures var after := Scan(tables, root, generation, walk).value.tables;
            && AllShown(after, path, if Rewrites(tables, walk, path) then Relative(root, path) else shown)
            && (!Rewrites(tables, walk, path) ==> SameInfo(tables, after, path))
    decreases |walk|
  {
    if walk != [] {
      var earlier, last := walk[..|walk| - 1], walk[|walk| - 1];
      ScanShows(tables, root, generation, earlier, path, shown);
      RewritesOneMore(tables, walk, path);
      VisitShows(Scan(tables, root, generation, earlier).value, root, generation, last, path,
                 if Rewrites(tables, earlier, path) then Relative(root, path) else shown);
    }
  }

  lemma VisitShows(before: Progress, root: Path, generation: nat, entry: WalkEntry, path: Path, shown: string)
    requires Visit(before, root, generation, entry).Ok? && AllShown(before.tables, path, shown)
    ensures var after := Visit(before, root, generation, entry).value.tables;
            var rewritten := entry.Found? && entry.path == path
                             && !Unchanged(before.tables, path, entry.size, entry.modified);
            && AllShown(after, path, if rewritten then Relative(root, path) else shown)
            && (!rewritten ==> SameInfo(before.tables, after, path))
  {
    match entry {
      case Found(found, size, modified) =>
        RecordShows(before.tables, root, generation, found, size, modified, path, shown);
      case _ =>
    }
  }

  lemma {:induction false} RunShows(calls: seq<Call>, path: Path)
    ensures AllShown(Run(calls), path, Relative(WrittenUnder(calls, path), path))
    decreases |calls|
  {
    if calls != [] {
      var earlier, last := calls[..|calls| - 1], calls[|calls| - 1];
      RunShows(earlier, path);
      var tables, generation := Run(earlier), Current(Run(earlier), last.root) + 1;
      if After(tables, last).result.Ok? {
        var seen := Seen(last.walk, last.patience);
        ScanShows(tables, last.root, generation, seen, path, Relative(WrittenUnder(earlier, path), path));
        var scanned := Scan(tables, last.root, generation, seen).value.tables;
        WithoutAllKeeps(scanned.search, Stale(scanned, last.root, generation));
      }
    }
  }

  lemma {:induction false} CountedIsIn(search: seq<SearchRow>, path: Path)
    requires Count(search, path) > 0
    ensures exists row :: row in search && row.path == path
  {
    if search[0].path == path {
      assert search[0] in search;
    } else {
      CountedIsIn(search[1..], path);
      var row :| row in search[1..] && row.path == path;
      assert row in search;
    }
  }

  /** In every run, an indexed path is shown as the path below the root of the last refresh that found it with
      new metadata, and as nothing else. So it is out of date exactly if that root and the scope it belongs to
      now give different paths. */
  lemma SearchablePathExact(calls: seq<Call>, path: Path)
    requires path in Run(calls).files
    ensures var tables, root := Run(calls), WrittenUnder(calls, path);
            && (forall searchable :: PathShown(tables, path, searchable) <==> searchable == Relative(root, path))
            && (!PathShown(tables, path, Relative(tables.files[path].scope, path))
                <==> Relative(root, path) != Relative(tables.files[path].scope, path))
  {
    RunShows(calls, path);
    RunAgrees(calls);
    CountedIsIn(Run(calls).search, path);
  }

  /** For instance: indexed under `/a`, then found with the same metadata under `/a/b`. */
  lemma NestedScopeExample()
    ensures var outer := Record(Tables(map[], [], map[]), "/a", 1, "/a/b/x", 0, None);
            var inner := Record(outer, "/a/b", 1, "/a/b/x", 0, None);
            && HasRow(inner, "/a/b", "/a/b/x") && Relative("/a/b", "/a/b/x") == "x"
            && PathShown(inner, "/a/b/x", "b/x") && !PathShown(inner, "/a/b/x", "x")
  {
    var outer := Record(Tables(map[], [], map[]), "/a", 1, "/a/b/x", 0, None);
    assert "/a/b/x"[|"/a"|..] == "/b/x" && "/a/b/x"[|"/a/b"|..] == "/x";
    assert outer.search == [SearchRow("/a/b/x", NameOf("/a/b/x"), "b/x")];
    assert outer.search[0] in outer.search;
    SearchablePathIff(outer, "/a/b", 1, "/a/b/x", 0, None);
  }

  /** For instance: a cancelled refresh of `/a` stamps `/a/x`, the file is deleted, and the next refresh is
      complete and finds nothing; the row is still there. */
  lemma StaleRowExample()
    ensures var cancelled := Call("/a", [Found("/a/x", 0, None), NotAFile], 1, true);
            var complete := Call("/a", [], 0, true);
            && Cancelled(After(Run([]), cancelled)) && Complete(After(Run([cancelled]), complete))
            && HasRow(Run([cancelled, complete]), "/a", "/a/x")
            && LastFound(complete.walk, "/a/x").None?
  {
    var cancelled := Call("/a", [Found("/a/x", 0, None), NotAFile], 1, true);
    var complete := Call("/a", [], 0, true);
    var seen := [Found("/a/x", 0, None)];
    assert [cancelled, complete][..1] == [cancelled] && [cancelled][..0] == [];
    assert Seen(cancelled.walk, 1) == seen && seen[..0] == [];
    var empty := Tables(map[], [], map[]);
    assert Run([]) == empty && Scan(empty, "/a", 1, []) == Ok(Progress(empty, 0, 0, 0));
    var stamped := Record(empty, "/a", 1, "/a/x", 0, None);
    assert Scan(empty, "/a", 1, seen) == Ok(Progress(stamped, 1, 1, 0));
    assert Run([cancelled]) == stamped && Current(stamped, "/a") == 0;
    assert Seen([], 0) == [] && Complete(Refresh(stamped, "/a", [], 0, true));
    RefreshExact(stamped, "/a", [], 0, true, "/a/x");
  }
}
