/** The refresh as it runs. */
module FileIndex {
  import opened Bytes
  import opened IndexTables

  lemma {:induction false} WithoutAllNone(search: seq<SearchRow>)
    ensures WithoutAll(search, {}) == search
  {
    if search != [] {
      WithoutAllNone(search[1..]);
    }
  }

  lemma {:induction false} WithoutAllOneMore(search: seq<SearchRow>, paths: set<Path>, path: Path)
    ensures Without(WithoutAll(search, paths), path) == WithoutAll(search, paths + {path})
  {
    if search != [] {
      WithoutAllOneMore(search[1..], paths, path);
      if search[0].path !in paths {
        assert WithoutAll(search, paths)[1..] == WithoutAll(search[1..], paths);
      }
    }
  }

  class Index {
    var tables: Tables

    constructor ()
      ensures tables == Tables(map[], [], map[])
    {
      tables := Tables(map[], [], map[]);
    }

    /** Refresh one scope. The transaction works on its own copy, which replaces the tables on commit. */
    method Refresh(root: Path, walk: seq<WalkEntry>, patience: nat, commits: bool)
      returns (result: Result<Report, IndexError>)
      modifies this
      ensures Refreshed(tables, result) == IndexTables.Refresh(old(tables), root, walk, patience, commits)
    {
      var generation := Current(tables, root) + 1;
      if generation > MAX_I64 {
        return Err(GenerationOverflow);
      }
      var transaction := tables;
      var scanned, updated, skipped, cancelled, visited := 0, 0, 0, false, 0;
      while visited < |walk| && !cancelled
        invariant tables == old(tables) && visited <= |walk| && visited <= patience
        invariant cancelled ==> visited == patience < |walk|
        invariant Scan(tables, root, generation, walk[..visited])
                == Ok(Progress(transaction, scanned, updated, skipped))
        decreases |walk| - visited, !cancelled
      {
        if visited == patience {
          cancelled := true;
        } else {
          ghost var progress := Progress(transaction, scanned, updated, skipped);
          var entry := walk[visited];
          ScanMore(tables, root, generation, walk, visited, Seen(walk, patience));
          match entry {
            case Skipped =>
              skipped := skipped + 1;
            case NotAFile =>
            case NonUtf8 =>
              WalkFails(tables, root, walk, patience, commits, NonUtf8Path);
              return Err(NonUtf8Path);
            case Unrecorded =>
              WalkFails(tables, root, walk, patience, commits, DatabaseFailed);
              return Err(DatabaseFailed);
            case Found(path, size, modified) =>
              if size > MAX_I64 {
                WalkFails(tables, root, walk, patience, commits, FileTooLarge);
                return Err(FileTooLarge);
              }
              var changed;
              transaction, changed := RecordFile(transaction, root, generation, path, size, modified);
              updated := updated + if changed then 1 else 0;
              scanned := scanned + 1;
          }
          visited := visited + 1;
        }
      }
      assert walk[..visited] == Seen(walk, patience);
      var removed := 0;
      if !cancelled {
        transaction, removed := DeleteStale(transaction, root, generation);
      }
      if !commits {
        return Err(DatabaseFailed);
      }
      tables := transaction;
      return Ok(Report(scanned, updated, removed, skipped, cancelled));
    }
  }

  /** Upsert one found file, and rewrite its search row when its metadata changed. */
  method RecordFile(before: Tables, root: Path, generation: nat, path: Path, size: nat, modified: Option<int>)
    returns (after: Tables, changed: bool)
    ensures after == Record(before, root, generation, path, size, modified)
    ensures changed == !Unchanged(before, path, size, modified)
  {
    changed := !(path in before.files && before.files[path].size == size && before.files[path].modified == modified);
    after := before.(files := before.files[path := Row(root, NameOf(path), size, modified, generation)]);
    if changed {
      after := after.(search := Without(after.search, path));
      after := after.(search := after.search + [SearchRow(path, NameOf(path), Relative(root, path))]);
    }
  }

  /** The first failing step decides the outcome of the whole walk. */
  lemma ScanMore(tables: Tables, root: Path, generation: nat, walk: seq<WalkEntry>, visited: nat, seen: seq<WalkEntry>)
    requires visited < |walk| && seen <= walk && visited < |seen|
    ensures var before := Scan(tables, root, generation, walk[..visited]);
            before.Ok? ==>
              && Scan(tables, root, generation, walk[..visited + 1])
                   == Visit(before.value, root, generation, walk[visited])
              && (Visit(before.value, root, generation, walk[visited]).Err? ==>
                    Scan(tables, root, generation, seen) == Visit(before.value, root, generation, walk[visited]))
  {
    assert walk[..visited + 1][..visited] == walk[..visited];
    var before := Scan(tables, root, generation, walk[..visited]);
    if before.Ok? && Visit(before.value, root, generation, walk[visited]).Err? {
      ErrorStays(tables, root, generation, seen, visited + 1);
      assert seen[..visited + 1] == walk[..visited + 1];
    }
  }

  lemma WalkFails(tables: Tables, root: Path, walk: seq<WalkEntry>, patience: nat, commits: bool, error: IndexError)
    requires Current(tables, root) + 1 <= MAX_I64
    requires Scan(tables, root, Current(tables, root) + 1, Seen(walk, patience)) == Err(error)
    ensures IndexTables.Refresh(tables, root, walk, patience, commits) == Refreshed(tables, Err(error))
  {
  }

  lemma {:induction false} ErrorStays(tables: Tables, root: Path, generation: nat, walk: seq<WalkEntry>, failed: nat)
    requires failed <= |walk| && Scan(tables, root, generation, walk[..failed]).Err?
    ensures Scan(tables, root, generation, walk) == Scan(tables, root, generation, walk[..failed])
    decreases |walk|
  {
    if failed < |walk| {
      assert walk[..|walk| - 1][..failed] == walk[..failed];
      ErrorStays(tables, root, generation, walk[..|walk| - 1], failed);
    } else {
      assert walk[..failed] == walk;
    }
  }

  /** Delete the rows of the scope that the walk did not stamp, from both tables. */
  method DeleteStale(before: Tables, root: Path, generation: nat) returns (after: Tables, removed: nat)
    ensures after == Prune(before, root, generation) && removed == |Stale(before, root, generation)|
  {
    var stale := Stale(before, root, generation);
    var remaining, search := stale, before.search;
    WithoutAllNone(search);
    assert stale - remaining == {};
    while remaining != {}
      invariant remaining <= stale
      invariant search == WithoutAll(before.search, stale - remaining)
      decreases |remaining|
    {
      var path :| path in remaining;
      WithoutAllOneMore(before.search, stale - remaining, path);
      assert stale - remaining + {path} == stale - (remaining - {path});
      search := Without(search, path);
      remaining := remaining - {path};
    }
    assert stale - remaining == stale;
    removed := |stale|;
    after := Tables(before.files - stale, search, before.generations[root := generation]);
  }
}
