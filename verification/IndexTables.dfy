/** The file index and its refresh (crates/files/src/lib.rs:87-252) over its three tables. */
module IndexTables {
  import opened Bytes

  type Path = string

  const MAX_I64: nat := 0x7FFF_FFFF_FFFF_FFFF

  /** One row of `indexed_files`, keyed by its path. */
  datatype Row = Row(scope: Path, name: string, size: nat, modified: Option<int>, generation: nat)

  /** One row of the full-text table `file_search`, which has no key. */
  datatype SearchRow = SearchRow(path: Path, name: string, searchable: string)

  datatype Tables = Tables(files: map<Path, Row>, search: seq<SearchRow>, generations: map<Path, nat>)

  datatype IndexError = GenerationOverflow | NonUtf8Path | FileTooLarge | DatabaseFailed

  datatype Report = Report(scanned: nat, updated: nat, removed: nat, skipped: nat, cancelled: bool)

  /** One step of the directory walk. `Skipped` stands for every recoverable failure: an unreadable entry, no
      file type, a path that leaves the root, or missing metadata; `Unrecorded` is a file on which a statement
      of the database fails. */
  datatype WalkEntry =
    | Skipped
    | NotAFile
    | NonUtf8
    | Unrecorded
    | Found(path: Path, size: nat, modified: Option<int>)

  /** The last component of a path. */
  function NameOf(path: Path): string {
    if path == [] then []
    else if path[|path| - 1] == '/' then []
    else NameOf(path[..|path| - 1]) + [path[|path| - 1]]
  }

  /** The path below the root (`strip_prefix`), or the path itself when it is elsewhere. */
  function Relative(root: Path, path: Path): string {
    if root <= path then
      var rest := path[|root|..];
      if rest != [] && rest[0] == '/' then rest[1..] else rest
    else path
  }

  // ---------- the search table ----------

  /** `DELETE FROM file_search WHERE path = ?`. */
  function Without(search: seq<SearchRow>, path: Path): seq<SearchRow> {
    if search == [] then []
    else if search[0].path == path then Without(search[1..], path)
    else [search[0]] + Without(search[1..], path)
  }

  function WithoutAll(search: seq<SearchRow>, paths: set<Path>): seq<SearchRow> {
    if search == [] then []
    else if search[0].path in paths then WithoutAll(search[1..], paths)
    else [search[0]] + WithoutAll(search[1..], paths)
  }

  function Count(search: seq<SearchRow>, path: Path): nat {
    if search == [] then 0 else (if search[0].path == path then 1 else 0) + Count(search[1..], path)
  }

  // ---------- recording one file ----------

  predicate Unchanged(tables: Tables, path: Path, size: nat, modified: Option<int>) {
    path in tables.files && tables.files[path].size == size && tables.files[path].modified == modified
  }

  /** Upsert the row; rewrite the search row only when the metadata changed. */
  function Record(tables: Tables, root: Path, generation: nat, path: Path, size: nat, modified: Option<int>): Tables {
    Tables(tables.files[path := Row(root, NameOf(path), size, modified, generation)],
           if Unchanged(tables, path, size, modified) then tables.search
           else Without(tables.search, path) + [SearchRow(path, NameOf(path), Relative(root, path))],
           tables.generations)
  }

  // ---------- the walk ----------

  datatype Progress = Progress(tables: Tables, scanned: nat, updated: nat, skipped: nat)

  function Visit(progress: Progress, root: Path, generation: nat, entry: WalkEntry): Result<Progress, IndexError> {
    match entry
    case Skipped => Ok(progress.(skipped := progress.skipped + 1))
    case NotAFile => Ok(progress)
    case NonUtf8 => Err(NonUtf8Path)
    case Unrecorded => Err(DatabaseFailed)
    case Found(path, size, modified) =>
      if size > MAX_I64 then Err(FileTooLarge)
      else
        var changed := if Unchanged(progress.tables, path, size, modified) then 0 else 1;
        Ok(Progress(Record(progress.tables, root, generation, path, size, modified),
                    progress.scanned + 1, progress.updated + changed, progress.skipped))
  }

  function Scan(tables: Tables, root: Path, generation: nat, walk: seq<WalkEntry>): Result<Progress, IndexError>
    decreases |walk|
  {
    if walk == [] then Ok(Progress(tables, 0, 0, 0))
    else
      match Scan(tables, root, generation, walk[..|walk| - 1])
      case Err(error) => Err(error)
      case Ok(progress) => Visit(progress, root, generation, walk[|walk| - 1])
  }

  // ---------- pruning ----------

  function Stale(tables: Tables, root: Path, generation: nat): set<Path> {
    set path | path in tables.files && tables.files[path].scope == root && tables.files[path].generation != generation
  }

  function Prune(tables: Tables, root: Path, generation: nat): Tables {
    var stale := Stale(tables, root, generation);
    Tables(tables.files - stale, WithoutAll(tables.search, stale), tables.generations[root := generation])
  }

  // ---------- refresh ----------

  function Current(tables: Tables, scope: Path): nat {
    if scope in tables.generations then tables.generations[scope] else 0
  }

  /** What the walk shows before cancellation, if it comes. */
  function Seen(walk: seq<WalkEntry>, patience: nat): seq<WalkEntry> {
    if patience < |walk| then walk[..patience] else walk
  }

  datatype Refreshed = Refreshed(tables: Tables, result: Result<Report, IndexError>)

  /** One refresh in one transaction: it commits as a whole or, on an error, not at all. Cancellation shows
      after `patience` steps of the walk, and commits what was recorded without pruning. `commits` is whether the
      statements after the walk work, of which the last one commits. */
  function Refresh(tables: Tables, root: Path, walk: seq<WalkEntry>, patience: nat, commits: bool): Refreshed {
    var generation := Current(tables, root) + 1;
    if generation > MAX_I64 then Refreshed(tables, Err(GenerationOverflow))
    else
      match Scan(tables, root, generation, Seen(walk, patience))
      case Err(error) => Refreshed(tables, Err(error))
      case Ok(progress) =>
        if !commits then Refreshed(tables, Err(DatabaseFailed))
        else if patience < |walk| then
          Refreshed(progress.tables, Ok(Report(progress.scanned, progress.updated, 0, progress.skipped, true)))
        else
          Refreshed(Prune(progress.tables, root, generation),
                    Ok(Report(progress.scanned, progress.updated, |Stale(progress.tables, root, generation)|,
                              progress.skipped, false)))
  }
}
