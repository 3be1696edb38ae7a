/** Bringing the index back in step with the meta files (app/services/archive_model_index.py and
    app/services/archive_model_index_rebuild.py). A file is its signature; parse gives the model that the
    file of that signature normalises to, if it does. No file changes while a repair or rebuild runs. */
module IndexRepair {
  import opened ModelIndex
  import opened Wrappers

  type Files = map<Dir, Signature>
  type Parser = (Dir, Signature) -> Option<Model>

  const NO_FILE := Signature(0, 0)

  function SignatureOf(files: Files, dir: Dir): Signature {
    if dir in files then files[dir] else NO_FILE
  }

  predicate IsStale(rows: Rows, files: Files, dir: Dir) {
    dir in rows && rows[dir].signature != SignatureOf(files, dir)
  }

  function StaleDirs(rows: Rows, files: Files, order: seq<Dir>): seq<Dir> {
    if order == [] then []
    else (if IsStale(rows, files, order[0]) then [order[0]] else []) + StaleDirs(rows, files, order[1..])
  }

  /** What a repair makes of one directory; None when it fails there. */
  ghost function RepairedOne(rows: Rows, files: Files, parse: Parser, dir: Dir): Option<Rows> {
    if dir !in files then (if dir in rows then Some(Deleted(rows, {dir})) else None)
    else match parse(dir, files[dir])
      case None => None
      case Some(model) => Some(Upserted(rows, dir, model, files[dir]))
  }

  function RepairedTo(one: Option<Rows>, rows: Rows): Rows {
    if one.Some? then one.value else rows
  }

  /** A directory that fails is left as it was, and the repair goes on. */
  ghost function Repaired(rows: Rows, files: Files, parse: Parser, dirs: seq<Dir>): Rows
    decreases |dirs|
  {
    if dirs == [] then rows
    else
      var one := RepairedOne(rows, files, parse, dirs[0]);
      Repaired(RepairedTo(one, rows), files, parse, dirs[1..])
  }

  /** One file entered, if it can be parsed. */
  ghost function EnteredOne(rows: Rows, files: Files, parse: Parser, dir: Dir): Rows
    requires dir in files
  {
    match parse(dir, files[dir])
    case None => rows
    case Some(model) => Upserted(rows, dir, model, files[dir])
  }

  /** A rebuild empties the table and enters every file that can be parsed. */
  ghost function Rebuilt(rows: Rows, files: Files, parse: Parser, dirs: seq<Dir>): Rows
    requires forall dir | dir in dirs :: dir in files
    decreases |dirs|
  {
    if dirs == [] then rows
    else
      Rebuilt(EnteredOne(rows, files, parse, dirs[0]), files, parse, dirs[1..])
  }

  /** Every row says what its stored signature determines, and was entered from an existing file. */
  ghost predicate Faithful(rows: Rows, parse: Parser) {
    forall dir | dir in rows ::
        rows[dir].signature != NO_FILE && parse(dir, rows[dir].signature) == Some(rows[dir].model)
  }

  ghost predicate Lists(order: seq<Dir>, dirs: set<Dir>) {
    forall dir :: dir in order <==> dir in dirs
  }

  lemma {:induction false} StaleDirsAre(rows: Rows, files: Files, order: seq<Dir>, dir: Dir)
    ensures dir in StaleDirs(rows, files, order) <==> dir in order && IsStale(rows, files, dir)
    decreases |order|
  {
    if order != [] { StaleDirsAre(rows, files, order[1..], dir); }
  }

  /** A row is stale when its file has another time or size, or is gone while the row knows one. */
  lemma StaleExactlyWhen(rows: Rows, files: Files, dir: Dir)
    requires dir in rows
    ensures var known := rows[dir].signature;
            IsStale(rows, files, dir) <==>
              if dir in files then known.mtime != files[dir].mtime || known.size != files[dir].size
              else known.mtime != 0 || known.size != 0
  {}

  /** What a repair leaves for one directory, wherever it stands in the list. */
  ghost predicate RepairedAt(before: Rows, after: Rows, files: Files, parse: Parser, dirs: seq<Dir>, dir: Dir) {
    if dir in dirs && dir !in files then dir !in after
    else if dir in dirs && parse(dir, files[dir]).Some? then
      && dir in after && after[dir].signature == files[dir] && Some(after[dir].model) == parse(dir, files[dir])
      && (dir in before && before[dir].shortKey != "" ==> after[dir].shortKey == before[dir].shortKey)
    else
      (dir in after <==> dir in before) && (dir in before ==> after[dir] == before[dir])
  }

  lemma {:induction false} RepairedEverywhere(rows: Rows, files: Files, parse: Parser, dirs: seq<Dir>, dir: Dir)
    ensures RepairedAt(rows, Repaired(rows, files, parse, dirs), files, parse, dirs, dir)
    decreases |dirs|
  {
    if dirs != [] {
      var one := RepairedOne(rows, files, parse, dirs[0]);
      RepairedEverywhere(RepairedTo(one, rows), files, parse, dirs[1..], dir);
    }
  }

  lemma {:induction false} RebuiltEverywhere(rows: Rows, files: Files, parse: Parser, dirs: seq<Dir>, dir: Dir)
    requires forall d | d in dirs :: d in files
    ensures var after := Rebuilt(rows, files, parse, dirs);
            if dir in dirs && parse(dir, files[dir]).Some?
            then dir in after && after[dir].signature == files[dir] && Some(after[dir].model) == parse(dir, files[dir])
            else (dir in after <==> dir in rows) && (dir in rows ==> after[dir] == rows[dir])
    decreases |dirs|
  {
    if dirs != [] {
      assert forall d | d in dirs[1..] :: d in dirs;
      RebuiltEverywhere(EnteredOne(rows, files, parse, dirs[0]), files, parse, dirs[1..], dir);
    }
  }

  /** Main result: repairing the rows that loading found stale changes no other row, leaves stale exactly
      the rows whose file cannot be parsed, keeps every row faithful, and keeps every short key. */
  lemma RepairFixesExactlyTheParsable(rows: Rows, files: Files, parse: Parser, order: seq<Dir>, dir: Dir)
    requires Faithful(rows, parse) && Lists(order, rows.Keys) && (forall d | d in files :: files[d] != NO_FILE)
    ensures var after := Repaired(rows, files, parse, StaleDirs(rows, files, order));
            && (dir in after ==> dir in rows)
            && (!IsStale(rows, files, dir) ==>
                (dir in after <==> dir in rows) && (dir in rows ==> after[dir] == rows[dir]))
            && (IsStale(after, files, dir) <==>
                IsStale(rows, files, dir) && dir in files && parse(dir, files[dir]).None?)
            && (dir in after ==> after[dir].signature != NO_FILE
                                 && parse(dir, after[dir].signature) == Some(after[dir].model))
            && (dir in after && rows[dir].shortKey != "" ==> after[dir].shortKey == rows[dir].shortKey)
  {
    StaleDirsAre(rows, files, order, dir);
    RepairedEverywhere(rows, files, parse, StaleDirs(rows, files, order), dir);
  }

  /** Main result: when every stale row's file can be parsed or is gone, the repaired table holds, for the
      indexed directories, just what a forced rebuild holds, up to short keys, and nothing is stale. */
  lemma {:induction false} RepairRefinesRebuild(rows: Rows, files: Files, parse: Parser, order: seq<Dir>, all: seq<Dir>)
    requires Faithful(rows, parse) && Lists(order, rows.Keys) && Lists(all, files.Keys)
    requires forall d | d in files :: files[d] != NO_FILE
    requires forall d | IsStale(rows, files, d) && d in files :: parse(d, files[d]).Some?
    ensures var after := Repaired(rows, files, parse, StaleDirs(rows, files, order));
            var rebuilt := Rebuilt(map[], files, parse, all);
            && StaleDirs(after, files, order) == []
            && after.Keys == rows.Keys * rebuilt.Keys
            && forall d | d in after :: after[d].signature == rebuilt[d].signature && after[d].model == rebuilt[d].model
  {
    var after := Repaired(rows, files, parse, StaleDirs(rows, files, order));
    var rebuilt := Rebuilt(map[], files, parse, all);
    forall d
      ensures d in after <==> d in rows && d in rebuilt
      ensures d in after ==> after[d].signature == rebuilt[d].signature && after[d].model == rebuilt[d].model
      ensures !IsStale(after, files, d)
    {
      RepairFixesExactlyTheParsable(rows, files, parse, order, d);
      StaleDirsAre(rows, files, order, d);
      RepairedEverywhere(rows, files, parse, StaleDirs(rows, files, order), d);
      RebuiltEverywhere(map[], files, parse, all, d);
    }
    if StaleDirs(after, files, order) != [] {
      StaleDirsAre(after, files, order, StaleDirs(after, files, order)[0]);
    }
  }

  /** A rebuild makes the table faithful to all files that can be parsed, and to nothing else. */
  lemma RebuildIsFaithful(files: Files, parse: Parser, all: seq<Dir>)
    requires Lists(all, files.Keys) && forall d | d in files :: files[d] != NO_FILE
    ensures var rebuilt := Rebuilt(map[], files, parse, all);
            && Faithful(rebuilt, parse)
            && (forall d :: d in rebuilt <==> d in files && parse(d, files[d]).Some?)
            && forall d :: !IsStale(rebuilt, files, d)
  {
    forall d { RebuiltEverywhere(map[], files, parse, all, d); }
  }

  /** A rebuild that is not forced leaves stale exactly the stale rows whose file is gone or cannot be parsed;
      those only a forced one removes. */
  lemma UnforcedRebuildLeaves(rows: Rows, files: Files, parse: Parser, all: seq<Dir>, dir: Dir)
    requires Lists(all, files.Keys)
    ensures var after := Rebuilt(rows, files, parse, all);
            && (IsStale(after, files, dir) <==>
                IsStale(rows, files, dir) && (dir !in files || parse(dir, files[dir]).None?))
            && (dir in after <==> dir in rows || (dir in files && parse(dir, files[dir]).Some?))
  {
    RebuiltEverywhere(rows, files, parse, all, dir);
  }

  // ---------------------------------------------------------------------------------------------
  // The loops of the source

  datatype Tally = Tally(processed: nat, updated: nat, deleted: nat, failed: nat)

  method LoadStale(table: Table, files: Files, order: seq<Dir>) returns (stale: seq<Dir>)
    requires forall dir | dir in order :: dir in table.rows
    ensures stale == StaleDirs(table.rows, files, order)
  {
    stale := [];
    var i := 0;
    while i < |order|
      invariant 0 <= i <= |order|
      invariant StaleDirs(table.rows, files, order) == stale + StaleDirs(table.rows, files, order[i..])
    {
      assert order[i..][1..] == order[i + 1..];
      if table.rows[order[i]].signature != SignatureOf(files, order[i]) { stale := stale + [order[i]]; }
      i := i + 1;
    }
  }

  datatype Outcome = Updated | Removed | Failed

  method RepairOne(table: Table, files: Files, parse: Parser, dir: Dir) returns (outcome: Outcome)
    modifies table
    ensures var one := RepairedOne(old(table.rows), files, parse, dir);
            table.rows == RepairedTo(one, old(table.rows)) && (outcome == Failed <==> one.None?)
    ensures outcome == Removed ==> dir !in files
    ensures table.revision == old(table.revision) + (if outcome == Failed then 0 else 1)
  {
    if dir !in files {
      assert table.rows.Keys * {dir} == if dir in table.rows then {dir} else {};
      assert dir !in table.rows ==> table.rows - {dir} == table.rows;
      var deleted := table.DeleteRows({dir});
      return if deleted == 0 then Failed else Removed;
    }
    var model := parse(dir, files[dir]);
    if model.None? { return Failed; }
    table.UpsertRow(dir, model.value, files[dir]);
    outcome := Updated;
  }

  /** Whether a repair of this directory fails: its file cannot be parsed, or there is nothing to delete. */
  predicate Fails(rows: Rows, files: Files, parse: Parser, dir: Dir) {
    if dir in files then parse(dir, files[dir]).None? else dir !in rows
  }

  /** Each directory counts once: as updated, deleted or failed. */
  method RepairIndex(table: Table, files: Files, parse: Parser, modelDirs: seq<Dir>) returns (result: Tally)
    modifies table
    ensures table.rows == Repaired(old(table.rows), files, parse, Deduplicated(modelDirs))
    ensures result.processed == |Deduplicated(modelDirs)| == result.updated + result.deleted + result.failed
    ensures table.revision == old(table.revision) + result.updated + result.deleted
    ensures result.failed == 0 <==> forall dir | dir in modelDirs :: !Fails(old(table.rows), files, parse, dir)
  {
    result := RepairListed(table, files, parse, Deduplicated(modelDirs));
  }

  /** A repair has handled the first i directories. */
  ghost predicate Handled(start: Rows, rows: Rows, files: Files, parse: Parser, dirs: seq<Dir>, i: nat)
    requires i <= |dirs|
  {
    && Repaired(start, files, parse, dirs) == Repaired(rows, files, parse, dirs[i..])
    && forall k | i <= k < |dirs| :: dirs[k] in rows <==> dirs[k] in start
  }

  lemma HandleNext(start: Rows, rows: Rows, files: Files, parse: Parser, dirs: seq<Dir>, i: nat)
    requires i < |dirs| && Handled(start, rows, files, parse, dirs, i)
    requires forall j, k | 0 <= j < k < |dirs| :: dirs[j] != dirs[k]
    ensures var one := RepairedOne(rows, files, parse, dirs[i]);
            && Handled(start, RepairedTo(one, rows), files, parse, dirs, i + 1)
            && (one.None? <==> Fails(start, files, parse, dirs[i]))
  {
    assert dirs[i..][0] == dirs[i] && dirs[i..][1..] == dirs[i + 1..];
  }

  method RepairListed(table: Table, files: Files, parse: Parser, dirs: seq<Dir>) returns (result: Tally)
    requires forall i, j | 0 <= i < j < |dirs| :: dirs[i] != dirs[j]
    modifies table
    ensures table.rows == Repaired(old(table.rows), files, parse, dirs)
    ensures result.processed == |dirs| == result.updated + result.deleted + result.failed
    ensures table.revision == old(table.revision) + result.updated + result.deleted
    ensures result.failed == 0 <==> forall dir | dir in dirs :: !Fails(old(table.rows), files, parse, dir)
  {
    result := Tally(0, 0, 0, 0);
    ghost var start := table.rows;
    var i := 0;
    assert dirs[0..] == dirs;
    while i < |dirs|
      invariant 0 <= i == result.processed == result.updated + result.deleted + result.failed <= |dirs|
      invariant table.revision == old(table.revision) + result.updated + result.deleted
      invariant Handled(start, table.rows, files, parse, dirs, i)
      invariant result.failed == 0 <==> forall k | 0 <= k < i :: !Fails(start, files, parse, dirs[k])
    {
      HandleNext(start, table.rows, files, parse, dirs, i);
      var outcome := RepairOne(table, files, parse, dirs[i]);
      match outcome {
        case Updated => result := result.(updated := result.updated + 1);
        case Removed => result := result.(deleted := result.deleted + 1);
        case Failed => result := result.(failed := result.failed + 1);
      }
      result := result.(processed := i + 1);
      i := i + 1;
    }
    assert dirs[i..] == [];
  }

  /** A rebuild has entered the first i files. */
  ghost predicate Entered(start: Rows, rows: Rows, files: Files, parse: Parser, dirs: seq<Dir>, i: nat)
    requires i <= |dirs| && forall dir | dir in dirs :: dir in files
  {
    assert forall dir | dir in dirs[i..] :: dir in dirs;
    Rebuilt(start, files, parse, dirs) == Rebuilt(rows, files, parse, dirs[i..])
  }

  lemma EnterNext(start: Rows, rows: Rows, files: Files, parse: Parser, dirs: seq<Dir>, i: nat)
    requires i < |dirs| && (forall dir | dir in dirs :: dir in files) && Entered(start, rows, files, parse, dirs, i)
    ensures Entered(start, EnteredOne(rows, files, parse, dirs[i]), files, parse, dirs, i + 1)
  {
    assert dirs[i..][0] == dirs[i] && dirs[i..][1..] == dirs[i + 1..];
  }

  method EnterFile(table: Table, files: Files, parse: Parser, dir: Dir) returns (entered: bool)
    requires dir in files
    modifies table
    ensures table.rows == EnteredOne(old(table.rows), files, parse, dir) && entered == parse(dir, files[dir]).Some?
  {
    var outcome := RepairOne(table, files, parse, dir);
    entered := outcome != Failed;
  }

  method RebuildListed(table: Table, files: Files, parse: Parser, dirs: seq<Dir>) returns (result: Tally)
    requires forall dir | dir in dirs :: dir in files
    modifies table
    ensures table.rows == Rebuilt(old(table.rows), files, parse, dirs)
    ensures result.processed == |dirs| == result.updated + result.failed && result.deleted == 0
    ensures result.failed == 0 <==> forall i | 0 <= i < |dirs| :: parse(dirs[i], files[dirs[i]]).Some?
  {
    result := Tally(0, 0, 0, 0);
    ghost var start := table.rows;
    var i := 0;
    while i < |dirs|
      invariant 0 <= i == result.processed == result.updated + result.failed <= |dirs| && result.deleted == 0
      invariant Entered(start, table.rows, files, parse, dirs, i)
      invariant result.failed == 0 <==> forall k | 0 <= k < i :: parse(dirs[k], files[dirs[k]]).Some?
    {
      EnterNext(start, table.rows, files, parse, dirs, i);
      var entered := EnterFile(table, files, parse, dirs[i]);
      result := if entered then result.(processed := i + 1, updated := result.updated + 1)
                else result.(processed := i + 1, failed := result.failed + 1);
      i := i + 1;
    }
    assert dirs[i..] == [];
  }

  /** Skipped when not forced and already complete; only a forced rebuild empties the table first. The marker of
      completeness is set again exactly if no file failed. */
  method RebuildIndex(table: Table, files: Files, parse: Parser, dirs: seq<Dir>, force: bool, complete: bool)
      returns (result: Tally, marked: bool)
    requires forall dir | dir in dirs :: dir in files
    modifies table
    ensures !force && complete ==> table.rows == old(table.rows) && marked && result == Tally(0, 0, 0, 0)
    ensures force || !complete ==>
              && table.rows == Rebuilt(if force then map[] else old(table.rows), files, parse, dirs)
              && result.processed == |dirs| == result.updated + result.failed && result.deleted == 0
              && (marked <==> forall i | 0 <= i < |dirs| :: parse(dirs[i], files[dirs[i]]).Some?)
  {
    if !force && complete { return Tally(0, 0, 0, 0), true; }
    if force { table.TruncateRows(); }
    result := RebuildListed(table, files, parse, dirs);
    marked := result.failed == 0;
  }
}
