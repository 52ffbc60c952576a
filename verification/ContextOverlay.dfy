/** Immutable base context plus a small overlay with tombstones, per source snapshot. */
module ContextOverlay {
  import opened GraphSnapshot
  import opened SymbolKeys

  /** What the indexer saw in one file; `textHash` is that of its normalised text, which other contents can share. */
  datatype FileIr = FileIr(contentHash: ContentHash, textHash: ContentHash, symbols: seq<Symbol>, routes: seq<Symbol>)
  {
    function Entries(): seq<Symbol> {
      symbols + routes
    }
  }

  /** `describe` gives hash and facts of a symbol's summary; calls can make them depend on other files. */
  datatype Graph = Graph(files: map<FilePath, FileIr>, describe: (FilePath, nat) -> (ContentHash, string))

  datatype Summary = Summary(id: SymbolKey, contentHash: ContentHash, facts: string)

  datatype SymbolRow = SymbolRow(id: SymbolKey, path: FilePath, textHash: ContentHash)

  type SummaryTable = map<SymbolKey, Summary>

  // ---------------------------------------------------------------- derived tables

  predicate Summarized(g: Graph, path: FilePath, k: nat) {
    path in g.files && k < |g.files[path].symbols| && g.files[path].symbols[k].kind != "route"
  }

  ghost function EntryKey(g: Graph, path: FilePath, k: nat): SymbolKey
    requires path in g.files && k < |g.files[path].Entries()|
  {
    KeyAt(path, g.files[path].Entries(), k)
  }

  ghost function SummaryAt(g: Graph, path: FilePath, k: nat): Summary
    requires Summarized(g, path, k)
  {
    Summary(EntryKey(g, path, k), g.describe(path, k).0, g.describe(path, k).1)
  }

  ghost predicate DescribesAll(g: Graph, paths: set<FilePath>, t: SummaryTable) {
    && (forall path, k: nat :: path in paths && Summarized(g, path, k) ==>
          EntryKey(g, path, k) in t && t[EntryKey(g, path, k)] == SummaryAt(g, path, k))
    && (forall id :: id in t ==> exists k: nat :: id.path in paths && Summarized(g, id.path, k) && EntryKey(g, id.path, k) == id)
  }

  /** The summaries computed from scratch for one graph. */
  ghost predicate IsSummaryTable(g: Graph, t: SummaryTable) {
    DescribesAll(g, g.files.Keys, t)
  }

  lemma SummaryTableIsUnique(g: Graph, t: SummaryTable, u: SummaryTable)
    requires IsSummaryTable(g, t) && IsSummaryTable(g, u)
    ensures t == u
  {
    forall id
      ensures id in t <==> id in u
      ensures id in t && id in u ==> t[id] == u[id]
    {
    }
  }

  /** Rows of one file: every symbol and route, or a placeholder for a file without any. */
  ghost function FileRows(g: Graph, path: FilePath): set<SymbolRow>
    requires path in g.files
  {
    var entries := g.files[path].Entries();
    if entries == [] then {SymbolRow(SymbolKey(path, "file", path, None), path, g.files[path].textHash)}
    else set k: nat | k < |entries| :: SymbolRow(KeyAt(path, entries, k), path, entries[k].textHash)
  }

  ghost function SnapshotRows(g: Graph, paths: set<FilePath>): set<SymbolRow> {
    set path, row | path in paths && path in g.files && row in FileRows(g, path) :: row
  }

  function RowIds(rows: set<SymbolRow>): set<SymbolKey> {
    set r | r in rows :: r.id
  }

  function FileHashes(g: Graph): map<FilePath, ContentHash> {
    map path | path in g.files :: g.files[path].contentHash
  }

  function ChangedPaths(prior: map<FilePath, ContentHash>, current: map<FilePath, ContentHash>): set<FilePath> {
    set path | path in prior.Keys + current.Keys && Lookup(prior, path) != Lookup(current, path)
  }

  lemma RowsAreUniqueById(g: Graph, paths: set<FilePath>, a: SymbolRow, b: SymbolRow)
    requires a in SnapshotRows(g, paths) && b in SnapshotRows(g, paths) && a.id == b.id
    ensures a == b
  {
    var path := a.id.path;
    assert a in FileRows(g, path) && b in FileRows(g, path);
    var entries := g.files[path].Entries();
    if entries != [] {
      var i: nat :| i < |entries| && a == SymbolRow(KeyAt(path, entries, i), path, entries[i].textHash);
      var j: nat :| j < |entries| && b == SymbolRow(KeyAt(path, entries, j), path, entries[j].textHash);
      KeysAreInjective(path, entries, i, j);
    }
  }

  method FileTable(g: Graph, path: FilePath) returns (t: SummaryTable, rows: set<SymbolRow>)
    requires path in g.files
    ensures DescribesAll(g, {path}, t) && rows == FileRows(g, path)
  {
    var f := g.files[path];
    var entries := f.Entries();
    var keys := StableSymbolKeys(path, entries);
    t, rows := map[], {};
    if entries == [] {
      rows := {SymbolRow(SymbolKey(path, "file", path, None), path, f.textHash)};
    }
    for k := 0 to |entries|
      invariant entries == [] ==> rows == FileRows(g, path)
      invariant entries != [] ==> rows == set i: nat | i < k :: SymbolRow(KeyAt(path, entries, i), path, entries[i].textHash)
      invariant DescribesFirst(g, path, k, t)
    {
      rows := rows + {SymbolRow(keys[k], path, entries[k].textHash)};
      t := SummarizeEntry(g, path, k, keys[k], t);
    }
  }

  /** The summaries of the first `n` entries of one file. */
  ghost predicate DescribesFirst(g: Graph, path: FilePath, n: nat, t: SummaryTable)
    requires path in g.files
  {
    && (forall i: nat :: i < n && Summarized(g, path, i) ==>
          EntryKey(g, path, i) in t && t[EntryKey(g, path, i)] == SummaryAt(g, path, i))
    && (forall id :: id in t ==> exists i: nat :: i < n && id.path == path && Summarized(g, path, i) && EntryKey(g, path, i) == id)
  }

  /** Adds the summary of the next entry, if it is a symbol that has one. */
  method SummarizeEntry(g: Graph, path: FilePath, k: nat, key: SymbolKey, t: SummaryTable) returns (grown: SummaryTable)
    requires path in g.files && k < |g.files[path].Entries()| && key == KeyAt(path, g.files[path].Entries(), k)
    requires DescribesFirst(g, path, k, t)
    ensures DescribesFirst(g, path, k + 1, grown)
  {
    var f := g.files[path];
    grown := t;
    if k < |f.symbols| && f.symbols[k].kind != "route" {
      assert Summarized(g, path, k) && EntryKey(g, path, k) == key;
      forall i: nat | i < k && Summarized(g, path, i)
        ensures EntryKey(g, path, i) != key
      {
        if KeyAt(path, f.Entries(), i) == key { KeysAreInjective(path, f.Entries(), i, k); }
      }
      grown := t[key := Summary(key, g.describe(path, k).0, g.describe(path, k).1)];
    }
  }

  /** Summaries and rows of the indexed files among `paths`. */
  method SnapshotTables(g: Graph, paths: set<FilePath>) returns (t: SummaryTable, rows: set<SymbolRow>)
    requires paths <= g.files.Keys
    ensures DescribesAll(g, paths, t) && rows == SnapshotRows(g, paths)
  {
    t, rows := map[], {};
    var pending, done := paths, {};
    while pending != {}
      invariant pending <= paths && done == paths - pending
      invariant DescribesAll(g, done, t) && rows == SnapshotRows(g, done)
      decreases pending
    {
      var path :| path in pending;
      t, rows := AddFile(g, done, path, t, rows);
      pending, done := pending - {path}, done + {path};
    }
    assert done == paths;
  }

  method AddFile(g: Graph, ghost done: set<FilePath>, path: FilePath, t: SummaryTable, rows: set<SymbolRow>)
    returns (grown: SummaryTable, more: set<SymbolRow>)
    requires path in g.files && path !in done && DescribesAll(g, done, t) && rows == SnapshotRows(g, done)
    ensures DescribesAll(g, done + {path}, grown) && more == SnapshotRows(g, done + {path})
  {
    var fileTable, fileRows := FileTable(g, path);
    grown, more := t + fileTable, rows + fileRows;
  }

  // ---------------------------------------------------------------- persistence rules

  datatype SummaryState = Active(summary: Summary) | Deleted

  datatype StoreError = ConflictingData | UnknownOverlay

  /** What an overlay should hold: its updates, and tombstones for the other deleted symbols. */
  function OverlayStates(incoming: SummaryTable, deleted: set<SymbolKey>): map<SymbolKey, SummaryState> {
    map id | id in incoming.Keys + deleted :: if id in incoming then Active(incoming[id]) else Deleted
  }

  ghost predicate Conflicts<V>(existing: map<SymbolKey, V>, entries: map<SymbolKey, V>) {
    exists id :: id in existing && id in entries && existing[id] != entries[id]
  }

  /** Inserts the entries one by one, stopping at one that contradicts a stored value. */
  method InsertAll<V(==)>(existing: map<SymbolKey, V>, stored: map<SymbolKey, V>, entries: map<SymbolKey, V>)
    returns (conflict: bool, grown: map<SymbolKey, V>)
    ensures conflict <==> Conflicts(existing, entries)
    ensures !conflict ==> grown == stored + entries
  {
    grown := stored;
    var pending := entries.Keys;
    while pending != {}
      invariant pending <= entries.Keys
      invariant grown == stored + (entries - pending)
      invariant forall id :: id in existing && id in entries && id !in pending ==> existing[id] == entries[id]
      decreases pending
    {
      var id :| id in pending;
      if id in existing && existing[id] != entries[id] {
        return true, grown;
      }
      grown := grown[id := entries[id]];
      pending := pending - {id};
    }
    assert entries - {} == entries;
    conflict := false;
  }

  /** Writes the overlay once; a later call changes nothing and must agree with what is stored. */
  method PersistOverlay(existing: map<SymbolKey, SummaryState>, incoming: SummaryTable, deletedIds: set<SymbolKey>)
    returns (r: Result<map<SymbolKey, SummaryState>, StoreError>)
    ensures r.Success? <==> existing == map[] || existing == OverlayStates(incoming, deletedIds)
    ensures r.Success? ==> r.value == OverlayStates(incoming, deletedIds)
  {
    var active := OverlayStates(incoming, {});
    var deleted := OverlayStates(map[], deletedIds - incoming.Keys);
    ghost var target := OverlayStates(incoming, deletedIds);
    assert target == active + deleted && active.Keys !! deleted.Keys;
    var conflict, stored := InsertAll(existing, existing, active);
    if conflict {
      return Failure(ConflictingData);
    }
    conflict, stored := InsertAll(existing, stored, deleted);
    if conflict || (existing != map[] && existing.Keys != active.Keys + deleted.Keys) {
      return Failure(ConflictingData);
    }
    assert stored == existing + active + deleted;
    return Success(stored);
  }

  /** The same rule for the summaries of a base, which has no tombstones. */
  method PersistBase(existing: SummaryTable, incoming: SummaryTable) returns (r: Result<SummaryTable, StoreError>)
    ensures r.Success? <==> existing == map[] || existing == incoming
    ensures r.Success? ==> r.value == incoming
  {
    var conflict, stored := InsertAll(existing, existing, incoming);
    if conflict || (existing != map[] && existing.Keys != incoming.Keys) {
      return Failure(ConflictingData);
    }
    return Success(stored);
  }

  // ---------------------------------------------------------------- merging

  /** Base summaries with the overlay's updates written over them and its tombstones removed. */
  function Merge(base: SummaryTable, states: map<SymbolKey, SummaryState>): SummaryTable {
    map id | id in base.Keys + states.Keys && !(id in states && states[id].Deleted?)
      :: if id in states && states[id].Active? then states[id].summary else base[id]
  }

  /** Symbols whose text or summary differs from the base, or that left a changed file. */
  function ChangedIds(baseRows: set<SymbolRow>, base: SummaryTable, changed: set<FilePath>, currentRows: set<SymbolRow>,
                      current: SummaryTable): set<SymbolKey> {
    (set r | r in currentRows && !(exists q | q in baseRows :: q.id == r.id && q.textHash == r.textHash) :: r.id)
    + (set q | q in baseRows && q.path in changed && q.id !in RowIds(currentRows) :: q.id)
    + (set id | id in current && !(id in base && base[id].contentHash == current[id].contentHash))
  }

  function Updates(base: SummaryTable, current: SummaryTable): SummaryTable {
    map id | id in current && Lookup(base, id) != Some(current[id]) :: current[id]
  }

  function Tombstones(base: SummaryTable, changedIds: set<SymbolKey>, current: SummaryTable): set<SymbolKey> {
    (base.Keys * changedIds) - current.Keys
  }

  /** Symbols and routes are a function of file content. */
  ghost predicate FunctionOfContent(base: Graph, current: Graph) {
    forall path :: path in base.files && path in current.files ==>
      (base.files[path].contentHash == current.files[path].contentHash ==> base.files[path] == current.files[path])
  }

  /** A summarized symbol of the base left the summaries, yet its key and text still appear among the changed files' rows. */
  ghost predicate Masked(baseGraph: Graph, current: Graph, base: SummaryTable, now: SummaryTable, id: SymbolKey) {
    var changed := ChangedPaths(FileHashes(baseGraph), FileHashes(current));
    && id in base && id !in now
    && TextKept(SnapshotRows(baseGraph, baseGraph.files.Keys), SnapshotRows(current, changed), id)
  }

  ghost function OverlayOf(baseGraph: Graph, current: Graph, base: SummaryTable, now: SummaryTable)
    : map<SymbolKey, SummaryState>
  {
    var changed := ChangedPaths(FileHashes(baseGraph), FileHashes(current));
    var changedIds := ChangedIds(SnapshotRows(baseGraph, baseGraph.files.Keys), base, changed,
                                 SnapshotRows(current, changed), now);
    OverlayStates(Updates(base, now), Tombstones(base, changedIds, now))
  }

  /** Base plus overlay is the from-scratch table exactly when no departed symbol is masked. */
  lemma OverlayReproducesCurrentIff(baseGraph: Graph, current: Graph, base: SummaryTable, now: SummaryTable)
    requires IsSummaryTable(baseGraph, base) && IsSummaryTable(current, now) && FunctionOfContent(baseGraph, current)
    ensures Merge(base, OverlayOf(baseGraph, current, base, now)) == now <==>
            !exists id :: Masked(baseGraph, current, base, now, id)
  {
    var changed := ChangedPaths(FileHashes(baseGraph), FileHashes(current));
    var changedIds := ChangedIds(SnapshotRows(baseGraph, baseGraph.files.Keys), base, changed,
                                 SnapshotRows(current, changed), now);
    MergingUpdatesAndTombstones(base, now, changedIds);
    forall id | id in base && id !in now
      ensures id in changedIds <==> !Masked(baseGraph, current, base, now, id)
    {
      DepartedSymbolIsChangedUnlessMasked(baseGraph, current, base, now, id);
    }
  }

  /** Updates always bring every current summary; the tombstones must cover the departed symbols. */
  lemma MergingUpdatesAndTombstones(base: SummaryTable, now: SummaryTable, changedIds: set<SymbolKey>)
    ensures Merge(base, OverlayStates(Updates(base, now), Tombstones(base, changedIds, now))) == now <==>
            forall id :: id in base && id !in now ==> id in changedIds
  {
    var merged := Merge(base, OverlayStates(Updates(base, now), Tombstones(base, changedIds, now)));
    forall id | id in now
      ensures id in merged && merged[id] == now[id]
    {
    }
    forall id | id !in now
      ensures id in merged <==> id in base && id !in changedIds
    {
    }
    if forall id :: id in base && id !in now ==> id in changedIds {
      assert merged.Keys == now.Keys;
    }
  }

  lemma DepartedSymbolIsChangedUnlessMasked(baseGraph: Graph, current: Graph, base: SummaryTable, now: SummaryTable,
                                            id: SymbolKey)
    requires IsSummaryTable(baseGraph, base) && IsSummaryTable(current, now) && FunctionOfContent(baseGraph, current)
    requires id in base && id !in now
    ensures var changed := ChangedPaths(FileHashes(baseGraph), FileHashes(current));
      id in ChangedIds(SnapshotRows(baseGraph, baseGraph.files.Keys), base, changed, SnapshotRows(current, changed), now)
      <==> !Masked(baseGraph, current, base, now, id)
  {
    var changed := ChangedPaths(FileHashes(baseGraph), FileHashes(current));
    var own := DepartedSymbolRow(baseGraph, current, base, now, id);
    forall a, b | a in SnapshotRows(current, changed) && b in SnapshotRows(current, changed) && a.id == b.id
      ensures a == b
    {
      RowsAreUniqueById(current, changed, a, b);
    }
    DepartedIdIsChanged(SnapshotRows(baseGraph, baseGraph.files.Keys), base, changed, SnapshotRows(current, changed), now, own);
  }

  lemma DepartedIdIsChanged(baseRows: set<SymbolRow>, base: SummaryTable, changed: set<FilePath>, rows: set<SymbolRow>,
                            now: SummaryTable, own: SymbolRow)
    requires own in baseRows && own.path in changed && own.id !in now
    requires forall a, b :: a in rows && b in rows && a.id == b.id ==> a == b
    ensures own.id in ChangedIds(baseRows, base, changed, rows, now) <==> !TextKept(baseRows, rows, own.id)
  {
  }

  ghost predicate TextKept(baseRows: set<SymbolRow>, rows: set<SymbolRow>, id: SymbolKey) {
    exists r, q :: r in rows && q in baseRows && r.id == id && q.id == id && q.textHash == r.textHash
  }

  /** A departed symbol had a row in the base, and its file changed. */
  lemma DepartedSymbolRow(baseGraph: Graph, current: Graph, base: SummaryTable, now: SummaryTable, id: SymbolKey)
    returns (own: SymbolRow)
    requires IsSummaryTable(baseGraph, base) && IsSummaryTable(current, now) && FunctionOfContent(baseGraph, current)
    requires id in base && id !in now
    ensures own in SnapshotRows(baseGraph, baseGraph.files.Keys) && own.id == id
    ensures own.path in ChangedPaths(FileHashes(baseGraph), FileHashes(current))
  {
    var path := id.path;
    var k: nat :| Summarized(baseGraph, path, k) && EntryKey(baseGraph, path, k) == id;
    own := SymbolRow(id, path, baseGraph.files[path].Entries()[k].textHash);
    assert own in FileRows(baseGraph, path);
    if path !in ChangedPaths(FileHashes(baseGraph), FileHashes(current)) {
      UnchangedSymbolStays(baseGraph, current, now, path, k);
    }
  }

  lemma UnchangedSymbolStays(baseGraph: Graph, current: Graph, now: SummaryTable, path: FilePath, k: nat)
    requires IsSummaryTable(current, now) && FunctionOfContent(baseGraph, current)
    requires Summarized(baseGraph, path, k) && path !in ChangedPaths(FileHashes(baseGraph), FileHashes(current))
    ensures EntryKey(baseGraph, path, k) in now
  {
    assert Lookup(FileHashes(baseGraph), path) == Lookup(FileHashes(current), path);
    assert current.files[path] == baseGraph.files[path];
    assert Summarized(current, path, k);
  }

  /** Routes carry their own kind, and no file that had a symbol for the whole file is left without any entry. */
  ghost predicate PlaceholdersAreNew(baseGraph: Graph, current: Graph) {
    && (forall path, k: nat :: path in current.files && k < |current.files[path].routes| ==>
          current.files[path].routes[k].kind == "route")
    && (forall path, k: nat :: Summarized(baseGraph, path, k) && baseGraph.files[path].symbols[k].kind == "file" ==>
          path in current.files ==> current.files[path].Entries() != [])
  }

  /** Under that condition nothing is masked, so base plus overlay is always the from-scratch table. */
  lemma OverlayReproducesCurrent(baseGraph: Graph, current: Graph, base: SummaryTable, now: SummaryTable)
    requires IsSummaryTable(baseGraph, base) && IsSummaryTable(current, now) && FunctionOfContent(baseGraph, current)
    requires PlaceholdersAreNew(baseGraph, current)
    ensures Merge(base, OverlayOf(baseGraph, current, base, now)) == now
  {
    forall id | id in base && id !in now
      ensures !Masked(baseGraph, current, base, now, id)
    {
      NoRowOfDeparted(baseGraph, current, base, now, ChangedPaths(FileHashes(baseGraph), FileHashes(current)), id);
    }
    OverlayReproducesCurrentIff(baseGraph, current, base, now);
  }

  lemma NoRowOfDeparted(baseGraph: Graph, current: Graph, base: SummaryTable, now: SummaryTable, paths: set<FilePath>, id: SymbolKey)
    requires IsSummaryTable(baseGraph, base) && IsSummaryTable(current, now) && PlaceholdersAreNew(baseGraph, current)
    requires id in base && id !in now
    ensures id !in RowIds(SnapshotRows(current, paths))
  {
    var k: nat :| Summarized(baseGraph, id.path, k) && EntryKey(baseGraph, id.path, k) == id;
    forall r | r in SnapshotRows(current, paths)
      ensures r.id != id
    {
      if r.path == id.path {
        RowOfOtherKind(current, now, r, id);
      }
    }
  }

  lemma RowOfOtherKind(g: Graph, now: SummaryTable, r: SymbolRow, id: SymbolKey)
    requires IsSummaryTable(g, now) && r.path in g.files && r in FileRows(g, r.path)
    requires forall k: nat :: k < |g.files[r.path].routes| ==> g.files[r.path].routes[k].kind == "route"
    requires id !in now && id.kind != "route" && (id.kind == "file" ==> g.files[r.path].Entries() != [])
    ensures r.id != id
  {
    var f := g.files[r.path];
    if f.Entries() != [] {
      var k: nat :| k < |f.Entries()| && r.id == KeyAt(r.path, f.Entries(), k);
      if k < |f.symbols| && f.symbols[k].kind != "route" {
        assert Summarized(g, r.path, k) && EntryKey(g, r.path, k) == r.id;
      } else if k >= |f.symbols| {
        assert f.Entries()[k] == f.routes[k - |f.symbols|];
      }
    }
  }

  /**
    Without it a departed symbol can survive: a whole-file symbol that turns into the placeholder of the same text.
    The contents differ, say by a blank line at the end.
   */
  lemma PlaceholderCanMaskDeparture(was: Graph, current: Graph, base: SummaryTable, now: SummaryTable)
    requires IsSummaryTable(was, base) && IsSummaryTable(current, now)
    requires was.files == map["p" := FileIr("h", "t", [Symbol("p", 1, "file", "", "", "t")], [])]
    requires current.files == map["p" := FileIr("g", "t", [], [])]
    ensures FunctionOfContent(was, current) && Merge(base, OverlayOf(was, current, base, now)) != now
  {
    var id := SymbolKey("p", "file", "p", None);
    var entries := was.files["p"].Entries();
    assert Twins(entries, entries[0].Identity()) <= {0};
    SubsetCardinality(Twins(entries, entries[0].Identity()), {0});
    assert Summarized(was, "p", 0) && EntryKey(was, "p", 0) == id;
    assert id !in now;
    assert "h"[0] != "g"[0];
    assert "p" in ChangedPaths(FileHashes(was), FileHashes(current));
    var r := SymbolRow(id, "p", "t");
    assert r in FileRows(was, "p") && r in FileRows(current, "p");
    assert Masked(was, current, base, now, id);
    OverlayReproducesCurrentIff(was, current, base, now);
  }

  // ---------------------------------------------------------------- the store

  /** Rows of the changed files that still exist. */
  method ChangedRows(g: Graph, changed: set<FilePath>) returns (rows: set<SymbolRow>)
    ensures rows == SnapshotRows(g, changed)
  {
    var _, found := SnapshotTables(g, changed * g.files.Keys);
    assert SnapshotRows(g, changed * g.files.Keys) == SnapshotRows(g, changed);
    rows := found;
  }

  /** The updates and tombstones that lead from the stored base to `g`. */
  method CompareWithBase(baseRows: set<SymbolRow>, baseFiles: map<FilePath, ContentHash>, base: SummaryTable, g: Graph,
                         ghost baseGraph: Graph, ghost now: SummaryTable)
    returns (updates: SummaryTable, tombstones: set<SymbolKey>)
    requires baseRows == SnapshotRows(baseGraph, baseGraph.files.Keys) && baseFiles == FileHashes(baseGraph)
    requires IsSummaryTable(g, now)
    ensures OverlayStates(updates, tombstones) == OverlayOf(baseGraph, g, base, now)
  {
    var changed := ChangedPaths(baseFiles, FileHashes(g));
    var current, _ := SnapshotTables(g, g.files.Keys);
    SummaryTableIsUnique(g, current, now);
    var currentRows := ChangedRows(g, changed);
    updates := Updates(base, current);
    tombstones := Tombstones(base, ChangedIds(baseRows, base, changed, currentRows, current), current);
  }

  type ContextId = string

  datatype OverlayId = OverlayId(base: ContextId, headCommit: string)

  class ContextStore {
    var rows: map<ContextId, set<SymbolRow>>
    var files: map<ContextId, map<FilePath, ContentHash>>
    var summaries: map<ContextId, SummaryTable>
    var overlays: set<OverlayId>
    var states: map<OverlayId, map<SymbolKey, SummaryState>>

    constructor ()
      ensures rows == map[] && files == map[] && summaries == map[] && overlays == {} && states == map[]
    {
      rows, files, summaries, overlays, states := map[], map[], map[], {}, map[];
    }

    /** The base `context` holds exactly what indexing `g` derives. */
    ghost predicate HoldsBase(context: ContextId, g: Graph)
      reads this
    {
      && Lookup(rows, context) == Some(SnapshotRows(g, g.files.Keys))
      && Lookup(files, context) == Some(FileHashes(g))
      && context in summaries && IsSummaryTable(g, summaries[context])
    }

    method CreateBase(context: ContextId, g: Graph) returns (r: Result<bool, StoreError>)
      modifies this
      ensures overlays == old(overlays) && states == old(states)
      ensures context !in old(rows) && context !in old(files) && context !in old(summaries) ==>
        r == Success(false) && HoldsBase(context, g)
      ensures old(HoldsBase(context, g)) ==> r == Success(true) && HoldsBase(context, g)
      ensures r.Failure? ==> rows == old(rows) && files == old(files) && summaries == old(summaries)
      ensures forall c :: c != context ==>
        Lookup(rows, c) == old(Lookup(rows, c)) && Lookup(files, c) == old(Lookup(files, c))
        && Lookup(summaries, c) == old(Lookup(summaries, c))
    {
      var t, snapshotRows := SnapshotTables(g, g.files.Keys);
      if HoldsBase(context, g) {
        SummaryTableIsUnique(g, t, summaries[context]);
      }
      var persisted := PersistBase(if context in summaries then summaries[context] else map[], t);
      if persisted.Failure? {
        return Failure(persisted.error);
      }
      var reused := context in rows;
      if !reused {
        rows := rows[context := snapshotRows];
      }
      var knownFiles := if context in files then files[context] else map[];
      assert FileHashes(g) + map[] == FileHashes(g) && FileHashes(g) + FileHashes(g) == FileHashes(g);
      files := files[context := FileHashes(g) + knownFiles];
      summaries := summaries[context := persisted.value];
      return Success(reused);
    }

    /** Compares the snapshot with a base and stores the difference as an overlay. */
    method CreateOverlay(context: ContextId, headCommit: string, g: Graph, ghost baseGraph: Graph, ghost now: SummaryTable)
      returns (r: Result<OverlayId, StoreError>)
      requires HoldsBase(context, baseGraph) && IsSummaryTable(g, now)
      modifies this`overlays, this`states
      ensures var id, target := OverlayId(context, headCommit), OverlayOf(baseGraph, g, summaries[context], now);
        && (r.Success? <==> id !in old(states) || old(states)[id] == map[] || old(states)[id] == target)
        && (r.Success? ==> r.value == id && overlays == old(overlays) + {id} && states == old(states)[id := target])
        && (r.Failure? ==> overlays == old(overlays) && states == old(states))
    {
      var id := OverlayId(context, headCommit);
      var updates, tombstones := CompareWithBase(rows[context], files[context], summaries[context], g, baseGraph, now);
      var existing := if id in states then states[id] else map[];
      var persisted := PersistOverlay(existing, updates, tombstones);
      if persisted.Failure? {
        return Failure(persisted.error);
      }
      overlays := overlays + {id};
      states := states[id := persisted.value];
      return Success(id);
    }

    /** Base summaries merged with an overlay's updates and tombstones. */
    method EffectiveSummaries(id: OverlayId) returns (r: Result<SummaryTable, StoreError>)
      ensures r.Failure? <==> id !in overlays
      ensures r.Success? ==> r.value == Merge(
        if id.base in summaries then summaries[id.base] else map[], if id in states then states[id] else map[])
    {
      if id !in overlays {
        return Failure(UnknownOverlay);
      }
      var base := if id.base in summaries then summaries[id.base] else map[];
      var overlay := if id in states then states[id] else map[];
      var merged := base;
      var pending := overlay.Keys;
      while pending != {}
        invariant pending <= overlay.Keys
        invariant merged == Merge(base, overlay - pending)
        decreases pending
      {
        var key :| key in pending;
        ghost var before := overlay - pending;
        match overlay[key] {
          case Deleted => merged := merged - {key};
          case Active(summary) => merged := merged[key := summary];
        }
        pending := pending - {key};
        assert overlay - pending == before[key := overlay[key]];
      }
      assert overlay - {} == overlay;
      return Success(merged);
    }
  }

  /** A scan on top of a stored base sees exactly the current graph's summaries, unless a departed symbol is masked. */
  method OverlayRoundTrip(store: ContextStore, context: ContextId, headCommit: string, baseGraph: Graph, current: Graph,
                          ghost now: SummaryTable)
    returns (r: Result<SummaryTable, StoreError>)
    requires store.HoldsBase(context, baseGraph) && OverlayId(context, headCommit) !in store.states
    requires IsSummaryTable(current, now) && FunctionOfContent(baseGraph, current)
    modifies store
    ensures store.HoldsBase(context, baseGraph) && r.Success?
    ensures r.value == now <==> !exists id :: Masked(baseGraph, current, store.summaries[context], now, id)
    ensures PlaceholdersAreNew(baseGraph, current) ==> r.value == now
  {
    var created := store.CreateOverlay(context, headCommit, current, baseGraph, now);
    r := store.EffectiveSummaries(OverlayId(context, headCommit));
    OverlayReproducesCurrentIff(baseGraph, current, store.summaries[context], now);
    if PlaceholdersAreNew(baseGraph, current) {
      OverlayReproducesCurrent(baseGraph, current, store.summaries[context], now);
    }
  }
}
