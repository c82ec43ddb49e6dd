/** The include-resolving config loader of `src/config/config.c`. A file is taken as split into items, bindings and
    `include` lines in file order. The rest is as in the code: one list of entries and one table of 32 includes,
    shared by all levels of the recursion, a table that grows while it is walked, and a recursion that stops below
    depth 10. */
module ConfigLoader {
  import opened Wrappers

  const MAX_IMPORT_DEPTH := 10
  const MAX_INCLUDES := 32

  /** One stored `section.key = value` triple. */
  datatype Entry = Entry(section: string, key: string, value: string)

  /** One meaningful line of a file; `raw` is the value text before quotes are removed. */
  datatype Item =
    | Binding(section: string, key: string, raw: string)
    | Include(names: seq<string>)

  /** The readable files as they are on disk; opening any other path fails. */
  type Disk = map<string, seq<Item>>

  /** What reading one file adds to the store. */
  datatype File = File(entries: seq<Entry>, paths: seq<string>)

  /** The readable files, each already split into what it adds. */
  type FileSystem = map<string, File>

  /** What parsing changes: the list, the include table, and the number of parse calls made. */
  datatype Store = Store(entries: seq<Entry>, table: seq<string>, calls: nat) {
    predicate Valid() { |table| <= MAX_INCLUDES }
  }

  const EMPTY_STORE := Store([], [], 0)

  // ------------------------------------------------------------------
  // What one file contributes
  // ------------------------------------------------------------------

  function Unquote(s: string): (r: string)
    ensures s == ['"'] + r + ['"'] || (r == s && !(|s| >= 2 && s[0] == s[|s| - 1] == '"'))
  {
    if |s| >= 2 && s[0] == '"' && s[|s| - 1] == '"' then s[1..|s| - 1] else s
  }

  /** Everything before the last slash; the whole path when there is none. */
  function DirName(path: string): string {
    if '/' !in path then path else BeforeLastSlash(path)
  }

  function BeforeLastSlash(path: string): string
    requires '/' in path
  {
    var n := |path| - 1;
    if path[n] == '/' then path[..n] else BeforeLastSlash(path[..n])
  }

  function Resolve(path: string, name: string): string {
    DirName(path) + "/" + name
  }

  function ResolveAll(path: string, names: seq<string>): seq<string> {
    seq(|names|, i requires 0 <= i < |names| => Resolve(path, names[i]))
  }

  /** Entries of the items from index `i` on, in file order. */
  function EntriesFrom(items: seq<Item>, i: nat): seq<Entry>
    decreases |items| - i
  {
    if i >= |items| then []
    else
      match items[i]
      case Binding(section, key, raw) => [Entry(section, key, Unquote(raw))] + EntriesFrom(items, i + 1)
      case Include(_) => EntriesFrom(items, i + 1)
  }

  /** Paths included by the items from index `i` on, in file order. */
  function PathsFrom(path: string, items: seq<Item>, i: nat): seq<string>
    decreases |items| - i
  {
    if i >= |items| then []
    else
      match items[i]
      case Binding(_, _, _) => PathsFrom(path, items, i + 1)
      case Include(names) => ResolveAll(path, names) + PathsFrom(path, items, i + 1)
  }

  function FileOf(path: string, items: seq<Item>): File {
    File(EntriesFrom(items, 0), PathsFrom(path, items, 0))
  }

  function Files(disk: Disk): FileSystem {
    map path | path in disk :: FileOf(path, disk[path])
  }

  ghost predicate SplitAt(fs: FileSystem, disk: Disk, path: string)
    requires path in disk && path in fs
  {
    fs[path] == FileOf(path, disk[path])
  }

  /** `fs` is the disk with every file split. */
  ghost predicate IsSplit(fs: FileSystem, disk: Disk) {
    fs.Keys == disk.Keys && forall path {:trigger SplitAt(fs, disk, path)} :: path in disk ==> SplitAt(fs, disk, path)
  }

  /** The entries of the file at `path`; an unreadable file has none. */
  function Contents(fs: FileSystem, path: string): seq<Entry> {
    if path in fs then fs[path].entries else []
  }

  /** The paths that the file at `path` includes; an unreadable file includes nothing. */
  function IncludesOf(fs: FileSystem, path: string): seq<string> {
    if path in fs then fs[path].paths else []
  }

  /** `r` is `table`, possibly with more behind it. */
  ghost predicate Extends(table: seq<string>, r: seq<string>) {
    |table| <= |r| && forall k {:trigger r[k]} :: 0 <= k < |table| ==> r[k] == table[k]
  }

  /** Appending to the table drops whatever does not fit. */
  function Fill(table: seq<string>, paths: seq<string>): (r: seq<string>)
    requires |table| <= MAX_INCLUDES
    ensures |r| <= MAX_INCLUDES && Extends(table, r)
  {
    if |table| + |paths| <= MAX_INCLUDES then table + paths
    else table + paths[..MAX_INCLUDES - |table|]
  }

  // ------------------------------------------------------------------
  // The recursion
  // ------------------------------------------------------------------

  /** Reading one file: its entries go to the end of the list, its includes to the table. */
  function ReadFile(fs: FileSystem, st: Store, path: string): (r: Store)
    requires st.Valid()
    ensures r.Valid()
  {
    Store(st.entries + Contents(fs, path), Fill(st.table, IncludesOf(fs, path)), st.calls + 1)
  }

  predicate Opens(fs: FileSystem, path: string, depth: nat) {
    depth <= MAX_IMPORT_DEPTH && path in fs
  }

  /** The store after parsing `path` at `depth`, with all the re-reading that causes. */
  function Parse(fs: FileSystem, st: Store, path: string, depth: nat): (r: Store)
    requires st.Valid() && depth <= MAX_IMPORT_DEPTH + 1
    ensures r.Valid()
    decreases MAX_IMPORT_DEPTH + 1 - depth, MAX_INCLUDES + 1
  {
    if !Opens(fs, path, depth) then st.(calls := st.calls + 1) else Walk(fs, ReadFile(fs, st, path), 0, depth)
  }

  /** The loop over the shared table, from slot `i`, at `depth`. */
  function Walk(fs: FileSystem, st: Store, i: nat, depth: nat): (r: Store)
    requires st.Valid() && depth <= MAX_IMPORT_DEPTH
    ensures r.Valid()
    decreases MAX_IMPORT_DEPTH + 1 - depth, MAX_INCLUDES - i
  {
    if i >= |st.table| then st
    else Walk(fs, Parse(fs, st, st.table[i], depth + 1), i + 1, depth)
  }

  // ------------------------------------------------------------------
  // The loader itself
  // ------------------------------------------------------------------

  /** First entry with this section and key. */
  function Lookup(entries: seq<Entry>, section: string, key: string): Option<string> {
    if entries == [] then None
    else if entries[0].section == section && entries[0].key == key then Some(entries[0].value)
    else Lookup(entries[1..], section, key)
  }

  class TomlConfig {
    var entries: seq<Entry>
    const includes: array<string>
    var includeCount: nat
    ghost var calls: nat

    ghost predicate Valid()
      reads this`includeCount
    {
      includes.Length == MAX_INCLUDES && includeCount <= MAX_INCLUDES
    }

    ghost function Table(): (table: seq<string>)
      requires Valid()
      reads this`includeCount, includes
      ensures |table| == includeCount
    {
      includes[..includeCount]
    }

    ghost function State(): (st: Store)
      requires Valid()
      reads this, includes
      ensures st.Valid()
    {
      Store(entries, Table(), calls)
    }

    constructor ()
      ensures Valid() && State() == EMPTY_STORE && fresh(includes) && calls == 0
    {
      entries, includeCount, calls := [], 0, 0;
      includes := new string[MAX_INCLUDES](_ => "");
    }

    method KvAdd(section: string, key: string, raw: string)
      requires Valid()
      modifies this`entries
      ensures Valid()
      ensures entries == old(entries) + [Entry(section, key, Unquote(raw))]
    {
      entries := entries + [Entry(section, key, Unquote(raw))];
    }

    method KvGet(section: string, key: string) returns (r: Option<string>)
      ensures r == Lookup(entries, section, key)
    {
      var i := 0;
      while i < |entries|
        invariant 0 <= i <= |entries|
        invariant Lookup(entries, section, key) == Lookup(entries[i..], section, key)
      {
        if entries[i].section == section && entries[i].key == key {
          return Some(entries[i].value);
        }
        i := i + 1;
      }
      return None;
    }

    /** One `include` line: resolve each name and append it while a slot is free. */
    method AddIncludes(path: string, names: seq<string>)
      requires Valid()
      modifies this`includeCount, includes
      ensures Valid()
      ensures Table() == Fill(old(Table()), ResolveAll(path, names))
    {
      var i := 0;
      ghost var start := Table();
      ghost var all := ResolveAll(path, names);
      assert all[..0] == [];
      while i < |names|
        invariant 0 <= i <= |names| && Valid()
        invariant Table() == Fill(start, all[..i])
      {
        assert all[..i + 1] == all[..i] + [all[i]];
        if includeCount < MAX_INCLUDES {
          includes[includeCount] := Resolve(path, names[i]);
          includeCount := includeCount + 1;
        }
        assert Table() == Fill(start, all[..i + 1]);
        i := i + 1;
      }
      assert all[..i] == all;
    }

    method ParseTomlFile(disk: Disk, ghost fs: FileSystem, path: string, depth: nat) returns (rc: int)
      requires IsSplit(fs, disk) && Valid() && depth <= MAX_IMPORT_DEPTH + 1
      modifies this, includes
      ensures Valid()
      ensures State() == Parse(fs, old(State()), path, depth)
      ensures rc == if depth <= 10 && path in fs then 0 else -1
      decreases MAX_IMPORT_DEPTH + 1 - depth, 1
    {
      if depth > MAX_IMPORT_DEPTH || path !in disk {
        calls := calls + 1;
        return -1;
      }
      assert SplitAt(fs, disk, path);
      ReadLines(disk, fs, path);
      ProcessIncludes(disk, fs, depth);
      return 0;
    }

    /** The loop at the end of the parser, over a table that grows inside the loop. */
    method ProcessIncludes(disk: Disk, ghost fs: FileSystem, depth: nat)
      requires IsSplit(fs, disk) && Valid() && depth <= MAX_IMPORT_DEPTH
      modifies this, includes
      ensures Valid()
      ensures State() == Walk(fs, old(State()), 0, depth)
      decreases MAX_IMPORT_DEPTH + 1 - depth, 0
    {
      ghost var st := State();
      ghost var target := Walk(fs, st, 0, depth);
      var i := 0;
      while i < includeCount
        invariant Valid() && 0 <= i && State() == st
        invariant Walk(fs, st, i, depth) == target
        decreases MAX_INCLUDES - i
      {
        var next := includes[i];
        assert next == st.table[i];
        var _ := ParseTomlFile(disk, fs, next, depth + 1);
        st := Parse(fs, st, next, depth + 1);
        i := i + 1;
      }
    }

    /** The body of the line loop. */
    method ReadItem(path: string, items: seq<Item>, i: nat)
      requires Valid() && i < |items|
      modifies this`entries, this`includeCount, includes
      ensures Valid()
      ensures entries + EntriesFrom(items, i + 1) == old(entries) + EntriesFrom(items, i)
      ensures Fill(Table(), PathsFrom(path, items, i + 1)) == Fill(old(Table()), PathsFrom(path, items, i))
    {
      match items[i] {
        case Binding(section, key, raw) => KvAdd(section, key, raw);
        case Include(names) =>
          FillTwice(Table(), ResolveAll(path, names), PathsFrom(path, items, i + 1));
          AddIncludes(path, names);
      }
    }

    /** The line loop of the parser, up to the point where the file is closed. */
    method ReadLines(disk: Disk, ghost fs: FileSystem, path: string)
      requires Valid() && path in disk && path in fs && SplitAt(fs, disk, path)
      modifies this, includes
      ensures Valid() && State() == ReadFile(fs, old(State()), path)
    {
      calls := calls + 1;
      var items := disk[path];
      var i := 0;
      ghost var startEntries, startTable := entries, Table();
      while i < |items|
        invariant 0 <= i <= |items| && Valid() && calls == old(calls) + 1
        invariant entries + EntriesFrom(items, i) == startEntries + EntriesFrom(items, 0)
        invariant Fill(Table(), PathsFrom(path, items, i)) == Fill(startTable, PathsFrom(path, items, 0))
      {
        ReadItem(path, items, i);
        i := i + 1;
      }
    }
  }

  method LoadConfig(disk: Disk, path: string) returns (cfg: Option<TomlConfig>)
    ensures cfg.Some? <==> path in disk
    ensures cfg.Some? ==> fresh(cfg.value) && cfg.value.Valid()
                          && cfg.value.State() == Parse(Files(disk), EMPTY_STORE, path, 0)
  {
    var c := new TomlConfig();
    var rc := c.ParseTomlFile(disk, Files(disk), path, 0);
    if rc != 0 {
      return None;
    }
    return Some(c);
  }

  lemma FillTwice(table: seq<string>, a: seq<string>, b: seq<string>)
    requires |table| <= MAX_INCLUDES
    ensures Fill(Fill(table, a), b) == Fill(table, a + b)
  {
  }
}
