/** What a finished load means, whatever the include graph looks like: which value a lookup finds, which files were
    read, and how much work the re-reading costs. */
module ConfigMeaning {
  import opened Wrappers
  import opened ConfigLoader

  // ------------------------------------------------------------------
  // Lookups: the re-read list behaves like one pass over main and the table
  // ------------------------------------------------------------------

  type Meaning = map<(string, string), string>

  /** What first-match lookup makes of the first `n` entries. */
  function MeaningTo(entries: seq<Entry>, n: nat): Meaning
    requires n <= |entries|
  {
    if n == 0 then map[]
    else map[(entries[n - 1].section, entries[n - 1].key) := entries[n - 1].value] + MeaningTo(entries, n - 1)
  }

  function MeaningOf(entries: seq<Entry>): Meaning {
    MeaningTo(entries, |entries|)
  }

  lemma {:induction false} MeaningOfPrefix(a: seq<Entry>, c: seq<Entry>, n: nat)
    requires n <= |a| && n <= |c| && forall k :: 0 <= k < n ==> c[k] == a[k]
    ensures MeaningTo(c, n) == MeaningTo(a, n)
  {
    if n > 0 {
      MeaningOfPrefix(a, c, n - 1);
    }
  }

  lemma {:induction false} MeaningBehind(a: seq<Entry>, b: seq<Entry>, c: seq<Entry>, n: nat)
    requires |c| == |a| + |b| && n <= |b|
    requires forall k :: 0 <= k < |a| ==> c[k] == a[k]
    requires forall k :: 0 <= k < |b| ==> c[|a| + k] == b[k]
    ensures MeaningTo(c, |a| + n) == MeaningTo(b, n) + MeaningOf(a)
  {
    if n == 0 {
      MeaningOfPrefix(a, c, |a|);
    } else {
      MeaningBehind(a, b, c, n - 1);
      var e := b[n - 1];
      assert c[|a| + (n - 1)] == e;
      MergeAssoc(map[(e.section, e.key) := e.value], MeaningTo(b, n - 1), MeaningOf(a));
    }
  }

  /** What comes first in the list wins. */
  lemma MeaningAppend(a: seq<Entry>, b: seq<Entry>)
    ensures MeaningOf(a + b) == MeaningOf(b) + MeaningOf(a)
  {
    MeaningBehind(a, b, a + b, |b|);
  }

  /** The lookup is the meaning at that section and key. */
  lemma {:induction false} LookupIsMeaning(entries: seq<Entry>, section: string, key: string)
    ensures Lookup(entries, section, key) ==
            if (section, key) in MeaningOf(entries) then Some(MeaningOf(entries)[(section, key)]) else None
  {
    if entries != [] {
      var head, tail := entries[0], entries[1..];
      LookupIsMeaning(tail, section, key);
      MeaningAppend([head], tail);
      assert [head] + tail == entries;
      assert MeaningTo([head], 1) == map[(head.section, head.key) := head.value] + MeaningTo([head], 0);
    }
  }

  function FileMeaning(fs: FileSystem, path: string): Meaning {
    MeaningOf(Contents(fs, path))
  }

  /** The joint meaning of the first `n` of the given files, earlier ones first. */
  function Joint(fs: FileSystem, paths: seq<string>, n: nat): Meaning
    requires n <= |paths|
  {
    if n == 0 then map[] else FileMeaning(fs, paths[n - 1]) + Joint(fs, paths, n - 1)
  }

  lemma {:induction false} JointOfPrefix(fs: FileSystem, a: seq<string>, b: seq<string>, n: nat)
    requires n <= |a| && Extends(a, b)
    ensures Joint(fs, b, n) == Joint(fs, a, n)
  {
    if n > 0 {
      JointOfPrefix(fs, a, b, n - 1);
      assert b[n - 1] == a[n - 1];
    }
  }

  /** What a file of the list defines, the list defines. */
  lemma {:induction false} JointCovers(fs: FileSystem, paths: seq<string>, i: nat, n: nat)
    requires i < n <= |paths|
    ensures FileMeaning(fs, paths[i]).Keys <= Joint(fs, paths, n).Keys
  {
    if i < n - 1 {
      JointCovers(fs, paths, i, n - 1);
    }
  }

  /** `main` and the first `m` slots have been read, and nothing else shows in a lookup. */
  ghost predicate Synced(fs: FileSystem, main: string, seen: Meaning, table: seq<string>, m: nat) {
    m <= |table| && seen == Joint(fs, table, m) + FileMeaning(fs, main)
  }

  /** Reading slot `i` keeps the store in step, provided all earlier slots were read before. */
  lemma ReadKeepsSync(fs: FileSystem, main: string, seen: Meaning, table: seq<string>, i: nat, m: nat, r: seq<string>)
    requires i < |table| && i <= m && Synced(fs, main, seen, table, m) && Extends(table, r)
    ensures Synced(fs, main, FileMeaning(fs, table[i]) + seen, r, if m == i then i + 1 else m)
  {
    var add, joint := FileMeaning(fs, table[i]), Joint(fs, table, m);
    MergeAssoc(add, joint, FileMeaning(fs, main));
    if m == i {
      JointOfPrefix(fs, table, r, i + 1);
    } else {
      JointOfPrefix(fs, table, r, m);
      JointCovers(fs, table, i, m);
      MergeAbsorbs(add, joint);
    }
  }

  lemma MergeAssoc(a: Meaning, b: Meaning, c: Meaning)
    ensures a + (b + c) == a + b + c
  {
  }

  lemma MergeAbsorbs(a: Meaning, b: Meaning)
    requires a.Keys <= b.Keys
    ensures a + b == b
  {
  }

  ghost predicate InStep(fs: FileSystem, main: string, st: Store, m: nat) {
    Synced(fs, main, MeaningOf(st.entries), st.table, m)
  }

  lemma ExtendsTwice(a: seq<string>, b: seq<string>, c: seq<string>)
    requires Extends(a, b) && Extends(b, c)
    ensures Extends(a, c)
  {
    assert forall k :: 0 <= k < |a| ==> c[k] == b[k] == a[k];
  }

  /** Parsing only ever appends to the table. */
  lemma {:induction false} ParseOnlyAppends(fs: FileSystem, st: Store, path: string, depth: nat)
    requires st.Valid() && depth <= MAX_IMPORT_DEPTH + 1
    ensures Extends(st.table, Parse(fs, st, path, depth).table)
    decreases MAX_IMPORT_DEPTH + 1 - depth, MAX_INCLUDES + 1
  {
    if Opens(fs, path, depth) {
      var read := ReadFile(fs, st, path);
      WalkOnlyAppends(fs, read, 0, depth);
      ExtendsTwice(st.table, read.table, Walk(fs, read, 0, depth).table);
    }
  }

  lemma {:induction false} WalkOnlyAppends(fs: FileSystem, st: Store, i: nat, depth: nat)
    requires st.Valid() && depth <= MAX_IMPORT_DEPTH
    ensures Extends(st.table, Walk(fs, st, i, depth).table)
    decreases MAX_IMPORT_DEPTH + 1 - depth, MAX_INCLUDES - i
  {
    if i < |st.table| {
      var next := Parse(fs, st, st.table[i], depth + 1);
      ParseOnlyAppends(fs, st, st.table[i], depth + 1);
      WalkOnlyAppends(fs, next, i + 1, depth);
      ExtendsTwice(st.table, next.table, Walk(fs, next, i + 1, depth).table);
    }
  }

  /** At the deepest level every nested parse is refused, so the walk changes nothing. */
  lemma {:induction false} DeepestWalkIsIdle(fs: FileSystem, st: Store, i: nat)
    requires st.Valid()
    ensures var r := Walk(fs, st, i, MAX_IMPORT_DEPTH); r.entries == st.entries && r.table == st.table
    decreases MAX_INCLUDES - i
  {
    if i < |st.table| {
      DeepestWalkIsIdle(fs, Parse(fs, st, st.table[i], MAX_IMPORT_DEPTH + 1), i + 1);
    }
  }

  lemma {:induction false} ParseKeepsSync(fs: FileSystem, main: string, st: Store, i: nat, m: nat, depth: nat)
    returns (m': nat)
    requires st.Valid() && depth <= MAX_IMPORT_DEPTH
    requires i < |st.table| && i <= m && InStep(fs, main, st, m)
    ensures m' > i && m' >= m && InStep(fs, main, Parse(fs, st, st.table[i], depth), m')
    decreases MAX_IMPORT_DEPTH + 1 - depth, MAX_INCLUDES + 1
  {
    var path := st.table[i];
    var r := ReadFile(fs, st, path);
    m' := if m == i then i + 1 else m;
    MeaningAppend(st.entries, Contents(fs, path));
    ReadKeepsSync(fs, main, MeaningOf(st.entries), st.table, i, m, r.table);
    if !Opens(fs, path, depth) {
      assert r.entries == st.entries && r.table == st.table;
    } else if depth == MAX_IMPORT_DEPTH {
      DeepestWalkIsIdle(fs, r, 0);
    } else {
      m' := WalkKeepsSync(fs, main, r, 0, m', depth);
    }
  }

  lemma {:induction false} WalkKeepsSync(fs: FileSystem, main: string, st: Store, i: nat, m: nat, depth: nat)
    returns (m': nat)
    requires st.Valid() && depth < MAX_IMPORT_DEPTH && i <= m && InStep(fs, main, st, m)
    ensures m' >= m && m' == |Walk(fs, st, i, depth).table|
    ensures InStep(fs, main, Walk(fs, st, i, depth), m')
    decreases MAX_IMPORT_DEPTH + 1 - depth, MAX_INCLUDES - i
  {
    m' := m;
    if i < |st.table| {
      var m1 := ParseKeepsSync(fs, main, st, i, m, depth + 1);
      m' := WalkKeepsSync(fs, main, Parse(fs, st, st.table[i], depth + 1), i + 1, m1, depth);
    }
  }

  /** The entries of the files in the table from slot `i` on, one after the other. */
  function FlatFrom(fs: FileSystem, paths: seq<string>, i: nat): seq<Entry>
    decreases |paths| - i
  {
    if i >= |paths| then [] else Contents(fs, paths[i]) + FlatFrom(fs, paths, i + 1)
  }

  lemma {:induction false} FlatMeansJoint(fs: FileSystem, paths: seq<string>, i: nat)
    requires i <= |paths|
    ensures MeaningOf(FlatFrom(fs, paths, i)) + Joint(fs, paths, i) == Joint(fs, paths, |paths|)
    decreases |paths| - i
  {
    if i < |paths| {
      var head, rest := Contents(fs, paths[i]), FlatFrom(fs, paths, i + 1);
      FlatMeansJoint(fs, paths, i + 1);
      MeaningAppend(head, rest);
      assert FlatFrom(fs, paths, i) == head + rest;
      MergeAssoc(MeaningOf(rest), MeaningOf(head), Joint(fs, paths, i));
    }
  }

  /** The entries of `main`, then those of each path in the table, each file once per slot. */
  function OnceEach(fs: FileSystem, main: string, table: seq<string>): seq<Entry> {
    Contents(fs, main) + FlatFrom(fs, table, 0)
  }

  /** Main result: a lookup after the load finds the first match in main, then in the files
      of the final include table in table order, however often each has been read. */
  lemma LookupMeaning(fs: FileSystem, main: string, section: string, key: string)
    requires main in fs
    ensures var st := Parse(fs, EMPTY_STORE, main, 0);
            Lookup(st.entries, section, key) == Lookup(OnceEach(fs, main, st.table), section, key)
  {
    ParseMain(fs, main);
    var m := WalkKeepsSync(fs, main, MainRead(fs, main), 0, 0, 0);
    var st := Walk(fs, MainRead(fs, main), 0, 0);
    FlatMeansJoint(fs, st.table, 0);
    MeaningAppend(Contents(fs, main), FlatFrom(fs, st.table, 0));
    LookupIsMeaning(st.entries, section, key);
    LookupIsMeaning(OnceEach(fs, main, st.table), section, key);
  }

  /** A key set in the main file keeps that value, whatever the includes say. */
  lemma MainOverridesIncludes(fs: FileSystem, main: string, section: string, key: string)
    requires main in fs && Lookup(Contents(fs, main), section, key).Some?
    ensures Lookup(Parse(fs, EMPTY_STORE, main, 0).entries, section, key) == Lookup(Contents(fs, main), section, key)
  {
    var table := Parse(fs, EMPTY_STORE, main, 0).table;
    LookupMeaning(fs, main, section, key);
    MeaningAppend(Contents(fs, main), FlatFrom(fs, table, 0));
    LookupIsMeaning(Contents(fs, main), section, key);
    LookupIsMeaning(OnceEach(fs, main, table), section, key);
  }

  // ------------------------------------------------------------------
  // Which files are read: the recursion against one pass over a list
  // ------------------------------------------------------------------

  ghost predicate SameElements(a: seq<string>, b: seq<string>) {
    forall x :: x in a <==> x in b
  }

  /** `r` only repeats elements of `table`, and so will everything after it. */
  ghost predicate SettledLike(fs: FileSystem, table: seq<string>, r: seq<string>) {
    Settled(fs, r) && SameElements(r, table)
  }

  /** One pass over a growing table, each slot read once. */
  function OnePass(fs: FileSystem, table: seq<string>, i: nat): (r: seq<string>)
    requires |table| <= MAX_INCLUDES
    ensures |r| <= MAX_INCLUDES
    decreases MAX_INCLUDES - i
  {
    if i >= |table| then table else OnePass(fs, Fill(table, IncludesOf(fs, table[i])), i + 1)
  }

  /** Includes of the first readable file of the table. */
  function FirstReadableIncludes(fs: FileSystem, table: seq<string>): seq<string> {
    FirstReadableFrom(fs, table, 0)
  }

  function FirstReadableFrom(fs: FileSystem, table: seq<string>, i: nat): seq<string>
    decreases |table| - i
  {
    if i >= |table| then []
    else if table[i] in fs then IncludesOf(fs, table[i])
    else FirstReadableFrom(fs, table, i + 1)
  }

  function Repeat(table: seq<string>, paths: seq<string>, n: nat): (r: seq<string>)
    requires |table| <= MAX_INCLUDES
    ensures |table| <= |r| <= MAX_INCLUDES
    decreases n
  {
    if n == 0 then table else Repeat(Fill(table, paths), paths, n - 1)
  }

  /** The table of a walk at `depth`: on the way down to the deepest level the first readable
      include is read again and again, and each time it takes new slots. */
  function FlatTable(fs: FileSystem, table: seq<string>, depth: nat): (r: seq<string>)
    requires |table| <= MAX_INCLUDES && depth < MAX_IMPORT_DEPTH
    ensures |r| <= MAX_INCLUDES
  {
    OnePass(fs, Repeat(table, FirstReadableIncludes(fs, table), MAX_IMPORT_DEPTH - 1 - depth), 0)
  }

  /** The table after main alone has been read. */
  function DirectTable(fs: FileSystem, main: string): (r: seq<string>)
    ensures |r| <= MAX_INCLUDES
  {
    var paths := IncludesOf(fs, main);
    if |paths| <= MAX_INCLUDES then paths else paths[..MAX_INCLUDES]
  }

  /** The store after main alone has been read. */
  function MainRead(fs: FileSystem, main: string): (st: Store)
    ensures st.Valid()
  {
    Store(Contents(fs, main), DirectTable(fs, main), 1)
  }

  lemma AppendToNothing<T>(s: seq<T>)
    ensures [] + s == s
  {
  }

  lemma ParseMain(fs: FileSystem, main: string)
    requires main in fs
    ensures Parse(fs, EMPTY_STORE, main, 0) == Walk(fs, MainRead(fs, main), 0, 0)
  {
    AppendToNothing(fs[main].entries);
    AppendToNothing(fs[main].paths);
    AppendToNothing(DirectTable(fs, main));
    assert ReadFile(fs, EMPTY_STORE, main) == MainRead(fs, main);
  }

  /** The files that a load reads beside main. */
  function LoadedTable(fs: FileSystem, main: string): (r: seq<string>)
    ensures |r| <= MAX_INCLUDES
  {
    FlatTable(fs, DirectTable(fs, main), 0)
  }

  /** Everything that `p` includes is in the table. */
  ghost predicate Absorbs(fs: FileSystem, table: seq<string>, p: string) {
    forall q :: q in IncludesOf(fs, p) ==> q in table
  }

  ghost predicate Closed(fs: FileSystem, paths: seq<string>) {
    forall p :: p in paths ==> Absorbs(fs, paths, p)
  }

  /** From here on the table can only repeat itself. */
  ghost predicate Settled(fs: FileSystem, table: seq<string>) {
    |table| == MAX_INCLUDES || Closed(fs, table)
  }

  lemma FillSettled(fs: FileSystem, table: seq<string>, p: string)
    requires |table| <= MAX_INCLUDES && p in table && Settled(fs, table)
    ensures SettledLike(fs, table, Fill(table, IncludesOf(fs, p)))
  {
    var r := Fill(table, IncludesOf(fs, p));
    if |table| == MAX_INCLUDES {
      assert r == table;
    } else {
      assert Absorbs(fs, table, p);
      assert forall x :: x in r <==> x in table || x in r[|table|..];
      assert forall x :: x in r[|table|..] ==> x in IncludesOf(fs, p);
      SettledSame(fs, table, r);
    }
  }

  /** Being settled depends on the elements of the table only. */
  lemma SettledSame(fs: FileSystem, a: seq<string>, b: seq<string>)
    requires SameElements(a, b) && Closed(fs, a)
    ensures Closed(fs, b)
  {
    forall p | p in b ensures Absorbs(fs, b, p) {
      assert Absorbs(fs, a, p);
    }
  }

  lemma SettledTwice(fs: FileSystem, a: seq<string>, b: seq<string>, c: seq<string>)
    requires SettledLike(fs, a, b) && SettledLike(fs, b, c)
    ensures SettledLike(fs, a, c)
  {
  }

  lemma {:induction false} SettledParse(fs: FileSystem, st: Store, i: nat, depth: nat)
    requires st.Valid() && depth <= MAX_IMPORT_DEPTH + 1 && i < |st.table| && Settled(fs, st.table)
    ensures var r := Parse(fs, st, st.table[i], depth).table;
            SettledLike(fs, st.table, r)
    decreases MAX_IMPORT_DEPTH + 1 - depth, MAX_INCLUDES + 1
  {
    if Opens(fs, st.table[i], depth) {
      FillSettled(fs, st.table, st.table[i]);
      SettledWalk(fs, ReadFile(fs, st, st.table[i]), 0, depth);
    }
  }

  lemma {:induction false} SettledWalk(fs: FileSystem, st: Store, i: nat, depth: nat)
    requires st.Valid() && depth <= MAX_IMPORT_DEPTH && Settled(fs, st.table)
    ensures var r := Walk(fs, st, i, depth).table;
            SettledLike(fs, st.table, r)
    decreases MAX_IMPORT_DEPTH + 1 - depth, MAX_INCLUDES - i
  {
    if i < |st.table| {
      var next := Parse(fs, st, st.table[i], depth + 1);
      SettledParse(fs, st, i, depth + 1);
      SettledWalk(fs, next, i + 1, depth);
      assert Walk(fs, st, i, depth) == Walk(fs, next, i + 1, depth);
      SettledTwice(fs, st.table, next.table, Walk(fs, next, i + 1, depth).table);
    }
  }

  /** After one pass the table is settled. */
  lemma {:induction false} OnePassSettles(fs: FileSystem, table: seq<string>, i: nat)
    requires |table| <= MAX_INCLUDES && i <= |table|
    requires |table| == MAX_INCLUDES || forall j :: 0 <= j < i ==> Absorbs(fs, table, table[j])
    ensures Settled(fs, OnePass(fs, table, i))
    decreases MAX_INCLUDES - i
  {
    if i < |table| {
      var r := Fill(table, IncludesOf(fs, table[i]));
      if |r| < MAX_INCLUDES {
        forall j | 0 <= j < i + 1 ensures Absorbs(fs, r, r[j]) {
          assert r == table + IncludesOf(fs, table[i]);
          assert j < i ==> Absorbs(fs, table, table[j]);
        }
      }
      OnePassSettles(fs, r, i + 1);
    }
  }

  /** A parse on the deepest level only reads the file. */
  lemma DeepestParse(fs: FileSystem, st: Store, path: string)
    requires st.Valid()
    ensures Parse(fs, st, path, MAX_IMPORT_DEPTH).table == Fill(st.table, IncludesOf(fs, path))
  {
    DeepestWalkIsIdle(fs, ReadFile(fs, st, path), 0);
  }

  /** The walk one level above the deepest is exactly one pass. */
  lemma {:induction false} LastWalkIsOnePass(fs: FileSystem, st: Store, i: nat)
    requires st.Valid()
    ensures Walk(fs, st, i, MAX_IMPORT_DEPTH - 1).table == OnePass(fs, st.table, i)
    decreases MAX_INCLUDES - i
  {
    if i < |st.table| {
      DeepestParse(fs, st, st.table[i]);
      LastWalkIsOnePass(fs, Parse(fs, st, st.table[i], MAX_IMPORT_DEPTH), i + 1);
    }
  }

  /** A walk passes over unreadable slots until it meets the first readable one. */
  lemma {:induction false} WalkSkips(fs: FileSystem, st: Store, i: nat, depth: nat) returns (k: nat, there: Store)
    requires st.Valid() && depth < MAX_IMPORT_DEPTH && i <= |st.table|
    ensures i <= k <= |st.table| && there.table == st.table && there.Valid()
    ensures Walk(fs, st, i, depth) == Walk(fs, there, k, depth)
    ensures forall j :: i <= j < k ==> st.table[j] !in fs
    ensures k < |st.table| ==> st.table[k] in fs
    ensures FirstReadableFrom(fs, st.table, i) ==
            if k < |st.table| then IncludesOf(fs, st.table[k]) else []
    decreases |st.table| - i
  {
    k, there := i, st;
    if i < |st.table| && st.table[i] !in fs {
      k, there := WalkSkips(fs, Parse(fs, st, st.table[i], depth + 1), i + 1, depth);
    }
  }

  lemma {:induction false} FirstReadableStays(fs: FileSystem, a: seq<string>, r: seq<string>, k: nat, i: nat)
    requires i <= k < |a| && a[k] in fs && Extends(a, r)
    ensures FirstReadableFrom(fs, r, i) == FirstReadableFrom(fs, a, i)
    decreases k - i
  {
    assert r[i] == a[i];
    if a[i] !in fs {
      FirstReadableStays(fs, a, r, k, i + 1);
    }
  }

  lemma {:induction false} NothingReadable(fs: FileSystem, table: seq<string>, i: nat)
    requires |table| <= MAX_INCLUDES && forall k :: 0 <= k < |table| ==> table[k] !in fs
    ensures OnePass(fs, table, i) == table && Settled(fs, table)
    decreases MAX_INCLUDES - i
  {
    if i < |table| {
      assert Fill(table, IncludesOf(fs, table[i])) == table;
      NothingReadable(fs, table, i + 1);
    }
  }

  lemma {:induction false} RepeatNothing(table: seq<string>, n: nat)
    requires |table| <= MAX_INCLUDES
    ensures Repeat(table, [], n) == table
  {
    if n > 0 {
      assert Fill(table, []) == table;
      RepeatNothing(table, n - 1);
    }
  }

  lemma FlatOfUnreadable(fs: FileSystem, table: seq<string>, depth: nat)
    requires |table| <= MAX_INCLUDES && depth < MAX_IMPORT_DEPTH
    requires forall k :: 0 <= k < |table| ==> table[k] !in fs
    requires FirstReadableIncludes(fs, table) == []
    ensures FlatTable(fs, table, depth) == table && Settled(fs, table)
  {
    RepeatNothing(table, MAX_IMPORT_DEPTH - 1 - depth);
    NothingReadable(fs, table, 0);
  }

  /** Reading the first readable include once is what one level adds. */
  lemma FlatGoesDown(fs: FileSystem, table: seq<string>, k: nat, depth: nat)
    requires |table| <= MAX_INCLUDES && depth < MAX_IMPORT_DEPTH - 1
    requires k < |table| && table[k] in fs && FirstReadableIncludes(fs, table) == IncludesOf(fs, table[k])
    ensures FlatTable(fs, table, depth) == FlatTable(fs, Fill(table, IncludesOf(fs, table[k])), depth + 1)
  {
    FirstReadableStays(fs, table, Fill(table, IncludesOf(fs, table[k])), k, 0);
  }

  lemma LastWalkIsFlat(fs: FileSystem, st: Store)
    requires st.Valid()
    ensures SettledLike(fs, FlatTable(fs, st.table, MAX_IMPORT_DEPTH - 1), Walk(fs, st, 0, MAX_IMPORT_DEPTH - 1).table)
  {
    LastWalkIsOnePass(fs, st, 0);
    OnePassSettles(fs, st.table, 0);
  }

  /** What the walk below the first readable slot settles on, the whole walk settles on. */
  lemma WalkFromReadable(fs: FileSystem, st: Store, k: nat, depth: nat, flat: seq<string>)
    requires st.Valid() && depth < MAX_IMPORT_DEPTH - 1 && k < |st.table| && st.table[k] in fs
    requires SettledLike(fs, flat, Walk(fs, ReadFile(fs, st, st.table[k]), 0, depth + 1).table)
    ensures SettledLike(fs, flat, Walk(fs, st, k, depth).table)
  {
    var next := Parse(fs, st, st.table[k], depth + 1);
    assert next == Walk(fs, ReadFile(fs, st, st.table[k]), 0, depth + 1);
    SettledWalk(fs, next, k + 1, depth);
    var end := Walk(fs, next, k + 1, depth);
    assert Walk(fs, st, k, depth) == end;
    SettledTwice(fs, flat, next.table, end.table);
  }

  lemma WalkOfUnreadable(fs: FileSystem, st: Store, there: Store, depth: nat)
    requires st.Valid() && depth < MAX_IMPORT_DEPTH && there.table == st.table
    requires FirstReadableIncludes(fs, st.table) == [] && forall k :: 0 <= k < |st.table| ==> st.table[k] !in fs
    ensures SettledLike(fs, FlatTable(fs, st.table, depth), Walk(fs, there, |st.table|, depth).table)
  {
    FlatOfUnreadable(fs, st.table, depth);
    assert Walk(fs, there, |st.table|, depth) == there;
  }

  /** The walk at `depth` reads the same files as one pass, once the first readable include
      has been read once more for every level that lies below. */
  lemma {:induction false} WalkIsOnePass(fs: FileSystem, st: Store, depth: nat)
    requires st.Valid() && depth < MAX_IMPORT_DEPTH
    ensures SettledLike(fs, FlatTable(fs, st.table, depth), Walk(fs, st, 0, depth).table)
    decreases MAX_IMPORT_DEPTH - depth
  {
    if depth == MAX_IMPORT_DEPTH - 1 {
      LastWalkIsFlat(fs, st);
    } else {
      var k, there := WalkSkips(fs, st, 0, depth);
      if k == |st.table| {
        WalkOfUnreadable(fs, st, there, depth);
      } else {
        WalkIsOnePass(fs, ReadFile(fs, there, st.table[k]), depth + 1);
        FlatGoesDown(fs, st.table, k, depth);
        WalkFromReadable(fs, there, k, depth, FlatTable(fs, st.table, depth));
      }
    }
  }

  /** Main result: the recursion reads exactly the files of the flat, one-pass table. */
  lemma TableIsOnePass(fs: FileSystem, main: string)
    requires main in fs
    ensures SameElements(Parse(fs, EMPTY_STORE, main, 0).table, LoadedTable(fs, main))
  {
    ParseMain(fs, main);
    WalkIsOnePass(fs, MainRead(fs, main), 0);
  }

  // ------------------------------------------------------------------
  // Completeness: when does a load read every file that main leads to?
  // ------------------------------------------------------------------

  /** A chain of includes that starts at `main`. */
  ghost predicate Chain(fs: FileSystem, main: string, c: seq<string>) {
    |c| > 0 && c[0] == main && forall i :: 0 <= i < |c| - 1 ==> c[i + 1] in IncludesOf(fs, c[i])
  }

  ghost predicate LeadsTo(fs: FileSystem, main: string, path: string) {
    exists c :: Chain(fs, main, c) && c[|c| - 1] == path
  }

  /** Every path that is ever put in the table is one that main leads to. */
  ghost predicate Grounded(fs: FileSystem, main: string, table: seq<string>) {
    forall p :: p in table ==> LeadsTo(fs, main, p)
  }

  lemma LeadsOn(fs: FileSystem, main: string, p: string, q: string)
    requires LeadsTo(fs, main, p) && q in IncludesOf(fs, p)
    ensures LeadsTo(fs, main, q)
  {
    var c :| Chain(fs, main, c) && c[|c| - 1] == p;
    assert Chain(fs, main, c + [q]);
    assert (c + [q])[|c + [q]| - 1] == q;
  }

  lemma FillGrounded(fs: FileSystem, main: string, table: seq<string>, p: string)
    requires |table| <= MAX_INCLUDES && LeadsTo(fs, main, p) && Grounded(fs, main, table)
    ensures Grounded(fs, main, Fill(table, IncludesOf(fs, p)))
  {
    var r := Fill(table, IncludesOf(fs, p));
    forall x | x in r ensures LeadsTo(fs, main, x) {
      if x !in table {
        assert x in IncludesOf(fs, p);
        LeadsOn(fs, main, p, x);
      }
    }
  }

  lemma {:induction false} ParseGrounded(fs: FileSystem, main: string, st: Store, path: string, depth: nat)
    requires st.Valid() && depth <= MAX_IMPORT_DEPTH + 1 && LeadsTo(fs, main, path) && Grounded(fs, main, st.table)
    ensures Grounded(fs, main, Parse(fs, st, path, depth).table)
    decreases MAX_IMPORT_DEPTH + 1 - depth, MAX_INCLUDES + 1
  {
    if Opens(fs, path, depth) {
      FillGrounded(fs, main, st.table, path);
      WalkGrounded(fs, main, ReadFile(fs, st, path), 0, depth);
    }
  }

  lemma {:induction false} WalkGrounded(fs: FileSystem, main: string, st: Store, i: nat, depth: nat)
    requires st.Valid() && depth <= MAX_IMPORT_DEPTH && Grounded(fs, main, st.table)
    ensures Grounded(fs, main, Walk(fs, st, i, depth).table)
    decreases MAX_IMPORT_DEPTH + 1 - depth, MAX_INCLUDES - i
  {
    if i < |st.table| {
      ParseGrounded(fs, main, st, st.table[i], depth + 1);
      WalkGrounded(fs, main, Parse(fs, st, st.table[i], depth + 1), i + 1, depth);
    }
  }

  lemma {:induction false} ClosedHoldsChains(fs: FileSystem, main: string, paths: seq<string>, c: seq<string>)
    requires main in paths && Closed(fs, paths) && Chain(fs, main, c)
    ensures c[|c| - 1] in paths
  {
    if |c| > 1 {
      var shorter := c[..|c| - 1];
      assert Chain(fs, main, shorter);
      ClosedHoldsChains(fs, main, paths, shorter);
      assert c[|c| - 1] in IncludesOf(fs, c[|c| - 2]);
    }
  }

  ghost predicate HoldsEverything(fs: FileSystem, main: string, paths: seq<string>) {
    forall p :: LeadsTo(fs, main, p) ==> p in paths
  }

  lemma CompleteIffClosed(fs: FileSystem, main: string, paths: seq<string>)
    requires main in paths && Grounded(fs, main, paths)
    ensures HoldsEverything(fs, main, paths) <==> Closed(fs, paths)
  {
    if Closed(fs, paths) {
      forall p | LeadsTo(fs, main, p) ensures p in paths {
        var c :| Chain(fs, main, c) && c[|c| - 1] == p;
        ClosedHoldsChains(fs, main, paths, c);
      }
    }
    if HoldsEverything(fs, main, paths) {
      forall p | p in paths ensures Absorbs(fs, paths, p) {
        forall q | q in IncludesOf(fs, p) ensures q in paths {
          LeadsOn(fs, main, p, q);
        }
      }
    }
  }

  lemma MainLeadsToItself(fs: FileSystem, main: string)
    ensures LeadsTo(fs, main, main)
  {
    var c := [main];
    assert Chain(fs, main, c) && c[|c| - 1] == main;
  }

  /** Main result: a load reads every file main leads to exactly when the one-pass table,
      which can be computed from the include lines alone, is closed under inclusion. */
  lemma LoadIsCompleteIff(fs: FileSystem, main: string)
    requires main in fs
    ensures var loaded := [main] + Parse(fs, EMPTY_STORE, main, 0).table;
            && Grounded(fs, main, loaded)
            && (HoldsEverything(fs, main, loaded) <==> Closed(fs, [main] + LoadedTable(fs, main)))
  {
    var table := Parse(fs, EMPTY_STORE, main, 0).table;
    var loaded, flat := [main] + table, [main] + LoadedTable(fs, main);
    MainLeadsToItself(fs, main);
    ParseGrounded(fs, main, EMPTY_STORE, main, 0);
    assert Grounded(fs, main, loaded);
    CompleteIffClosed(fs, main, loaded);
    TableIsOnePass(fs, main);
    assert SameElements(loaded, flat);
    if Closed(fs, loaded) { SettledSame(fs, loaded, flat); }
    if Closed(fs, flat) { SettledSame(fs, flat, loaded); }
  }

  /** Whenever the first readable include brings enough paths of its own, nothing below the
      direct includes and that one file is ever read. */
  lemma {:induction false} RepeatElements(table: seq<string>, paths: seq<string>, n: nat)
    requires |table| <= MAX_INCLUDES
    ensures forall x :: x in Repeat(table, paths, n) ==> x in table || x in paths
    decreases n
  {
    if n > 0 {
      var next := Fill(table, paths);
      RepeatElements(next, paths, n - 1);
      assert forall x :: x in next ==> x in table || x in paths;
    }
  }

  lemma {:induction false} RepeatOverflows(table: seq<string>, paths: seq<string>, n: nat, k: nat)
    requires |table| <= MAX_INCLUDES && |paths| == k && |table| + n * k >= MAX_INCLUDES
    ensures |Repeat(table, paths, n)| == MAX_INCLUDES
    decreases n
  {
    if n > 0 {
      var next := Fill(table, paths);
      var rest := Repeat(next, paths, n - 1);
      assert n * k == (n - 1) * k + k;
      assert |rest| >= |next|;
      if |next| < MAX_INCLUDES {
        RepeatOverflows(next, paths, n - 1, k);
      }
    }
  }

  lemma {:induction false} FullOnePass(fs: FileSystem, table: seq<string>, i: nat)
    requires |table| == MAX_INCLUDES
    ensures OnePass(fs, table, i) == table
    decreases MAX_INCLUDES - i
  {
    if i < |table| {
      assert Fill(table, IncludesOf(fs, table[i])) == table;
      FullOnePass(fs, table, i + 1);
    }
  }

  lemma FirstIncludeStarvesTheRest(fs: FileSystem, main: string)
    requires main in fs
    requires var direct := DirectTable(fs, main);
             |direct| + (MAX_IMPORT_DEPTH - 1) * |FirstReadableIncludes(fs, direct)| >= MAX_INCLUDES
    ensures var direct := DirectTable(fs, main);
            forall x :: x in Parse(fs, EMPTY_STORE, main, 0).table ==>
              x in direct || x in FirstReadableIncludes(fs, direct)
  {
    var direct := DirectTable(fs, main);
    var paths := FirstReadableIncludes(fs, direct);
    RepeatOverflows(direct, paths, MAX_IMPORT_DEPTH - 1, |paths|);
    RepeatElements(direct, paths, MAX_IMPORT_DEPTH - 1);
    FullOnePass(fs, Repeat(direct, paths, MAX_IMPORT_DEPTH - 1), 0);
    TableIsOnePass(fs, main);
  }

  /** A small tree can lose a file: `main` includes `a`, `a` includes four more or above, and
      what those include in turn is never read, because repeats of them fill the table. */
  lemma ThirdLevelIsLost(fs: FileSystem, main: string, a: string, b: string, x: string)
    requires main in fs && IncludesOf(fs, main) == [a]
    requires a in fs && |IncludesOf(fs, a)| >= 4 && b in IncludesOf(fs, a) && x in IncludesOf(fs, b)
    requires x !in [main, a] && x !in IncludesOf(fs, a)
    ensures LeadsTo(fs, main, x) && x !in [main] + Parse(fs, EMPTY_STORE, main, 0).table
  {
    MainLeadsToItself(fs, main);
    LeadsOn(fs, main, main, a);
    LeadsOn(fs, main, a, b);
    LeadsOn(fs, main, b, x);
    var direct := DirectTable(fs, main);
    assert direct == [a] && direct[0] == a;
    assert FirstReadableIncludes(fs, direct) == IncludesOf(fs, a);
    FirstIncludeStarvesTheRest(fs, main);
    assert x !in direct;
  }

  // ------------------------------------------------------------------
  // What the lines of one file say
  // ------------------------------------------------------------------

  lemma {:induction false} CutAtLastSlash(dir: string, base: string)
    requires '/' !in base
    ensures BeforeLastSlash(dir + ("/" + base)) == dir
    decreases |base|
  {
    var path := dir + ("/" + base);
    var n := |path| - 1;
    if base == "" {
      assert path[n] == '/' && path[..n] == dir;
    } else {
      var shorter := base[..|base| - 1];
      assert path[n] == base[|base| - 1] && path[..n] == dir + ("/" + shorter);
      CutAtLastSlash(dir, shorter);
    }
  }

  /** An included name is looked for beside the file that includes it; a path without a slash
      counts as a directory. */
  lemma ResolvesBeside(dir: string, base: string, name: string)
    requires '/' !in base
    ensures Resolve(dir + ("/" + base), name) == dir + "/" + name
    ensures Resolve(base, name) == base + "/" + name
  {
    var path := dir + ("/" + base);
    assert path[|dir|] == '/';
    CutAtLastSlash(dir, base);
  }

  /** The paths of an include line stand between those of the lines before and behind it. */
  lemma {:induction false} PathsAround(path: string, items: seq<Item>, i: nat, n: nat)
    requires i <= n < |items| && items[n].Include?
    ensures var before, names, all := PathsTo(path, items, i, n), items[n].names, PathsFrom(path, items, i);
            && |all| == |before| + |names| + |PathsFrom(path, items, n + 1)|
            && forall k :: 0 <= k < |names| ==> all[|before| + k] == Resolve(path, names[k])
    decreases n - i
  {
    if i < n {
      PathsAround(path, items, i + 1, n);
    }
  }

  /** The paths of the include lines from `i` up to `n`. */
  function PathsTo(path: string, items: seq<Item>, i: nat, n: nat): seq<string>
    requires i <= n <= |items|
    decreases n - i
  {
    if i == n then []
    else if items[i].Include? then ResolveAll(path, items[i].names) + PathsTo(path, items, i + 1, n)
    else PathsTo(path, items, i + 1, n)
  }

  /** The names in the include lines before line `n`. */
  function NamesBefore(items: seq<Item>, n: nat): nat
    requires n <= |items|
  {
    if n == 0 then 0
    else NamesBefore(items, n - 1) + if items[n - 1].Include? then |items[n - 1].names| else 0
  }

  lemma {:induction false} PathsToNext(path: string, items: seq<Item>, i: nat, n: nat)
    requires i <= n < |items|
    ensures |PathsTo(path, items, i, n + 1)| ==
            |PathsTo(path, items, i, n)| + if items[n].Include? then |items[n].names| else 0
    decreases n - i
  {
    if i < n {
      PathsToNext(path, items, i + 1, n);
    }
  }

  lemma {:induction false} PathsToCount(path: string, items: seq<Item>, n: nat)
    requires n <= |items|
    ensures |PathsTo(path, items, 0, n)| == NamesBefore(items, n)
  {
    if n > 0 {
      PathsToCount(path, items, n - 1);
      PathsToNext(path, items, 0, n - 1);
    }
  }

  /** What main includes stays in the first slots. */
  lemma DirectIncludesStay(fs: FileSystem, main: string, k: nat)
    requires main in fs && k < |IncludesOf(fs, main)| && k < MAX_INCLUDES
    ensures var table := Parse(fs, EMPTY_STORE, main, 0).table;
            k < |table| <= MAX_INCLUDES && table[k] == IncludesOf(fs, main)[k]
  {
    ParseMain(fs, main);
    WalkOnlyAppends(fs, MainRead(fs, main), 0, 0);
  }

  lemma IncludeOfLine(path: string, items: seq<Item>, n: nat, k: nat)
    requires n < |items| && items[n].Include? && k < |items[n].names|
    ensures var paths, at := PathsFrom(path, items, 0), NamesBefore(items, n) + k;
            at < |paths| && paths[at] == Resolve(path, items[n].names[k])
  {
    PathsAround(path, items, 0, n);
    PathsToCount(path, items, n);
  }

  /** The first slots of the final table are the names in the include lines of main, in order, each
      in the directory of main, as many as there is room for. */
  lemma IncludesBesideMain(disk: Disk, dir: string, base: string, n: nat, k: nat)
    requires '/' !in base && dir + ("/" + base) in disk
    requires var items := disk[dir + ("/" + base)];
             n < |items| && items[n].Include? && k < |items[n].names| && NamesBefore(items, n) + k < 32
    ensures var items, table := disk[dir + ("/" + base)], Parse(Files(disk), EMPTY_STORE, dir + ("/" + base), 0).table;
            var at := NamesBefore(items, n) + k;
            at < |table| <= 32 && table[at] == dir + "/" + items[n].names[k]
  {
    var main := dir + ("/" + base);
    var items := disk[main];
    IncludeOfLine(main, items, n, k);
    ResolvesBeside(dir, base, items[n].names[k]);
    DirectIncludesStay(Files(disk), main, NamesBefore(items, n) + k);
  }

  predicate Binds(item: Item, section: string, key: string) {
    item.Binding? && item.section == section && item.key == key
  }

  /** A file gives a key the value of its first binding from line `i` on, or none. */
  lemma {:induction false} FirstBindingCounts(items: seq<Item>, i: nat, n: nat, section: string, key: string)
    requires i <= n <= |items| && forall j :: i <= j < n ==> !Binds(items[j], section, key)
    requires n < |items| ==> Binds(items[n], section, key)
    ensures Lookup(EntriesFrom(items, i), section, key) ==
            if n == |items| then None else Some(Unquote(items[n].raw))
    decreases n - i
  {
    if i < n {
      FirstBindingCounts(items, i + 1, n, section, key);
    }
  }

  /** For every disk: the first binding of a key in main decides what the load finds for it. */
  lemma FirstBindingOfMainWins(disk: Disk, main: string, n: nat, section: string, key: string)
    requires main in disk && n < |disk[main]| && Binds(disk[main][n], section, key)
    requires forall j :: 0 <= j < n ==> !Binds(disk[main][j], section, key)
    ensures Lookup(Parse(Files(disk), EMPTY_STORE, main, 0).entries, section, key) == Some(Unquote(disk[main][n].raw))
  {
    FirstBindingCounts(disk[main], 0, n, section, key);
    MainOverridesIncludes(Files(disk), main, section, key);
  }

  // ------------------------------------------------------------------
  // Four small files
  // ------------------------------------------------------------------

  const SMALL_DISK: Disk := map["c/m" := [Include(["a"])],
                                "c/a" := [Include(["p", "q", "r", "s"])],
                                "c/p" := [Include(["x"])],
                                "c/x" := [Binding("", "k", "v")]]

  lemma OneLetterInclude(disk: Disk, path: string, names: seq<string>, i: nat)
    requires path in disk && disk[path] == [Include(names)] && i < |names|
    requires |path| == 3 && path[0] != '/' && path[1] == '/' && path[2] != '/' && |names[i]| == 1
    ensures var paths := IncludesOf(Files(disk), path);
            |paths| == |names| && paths[i] == [path[0], '/', names[i][0]]
  {
    var items := disk[path];
    assert PathsFrom(path, items, 1) == [];
    ResolvesBeside(path[..1], path[2..], names[i]);
    assert path == path[..1] + ("/" + path[2..]);
  }

  lemma {:induction false} NothingFlat(fs: FileSystem, paths: seq<string>, i: nat)
    requires forall k :: i <= k < |paths| ==> Contents(fs, paths[k]) == []
    ensures FlatFrom(fs, paths, i) == []
    decreases |paths| - i
  {
    if i < |paths| {
      NothingFlat(fs, paths, i + 1);
      AppendToNothing(FlatFrom(fs, paths, i + 1));
    }
  }

  lemma OnlyOneFileHasEntries(path: string)
    requires path != "c/x"
    ensures Contents(Files(SMALL_DISK), path) == []
  {
    if path in SMALL_DISK {
      var items := SMALL_DISK[path];
      assert EntriesFrom(items, 1) == [];
      assert EntriesFrom(items, 0) == [];
    }
  }

  /** So the one setting of these files is lost without notice. */
  lemma SmallDiskLosesASetting()
    ensures var fs := Files(SMALL_DISK);
            && Lookup(Contents(fs, "c/x"), "", "k") == Some("v") && LeadsTo(fs, "c/m", "c/x")
            && Lookup(Parse(fs, EMPTY_STORE, "c/m", 0).entries, "", "k") == None
  {
    var fs := Files(SMALL_DISK);
    var items := SMALL_DISK["c/x"];
    var none: seq<Entry> := [];
    assert EntriesFrom(items, 1) == none;
    assert Contents(fs, "c/x") == [Entry("", "k", "v")] + none;
    SmallDiskLosesAFile();
    var table := Parse(fs, EMPTY_STORE, "c/m", 0).table;
    forall k | 0 <= k < |table| ensures Contents(fs, table[k]) == [] {
      assert table[k] in ["c/m"] + table;
      OnlyOneFileHasEntries(table[k]);
    }
    NothingFlat(fs, table, 0);
    OnlyOneFileHasEntries("c/m");
    LookupMeaning(fs, "c/m", "", "k");
    AppendToNothing(none);
  }

  lemma MainIncludes()
    ensures "c/m" in Files(SMALL_DISK) && IncludesOf(Files(SMALL_DISK), "c/m") == ["c/a"]
  {
    OneLetterInclude(SMALL_DISK, "c/m", ["a"], 0);
  }

  lemma LastIncludes()
    ensures var paths := IncludesOf(Files(SMALL_DISK), "c/p"); |paths| == 1 && paths[0] == "c/x"
  {
    OneLetterInclude(SMALL_DISK, "c/p", ["x"], 0);
  }

  /** Four includes, none of which is the last file. */
  lemma MiddleIncludes()
    ensures var paths := IncludesOf(Files(SMALL_DISK), "c/a");
            "c/a" in Files(SMALL_DISK) && |paths| == 4 && paths[0] == "c/p" && "c/x" !in paths
  {
    var four, x := ["p", "q", "r", "s"], "c/x";
    OneLetterInclude(SMALL_DISK, "c/a", four, 0);
    var paths := IncludesOf(Files(SMALL_DISK), "c/a");
    forall i | 0 <= i < 4 ensures paths[i] != x {
      OneLetterInclude(SMALL_DISK, "c/a", four, i);
      assert paths[i][2] == four[i][0] != x[2];
    }
  }

  /** The same with actual files: `c/m` leads to `c/x`, but the load never opens it. */
  lemma SmallDiskLosesAFile()
    ensures var fs := Files(SMALL_DISK);
            LeadsTo(fs, "c/m", "c/x") && "c/x" !in ["c/m"] + Parse(fs, EMPTY_STORE, "c/m", 0).table
  {
    MainIncludes();
    MiddleIncludes();
    LastIncludes();
    var m, a, p, x := "c/m", "c/a", "c/p", "c/x";
    assert x[2] != m[2] && x[2] != a[2];
    ThirdLevelIsLost(Files(SMALL_DISK), m, a, p, x);
  }

  // ------------------------------------------------------------------
  // Cost of the re-reading
  // ------------------------------------------------------------------

  function Pow(b: nat, e: nat): nat {
    if e == 0 then 1 else b * Pow(b, e - 1)
  }

  /** Calls that a parse with `n` levels left below the limit can make at most. */
  function CallBound(n: nat): nat {
    if n == 0 then 1 else 1 + MAX_INCLUDES * CallBound(n - 1)
  }

  lemma {:induction false} CallBoundClosedForm(n: nat)
    ensures (MAX_INCLUDES - 1) * CallBound(n) + 1 == Pow(MAX_INCLUDES, n + 1)
  {
    if n > 0 {
      CallBoundClosedForm(n - 1);
    } else {
      assert Pow(MAX_INCLUDES, 1) == MAX_INCLUDES * Pow(MAX_INCLUDES, 0);
    }
  }

  lemma {:induction false} CallsBounded(fs: FileSystem, st: Store, path: string, depth: nat)
    requires st.Valid() && depth <= MAX_IMPORT_DEPTH + 1
    ensures Parse(fs, st, path, depth).calls <= st.calls + CallBound(MAX_IMPORT_DEPTH + 1 - depth)
    decreases MAX_IMPORT_DEPTH + 1 - depth, MAX_INCLUDES + 1
  {
    if Opens(fs, path, depth) {
      WalkCallsBounded(fs, ReadFile(fs, st, path), 0, depth);
      TimesIsProduct(MAX_INCLUDES, CallBound(MAX_IMPORT_DEPTH - depth));
    }
  }

  lemma {:induction false} WalkCallsBounded(fs: FileSystem, st: Store, i: nat, depth: nat)
    requires st.Valid() && depth <= MAX_IMPORT_DEPTH
    ensures Walk(fs, st, i, depth).calls <= st.calls + Times(Left(i), CallBound(MAX_IMPORT_DEPTH - depth))
    decreases MAX_IMPORT_DEPTH + 1 - depth, MAX_INCLUDES - i
  {
    if i < |st.table| {
      CallsBounded(fs, st, st.table[i], depth + 1);
      WalkCallsBounded(fs, Parse(fs, st, st.table[i], depth + 1), i + 1, depth);
      assert Left(i) == Left(i + 1) + 1;
    }
  }

  /** Slots from `i` on. */
  function Left(i: nat): nat { if i >= MAX_INCLUDES then 0 else MAX_INCLUDES - i }

  function Times(n: nat, b: nat): nat { if n == 0 then 0 else b + Times(n - 1, b) }

  lemma {:induction false} TimesIsProduct(n: nat, b: nat)
    ensures Times(n, b) == n * b
  {
    if n > 0 {
      TimesIsProduct(n - 1, b);
    }
  }

  /** Main result: one load makes at most (32^12 - 1) / 31 parse calls. */
  lemma LoadCallsBounded(fs: FileSystem, main: string)
    ensures (MAX_INCLUDES - 1) * Parse(fs, EMPTY_STORE, main, 0).calls < Pow(MAX_INCLUDES, MAX_IMPORT_DEPTH + 2)
  {
    CallsBounded(fs, EMPTY_STORE, main, 0);
    CallBoundClosedForm(MAX_IMPORT_DEPTH + 1);
  }
}
