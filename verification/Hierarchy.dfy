/**
 The walk over the device's folders that fills the table of known paths and links the records
 handed to the caller.
 */
module Hierarchy {
  import opened Paths
  import KeyFiles
  import SummaryIndex

  /** A device folder: whether it can be selected and listed, and what its listing then says. */
  datatype Dir = Dir(selectable: bool, listable: bool, listing: seq<Entry>)
  datatype Entry = Entry(name: string, dir: Dir)

  const ROOT := "/telecom/msg"
  const INBOX := "Inbox"

  predicate Answers(dir: Dir) {
    dir.selectable && dir.listable
  }

  predicate Kept(name: string) {
    name != "" && name != "msg" && name != "MSG"
  }

  predicate IsInbox(fullName: string) {
    KeyFiles.AsciiLower(fullName) == "inbox"
  }

  predicate SpellsInbox(s: string) {
    |s| == 5 && s[0] in "iI" && s[1] in "nN" && s[2] in "bB" && s[3] in "oO" && s[4] in "xX"
  }

  lemma InboxSpelling(s: string)
    ensures IsInbox(s) <==> SpellsInbox(s)
  {
    var name := "inbox";
    KeyFiles.LowerSpells(s, name);
    if |s| == 5 {
      assert (forall i :: 0 <= i < 5 ==> KeyFiles.Letter(s[i], name[i])) <==>
             KeyFiles.Letter(s[0], name[0]) && KeyFiles.Letter(s[1], name[1]) && KeyFiles.Letter(s[2], name[2]) &&
             KeyFiles.Letter(s[3], name[3]) && KeyFiles.Letter(s[4], name[4]);
    }
  }

  // ---------------------------------------------------------------- what there is to find

  /** The names lead from the folder down to another one, by kept entries of folders that answer. */
  ghost predicate Leads(dir: Dir, names: seq<string>)
    decreases |names|
  {
    names == [] ||
    (Answers(dir) && names[0] !in {"", "msg", "MSG"} &&
     exists i :: 0 <= i < |dir.listing| && LeadsBy(dir.listing[i], names))
  }

  ghost predicate LeadsBy(e: Entry, names: seq<string>)
    requires names != []
    decreases |names|, 0
  {
    e.name == names[0] && Leads(e.dir, names[1..])
  }

  /** The path below another one with the given components. */
  function Below(path: string, names: seq<string>): string
    requires names != []
  {
    path + "/" + Join(names)
  }

  lemma {:induction false} BelowStep(path: string, name: string, rest: seq<string>)
    requires rest != []
    ensures Below(path, [name] + rest) == Below(path + "/" + name, rest)
  {
    var n, names := |rest| - 1, [name] + rest;
    assert names[..n + 1] == [name] + rest[..n] && names[n + 1] == rest[n];
    if n > 0 {
      BelowStep(path, name, rest[..n]);
      assert Below(path, names) == Below(path, names[..n + 1]) + "/" + rest[n];
      assert Below(path + "/" + name, rest) == Below(path + "/" + name, rest[..n]) + "/" + rest[n];
    } else {
      assert Join(names) == name + "/" + rest[0];
    }
  }

  /** The paths in the order of the walk, for the first n entries of a folder. */
  function Walk(dir: Dir, path: string, n: nat): seq<string>
    requires n <= |dir.listing|
    decreases dir, n
  {
    if !Answers(dir) || n == 0 then []
    else Walk(dir, path, n - 1) + WalkEntry(dir.listing[n - 1], path)
  }

  function WalkEntry(e: Entry, path: string): seq<string>
    decreases e, 1
  {
    if !Kept(e.name) then []
    else [path + "/" + e.name] + WalkInside(e, path)
  }

  function WalkInside(e: Entry, path: string): seq<string>
    decreases e, 0
  {
    Walk(e.dir, path + "/" + e.name, |e.dir.listing|)
  }

  function Members(xs: seq<string>): set<string> {
    set x | x in xs
  }

  function KeptNames(dir: Dir, n: nat): seq<string>
    requires n <= |dir.listing|
  {
    if !Answers(dir) || n == 0 then []
    else KeptNames(dir, n - 1) + if Kept(dir.listing[n - 1].name) then [dir.listing[n - 1].name] else []
  }

  /** How many of the first n entries are kept. */
  function KeptCount(dir: Dir, n: nat): nat
    requires n <= |dir.listing|
  {
    if n == 0 then 0 else KeptCount(dir, n - 1) + if Kept(dir.listing[n - 1].name) then 1 else 0
  }

  /** Each kept entry comes after just as many names as there are kept entries before it. */
  lemma {:induction false} KeptNamesInOrder(dir: Dir, n: nat, i: nat)
    requires Answers(dir) && i < n <= |dir.listing| && Kept(dir.listing[i].name)
    ensures |KeptNames(dir, n)| == KeptCount(dir, n) > KeptCount(dir, i)
    ensures KeptNames(dir, n)[KeptCount(dir, i)] == dir.listing[i].name
  {
    KeptNamesCount(dir, n);
    if i < n - 1 {
      KeptNamesInOrder(dir, n - 1, i);
    } else {
      KeptNamesCount(dir, n - 1);
    }
  }

  lemma {:induction false} KeptNamesCount(dir: Dir, n: nat)
    requires Answers(dir) && n <= |dir.listing|
    ensures |KeptNames(dir, n)| == KeptCount(dir, n)
  {
    if n > 0 {
      KeptNamesCount(dir, n - 1);
    }
  }

  /** The walk finds the reachable folders and nothing else. */
  lemma {:induction false} WalkFindsReachable(dir: Dir, path: string, n: nat, p: string)
    requires n <= |dir.listing|
    ensures p in Walk(dir, path, n) <==>
            exists i, names :: 0 <= i < n && names != [] && Answers(dir) && Kept(names[0]) &&
                               LeadsBy(dir.listing[i], names) && p == Below(path, names)
    decreases dir, n
  {
    if Answers(dir) && n > 0 {
      WalkFindsReachable(dir, path, n - 1, p);
      EntryFindsReachable(dir.listing[n - 1], path, p);
    }
  }

  lemma {:induction false} EntryFindsReachable(e: Entry, path: string, p: string)
    ensures p in WalkEntry(e, path) <==>
            exists names :: names != [] && Kept(names[0]) && LeadsBy(e, names) && p == Below(path, names)
    decreases e
  {
    if Kept(e.name) {
      var here := path + "/" + e.name;
      WalkFindsReachable(e.dir, here, |e.dir.listing|, p);
      if p == here {
        assert [e.name][1..] == [] && Leads(e.dir, [e.name][1..]);
        assert Below(path, [e.name]) == here;
        assert LeadsBy(e, [e.name]) && p == Below(path, [e.name]);
      }
      if i, names :| 0 <= i < |e.dir.listing| && names != [] && Answers(e.dir) && Kept(names[0]) &&
                     LeadsBy(e.dir.listing[i], names) && p == Below(here, names) {
        var longer := [e.name] + names;
        assert longer[1..] == names;
        BelowStep(path, e.name, names);
        assert LeadsBy(e, longer) && p == Below(path, longer);
      }
      if names :| names != [] && LeadsBy(e, names) && p == Below(path, names) && names[1..] != [] {
        var rest := names[1..];
        assert names == [e.name] + rest;
        BelowStep(path, e.name, rest);
        assert Leads(e.dir, rest);
        var i :| 0 <= i < |e.dir.listing| && LeadsBy(e.dir.listing[i], rest);
        assert p == Below(here, rest);
      }
    }
  }

  /** No name has a slash and no two entries of a folder have the same name. */
  ghost predicate Proper(dir: Dir)
    decreases dir, 0
  {
    && (forall i :: 0 <= i < |dir.listing| ==> SlashFree(dir.listing[i].name) && Proper(dir.listing[i].dir))
    && (forall i, j :: 0 <= i < j < |dir.listing| ==> dir.listing[i].name != dir.listing[j].name)
  }

  lemma {:induction false} LeadsIsSlashFree(e: Entry, names: seq<string>)
    requires SlashFree(e.name) && Proper(e.dir) && names != [] && LeadsBy(e, names)
    ensures SlashFreePath(names)
    decreases |names|
  {
    if names[1..] != [] {
      var i :| 0 <= i < |e.dir.listing| && LeadsBy(e.dir.listing[i], names[1..]);
      LeadsIsSlashFree(e.dir.listing[i], names[1..]);
    }
    assert forall c :: c in names ==> c == names[0] || c in names[1..];
  }

  lemma SamePathSameNames(e: Entry, a: seq<string>, f: Entry, b: seq<string>, path: string)
    requires SlashFree(e.name) && Proper(e.dir) && a != [] && LeadsBy(e, a)
    requires SlashFree(f.name) && Proper(f.dir) && b != [] && LeadsBy(f, b)
    requires Below(path, a) == Below(path, b)
    ensures a == b && e.name == f.name
  {
    LeadsIsSlashFree(e, a);
    LeadsIsSlashFree(f, b);
    assert Below(path, a)[|path| + 1..] == Join(a);
    assert Below(path, b)[|path| + 1..] == Join(b);
    JoinInjective(a, b);
  }

  lemma DistinctConcat(xs: seq<string>, ys: seq<string>)
    requires KeyFiles.Distinct(xs) && KeyFiles.Distinct(ys)
    requires forall p :: p in xs ==> p !in ys
    ensures KeyFiles.Distinct(xs + ys)
  {
    var zs := xs + ys;
    forall i, j | 0 <= i < j < |zs| ensures zs[i] != zs[j] {
      assert i < |xs| <= j ==> zs[i] in xs && zs[j] in ys;
    }
  }

  /** On a proper device no path enters the table twice. */
  lemma {:induction false} WalkIsDistinct(dir: Dir, path: string, n: nat)
    requires n <= |dir.listing| && Proper(dir)
    ensures KeyFiles.Distinct(Walk(dir, path, n))
    decreases dir, n
  {
    if Answers(dir) && n > 0 {
      var e := dir.listing[n - 1];
      WalkIsDistinct(dir, path, n - 1);
      EntryIsDistinct(e, path);
      forall p | p in Walk(dir, path, n - 1) && p in WalkEntry(e, path) ensures false {
        WalkFindsReachable(dir, path, n - 1, p);
        EntryFindsReachable(e, path, p);
        var i, a :| 0 <= i < n - 1 && a != [] && LeadsBy(dir.listing[i], a) && p == Below(path, a);
        var b :| b != [] && LeadsBy(e, b) && p == Below(path, b);
        SamePathSameNames(dir.listing[i], a, e, b, path);
      }
      DistinctConcat(Walk(dir, path, n - 1), WalkEntry(e, path));
    }
  }

  lemma {:induction false} EntryIsDistinct(e: Entry, path: string)
    requires SlashFree(e.name) && Proper(e.dir)
    ensures KeyFiles.Distinct(WalkEntry(e, path))
    decreases e
  {
    if Kept(e.name) {
      var here := path + "/" + e.name;
      WalkIsDistinct(e.dir, here, |e.dir.listing|);
      WalkFindsReachable(e.dir, here, |e.dir.listing|, here);
      assert forall names :: names != [] ==> |Below(here, names)| > |here|;
      DistinctConcat([here], Walk(e.dir, here, |e.dir.listing|));
    }
  }

  // ---------------------------------------------------------------- the table of paths

  /** A table that owns its keys: they are freed when the table drops or refuses them. */
  datatype PathTable = PathTable(entries: SummaryIndex.Table, freed: set<nat>, next: nat)

  const NO_PATHS := PathTable(map[], {}, 0)

  function PathsOf(t: PathTable): set<string> {
    t.entries.Keys
  }

  /** Only strings handed out have been freed. */
  predicate Handed(t: PathTable) {
    forall x :: x in t.freed ==> x < t.next
  }

  /** g_hash_table_insert of one new string as key and value: if the key is there, the new one is freed. */
  function Enter(t: PathTable, path: string): PathTable {
    var s := SummaryIndex.Ref(t.next, path);
    PathTable(SummaryIndex.Insert(t.entries, s, s), t.freed + (if path in t.entries then {s.addr} else {}), t.next + 1)
  }

  /** The string just entered can still be read exactly when its path was not in the table. */
  lemma EnteredIsLive(t: PathTable, path: string)
    requires Handed(t)
    ensures Handed(Enter(t, path)) && PathsOf(Enter(t, path)) == PathsOf(t) + {path}
    ensures t.next !in Enter(t, path).freed <==> path !in PathsOf(t)
  {
  }

  /** The paths of a walk are all different and none is known. */
  ghost predicate AllNew(known: set<string>, walk: seq<string>) {
    KeyFiles.Distinct(walk) && forall p :: p in walk ==> p !in known
  }

  lemma AllNewSplit(known: set<string>, w1: seq<string>, w2: seq<string>)
    ensures AllNew(known, w1 + w2) <==> AllNew(known, w1) && AllNew(known + Members(w1), w2)
  {
    var w := w1 + w2;
    if AllNew(known, w1) && AllNew(known + Members(w1), w2) {
      DistinctConcat(w1, w2);
    }
    if AllNew(known, w) {
      assert forall i :: 0 <= i < |w1| ==> w[i] == w1[i];
      assert forall i :: 0 <= i < |w2| ==> w[|w1| + i] == w2[i];
      assert AllNew(known, w1);
    }
  }

  lemma AllNewEntry(known: set<string>, walk: seq<string>, path: string, below: seq<string>)
    ensures AllNew(known, walk + ([path] + below)) <==>
            AllNew(known, walk) && path !in known + Members(walk) && AllNew(known + Members(walk) + {path}, below)
  {
    AllNewSplit(known, walk, [path] + below);
    AllNewSplit(known + Members(walk), [path], below);
    assert Members([path]) == {path};
  }

  // ---------------------------------------------------------------- the records

  class FolderInfo {
    var fullName: string
    var displayName: string
    var isInbox: bool
    var parent: FolderInfo?
    var next: FolderInfo?

    constructor ()
      ensures fullName == "" && displayName == "" && !isInbox && parent == null && next == null
    {
      fullName, displayName, isInbox, parent, next := "", "", false, null, null;
    }
  }

  /** Each record points to the next one of its level and the last one to none. */
  ghost predicate Chain(level: seq<FolderInfo>)
    reads level`next
  {
    && KeyFiles.Distinct(level)
    && forall i :: 0 <= i < |level| ==> level[i].next == if i + 1 < |level| then level[i + 1] else null
  }

  /** A record is named by its parent's full name and its own name; only a top one can be the inbox. */
  ghost predicate WellNamed(r: FolderInfo)
    reads r`fullName, r`displayName, r`isInbox, r`parent
    reads (if r.parent == null then {} else {r.parent})`fullName
  {
    if r.parent == null then
      && r.isInbox == SpellsInbox(r.fullName)
      && r.displayName == if r.isInbox then INBOX else r.fullName
    else
      && !r.isInbox
      && r.fullName == r.parent.fullName + "/" + r.displayName
  }

  /** The records of a level stand for these names, in this order. */
  ghost predicate LevelOf(level: seq<FolderInfo>, names: seq<string>, path: string, parent: FolderInfo?)
    reads level`fullName, level`parent
  {
    && |level| == |names|
    && forall i :: 0 <= i < |level| ==>
         ROOT + "/" + level[i].fullName == path + "/" + names[i] && level[i].parent == parent
  }

  /** There is one record for every path found, well named and below the given record or another one. */
  ghost predicate MadeBy(made: seq<FolderInfo>, found: seq<string>, parent: FolderInfo?)
    reads made`fullName, made`displayName, made`isInbox, made`parent
    reads (set r | r in made && r.parent != null :: r.parent)`fullName
  {
    && |made| == |found|
    && forall i :: 0 <= i < |made| ==>
         && ROOT + "/" + made[i].fullName == found[i]
         && WellNamed(made[i])
         && (made[i].parent == parent || made[i].parent in made)
  }

  /** A new record at the end of a level. */
  method AddRecord(last: FolderInfo?, parent: FolderInfo?, path: string, name: string, ghost level: seq<FolderInfo>)
    returns (info: FolderInfo)
    requires Chain(level) && last == if level == [] then null else level[|level| - 1]
    requires path == if parent == null then ROOT else ROOT + "/" + parent.fullName
    modifies (if last == null then {} else {last})`next
    ensures fresh(info) && Chain(level + [info])
    ensures ROOT + "/" + info.fullName == path + "/" + name && info.parent == parent && WellNamed(info)
  {
    var newPath := path + "/" + name;
    SuffixIsFullName(path, parent, name);
    InboxSpelling(newPath[|ROOT| + 1..]);
    hide IsInbox, SpellsInbox, KeyFiles.AsciiLower;
    info := new FolderInfo();
    info.parent := parent;
    if last != null {
      last.next := info;
    }
    info.fullName := newPath[|ROOT| + 1..];
    if IsInbox(info.fullName) {
      info.displayName := INBOX;
      info.isInbox := true;
    } else {
      info.displayName := name;
    }
  }

  lemma SuffixIsFullName(path: string, parent: FolderInfo?, name: string)
    requires path == if parent == null then ROOT else ROOT + "/" + parent.fullName
    ensures |path| >= |ROOT|
    ensures (path + "/" + name)[|ROOT| + 1..] == if parent == null then name else parent.fullName + "/" + name
    ensures ROOT + "/" + (path + "/" + name)[|ROOT| + 1..] == path + "/" + name
    ensures parent != null ==> !IsInbox((path + "/" + name)[|ROOT| + 1..])
  {
    if parent != null {
      NestedIsNoInbox(parent.fullName, name);
      assert path + "/" + name == ROOT + "/" + (parent.fullName + "/" + name);
    }
  }

  lemma NestedIsNoInbox(parent: string, name: string)
    ensures !IsInbox(parent + "/" + name)
  {
    var full := parent + "/" + name;
    assert full[|parent|] == '/' && KeyFiles.AsciiLower(full)[|parent|] == '/';
  }

  lemma MadeOneMore(made: seq<FolderInfo>, found: seq<string>, parent: FolderInfo?, info: FolderInfo, path: string,
                    inner: seq<FolderInfo>, below: seq<string>)
    requires MadeBy(made, found, parent) && MadeBy(inner, below, info)
    requires ROOT + "/" + info.fullName == path && info.parent == parent && WellNamed(info)
    ensures MadeBy(made + ([info] + inner), found + ([path] + below), parent)
  {
    var all, paths := made + ([info] + inner), found + ([path] + below);
    var n := |made|;
    forall i | 0 <= i < |all|
      ensures ROOT + "/" + all[i].fullName == paths[i] && WellNamed(all[i])
      ensures all[i].parent == parent || all[i].parent in all
    {
      if i < n {
        assert all[i] == made[i] && paths[i] == found[i];
      } else if i == n {
        assert all[i] == info && paths[i] == path;
      } else {
        assert all[i] == inner[i - n - 1] && paths[i] == below[i - n - 1];
        assert info in all;
      }
    }
  }

  lemma WalkOneMore(dir: Dir, path: string, i: nat, table: set<string>)
    requires Answers(dir) && i < |dir.listing|
    ensures var e := dir.listing[i];
            var here := path + "/" + e.name;
            if Kept(e.name) then
              var below := WalkInside(e, path);
              && KeptNames(dir, i + 1) == KeptNames(dir, i) + [e.name]
              && Walk(dir, path, i + 1) == Walk(dir, path, i) + ([here] + below)
              && table + Members(Walk(dir, path, i + 1)) ==
                 table + Members(Walk(dir, path, i)) + {here} + Members(below)
            else
              KeptNames(dir, i + 1) == KeptNames(dir, i) && Walk(dir, path, i + 1) == Walk(dir, path, i)
  {
  }

  lemma LevelOneMore(level: seq<FolderInfo>, names: seq<string>, path: string, parent: FolderInfo?,
                     info: FolderInfo, name: string)
    requires LevelOf(level, names, path, parent)
    requires ROOT + "/" + info.fullName == path + "/" + name && info.parent == parent
    ensures LevelOf(level + [info], names + [name], path, parent)
  {
  }

  /**
   The first n entries of a folder are explored: their paths are in the table, level chains their
   records and made lists all the new records in the order of the walk.
   */
  ghost predicate Explored(dir: Dir, n: nat, path: string, parent: FolderInfo?, table: set<string>, paths: set<string>,
                           level: seq<FolderInfo>, made: seq<FolderInfo>)
    requires n <= |dir.listing|
    reads level, made, set r | r in made && r.parent != null :: r.parent
  {
    && paths == table + Members(Walk(dir, path, n))
    && Chain(level)
    && LevelOf(level, KeptNames(dir, n), path, parent)
    && MadeBy(made, Walk(dir, path, n), parent)
    && forall r :: r in level ==> r in made
  }

  /**
   create_folder_hierarchy: explores one folder.  Parent is the record of that folder, or none at
   the root; first is what the caller's pointer to that record is left at.  A path that is
   entered twice is freed and read nevertheless; intact tells that this did not happen, and a
   freed path is here taken to keep its text.
   */
  method CreateFolderHierarchy(dir: Dir, path: string, parent: FolderInfo?, table: PathTable)
    returns (first: FolderInfo?, out: PathTable, intact: bool,
             ghost level: seq<FolderInfo>, ghost made: seq<FolderInfo>)
    requires Handed(table) && path == if parent == null then ROOT else ROOT + "/" + parent.fullName
    ensures Handed(out) && (intact <==> AllNew(PathsOf(table), Walk(dir, path, |dir.listing|)))
    ensures Explored(dir, |dir.listing|, path, parent, PathsOf(table), PathsOf(out), level, made)
    ensures forall r :: r in made ==> fresh(r)
    ensures first == if parent != null then parent else if level == [] then null else level[0]
    decreases dir
  {
    out, intact, level, made := table, true, [], [];
    first := parent;
    NothingExplored(dir, path, parent, PathsOf(table));
    hide Explored, KeyFiles.AsciiLower;
    if !dir.selectable {
      return;
    }
    if !dir.listable {
      return;
    }
    var fi: FolderInfo? := null;
    for i := 0 to |dir.listing|
      invariant Handed(out) && (intact <==> AllNew(PathsOf(table), Walk(dir, path, i)))
      invariant Explored(dir, i, path, parent, PathsOf(table), PathsOf(out), level, made)
      invariant forall r :: r in made ==> fresh(r)
      invariant first == if parent != null then parent else if level == [] then null else level[0]
      invariant fi == if level == [] then null else level[|level| - 1]
      invariant fi != null ==> fi in made
    {
      hide PathsOf, AllNew, Handed, Walk, Members;
      if !Kept(dir.listing[i].name) {
        SkipEntry(dir, i, path, parent, PathsOf(table), PathsOf(out), level, made);
        continue;
      }
      EntryIsNew(dir, i, path, parent, PathsOf(table), PathsOf(out), level, made);
      var top := fi == null && parent == null;
      var live;
      ghost var inner;
      fi, out, live, inner := VisitEntry(dir, i, path, parent, fi, PathsOf(table), out, level, made);
      intact := intact && live;
      level, made := level + [fi], made + ([fi] + inner);
      if top {
        first := fi;
      }
    }
  }

  /** One more entry keeps all paths new when its own is, and then all those below it. */
  lemma EntryIsNew(dir: Dir, i: nat, path: string, parent: FolderInfo?, table: set<string>, paths: set<string>,
                   level: seq<FolderInfo>, made: seq<FolderInfo>)
    requires Answers(dir) && i < |dir.listing| && Kept(dir.listing[i].name)
    requires Explored(dir, i, path, parent, table, paths, level, made)
    ensures var here := path + "/" + dir.listing[i].name;
            AllNew(table, Walk(dir, path, i + 1)) <==>
            AllNew(table, Walk(dir, path, i)) && here !in paths &&
            AllNew(paths + {here}, WalkInside(dir.listing[i], path))
  {
    WalkOneMore(dir, path, i, table);
    AllNewEntry(table, Walk(dir, path, i), path + "/" + dir.listing[i].name, WalkInside(dir.listing[i], path));
    hide AllNew;
  }

  lemma NothingExplored(dir: Dir, path: string, parent: FolderInfo?, table: set<string>)
    ensures Explored(dir, 0, path, parent, table, table, [], [])
    ensures !Answers(dir) ==> Explored(dir, |dir.listing|, path, parent, table, table, [], [])
    ensures AllNew(table, Walk(dir, path, 0))
    ensures !Answers(dir) ==> AllNew(table, Walk(dir, path, |dir.listing|))
  {
  }

  lemma SkipEntry(dir: Dir, i: nat, path: string, parent: FolderInfo?, table: set<string>, paths: set<string>,
                  level: seq<FolderInfo>, made: seq<FolderInfo>)
    requires i < |dir.listing| && !Kept(dir.listing[i].name)
    requires Explored(dir, i, path, parent, table, paths, level, made)
    ensures Explored(dir, i + 1, path, parent, table, paths, level, made)
    ensures Walk(dir, path, i + 1) == Walk(dir, path, i)
  {
  }

  /** One kept entry: its path, its record behind the last one, and then the folder itself. */
  method VisitEntry(dir: Dir, i: nat, path: string, parent: FolderInfo?, last: FolderInfo?, ghost table: set<string>,
                    t: PathTable, ghost level0: seq<FolderInfo>, ghost made0: seq<FolderInfo>)
    returns (info: FolderInfo, out: PathTable, live: bool, ghost inner: seq<FolderInfo>)
    requires Handed(t) && path == if parent == null then ROOT else ROOT + "/" + parent.fullName
    requires Answers(dir) && i < |dir.listing| && Kept(dir.listing[i].name)
    requires Explored(dir, i, path, parent, table, PathsOf(t), level0, made0)
    requires last == if level0 == [] then null else level0[|level0| - 1]
    modifies (if last == null then {} else {last})`next
    ensures fresh(info) && forall r :: r in inner ==> fresh(r)
    ensures Explored(dir, i + 1, path, parent, table, PathsOf(out), level0 + [info], made0 + ([info] + inner))
    ensures var here := path + "/" + dir.listing[i].name;
            live <==> here !in PathsOf(t) && AllNew(PathsOf(t) + {here}, WalkInside(dir.listing[i], path))
    ensures Handed(out)
    decreases dir, i
  {
    var e := dir.listing[i];
    var newPath := path + "/" + e.name;
    hide Walk, KeptNames, MadeBy, Chain, WellNamed, LevelOf, Members, AllNew, KeyFiles.AsciiLower;
    EnteredIsLive(t, newPath);
    out := Enter(t, newPath);
    live := t.next !in out.freed;
    hide PathsOf, Handed;
    info := AddRecord(last, parent, path, e.name, level0);
    var same, intact;
    ghost var below;
    same, out, intact, below, inner := CreateFolderHierarchy(e.dir, newPath, info, out);
    live := live && intact;
    ExploredOneMore(dir, i, path, parent, table, PathsOf(t), level0, made0, info, PathsOf(out), below, inner);
  }

  lemma ExploredOneMore(dir: Dir, i: nat, path: string, parent: FolderInfo?, table: set<string>,
                        paths0: set<string>, level: seq<FolderInfo>, made: seq<FolderInfo>, info: FolderInfo,
                        paths: set<string>, below: seq<FolderInfo>, inner: seq<FolderInfo>)
    requires Answers(dir) && i < |dir.listing| && Kept(dir.listing[i].name)
    requires paths0 == table + Members(Walk(dir, path, i)) && LevelOf(level, KeptNames(dir, i), path, parent)
    requires MadeBy(made, Walk(dir, path, i), parent) && forall r :: r in level ==> r in made
    requires Chain(level + [info]) && info.parent == parent && WellNamed(info)
    requires var e := dir.listing[i];
             var here := path + "/" + e.name;
             && ROOT + "/" + info.fullName == here
             && Explored(e.dir, |e.dir.listing|, here, info, paths0 + {here}, paths, below, inner)
    ensures Explored(dir, i + 1, path, parent, table, paths, level + [info], made + ([info] + inner))
  {
    var e := dir.listing[i];
    WalkOneMore(dir, path, i, table);
    hide Walk, KeptNames, MadeBy, Chain, WellNamed, LevelOf, Members;
    LevelOneMore(level, KeptNames(dir, i), path, parent, info, e.name);
    MadeOneMore(made, Walk(dir, path, i), parent, info, path + "/" + e.name, inner, WalkInside(e, path));
  }

  /** The walk over the whole device as a set of name paths. */
  lemma WalkIsReachable(dir: Dir, p: string)
    ensures p in Walk(dir, ROOT, |dir.listing|) <==>
            exists names :: names != [] && Leads(dir, names) && p == Below(ROOT, names)
  {
    WalkFindsReachable(dir, ROOT, |dir.listing|, p);
    forall names | names != [] && Leads(dir, names) && p == Below(ROOT, names)
      ensures p in Walk(dir, ROOT, |dir.listing|)
    {
      var i :| 0 <= i < |dir.listing| && LeadsBy(dir.listing[i], names);
    }
  }

  /**
   map_get_folder_info_sync: offline there is nothing.  Online no freed path is read exactly when
   no path is found twice, as on every proper device.  Then the table is the set of reachable
   folders and the result heads the list of the kept top folders.
   */
  method GetFolderInfo(online: bool, dir: Dir)
    returns (head: FolderInfo?, paths: set<string>, intact: bool,
             ghost level: seq<FolderInfo>, ghost made: seq<FolderInfo>)
    ensures !online ==> head == null && made == []
    ensures intact <==> !online || KeyFiles.Distinct(Walk(dir, ROOT, |dir.listing|))
    ensures Proper(dir) ==> intact
    ensures online && intact ==> WholeDevice(dir, paths, level, made) && head == if level == [] then null else level[0]
    ensures forall r :: r in made ==> fresh(r)
  {
    head, paths, intact, level, made := null, {}, true, [], [];
    if Proper(dir) {
      WalkIsDistinct(dir, ROOT, |dir.listing|);
    }
    if !online {
      return;
    }
    var table;
    head, table, intact, level, made := CreateFolderHierarchy(dir, ROOT, null, NO_PATHS);
    paths := PathsOf(table);
    if intact {
      ExploredIsWhole(dir, paths, level, made);
    }
    hide Explored, WholeDevice;
  }

  /** The listing of the whole device. */
  ghost predicate WholeDevice(dir: Dir, paths: set<string>, level: seq<FolderInfo>, made: seq<FolderInfo>)
    reads level, made, set r | r in made && r.parent != null :: r.parent
  {
    var names := KeptNames(dir, |dir.listing|);
    && (forall p :: p in paths <==> exists names :: names != [] && Leads(dir, names) && p == Below(ROOT, names))
    && Chain(level) && |level| == |names|
    && (forall i :: 0 <= i < |level| ==> level[i].fullName == names[i] && level[i].parent == null)
    && |made| == |paths|
    && forall r :: r in made ==>
         WellNamed(r) && ROOT + "/" + r.fullName in paths && (r.parent == null || r.parent in made)
  }

  lemma ExploredIsWhole(dir: Dir, paths: set<string>, level: seq<FolderInfo>, made: seq<FolderInfo>)
    requires Explored(dir, |dir.listing|, ROOT, null, {}, paths, level, made)
    requires KeyFiles.Distinct(Walk(dir, ROOT, |dir.listing|))
    ensures WholeDevice(dir, paths, level, made)
  {
    var walk := Walk(dir, ROOT, |dir.listing|);
    assert paths == Members(walk);
    forall p ensures p in paths <==> exists names :: names != [] && Leads(dir, names) && p == Below(ROOT, names) {
      WalkIsReachable(dir, p);
    }
    MembersCount(walk);
    RootNames(level, KeptNames(dir, |dir.listing|));
    hide Chain, Walk, KeptNames, Leads, WellNamed;
  }

  /** A folder listed twice: its path is freed when it is entered again. */
  lemma RepeatedName(name: string)
    requires Kept(name)
    ensures var leaf := Dir(true, true, []);
            var dir := Dir(true, true, [Entry(name, leaf), Entry(name, leaf)]);
            !Proper(dir) && !KeyFiles.Distinct(Walk(dir, ROOT, 2))
  {
    var leaf := Dir(true, true, []);
    var dir := Dir(true, true, [Entry(name, leaf), Entry(name, leaf)]);
    var p := ROOT + "/" + name;
    assert dir.listing[0].name == dir.listing[1].name;
    assert Walk(leaf, p, |leaf.listing|) == [];
    assert WalkEntry(Entry(name, leaf), ROOT) == [p];
    assert Walk(dir, ROOT, 1) == Walk(dir, ROOT, 0) + [p] == [p];
    assert Walk(dir, ROOT, 2) == [p] + [p];
    assert Walk(dir, ROOT, 2)[0] == Walk(dir, ROOT, 2)[1];
  }

  lemma RootNames(level: seq<FolderInfo>, names: seq<string>)
    requires LevelOf(level, names, ROOT, null)
    ensures forall i :: 0 <= i < |level| ==> level[i].fullName == names[i] && level[i].parent == null
  {
    forall i | 0 <= i < |level| ensures level[i].fullName == names[i] {
      assert (ROOT + "/" + level[i].fullName)[|ROOT| + 1..] == level[i].fullName;
      assert (ROOT + "/" + names[i])[|ROOT| + 1..] == names[i];
    }
  }

  lemma {:induction false} MembersCount(xs: seq<string>)
    ensures |Members(xs)| <= |xs|
    ensures KeyFiles.Distinct(xs) ==> |Members(xs)| == |xs|
  {
    if xs != [] {
      var front, last := xs[..|xs| - 1], xs[|xs| - 1];
      MembersCount(front);
      assert Members(xs) == Members(front) + {last};
    }
  }
}
