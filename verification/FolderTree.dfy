/**
 The folder tree stored in the key file, and the full names derived from it.
 BuildFullName is the simple definition that the summary's hash tables must agree with.
 */
module FolderTree {
  import opened Options
  import opened KeyFiles
  import opened Paths

  function NameOf(kf: KeyFile, id: string): Option<string> {
    GetString(kf, id, DisplayName)
  }

  function ParentOf(kf: KeyFile, id: string): Option<string> {
    GetString(kf, id, ParentFolderId)
  }

  predicate Named(kf: KeyFile, id: string) {
    NameOf(kf, id).Some?
  }

  /** The folder has a parent id, and that id names a folder. */
  predicate HasParent(kf: KeyFile, id: string) {
    Named(kf, id) && ParentOf(kf, id).Some? && Named(kf, ParentOf(kf, id).value)
  }

  function Parent(kf: KeyFile, id: string): string
    requires HasParent(kf, id)
  {
    ParentOf(kf, id).value
  }

  ghost predicate Ranked(kf: KeyFile, rank: string -> nat) {
    forall id {:trigger HasParent(kf, id)} :: HasParent(kf, id) ==> rank(Parent(kf, id)) < rank(id)
  }

  ghost predicate Acyclic(kf: KeyFile) {
    exists rank :: Ranked(kf, rank)
  }

  /** 0 for an id that names no folder; a parent is lower than its children. */
  ghost function Height(kf: KeyFile, id: string): nat
    requires Acyclic(kf)
  {
    var rank :| Ranked(kf, rank);
    if Named(kf, id) then 1 + rank(id) else 0
  }

  /** The recursion of the source: stop at an id without a name, else climb to the parent. */
  function BuildFullName(kf: KeyFile, id: string): Option<string>
    requires Acyclic(kf)
    decreases Height(kf, id)
  {
    if !Named(kf, id) then None
    else
      var dname := NameOf(kf, id).value;
      if ParentOf(kf, id).None? then Some(dname)
      else
        assert Named(kf, ParentOf(kf, id).value) ==> HasParent(kf, id);
        var pname := BuildFullName(kf, ParentOf(kf, id).value);
        if pname.Some? then Some(pname.value + "/" + dname) else Some(dname)
  }

  predicate SameFullName(kf: KeyFile, i: string, j: string)
    requires Acyclic(kf)
  {
    BuildFullName(kf, i) == BuildFullName(kf, j)
  }

  ghost predicate DistinctNames(kf: KeyFile)
    requires Acyclic(kf)
  {
    forall i, j {:trigger SameFullName(kf, i, j)} :: Named(kf, i) && SameFullName(kf, i, j) ==> i == j
  }

  /** What the summary assumes of the tree: '/'-free names and a store group that is no folder. */
  ghost predicate ProperTree(kf: KeyFile) {
    && Acyclic(kf)
    && (forall id :: Named(kf, id) ==> SlashFree(NameOf(kf, id).value) && !IsStoreGroup(id))
  }

  // ---------------------------------------------------------------- paths in the tree

  ghost function Path(kf: KeyFile, id: string): seq<string>
    requires Acyclic(kf) && Named(kf, id)
    ensures |Path(kf, id)| > 0
    decreases Height(kf, id)
  {
    (if HasParent(kf, id) then Path(kf, Parent(kf, id)) else []) + [NameOf(kf, id).value]
  }

  lemma {:induction false} FullNameIsJoinedPath(kf: KeyFile, id: string)
    requires Acyclic(kf)
    ensures Named(kf, id) ==> BuildFullName(kf, id) == Some(Join(Path(kf, id)))
    ensures !Named(kf, id) ==> BuildFullName(kf, id) == None
    decreases Height(kf, id)
  {
    if HasParent(kf, id) {
      FullNameIsJoinedPath(kf, Parent(kf, id));
      assert Path(kf, id)[..|Path(kf, id)| - 1] == Path(kf, Parent(kf, id));
    }
  }

  lemma {:induction false} PathIsSlashFree(kf: KeyFile, id: string)
    requires ProperTree(kf) && Named(kf, id)
    ensures SlashFreePath(Path(kf, id))
    decreases Height(kf, id)
  {
    if HasParent(kf, id) {
      PathIsSlashFree(kf, Parent(kf, id));
    }
  }

  /** Under '/'-free distinct names a path determines its folder. */
  lemma PathDeterminesFolder(kf: KeyFile, i: string, j: string)
    requires Acyclic(kf) && DistinctNames(kf) && Named(kf, i) && Named(kf, j)
    requires Path(kf, i) == Path(kf, j)
    ensures i == j
  {
    FullNameIsJoinedPath(kf, i);
    FullNameIsJoinedPath(kf, j);
    assert SameFullName(kf, i, j);
  }

  /** d is a or one of a's descendants. */
  ghost predicate Under(kf: KeyFile, a: string, d: string)
    requires Acyclic(kf)
    decreases Height(kf, d)
  {
    Named(kf, d) && (d == a || (HasParent(kf, d) && Under(kf, a, Parent(kf, d))))
  }

  lemma {:induction false} UnderIsLower(kf: KeyFile, a: string, d: string)
    requires Acyclic(kf) && Under(kf, a, d)
    ensures Named(kf, a)
    ensures Height(kf, a) <= Height(kf, d)
    ensures Height(kf, a) == Height(kf, d) ==> a == d
    decreases Height(kf, d)
  {
    if d != a {
      UnderIsLower(kf, a, Parent(kf, d));
    }
  }

  lemma {:induction false} UnderIsPathPrefix(kf: KeyFile, a: string, d: string)
    requires Acyclic(kf) && DistinctNames(kf) && Named(kf, a) && Named(kf, d)
    ensures Under(kf, a, d) <==> Path(kf, a) <= Path(kf, d)
    decreases Height(kf, d)
  {
    var p, q := Path(kf, a), Path(kf, d);
    if p == q {
      PathDeterminesFolder(kf, a, d);
    } else if HasParent(kf, d) {
      UnderIsPathPrefix(kf, a, Parent(kf, d));
      assert q[..|q| - 1] == Path(kf, Parent(kf, d));
      assert p <= q ==> p <= q[..|q| - 1];
    }
  }

  /** Every non-empty prefix of a folder's path is the path of one of its ancestors. */
  lemma {:induction false} PrefixIsAncestor(kf: KeyFile, d: string, p: seq<string>) returns (y: string)
    requires Acyclic(kf) && Named(kf, d)
    requires 0 < |p| && p <= Path(kf, d)
    ensures Named(kf, y) && Path(kf, y) == p && Under(kf, y, d)
    decreases Height(kf, d)
  {
    var q := Path(kf, d);
    if p == q {
      y := d;
    } else {
      assert q[..|q| - 1] == if HasParent(kf, d) then Path(kf, Parent(kf, d)) else [];
      assert p <= q[..|q| - 1];
      y := PrefixIsAncestor(kf, Parent(kf, d), p);
    }
  }

  // ---------------------------------------------------------------- one folder changes

  /** The two key files agree on the name and parent of every folder but a. */
  ghost predicate AgreeExceptAt(kf0: KeyFile, kf: KeyFile, a: string) {
    forall id :: id != a ==> NameOf(kf, id) == NameOf(kf0, id) && ParentOf(kf, id) == ParentOf(kf0, id)
  }

  /** From kf0 to kf only the name or the parent of the folder a has changed. */
  ghost predicate EditedAt(kf0: KeyFile, kf: KeyFile, a: string) {
    AgreeExceptAt(kf0, kf, a) && Named(kf0, a) && Named(kf, a)
  }

  /** Some other folder has a as its parent id, whether or not a names a folder itself. */
  ghost predicate IsParentId(kf: KeyFile, a: string) {
    exists d :: d != a && Named(kf, d) && ParentOf(kf, d) == Some(a)
  }

  /** When no folder has a as its parent id, a change at a leaves all other full names alone. */
  lemma {:induction false} ChildlessChangeKeepsNames(kf0: KeyFile, kf: KeyFile, a: string, d: string)
    requires Acyclic(kf0) && Acyclic(kf) && AgreeExceptAt(kf0, kf, a)
    requires !IsParentId(kf0, a) && d != a
    ensures BuildFullName(kf, d) == BuildFullName(kf0, d)
    decreases Height(kf, d)
  {
    if HasParent(kf, d) {
      assert Parent(kf, d) != a;
      ChildlessChangeKeepsNames(kf0, kf, a, Parent(kf, d));
    }
  }

  /** Climbing from d by parent ids arrives at a, whether or not a names a folder. */
  ghost predicate Reaches(kf: KeyFile, d: string, a: string)
    requires Acyclic(kf)
    decreases Height(kf, d)
  {
    d == a ||
    (Named(kf, d) && ParentOf(kf, d).Some? &&
     (assert HasParent(kf, d) || !Named(kf, ParentOf(kf, d).value);
      Reaches(kf, ParentOf(kf, d).value, a)))
  }

  lemma ParentIsLower(kf: KeyFile, d: string)
    requires Acyclic(kf) && Named(kf, d) && ParentOf(kf, d).Some?
    ensures Height(kf, ParentOf(kf, d).value) < Height(kf, d)
  {
    assert HasParent(kf, d) || !Named(kf, ParentOf(kf, d).value);
  }

  lemma {:induction false} ReachedIsLower(kf0: KeyFile, kf: KeyFile, a: string, d: string)
    requires Acyclic(kf0) && Acyclic(kf) && AgreeExceptAt(kf0, kf, a)
    requires Named(kf, a) && Reaches(kf0, d, a)
    ensures Named(kf, d) && Height(kf, a) <= Height(kf, d)
    decreases Height(kf0, d)
  {
    if d != a {
      ParentIsLower(kf0, d);
      ParentIsLower(kf, d);
      ReachedIsLower(kf0, kf, a, ParentOf(kf0, d).value);
    }
  }

  /**
   Changing the name or the parent of one folder, or adding one, closes a cycle exactly when
   climbing from its new parent arrives at the folder itself.
   */
  lemma ChangeIsAcyclic(kf0: KeyFile, kf: KeyFile, a: string)
    requires Acyclic(kf0) && AgreeExceptAt(kf0, kf, a) && Named(kf, a)
    ensures Acyclic(kf) <==> ParentOf(kf, a).None? || !Reaches(kf0, ParentOf(kf, a).value, a)
  {
    if ParentOf(kf, a).None? || !Reaches(kf0, ParentOf(kf, a).value, a) {
      var lift := if ParentOf(kf, a).Some? then Height(kf0, ParentOf(kf, a).value) + 1 else 0;
      var rank: string -> nat := id => Height(kf0, id) + if Reaches(kf0, id, a) then lift else 0;
      forall id | HasParent(kf, id) ensures rank(Parent(kf, id)) < rank(id) {
        if id != a {
          ParentIsLower(kf0, id);
        }
      }
      assert Ranked(kf, rank);
    } else if Acyclic(kf) {
      ReachedIsLower(kf0, kf, a, ParentOf(kf, a).value);
      ParentIsLower(kf, a);
    }
  }

  /** For a folder that is already there, to climb to it is to lie in its subtree. */
  lemma {:induction false} ReachesIsUnder(kf: KeyFile, a: string, d: string)
    requires Acyclic(kf) && Named(kf, a)
    ensures Reaches(kf, d, a) <==> Under(kf, a, d)
    decreases Height(kf, d)
  {
    if d != a && Named(kf, d) && ParentOf(kf, d).Some? {
      ParentIsLower(kf, d);
      ReachesIsUnder(kf, a, ParentOf(kf, d).value);
    }
  }

  /** A move closes a cycle exactly when the new parent lies in the subtree that is moved. */
  lemma MoveIsAcyclic(kf0: KeyFile, kf: KeyFile, a: string, p: string)
    requires Acyclic(kf0) && EditedAt(kf0, kf, a) && ParentOf(kf, a) == Some(p)
    ensures Acyclic(kf) <==> !Under(kf0, a, p)
  {
    ChangeIsAcyclic(kf0, kf, a);
    ReachesIsUnder(kf0, a, p);
  }

  /** Renaming cannot close a cycle. */
  lemma RenameIsAcyclic(kf0: KeyFile, kf: KeyFile, a: string)
    requires Acyclic(kf0) && EditedAt(kf0, kf, a) && ParentOf(kf, a) == ParentOf(kf0, a)
    ensures Acyclic(kf)
  {
    ChangeIsAcyclic(kf0, kf0, a);
    ChangeIsAcyclic(kf0, kf, a);
  }

  /** Neither can taking a folder away, nor giving a parent id to an id that names none. */
  lemma UnnamedIsAcyclic(kf0: KeyFile, kf: KeyFile, a: string)
    requires Acyclic(kf0) && AgreeExceptAt(kf0, kf, a) && !Named(kf, a)
    ensures Acyclic(kf)
  {
    var rank :| Ranked(kf0, rank);
    forall id | HasParent(kf, id) ensures rank(Parent(kf, id)) < rank(id) {
      assert HasParent(kf0, id) && Parent(kf0, id) == Parent(kf, id);
    }
    assert Ranked(kf, rank);
  }

  /** A folder "b" in a folder "a". */
  function TwoFolders(): KeyFile {
    SetString(SetString(SetString(EMPTY, "a", DisplayName, "x"), "b", DisplayName, "y"), "b", ParentFolderId, "a")
  }

  lemma TwoFoldersTree()
    ensures forall id :: Named(TwoFolders(), id) <==> id == "a" || id == "b"
    ensures forall id :: ParentOf(TwoFolders(), id) == if id == "b" then Some("a") else None
  {
    assert forall id :: NameOf(EMPTY, id) == ParentOf(EMPTY, id) == None;
  }

  /** Moving "a" into "b" closes a cycle. */
  lemma CyclicMove()
    ensures Acyclic(TwoFolders()) && Named(TwoFolders(), "a") && Under(TwoFolders(), "a", "b")
    ensures !Acyclic(SetString(TwoFolders(), "a", ParentFolderId, "b"))
  {
    TwoFoldersTree();
    var kf0, kf := TwoFolders(), SetString(TwoFolders(), "a", ParentFolderId, "b");
    hide TwoFolders;
    var rank: string -> nat := id => if id == "b" then 1 else 0;
    assert Ranked(kf0, rank);
    assert HasParent(kf0, "b");
    MoveIsAcyclic(kf0, kf, "a", "b");
  }

  /** The full name of a folder that is not below a does not depend on a. */
  lemma {:induction false} UnreachedKeepsName(kf0: KeyFile, kf: KeyFile, a: string, d: string)
    requires Acyclic(kf0) && Acyclic(kf) && AgreeExceptAt(kf0, kf, a)
    requires !Reaches(kf0, d, a)
    ensures BuildFullName(kf, d) == BuildFullName(kf0, d)
    decreases Height(kf0, d)
  {
    if Named(kf0, d) && ParentOf(kf0, d).Some? {
      ParentIsLower(kf0, d);
      UnreachedKeepsName(kf0, kf, a, ParentOf(kf0, d).value);
    }
  }

  /** The full name a folder gets under a parent id. */
  function NameUnder(kf: KeyFile, parent: Option<string>, name: string): string
    requires Acyclic(kf)
  {
    if parent.Some? && BuildFullName(kf, parent.value).Some? then BuildFullName(kf, parent.value).value + "/" + name
    else name
  }

  /** A change that closes no cycle gives the folder a full name that the old key file already tells. */
  lemma ChangedFullName(kf0: KeyFile, kf: KeyFile, a: string)
    requires Acyclic(kf0) && Acyclic(kf) && AgreeExceptAt(kf0, kf, a) && Named(kf, a)
    ensures BuildFullName(kf, a) == Some(NameUnder(kf0, ParentOf(kf, a), NameOf(kf, a).value))
  {
    ChangeIsAcyclic(kf0, kf, a);
    if ParentOf(kf, a).Some? {
      UnreachedKeepsName(kf0, kf, a, ParentOf(kf, a).value);
    }
  }

  lemma EditKeepsOthers(kf0: KeyFile, kf: KeyFile, a: string, d: string)
    requires EditedAt(kf0, kf, a) && d != a
    ensures NameOf(kf, d) == NameOf(kf0, d)
    ensures HasParent(kf, d) == HasParent(kf0, d)
    ensures HasParent(kf, d) ==> Parent(kf, d) == Parent(kf0, d)
  {
  }

  lemma {:induction false} EditKeepsSubtree(kf0: KeyFile, kf: KeyFile, a: string, d: string)
    requires Acyclic(kf0) && Acyclic(kf) && EditedAt(kf0, kf, a)
    ensures Under(kf, a, d) == Under(kf0, a, d)
    decreases Height(kf, d)
  {
    if d != a {
      EditKeepsOthers(kf0, kf, a, d);
      if HasParent(kf, d) {
        EditKeepsSubtree(kf0, kf, a, Parent(kf, d));
      }
    }
  }

  lemma {:induction false} EditKeepsPathsOutside(kf0: KeyFile, kf: KeyFile, a: string, d: string)
    requires Acyclic(kf0) && Acyclic(kf) && EditedAt(kf0, kf, a)
    requires Named(kf, d) && !Under(kf, a, d)
    ensures Named(kf0, d) && Path(kf, d) == Path(kf0, d)
    decreases Height(kf, d)
  {
    EditKeepsOthers(kf0, kf, a, d);
    if HasParent(kf, d) {
      EditKeepsPathsOutside(kf0, kf, a, Parent(kf, d));
    }
  }

  lemma EditKeepsNamesOutside(kf0: KeyFile, kf: KeyFile, a: string, d: string)
    requires Acyclic(kf0) && Acyclic(kf) && EditedAt(kf0, kf, a)
    requires !Under(kf, a, d)
    ensures BuildFullName(kf, d) == BuildFullName(kf0, d)
  {
    FullNameIsJoinedPath(kf, d);
    FullNameIsJoinedPath(kf0, d);
    if Named(kf, d) {
      EditKeepsPathsOutside(kf0, kf, a, d);
    }
  }

  /** Inside the subtree the path of a is exchanged and the rest is kept. */
  lemma {:induction false} EditReplacesPrefixInside(kf0: KeyFile, kf: KeyFile, a: string, d: string)
    requires Acyclic(kf0) && Acyclic(kf) && EditedAt(kf0, kf, a)
    requires Under(kf, a, d)
    ensures Named(kf0, d) && Path(kf0, a) <= Path(kf0, d)
    ensures Path(kf, d) == Path(kf, a) + Path(kf0, d)[|Path(kf0, a)|..]
    decreases Height(kf, d)
  {
    if d != a {
      EditKeepsOthers(kf0, kf, a, d);
      EditReplacesPrefixInside(kf0, kf, a, Parent(kf, d));
    }
  }

  /**
   When a's new path is a proper prefix of its old one, an ancestor of a already bore it.
   That ancestor is outside the subtree, so it still does.
   */
  lemma ShorterPathIsTaken(kf0: KeyFile, kf: KeyFile, a: string)
    requires Acyclic(kf0) && Acyclic(kf) && EditedAt(kf0, kf, a)
    requires DistinctNames(kf)
    ensures !(Path(kf, a) < Path(kf0, a))
  {
    if Path(kf, a) < Path(kf0, a) {
      var y := PrefixIsAncestor(kf0, a, Path(kf, a));
      UnderIsLower(kf0, y, a);
      if Under(kf, a, y) {
        EditKeepsSubtree(kf0, kf, a, y);
        UnderIsLower(kf0, a, y);
      } else {
        EditKeepsOthers(kf0, kf, a, y);
        EditKeepsPathsOutside(kf0, kf, a, y);
        PathDeterminesFolder(kf, a, y);
      }
    }
  }

  lemma EditIsSymmetric(kf0: KeyFile, kf: KeyFile, a: string)
    requires EditedAt(kf0, kf, a)
    ensures EditedAt(kf, kf0, a)
  {
  }

  /**
   No new name in the subtree equals another folder's old name in it.  This is why the
   patching of the tables can never overwrite an entry that is still to be patched.
   */
  lemma SubtreeNamesDoNotClash(kf0: KeyFile, kf: KeyFile, a: string, d: string, e: string)
    requires ProperTree(kf0) && ProperTree(kf) && EditedAt(kf0, kf, a)
    requires DistinctNames(kf0) && DistinctNames(kf)
    requires Under(kf, a, d) && Under(kf, a, e)
    requires BuildFullName(kf, d) == BuildFullName(kf0, e)
    ensures d == e
  {
    EditReplacesPrefixInside(kf0, kf, a, d);
    EditReplacesPrefixInside(kf0, kf, a, e);
    FullNameIsJoinedPath(kf, d);
    FullNameIsJoinedPath(kf0, e);
    PathIsSlashFree(kf, d);
    PathIsSlashFree(kf0, e);
    JoinInjective(Path(kf, d), Path(kf0, e));
    var path := Path(kf, d);
    assert Path(kf, a) <= path && Path(kf0, a) <= path;
    ShorterPathIsTaken(kf0, kf, a);
    EditIsSymmetric(kf0, kf, a);
    ShorterPathIsTaken(kf, kf0, a);
    assert Path(kf, a) == path[..|Path(kf, a)|] && Path(kf0, a) == path[..|Path(kf0, a)|];
    assert |Path(kf, a)| == |Path(kf0, a)|;
    assert Path(kf, e) == Path(kf0, e);
    PathDeterminesFolder(kf, d, e);
  }

  /** The new name of a is not its old name followed by a slash and more. */
  lemma NewNameIsNotBelowOldName(kf0: KeyFile, kf: KeyFile, a: string)
    requires ProperTree(kf0) && ProperTree(kf) && EditedAt(kf0, kf, a)
    requires DistinctNames(kf0)
    ensures !(Join(Path(kf0, a)) + "/" <= Join(Path(kf, a)))
  {
    PathIsSlashFree(kf, a);
    PathIsSlashFree(kf0, a);
    SlashPrefixIsProperPrefix(Path(kf0, a), Path(kf, a));
    EditIsSymmetric(kf0, kf, a);
    ShorterPathIsTaken(kf, kf0, a);
  }

  // ---------------------------------------------------------------- when names stay distinct

  predicate Bears(kf: KeyFile, id: string, name: string)
    requires Acyclic(kf)
  {
    BuildFullName(kf, id) == Some(name)
  }

  /** No folder but a bears the name. */
  ghost predicate NameIsFree(kf: KeyFile, name: string, a: string)
    requires Acyclic(kf)
  {
    forall id {:trigger Bears(kf, id, name)} :: Bears(kf, id, name) ==> id == a
  }

  /** When only a's own name changes, names stay distinct exactly when its new one was free. */
  lemma OwnNameKeepsDistinct(kf0: KeyFile, kf: KeyFile, a: string)
    requires Acyclic(kf0) && Acyclic(kf) && DistinctNames(kf0) && AgreeExceptAt(kf0, kf, a)
    requires Named(kf, a) && BuildFullName(kf, a).Some?
    requires forall d :: d != a ==> BuildFullName(kf, d) == BuildFullName(kf0, d)
    ensures DistinctNames(kf) <==> NameIsFree(kf0, BuildFullName(kf, a).value, a)
  {
    var name := BuildFullName(kf, a).value;
    if DistinctNames(kf) {
      forall id | Bears(kf0, id, name) ensures id == a {
        assert id != a ==> SameFullName(kf, a, id);
      }
    }
    if NameIsFree(kf0, name, a) {
      forall i, j | Named(kf, i) && SameFullName(kf, i, j) ensures i == j {
        var was, same := Bears(kf0, i, name) || Bears(kf0, j, name), SameFullName(kf0, i, j);
      }
    }
  }

  /** A folder outside the subtree shares a new name of the subtree only if one already bears a's new name. */
  lemma ClashIsAtTop(kf0: KeyFile, kf: KeyFile, a: string, i: string, j: string)
    requires ProperTree(kf0) && ProperTree(kf) && EditedAt(kf0, kf, a)
    requires BuildFullName(kf, a).Some? && NameIsFree(kf0, BuildFullName(kf, a).value, a)
    requires Named(kf, j) && Under(kf, a, i) && !Under(kf, a, j)
    ensures BuildFullName(kf, i) != BuildFullName(kf, j)
  {
    FullNameIsJoinedPath(kf, i);
    FullNameIsJoinedPath(kf, j);
    FullNameIsJoinedPath(kf, a);
    PathIsSlashFree(kf, i);
    PathIsSlashFree(kf, j);
    if Path(kf, i) == Path(kf, j) {
      EditReplacesPrefixInside(kf0, kf, a, i);
      EditKeepsPathsOutside(kf0, kf, a, j);
      var y := PrefixIsAncestor(kf0, j, Path(kf, a));
      FullNameIsJoinedPath(kf0, y);
      assert Bears(kf0, y, BuildFullName(kf, a).value);
      EditKeepsSubtree(kf0, kf, a, j);
    } else if BuildFullName(kf, i) == BuildFullName(kf, j) {
      JoinInjective(Path(kf, i), Path(kf, j));
    }
  }

  /** A rename or a move keeps names distinct exactly when no other folder bears the new name before. */
  lemma EditKeepsDistinct(kf0: KeyFile, kf: KeyFile, a: string)
    requires ProperTree(kf0) && ProperTree(kf) && EditedAt(kf0, kf, a) && DistinctNames(kf0)
    requires BuildFullName(kf, a).Some?
    ensures DistinctNames(kf) <==> NameIsFree(kf0, BuildFullName(kf, a).value, a)
  {
    var name := BuildFullName(kf, a).value;
    if DistinctNames(kf) {
      forall e | Bears(kf0, e, name) ensures e == a {
        FullNameIsJoinedPath(kf0, e);
        if Under(kf, a, e) {
          SubtreeNamesDoNotClash(kf0, kf, a, a, e);
        } else {
          EditKeepsSubtree(kf0, kf, a, e);
          EditKeepsNamesOutside(kf0, kf, a, e);
          assert SameFullName(kf, a, e);
        }
      }
    }
    if NameIsFree(kf0, name, a) {
      forall i, j | Named(kf, i) && SameFullName(kf, i, j) ensures i == j {
        FullNameIsJoinedPath(kf, i);
        FullNameIsJoinedPath(kf, j);
        SameNameSameFolder(kf0, kf, a, i, j);
      }
    }
  }

  lemma SamePathInside(kf0: KeyFile, kf: KeyFile, a: string, i: string, j: string)
    requires Acyclic(kf0) && Acyclic(kf) && EditedAt(kf0, kf, a) && DistinctNames(kf0)
    requires Under(kf, a, i) && Under(kf, a, j) && Path(kf, i) == Path(kf, j)
    ensures i == j
  {
    EditReplacesPrefixInside(kf0, kf, a, i);
    EditReplacesPrefixInside(kf0, kf, a, j);
    var p, q, n := Path(kf0, i), Path(kf0, j), |Path(kf0, a)|;
    assert p[n..] == Path(kf, i)[|Path(kf, a)|..] == q[n..];
    assert p == Path(kf0, a) + p[n..] && q == Path(kf0, a) + q[n..];
    PathDeterminesFolder(kf0, i, j);
  }

  lemma SameNameSameFolder(kf0: KeyFile, kf: KeyFile, a: string, i: string, j: string)
    requires ProperTree(kf0) && ProperTree(kf) && EditedAt(kf0, kf, a) && DistinctNames(kf0)
    requires BuildFullName(kf, a).Some? && NameIsFree(kf0, BuildFullName(kf, a).value, a)
    requires Named(kf, i) && Named(kf, j) && SameFullName(kf, i, j)
    ensures i == j
  {
    if Under(kf, a, i) && Under(kf, a, j) {
      FullNameIsJoinedPath(kf, i);
      FullNameIsJoinedPath(kf, j);
      PathIsSlashFree(kf, i);
      PathIsSlashFree(kf, j);
      JoinInjective(Path(kf, i), Path(kf, j));
      SamePathInside(kf0, kf, a, i, j);
    } else if Under(kf, a, i) {
      ClashIsAtTop(kf0, kf, a, i, j);
    } else if Under(kf, a, j) {
      ClashIsAtTop(kf0, kf, a, j, i);
    } else {
      EditKeepsNamesOutside(kf0, kf, a, i);
      EditKeepsNamesOutside(kf0, kf, a, j);
      EditKeepsPathsOutside(kf0, kf, a, i);
      assert SameFullName(kf0, i, j);
    }
  }

  // ---------------------------------------------------------------- prefix tests on names

  /** The name test used for "a and everything below it" selects exactly the subtree of a. */
  lemma NamePrefixIsSubtree(kf: KeyFile, a: string, d: string)
    requires ProperTree(kf) && DistinctNames(kf) && Named(kf, a) && Named(kf, d)
    ensures BuildFullName(kf, a).Some? && BuildFullName(kf, d).Some?
    ensures BuildFullName(kf, a).value + "/" <= BuildFullName(kf, d).value <==> Under(kf, a, d) && d != a
  {
    FullNameIsJoinedPath(kf, a);
    FullNameIsJoinedPath(kf, d);
    PathIsSlashFree(kf, a);
    PathIsSlashFree(kf, d);
    SlashPrefixIsProperPrefix(Path(kf, a), Path(kf, d));
    UnderIsPathPrefix(kf, a, d);
    if Path(kf, a) == Path(kf, d) {
      PathDeterminesFolder(kf, a, d);
    }
  }
}
