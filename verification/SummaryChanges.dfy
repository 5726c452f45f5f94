/**
 Rebuilding the tables from scratch, adding and removing single folders, and listing the
 folders below a name.
 */
module SummaryChanges {
  import opened Options
  import opened KeyFiles
  import opened FolderTree
  import opened SummaryIndex

  // ---------------------------------------------------------------- rebuild

  /** The groups that are folders, in file order. */
  function FolderGroups(order: seq<string>): (r: seq<string>)
    ensures forall g :: g in r <==> g in order && !IsStoreGroup(g)
    ensures Distinct(order) ==> Distinct(r)
  {
    if order == [] then []
    else
      var rest := FolderGroups(order[..|order| - 1]);
      var g := order[|order| - 1];
      assert forall i :: 0 <= i < |rest| ==> rest[i] in rest;
      if IsStoreGroup(g) then rest else rest + [g]
  }

  /** Both tables are emptied; id_fname_hash frees everything it owned. */
  function Emptied(ix: Index): Index {
    Index(map[], map[], ix.freed + (set id, x | id in ix.ids && x in Objects(ix.ids[id]) :: x), ix.next)
  }

  function RebuildStep(kf: KeyFile, ix: Index, id: string): Index
    requires Acyclic(kf)
  {
    var fname := BuildFullName(kf, id);
    if fname.None? then ix
    else
      var k, v := Ref(ix.next, id), Ref(ix.next + 1, fname.value);
      ix.(names := Insert(ix.names, v, k), ids := Insert(ix.ids, k, v), next := ix.next + 2)
  }

  function RebuildFrom(kf: KeyFile, ix: Index, done: seq<string>): Index
    requires Acyclic(kf)
  {
    if done == [] then Emptied(ix)
    else RebuildStep(kf, RebuildFrom(kf, ix, done[..|done| - 1]), done[|done| - 1])
  }

  /** The tables after load_id_fname_hash. */
  function Rebuilt(kf: KeyFile, ix: Index): Index
    requires Acyclic(kf)
  {
    RebuildFrom(kf, ix, FolderGroups(kf.order))
  }

  /** The last folder in the list that bears the full name. */
  function LastBearer(kf: KeyFile, ids: seq<string>, name: string): Option<string>
    requires Acyclic(kf)
  {
    if ids == [] then None
    else if BuildFullName(kf, ids[|ids| - 1]) == Some(name) then Some(ids[|ids| - 1])
    else LastBearer(kf, ids[..|ids| - 1], name)
  }

  lemma {:induction false} LastBearerBears(kf: KeyFile, ids: seq<string>, name: string)
    requires Acyclic(kf)
    ensures LastBearer(kf, ids, name).Some? ==>
              LastBearer(kf, ids, name).value in ids && BuildFullName(kf, LastBearer(kf, ids, name).value) == Some(name)
    ensures forall id :: id in ids && BuildFullName(kf, id) == Some(name) ==> LastBearer(kf, ids, name).Some?
  {
    if ids != [] {
      LastBearerBears(kf, ids[..|ids| - 1], name);
      assert ids == ids[..|ids| - 1] + [ids[|ids| - 1]];
    }
  }

  /** The first folder in the list that bears the full name. */
  function FirstBearer(kf: KeyFile, ids: seq<string>, name: string): Option<string>
    requires Acyclic(kf)
  {
    if ids == [] then None
    else
      var first := FirstBearer(kf, ids[..|ids| - 1], name);
      if first.Some? || BuildFullName(kf, ids[|ids| - 1]) != Some(name) then first else Some(ids[|ids| - 1])
  }

  lemma {:induction false} FirstBearerBears(kf: KeyFile, ids: seq<string>, name: string)
    requires Acyclic(kf)
    ensures var first := FirstBearer(kf, ids, name);
            first.Some? ==> first.value in ids && BuildFullName(kf, first.value) == Some(name)
    ensures FirstBearer(kf, ids, name).Some? <==> LastBearer(kf, ids, name).Some?
  {
    if ids != [] {
      FirstBearerBears(kf, ids[..|ids| - 1], name);
    }
  }

  /** The value object of a name's entry is the key object of its folder, the key object is some folder's name. */
  ghost predicate BorrowedAt(ix: Index, n: string)
    requires n in ix.names
  {
    var e := ix.names[n];
    && e.key.text == n
    && e.value.text in ix.ids && ix.ids[e.value.text].key == e.value
    && exists id :: id in ix.ids && ix.ids[id].value == e.key
  }

  ghost predicate Borrows(ix: Index) {
    forall n {:trigger BorrowedAt(ix, n)} :: n in ix.names ==> BorrowedAt(ix, n)
  }

  /** The tables hold exactly the names of the folders handled so far. */
  ghost predicate Covers(kf: KeyFile, done: seq<string>, ix: Index)
    requires Acyclic(kf)
  {
    && (forall id :: NameIn(ix, id) == if id in done then BuildFullName(kf, id) else None)
    && (forall n :: IdIn(ix, n) == LastBearer(kf, done, n))
  }

  lemma RebuildStepKeepsCover(kf: KeyFile, done: seq<string>, ix: Index, id: string)
    requires Acyclic(kf) && Covers(kf, done, ix)
    ensures Covers(kf, done + [id], RebuildStep(kf, ix, id))
  {
  }

  lemma RebuildStepKeepsObjects(kf: KeyFile, ix: Index, id: string)
    requires Acyclic(kf) && OwnsApart(ix) && Borrows(ix)
    requires id !in ix.ids
    ensures OwnsApart(RebuildStep(kf, ix, id)) && Borrows(RebuildStep(kf, ix, id))
  {
    var iy := RebuildStep(kf, ix, id);
    forall n | n in iy.names ensures BorrowedAt(iy, n) {
      if n in ix.names {
        assert BorrowedAt(ix, n);
        var j :| j in ix.ids && ix.ids[j].value == ix.names[n].key;
        assert j in iy.ids && iy.ids[j].value == iy.names[n].key;
      } else {
        assert iy.ids[id].value == iy.names[n].key;
      }
    }
    forall i, j | i in iy.ids && j in iy.ids && i != j ensures Apart(iy.ids[i], iy.ids[j]) {
      if i in ix.ids {
        assert Filed(ix, i, ix.ids[i]);
      }
      if j in ix.ids {
        assert Filed(ix, j, ix.ids[j]);
      }
    }
  }

  /** The key object of a name's entry is owned by the first folder that bears the name. */
  ghost predicate FirstOwnsKey(kf: KeyFile, done: seq<string>, ix: Index, n: string)
    requires Acyclic(kf)
  {
    var first := FirstBearer(kf, done, n);
    n in ix.names ==> first.Some? && first.value in ix.ids && ix.ids[first.value].value == ix.names[n].key
  }

  lemma RebuildStepKeepsKeys(kf: KeyFile, done: seq<string>, ix: Index, id: string)
    requires Acyclic(kf) && Covers(kf, done, ix) && id !in done
    requires forall n :: FirstOwnsKey(kf, done, ix, n)
    ensures forall n :: FirstOwnsKey(kf, done + [id], RebuildStep(kf, ix, id), n)
  {
    assert (done + [id])[..|done|] == done;
    assert NameIn(ix, id) == None;
    forall n ensures FirstOwnsKey(kf, done + [id], RebuildStep(kf, ix, id), n) {
      assert FirstOwnsKey(kf, done, ix, n);
      FirstBearerBears(kf, done, n);
      assert IdIn(ix, n) == LastBearer(kf, done, n);
    }
  }

  lemma BorrowsHasNoDangling(ix: Index)
    requires OwnsApart(ix) && Borrows(ix)
    ensures NoDangling(ix)
  {
    forall n | n in ix.names ensures Live(ix.names[n], ix.freed) {
      assert BorrowedAt(ix, n);
    }
  }

  /**
   Whatever the tables held before, the rebuild leaves every folder with its recomputed name and
   every name with the last folder that bears it.
   */
  lemma {:induction false} RebuildFromAnything(kf: KeyFile, ix: Index, done: seq<string>)
    requires Acyclic(kf) && OwnsApart(ix) && Distinct(done)
    ensures Covers(kf, done, RebuildFrom(kf, ix, done))
    ensures OwnsApart(RebuildFrom(kf, ix, done)) && Borrows(RebuildFrom(kf, ix, done))
    ensures NoDangling(RebuildFrom(kf, ix, done))
    ensures forall n :: FirstOwnsKey(kf, done, RebuildFrom(kf, ix, done), n)
  {
    if done == [] {
      EmptiedOwnsApart(ix);
    } else {
      var before, id := done[..|done| - 1], done[|done| - 1];
      RebuildFromAnything(kf, ix, before);
      RebuildStepKeepsCover(kf, before, RebuildFrom(kf, ix, before), id);
      assert before + [id] == done && id !in before;
      assert NameIn(RebuildFrom(kf, ix, before), id) == None;
      RebuildStepKeepsObjects(kf, RebuildFrom(kf, ix, before), id);
      RebuildStepKeepsKeys(kf, before, RebuildFrom(kf, ix, before), id);
    }
    BorrowsHasNoDangling(RebuildFrom(kf, ix, done));
  }

  lemma EmptiedOwnsApart(ix: Index)
    requires OwnsApart(ix)
    ensures OwnsApart(Emptied(ix))
  {
  }

  /** The rebuilt tables are coherent exactly when full names are distinct. */
  lemma RebuildIsCoherentIffDistinct(kf: KeyFile, ix: Index)
    requires ProperTree(kf) && WellFormed(kf) && OwnsApart(ix)
    ensures Coherent(kf, Rebuilt(kf, ix)) <==> DistinctNames(kf)
  {
    var ids, iy := FolderGroups(kf.order), Rebuilt(kf, ix);
    RebuildFromAnything(kf, ix, ids);
    forall id ensures NameIn(iy, id) == BuildFullName(kf, id) {
      assert Named(kf, id) ==> id in kf.groups && id in ids;
      FullNameIsJoinedPath(kf, id);
    }
    if DistinctNames(kf) {
      forall n | n in iy.names ensures Shared(iy, n) {
        assert BorrowedAt(iy, n) && IdIn(iy, n).Some?;
        var i :| i in iy.ids && iy.ids[i].value == iy.names[n].key;
        LastBearerBears(kf, ids, n);
        assert NameIn(iy, i) == Some(n);
        assert SameFullName(kf, i, iy.names[n].value.text);
      }
      forall id | id in iy.ids ensures IdIn(iy, iy.ids[id].value.text) == Some(id) {
        assert NameIn(iy, id).Some? && id in ids;
        var name := iy.ids[id].value.text;
        LastBearerBears(kf, ids, name);
        assert SameFullName(kf, id, LastBearer(kf, ids, name).value);
      }
    }
    if Coherent(kf, iy) {
      CoherentNamesAreDistinct(kf, iy);
    }
  }

  // ---------------------------------------------------------------- adding a folder

  /** A child's full name is its parent's full name, a slash, and its own name. */
  lemma ChildName(kf: KeyFile, a: string, d: string)
    requires Acyclic(kf) && Named(kf, d) && ParentOf(kf, d) == Some(a)
    ensures BuildFullName(kf, d) ==
            Some((if Named(kf, a) then BuildFullName(kf, a).value + "/" else "") + NameOf(kf, d).value)
    ensures Named(kf, a) ==> BuildFullName(kf, a).Some?
  {
    FullNameIsJoinedPath(kf, a);
    assert "" + NameOf(kf, d).value == NameOf(kf, d).value;
  }

  /**
   Entering a folder without recursion keeps coherence exactly when its full name was not entered
   for another folder, and no other folder has it as parent id or its full name stays what it was.
   */
  lemma NewFolderCoherence(kf0: KeyFile, kf: KeyFile, ix: Index, a: string)
    requires ProperTree(kf0) && ProperTree(kf) && AgreeExceptAt(kf0, kf, a)
    requires Coherent(kf0, ix)
    requires Named(kf, a) && BuildFullName(kf, a).Some?
    ensures Coherent(kf, ReplaceOne(ix, a, BuildFullName(kf, a).value)) <==>
            FreeFor(ix, BuildFullName(kf, a).value, a) &&
            (!IsParentId(kf0, a) || BuildFullName(kf0, a) == BuildFullName(kf, a))
  {
    if Coherent(kf, ReplaceOne(ix, a, BuildFullName(kf, a).value)) {
      CoherentNamesAreDistinct(kf, ReplaceOne(ix, a, BuildFullName(kf, a).value));
    }
    if !IsParentId(kf0, a) || BuildFullName(kf0, a) == BuildFullName(kf, a) {
      OthersKeepNames(kf0, kf, a);
      CoherentNamesAreDistinct(kf0, ix);
      OwnNameKeepsDistinct(kf0, kf, a);
      LookupTellsFree(kf0, ix, BuildFullName(kf, a).value, a);
      if DistinctNames(kf) {
        NewFolderKeepsCoherence(kf0, kf, ix, a);
      }
    } else {
      var d :| d != a && Named(kf0, d) && ParentOf(kf0, d) == Some(a);
      if BuildFullName(kf, d) == BuildFullName(kf0, d) {
        ChildNameTellsParent(kf0, kf, a, d);
      }
      assert NameIn(ReplaceOne(ix, a, BuildFullName(kf, a).value), d) == NameIn(ix, d) == BuildFullName(kf0, d);
    }
  }

  lemma OthersKeepNames(kf0: KeyFile, kf: KeyFile, a: string)
    requires Acyclic(kf0) && Acyclic(kf) && AgreeExceptAt(kf0, kf, a)
    requires !IsParentId(kf0, a) || BuildFullName(kf0, a) == BuildFullName(kf, a)
    ensures forall d :: d != a ==> BuildFullName(kf, d) == BuildFullName(kf0, d)
  {
    forall d | d != a ensures BuildFullName(kf, d) == BuildFullName(kf0, d) {
      if !IsParentId(kf0, a) {
        ChildlessChangeKeepsNames(kf0, kf, a, d);
      } else {
        SameNameKeepsOthers(kf0, kf, a, d);
      }
    }
  }

  lemma NewFolderKeepsCoherence(kf0: KeyFile, kf: KeyFile, ix: Index, a: string)
    requires ProperTree(kf0) && ProperTree(kf) && AgreeExceptAt(kf0, kf, a)
    requires Coherent(kf0, ix) && Named(kf, a) && BuildFullName(kf, a).Some?
    requires FreeFor(ix, BuildFullName(kf, a).value, a)
    requires forall d :: d != a ==> BuildFullName(kf, d) == BuildFullName(kf0, d)
    ensures Coherent(kf, ReplaceOne(ix, a, BuildFullName(kf, a).value))
  {
    var name := BuildFullName(kf, a).value;
    var iy := ReplaceOne(ix, a, name);
    ReplaceOneIsSound(ix, a, name);
    forall d ensures NameIn(iy, d) == BuildFullName(kf, d) {
      if d != a {
        assert NameIn(iy, d) == NameIn(ix, d) == BuildFullName(kf0, d);
      }
    }
  }

  lemma ChildNameTellsParent(kf0: KeyFile, kf: KeyFile, a: string, d: string)
    requires Acyclic(kf0) && Acyclic(kf) && AgreeExceptAt(kf0, kf, a)
    requires d != a && Named(kf0, d) && ParentOf(kf0, d) == Some(a)
    requires BuildFullName(kf, d) == BuildFullName(kf0, d)
    ensures BuildFullName(kf, a) == BuildFullName(kf0, a)
  {
    ChildName(kf0, a, d);
    ChildName(kf, a, d);
    FullNameIsJoinedPath(kf0, a);
    FullNameIsJoinedPath(kf, a);
    var c := NameOf(kf, d).value;
    var x := if Named(kf, a) then BuildFullName(kf, a).value + "/" else "";
    var y := if Named(kf0, a) then BuildFullName(kf0, a).value + "/" else "";
    assert x == (x + c)[..|x + c| - |c|] && y == (y + c)[..|y + c| - |c|];
    assert x == y;
    if x != "" {
      assert BuildFullName(kf, a).value == x[..|x| - 1] && BuildFullName(kf0, a).value == y[..|y| - 1];
    }
  }

  lemma {:induction false} SameNameKeepsOthers(kf0: KeyFile, kf: KeyFile, a: string, d: string)
    requires Acyclic(kf0) && Acyclic(kf) && AgreeExceptAt(kf0, kf, a)
    requires BuildFullName(kf0, a) == BuildFullName(kf, a)
    ensures BuildFullName(kf, d) == BuildFullName(kf0, d)
    decreases Height(kf, d)
  {
    if d != a && HasParent(kf, d) {
      SameNameKeepsOthers(kf0, kf, a, Parent(kf, d));
    } else if d != a && Named(kf, d) && ParentOf(kf, d).Some? {
      FullNameIsJoinedPath(kf, ParentOf(kf, d).value);
      FullNameIsJoinedPath(kf0, ParentOf(kf, d).value);
    }
  }

  // ---------------------------------------------------------------- removing a folder

  /** The entry of fname_id_hash goes first, because id_fname_hash frees the shared strings. */
  function RemoveEntry(ix: Index, id: string): Index
    requires id in ix.ids
  {
    Index(ix.ids - {id}, ix.names - {ix.ids[id].value.text}, ix.freed + Objects(ix.ids[id]), ix.next)
  }

  lemma RemoveEntryIsSound(ix: Index, id: string)
    requires Sound(ix) && id in ix.ids
    ensures Sound(RemoveEntry(ix, id)) && NoDangling(RemoveEntry(ix, id))
    ensures NoDangling(ix.(names := RemoveEntry(ix, id).names))
    ensures forall j :: NameIn(RemoveEntry(ix, id), j) == if j == id then None else NameIn(ix, j)
  {
    RemoveEntryOwnsApart(ix, id);
    var iy, name := RemoveEntry(ix, id), ix.ids[id].value.text;
    assert NameIn(ix, id) == Some(name);
    forall n | n in iy.names ensures Shared(iy, n) {
      assert Shared(ix, n);
    }
    forall j | j in iy.ids ensures IdIn(iy, iy.ids[j].value.text) == Some(j) {
      assert NameIn(ix, j).Some?;
    }
    hide OwnsApart;
    SoundHasNoDangling(ix);
    SoundHasNoDangling(iy);
  }

  lemma RemoveEntryOwnsApart(ix: Index, id: string)
    requires OwnsApart(ix) && id in ix.ids
    ensures OwnsApart(RemoveEntry(ix, id))
  {
    var iy := RemoveEntry(ix, id);
    forall j | j in iy.ids ensures Live(iy.ids[j], iy.freed) {
      assert Filed(ix, j, ix.ids[j]) && Apart(ix.ids[j], ix.ids[id]);
    }
    forall x | x in iy.freed ensures x < iy.next {
      assert Filed(ix, id, ix.ids[id]);
    }
  }

  /** Removing a folder keeps coherence exactly when no other folder has it as parent id. */
  lemma RemoveFolderCoherence(kf0: KeyFile, kf: KeyFile, ix: Index, a: string)
    requires Acyclic(kf0) && Acyclic(kf) && AgreeExceptAt(kf0, kf, a)
    requires Coherent(kf0, ix) && a in ix.ids && !Named(kf, a)
    ensures Coherent(kf, RemoveEntry(ix, a)) <==> !IsParentId(kf0, a)
  {
    var iy := RemoveEntry(ix, a);
    RemoveEntryIsSound(ix, a);
    assert NameIn(ix, a) == BuildFullName(kf0, a);
    if !IsParentId(kf0, a) {
      forall d ensures NameIn(iy, d) == BuildFullName(kf, d) {
        if d != a {
          ChildlessChangeKeepsNames(kf0, kf, a, d);
        }
      }
    } else {
      var d :| d != a && Named(kf0, d) && ParentOf(kf0, d) == Some(a);
      if BuildFullName(kf, d) == BuildFullName(kf0, d) {
        ChildNameTellsParent(kf0, kf, a, d);
      }
      assert NameIn(iy, d) == NameIn(ix, d) == BuildFullName(kf0, d);
    }
  }

  // ---------------------------------------------------------------- listing folders

  /** The test on one group: a folder whose cached name is the prefix or lies below it. */
  predicate IsListed(ix: Index, g: string, prefix: Option<string>) {
    && !IsStoreGroup(g)
    && (prefix.None? || prefix.value == "" ||
        (NameIn(ix, g).Some? &&
         var fname, n := NameIn(ix, g).value, |prefix.value|;
         prefix.value <= fname && (n == |fname| || fname[n] == '/')))
  }

  function ListFolders(ix: Index, order: seq<string>, prefix: Option<string>): seq<string> {
    if order == [] then []
    else
      var rest, g := ListFolders(ix, order[..|order| - 1], prefix), order[|order| - 1];
      if IsListed(ix, g, prefix) then rest + [g] else rest
  }

  /** The members of the subtree of a, in file order. */
  ghost function SubtreeOf(kf: KeyFile, a: string, order: seq<string>): seq<string>
    requires Acyclic(kf)
  {
    if order == [] then []
    else
      var rest, g := SubtreeOf(kf, a, order[..|order| - 1]), order[|order| - 1];
      if Under(kf, a, g) then rest + [g] else rest
  }

  lemma ListedIsUnder(kf: KeyFile, ix: Index, a: string, g: string)
    requires ProperTree(kf) && DistinctNames(kf) && Coherent(kf, ix)
    requires Named(kf, a) && BuildFullName(kf, a).Some? && BuildFullName(kf, a).value != ""
    ensures IsListed(ix, g, BuildFullName(kf, a)) <==> Under(kf, a, g)
  {
    assert NameIn(ix, g) == BuildFullName(kf, g);
    FullNameIsJoinedPath(kf, g);
    if Named(kf, g) {
      NamePrefixIsSubtree(kf, a, g);
      var p, fname := BuildFullName(kf, a).value, BuildFullName(kf, g).value;
      if p <= fname && |p| < |fname| {
        assert fname[..|p| + 1] == p + [fname[|p|]];
      } else if p <= fname {
        assert p == fname && SameFullName(kf, g, a);
      } else {
        assert g != a;
      }
      assert p + "/" <= fname ==> fname[|p|] == (p + "/")[|p|];
    }
  }

  /** Listing below the name of a folder gives that folder and its descendants, in file order. */
  lemma {:induction false} ListFoldersIsSubtree(kf: KeyFile, ix: Index, a: string, order: seq<string>)
    requires ProperTree(kf) && DistinctNames(kf) && Coherent(kf, ix)
    requires Named(kf, a) && BuildFullName(kf, a).Some? && BuildFullName(kf, a).value != ""
    ensures ListFolders(ix, order, BuildFullName(kf, a)) == SubtreeOf(kf, a, order)
  {
    if order != [] {
      ListFoldersIsSubtree(kf, ix, a, order[..|order| - 1]);
      ListedIsUnder(kf, ix, a, order[|order| - 1]);
    }
  }

  /** The listing contains each folder of the subtree exactly once. */
  lemma {:induction false} SubtreeOfMembers(kf: KeyFile, a: string, order: seq<string>)
    requires Acyclic(kf) && Distinct(order)
    ensures Distinct(SubtreeOf(kf, a, order))
    ensures forall d :: d in SubtreeOf(kf, a, order) <==> d in order && Under(kf, a, d)
  {
    if order != [] {
      var rest := SubtreeOf(kf, a, order[..|order| - 1]);
      SubtreeOfMembers(kf, a, order[..|order| - 1]);
      assert forall i :: 0 <= i < |rest| ==> rest[i] in rest;
      assert order == order[..|order| - 1] + [order[|order| - 1]];
    }
  }
}
