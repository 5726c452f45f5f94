/**
 What the operations do to the values in the key file and to the list of all folders.
 */
module SummaryValues {
  import opened Options
  import opened KeyFiles
  import opened FolderTree
  import opened SummaryIndex
  import opened SummaryChanges
  import opened SummaryRuns

  lemma UpgradedValues(kf: KeyFile)
    requires !IsCurrent(kf)
    ensures forall g, k :: GetString(Upgraded(kf), g, k) ==
                             if g == STORE_GROUP_NAME && k == Version then Some("1") else None
    ensures Upgraded(kf).order == [STORE_GROUP_NAME]
  {
    assert forall g, k :: GetString(EMPTY, g, k) == None;
  }

  lemma NoFoldersToList(ix: Index, order: seq<string>)
    requires order == [STORE_GROUP_NAME]
    ensures FolderGroups(order) == [] && ListFolders(ix, order, None) == []
  {
    StoreGroupIsNoFolder();
    ListsFolderGroups(ix, order);
    assert order[..0] == [];
  }

  /** A load of a file of another version drops every folder: only the new version is left. */
  lemma UpgradeDropsFolders(s: Summary, s': Summary)
    requires Step(s, Load, s') && !IsCurrent(ReadFile(s.keyFile, s.file))
    ensures forall g, k :: GetString(s'.keyFile, g, k) ==
                             if g == STORE_GROUP_NAME && k == Version then Some("1") else None
    ensures s'.keyFile.order == [STORE_GROUP_NAME] && s'.dirty
    ensures s'.index.ids == map[] && s'.index.names == map[]
    ensures ListFolders(s'.index, s'.keyFile.order, None) == []
  {
    UpgradedValues(ReadFile(s.keyFile, s.file));
    NoFoldersToList(s'.index, s'.keyFile.order);
    hide GetString, SetString, ListFolders, FolderGroups;
  }

  /** A load of a current file keeps what was read, and what was there if the file is missing. */
  lemma LoadKeepsCurrentFile(s: Summary, s': Summary, kf: KeyFile)
    requires Step(s, Load, s') && IsCurrent(kf)
    requires s.file == Stored(kf) || s.file == Damaged(kf) || (s.file == Absent && s.keyFile == kf)
    ensures s'.keyFile == kf && s'.dirty == s.dirty
  {
  }

  /** Which values an edit of one folder sets; all others stay. */
  lemma EditSetsValues(s: Summary, op: Op, g: string, k: Key)
    requires EditsFolder(op)
    ensures GetString(Edited(s, op), g, k) ==
            if g == op.id && k == DisplayName && !op.SetParentFolderId? then Some(op.name)
            else if g == op.id && k == ParentFolderId && op.SetParentFolderId? then op.parent
            else if g == op.id && k == ParentFolderId && op.NewFolder? && op.parent.Some? then op.parent
            else if g == op.id && k == ChangeKey && op.NewFolder? && op.changeKey.Some? then op.changeKey
            else if g == op.id && k == Flags && op.NewFolder? then Some(Decimal(op.flags))
            else if g == op.id && k == Total && op.NewFolder? then Some(Decimal(op.total))
            else GetString(s.keyFile, g, k)
  {
    hide SetString, RemoveKey, WellFormed;
  }

  /** The numbers of a new folder are read back as they were given. */
  lemma NewFolderNumbers(s: Summary, op: Op)
    requires op.NewFolder?
    ensures GetString(Edited(s, op), op.id, Flags).Some? && GetString(Edited(s, op), op.id, Total).Some?
    ensures Number(GetString(Edited(s, op), op.id, Flags).value) == op.flags
    ensures Number(GetString(Edited(s, op), op.id, Total).value) == op.total
  {
    EditSetsValues(s, op, op.id, Flags);
    EditSetsValues(s, op, op.id, Total);
    NumberOfDecimal(op.flags);
    NumberOfDecimal(op.total);
  }

  /** An edited folder keeps its place in the file, and a new one comes last. */
  lemma EditKeepsOrder(s: Summary, op: Op)
    requires EditsFolder(op) && (op.SetParentFolderId? ==> Named(s.keyFile, op.id))
    ensures Edited(s, op).order == if op.id in s.keyFile.groups then s.keyFile.order else s.keyFile.order + [op.id]
  {
  }

  /** No prefix and an empty one list all folders. */
  lemma {:induction false} ListsFolderGroups(ix: Index, order: seq<string>)
    ensures ListFolders(ix, order, None) == ListFolders(ix, order, Some("")) == FolderGroups(order)
  {
    if order != [] {
      ListsFolderGroups(ix, order[..|order| - 1]);
    }
  }

  lemma {:induction false} FolderGroupsConcat(a: seq<string>, b: seq<string>)
    ensures FolderGroups(a + b) == FolderGroups(a) + FolderGroups(b)
  {
    hide Distinct, IsStoreGroup;
    if b == [] {
      assert a + b == a;
    } else {
      var front := b[..|b| - 1];
      FolderGroupsConcat(a, front);
      assert (a + b)[..|a + b| - 1] == a + front;
    }
  }

  /** The list of all folders after a removal: without that one, the others in their order. */
  lemma RemovedIsUnlisted(s: Summary, op: Op, s': Summary)
    requires op.RemoveFolder? && op.id in s.index.ids && WellFormed(s.keyFile) && Step(s, op, s')
    ensures op.id !in s'.keyFile.order && op.id !in s'.keyFile.groups
    ensures ListFolders(s'.index, s'.keyFile.order, None) ==
            KeyFiles.Without(ListFolders(s.index, s.keyFile.order, None), op.id)
  {
    var order := s.keyFile.order;
    ListsFolderGroups(s.index, order);
    ListsFolderGroups(s'.index, s'.keyFile.order);
    WithoutFolder(order, op.id);
  }

  lemma {:induction false} WithoutConcat(a: seq<string>, b: seq<string>, g: string)
    ensures KeyFiles.Without(a + b, g) == KeyFiles.Without(a, g) + KeyFiles.Without(b, g)
  {
    hide Distinct;
    if a == [] {
      assert a + b == b;
    } else {
      WithoutConcat(a[1..], b, g);
      assert (a + b)[1..] == a[1..] + b;
    }
  }

  lemma {:induction false} WithoutFolder(order: seq<string>, g: string)
    ensures FolderGroups(KeyFiles.Without(order, g)) == KeyFiles.Without(FolderGroups(order), g)
  {
    hide Distinct;
    if order != [] {
      var front, last := order[..|order| - 1], [order[|order| - 1]];
      assert order == front + last;
      WithoutFolder(front, g);
      WithoutConcat(front, last, g);
      FolderGroupsConcat(front, last);
      WithoutConcat(FolderGroups(front), FolderGroups(last), g);
      FolderGroupsConcat(KeyFiles.Without(front, g), KeyFiles.Without(last, g));
      assert last[..0] == [] && last[1..] == [];
    }
  }
}
