/**
 The store summary object: its fields are changed in place by the public operations, each
 proved to be one step of the machine in SummaryRuns.
 */
module StoreSummary {
  import opened Options
  import opened KeyFiles
  import opened FolderTree
  import opened SummaryIndex
  import opened SummaryChanges
  import opened SummaryObjects
  import opened SummaryRuns
  import opened SummaryValues

  class CamelMapStoreSummary {
    var keyFile: KeyFile
    var dirty: bool
    var idFname: Table
    var fnameId: Table
    /** The string allocator: objects freed so far, and the next address to hand out. */
    var freed: set<nat>
    var next: nat
    /** The file at the summary's path. */
    var file: FileState

    function Tables(): Index
      reads this
    {
      Index(idFname, fnameId, freed, next)
    }

    function State(): Summary
      reads this
    {
      Summary(keyFile, dirty, Tables(), file)
    }

    constructor (file: FileState)
      ensures State() == NEW_SUMMARY.(file := file)
    {
      keyFile, dirty, this.file := EMPTY, false, file;
      idFname, fnameId, freed, next := map[], map[], {}, 0;
    }

    // -------------------------------------------------------------- lookups

    method GetFolderName(folderId: string) returns (r: Option<string>)
      ensures r == NameOf(keyFile, folderId)
    {
      r := GetString(keyFile, folderId, DisplayName);
    }

    method GetFolderFullName(folderId: string) returns (r: Option<string>)
      ensures r == NameIn(Tables(), folderId)
      ensures InStep(State()) ==> r == BuildFullName(keyFile, folderId)
    {
      r := if folderId in idFname then Some(idFname[folderId].value.text) else None;
    }

    /** On usable tables the id found is the one folder that bears the name. */
    method GetFolderIdFromName(name: string) returns (r: Option<string>)
      ensures r == IdIn(Tables(), name)
      ensures InStep(State()) ==> forall id :: r == Some(id) <==> BuildFullName(keyFile, id) == Some(name)
    {
      r := if name in fnameId then Some(fnameId[name].value.text) else None;
      if InStep(State()) {
        forall id ensures r == Some(id) <==> BuildFullName(keyFile, id) == Some(name) {
          SoundTablesAreInverse(Tables(), id, name);
          assert NameIn(Tables(), id) == BuildFullName(keyFile, id);
        }
      }
    }

    /**
     The folders whose cached name is the prefix or lies below it.  For the name of a folder these
     are that folder and its descendants, in file order.
     */
    method GetFolders(prefix: Option<string>) returns (folders: seq<string>)
      ensures folders == ListFolders(Tables(), keyFile.order, prefix)
      ensures forall a ::
                InStep(State()) && prefix != Some("") && BuildFullName(keyFile, a) == prefix && prefix.Some? ==>
                  folders == SubtreeOf(keyFile, a, keyFile.order)
    {
      folders := [];
      var i := 0;
      while i < |keyFile.order|
        invariant 0 <= i <= |keyFile.order|
        invariant folders == ListFolders(Tables(), keyFile.order[..i], prefix)
      {
        var g := keyFile.order[i];
        assert keyFile.order[..i + 1][..i] == keyFile.order[..i];
        i := i + 1;
        if IsStoreGroup(g) {
          continue;
        }
        if prefix.Some? && |prefix.value| > 0 {
          if g !in idFname {
            continue;
          }
          var fname, n := idFname[g].value.text, |prefix.value|;
          if !(prefix.value <= fname) || (n < |fname| && fname[n] != '/') {
            continue;
          }
        }
        folders := folders + [g];
      }
      assert keyFile.order[..i] == keyFile.order;
      forall a | InStep(State()) && prefix != Some("") && BuildFullName(keyFile, a) == prefix && prefix.Some?
        ensures folders == SubtreeOf(keyFile, a, keyFile.order)
      {
        FullNameIsJoinedPath(keyFile, a);
        ListFoldersIsSubtree(keyFile, Tables(), a, keyFile.order);
      }
    }

    // -------------------------------------------------------------- the hash tables

    method LoadIdFnameHash()
      requires Acyclic(keyFile) && WellFormed(keyFile) && OwnsApart(Tables())
      modifies `idFname, `fnameId, `freed, `next
      ensures Tables() == Rebuilt(keyFile, old(Tables()))
      ensures OwnsApart(Tables()) && NoDangling(Tables())
    {
      hide InStep, OwnsApart, NoDangling, BuildFullName;
      fnameId := map[];
      freed := freed + (set id, x | id in idFname && x in Objects(idFname[id]) :: x);
      idFname := map[];
      var folders := GetFolders(None);
      ListsFolderGroups(Tables(), keyFile.order);
      EnterFolders(folders, old(Tables()));
      RebuildFromAnything(keyFile, old(Tables()), folders);
    }

    method EnterFolders(folders: seq<string>, ghost before: Index)
      requires Acyclic(keyFile) && Tables() == Emptied(before)
      modifies `idFname, `fnameId, `next
      ensures Tables() == RebuildFrom(keyFile, before, folders)
    {
      var i := 0;
      while i < |folders|
        invariant 0 <= i <= |folders|
        invariant Tables() == RebuildFrom(keyFile, before, folders[..i])
      {
        assert folders[..i + 1][..i] == folders[..i];
        var fname := BuildFullName(keyFile, folders[i]);
        if fname.Some? {
          var id, name := Ref(next, folders[i]), Ref(next + 1, fname.value);
          next := next + 2;
          fnameId := Insert(fnameId, name, id);
          idFname := Insert(idFname, id, name);
        }
        i := i + 1;
      }
      assert folders[..i] == folders;
    }

    /**
     Replaces the entries of one folder; returns the name they had if it led back to the folder.
     The original compares the id found under the cached name, so there must be one.
     */
    method ReplaceEntry(folderId: string) returns (was: Option<string>)
      requires Acyclic(keyFile) && BuildFullName(keyFile, folderId).Some?
      requires HasIdOfName(Tables(), folderId)
      modifies `idFname, `fnameId, `freed, `next
      ensures Tables() == ReplaceOne(old(Tables()), folderId, BuildFullName(keyFile, folderId).value)
      ensures old(Tidy(Tables())) ==>
                (StepsLive(old(Tables()), folderId, BuildFullName(keyFile, folderId).value) <==>
                 old(SafeReplace(Tables(), folderId)))
      ensures was == if old(LeadsBack(Tables(), folderId)) then old(NameIn(Tables(), folderId)) else None
    {
      ghost var before := Tables();
      var fullName := BuildFullName(keyFile, folderId).value;
      ghost var safe := Tidy(before) && SafeReplace(before, folderId);
      if Tidy(before) {
        StepsLiveIff(before, folderId, fullName);
      }
      hide Tidy, SafeReplace, NoDangling, BuildFullName;
      var id, name := Ref(next, folderId), Ref(next + 1, fullName);
      next := next + 2;
      was := DropOldName(folderId);
      assert Tables() == Unlinked(before, folderId) && (safe ==> NoDangling(Tables()));
      EnterNewName(id, name, before, safe);
    }

    /** Enters the new name in fname_id_hash and then gives both strings to id_fname_hash. */
    method EnterNewName(id: Ref, name: Ref, ghost before: Index, ghost safe: bool)
      requires Tables() == Unlinked(before, id.text)
      requires id.addr == before.next && name.addr == before.next + 1
      requires safe ==> StepsLive(before, id.text, name.text)
      modifies `idFname, `fnameId, `freed
      ensures Tables() == ReplaceOne(before, id.text, name.text)
    {
      hide NoDangling;
      fnameId := Insert(fnameId, name, id);
      assert Tables() == Linked(before, id.text, name.text) && (safe ==> NoDangling(Tables()));
      freed := freed + if id.text in idFname then Objects(idFname[id.text]) else {};
      idFname := Replace(idFname, id, name);
      assert Tables() == ReplaceOne(before, id.text, name.text) && (safe ==> NoDangling(Tables()));
    }

    /** Drops the name that the folder has in the tables, if that name leads back to the folder. */
    method DropOldName(folderId: string) returns (was: Option<string>)
      requires HasIdOfName(Tables(), folderId)
      modifies `fnameId
      ensures Tables() == Unlink(old(Tables()), folderId)
      ensures was == if old(LeadsBack(Tables(), folderId)) then old(NameIn(Tables(), folderId)) else None
    {
      was := None;
      if folderId in idFname {
        var ofname := idFname[folderId].value.text;
        assert NameIn(Tables(), folderId) == Some(ofname);
        var ofid := fnameId[ofname].value.text;
        if ofid == folderId {
          fnameId := fnameId - {ofname};
          was := Some(ofname);
        }
      }
    }

    /** Collects the ids whose name has the prefix; the table is walked in an arbitrary order. */
    method MatchSubfolders(prefix: string) returns (ids: seq<string>)
      ensures Collects(Tables(), prefix, ids)
    {
      ids := [];
      var todo := fnameId.Keys;
      ghost var keys := [];
      while todo != {}
        invariant todo <= fnameId.Keys
        invariant Distinct(keys) && forall n :: n in keys <==> n in fnameId && n !in todo && prefix <= n
        invariant |ids| == |keys|
        invariant forall i :: 0 <= i < |ids| ==> IdIn(Tables(), keys[i]) == Some(ids[i])
        decreases todo
      {
        var k :| k in todo;
        if prefix <= k {
          ids := [fnameId[k].value.text] + ids;
          keys := [k] + keys;
        }
        todo := todo - {k};
      }
      assert CollectsFrom(Tables(), prefix, keys, ids);
    }

    /**
     Recomputes the entries of the folder and, with recurse, those of every folder the tables
     show below its old name.  A missing id or a folder without display name would be read unseen.
     */
    method MapSsHashReplace(folderId: string, recurse: bool)
      requires Acyclic(keyFile) && BuildFullName(keyFile, folderId).Some?
      requires HasIdOfName(Tables(), folderId)
      requires recurse ==> NamesLead(Tables()) && SubfoldersNamed(keyFile, Tables(), folderId)
      modifies `idFname, `fnameId, `freed, `next
      ensures !recurse ==> Tables() == ReplaceOne(old(Tables()), folderId, BuildFullName(keyFile, folderId).value)
      ensures recurse ==> exists order :: ReplacedLiveIff(keyFile, old(Tables()), folderId, order, Tables())
    {
      ghost var before := Tables();
      var was := ReplaceEntry(folderId);
      if recurse {
        var ids := [];
        if was.Some? {
          ids := MatchSubfolders(was.value + "/");
          CollectedArePatchable(keyFile, before, folderId, ids);
          PatchSubfolders(ids);
        }
        FullNameIsJoinedPath(keyFile, folderId);
        assert ReplacedSubtree(keyFile, before, folderId, ids, Tables());
        if Tidy(before) {
          LiveThroughoutIff(keyFile, before, folderId, ids);
        }
        assert ReplacedLiveIff(keyFile, before, folderId, ids, Tables());
      }
    }

    /** The loop over the matched subfolders. */
    method PatchSubfolders(ids: seq<string>)
      requires Acyclic(keyFile) && forall d :: d in ids ==> Named(keyFile, d)
      requires Patchable(Tables(), ids)
      modifies `idFname, `fnameId, `freed, `next
      ensures Tables() == PatchAll(keyFile, old(Tables()), ids)
      ensures forall i :: 0 <= i < |ids| ==> TidyPatchIsLiveIff(keyFile, old(Tables()), ids, i)
    {
      ghost var ia := Tables();
      forall i | 0 <= i < |ids| ensures TidyPatchIsLiveIff(keyFile, ia, ids, i) {
        if Tidy(PatchAll(keyFile, ia, ids[..i])) {
          PatchLiveIff(keyFile, ia, ids, i);
        }
      }
      var i := 0;
      while i < |ids|
        invariant 0 <= i <= |ids|
        invariant Tables() == PatchAll(keyFile, ia, ids[..i])
        invariant Patchable(Tables(), ids[i..])
      {
        assert ids[..i + 1][..i] == ids[..i] && ids[i..][1..] == ids[i + 1..] && ids[i] in ids;
        FullNameIsJoinedPath(keyFile, ids[i]);
        PatchKeepsPatchable(Tables(), ids[i..], BuildFullName(keyFile, ids[i]).value);
        var _ := ReplaceEntry(ids[i]);
        i := i + 1;
      }
      assert ids[..i] == ids;
    }

    // -------------------------------------------------------------- the public operations

    /** The original loops for ever on cyclic parents, so they are ruled out. */
    method Load() returns (ok: bool)
      requires WellFormed(Upgraded(ReadFile(keyFile, file))) && Acyclic(Upgraded(ReadFile(keyFile, file)))
      requires OwnsApart(Tables())
      modifies this
      ensures Step(old(State()), SummaryRuns.Load, State())
      ensures ok == old(file.Stored?)
      ensures old(!IsCurrent(ReadFile(keyFile, file))) ==> idFname == map[] && fnameId == map[]
      ensures old(!IsCurrent(ReadFile(keyFile, file))) ==>
                forall g, k :: GetString(keyFile, g, k) ==
                               if g == STORE_GROUP_NAME && k == Version then Some("1") else None
      ensures old(IsCurrent(ReadFile(keyFile, file))) ==> keyFile == old(ReadFile(keyFile, file)) && dirty == old(dirty)
    {
      ghost var s := State();
      ok := ReadKeyFile();
      LoadIdFnameHash();
      if !IsCurrent(ReadFile(s.keyFile, s.file)) {
        UpgradeDropsFolders(s, State());
      }
    }

    method ReadKeyFile() returns (ok: bool)
      modifies `keyFile, `dirty
      ensures keyFile == Edited(old(State()), SummaryRuns.Load)
      ensures dirty == DirtyAfter(old(State()), SummaryRuns.Load)
      ensures ok == file.Stored?
    {
      ok := file.Stored?;
      keyFile := ReadFile(keyFile, file);
      if !IsCurrent(keyFile) {
        ClearKeyFile();
        keyFile := SetString(keyFile, STORE_GROUP_NAME, Version, Decimal(CURRENT_SUMMARY_VERSION));
      }
    }

    /** written says whether the file system lets the new contents be written. */
    method Save(written: bool) returns (ok: bool)
      modifies `dirty, `file
      ensures Step(old(State()), SummaryRuns.Save(written), State())
      ensures ok <==> !old(dirty) || written
    {
      ok := true;
      if dirty {
        if written {
          file := Stored(keyFile);
        }
        ok := written;
        dirty := false;
      }
    }

    method ClearKeyFile()
      modifies `keyFile, `dirty
      ensures keyFile == EMPTY && dirty
    {
      keyFile := EMPTY;
      dirty := true;
    }

    method Clear()
      modifies `keyFile, `dirty
      ensures Step(old(State()), SummaryRuns.Clear, State())
    {
      ClearKeyFile();
    }

    method Remove(unlinked: bool) returns (ok: bool)
      modifies `keyFile, `dirty, `file
      ensures Step(old(State()), SummaryRuns.Remove(unlinked), State())
      ensures ok == unlinked && file == if unlinked then Absent else old(file)
    {
      ClearKeyFile();
      if unlinked {
        file := Absent;
      }
      ok := unlinked;
    }

    /** The file was deleted from outside: the monitor's callback clears the summary, whose file is gone. */
    method MonitorDelete()
      modifies `keyFile, `dirty, `file
      ensures Step(old(State()), SummaryRuns.Remove(true), State())
    {
      file := Absent;
      ClearKeyFile();
    }

    method RebuildHashes()
      requires Acyclic(keyFile) && WellFormed(keyFile) && OwnsApart(Tables())
      modifies `idFname, `fnameId, `freed, `next
      ensures Step(old(State()), Rebuild, State())
    {
      LoadIdFnameHash();
    }

    method SetFolderName(folderId: string, displayName: string)
      requires CanCall(State(), SummaryRuns.SetFolderName(folderId, displayName))
      modifies this
      ensures Edits(old(State()), SummaryRuns.SetFolderName(folderId, displayName), State())
    {
      keyFile := SetString(keyFile, folderId, DisplayName, displayName);
      ReindexFolder(folderId, true, old(State()), SummaryRuns.SetFolderName(folderId, displayName));
    }

    method SetParentFolderId(folderId: string, parentId: Option<string>)
      requires CanCall(State(), SummaryRuns.SetParentFolderId(folderId, parentId))
      modifies this
      ensures Edits(old(State()), SummaryRuns.SetParentFolderId(folderId, parentId), State())
    {
      if parentId.Some? {
        keyFile := SetString(keyFile, folderId, ParentFolderId, parentId.value);
      } else {
        keyFile := RemoveKey(keyFile, folderId, ParentFolderId);
      }
      ReindexFolder(folderId, true, old(State()), SummaryRuns.SetParentFolderId(folderId, parentId));
    }

    method NewFolder(folderId: string, parentId: Option<string>, changeKey: Option<string>, displayName: string,
                     flags: nat, total: nat)
      requires CanCall(State(), SummaryRuns.NewFolder(folderId, parentId, changeKey, displayName, flags, total))
      modifies this
      ensures Edits(old(State()), SummaryRuns.NewFolder(folderId, parentId, changeKey, displayName, flags, total),
                    State())
    {
      StoreNewFolder(folderId, parentId, changeKey, displayName, flags, total);
      ReindexFolder(folderId, false, old(State()),
                    SummaryRuns.NewFolder(folderId, parentId, changeKey, displayName, flags, total));
    }

    /** What a rename, a move and a new folder have in common once the key file is edited. */
    method ReindexFolder(folderId: string, recurse: bool, ghost s: Summary, ghost op: Op)
      requires CanCall(s, op) && op.id == folderId && recurse == !op.NewFolder?
      requires State() == s.(keyFile := Edited(s, op))
      modifies this
      ensures Edits(s, op, State())
    {
      CallIsProper(s, op);
      MapSsHashReplace(folderId, recurse);
      dirty := true;
      EditIsComplete(s, op, State());
    }

    method StoreNewFolder(folderId: string, parentId: Option<string>, changeKey: Option<string>, displayName: string,
                          flags: nat, total: nat)
      modifies `keyFile
      ensures keyFile ==
              Edited(old(State()), SummaryRuns.NewFolder(folderId, parentId, changeKey, displayName, flags, total))
    {
      if parentId.Some? {
        keyFile := SetString(keyFile, folderId, ParentFolderId, parentId.value);
      }
      if changeKey.Some? {
        keyFile := SetString(keyFile, folderId, ChangeKey, changeKey.value);
      }
      keyFile := SetString(keyFile, folderId, DisplayName, displayName);
      keyFile := SetString(keyFile, folderId, Flags, Decimal(flags));
      keyFile := SetString(keyFile, folderId, Total, Decimal(total));
    }

    /** Fails when the folder is not indexed, or when it is but the key file has no such group. */
    method RemoveFolder(folderId: string) returns (ok: bool)
      modifies this
      ensures Step(old(State()), SummaryRuns.RemoveFolder(folderId), State())
      ensures ok == old(folderId in idFname && folderId in keyFile.groups)
      ensures old(WellFormed(keyFile)) && ok ==> folderId !in keyFile.order && folderId !in keyFile.groups
      ensures old(WellFormed(keyFile)) && ok ==>
                ListFolders(Tables(), keyFile.order, None) ==
                KeyFiles.Without(old(ListFolders(Tables(), keyFile.order, None)), folderId)
      ensures old(Sound(Tables())) ==> NoDangling(Tables())
      ensures old(InStep(State())) ==>
                (InStep(State()) <==> (old(folderId in idFname) ==> !IsParentId(old(keyFile), folderId)))
    {
      ghost var s := State();
      ok := false;
      RemovalIsSafe(s, folderId);
      if folderId in idFname {
        var fullName := idFname[folderId].value.text;
        ok := folderId in keyFile.groups;
        keyFile := RemoveGroup(keyFile, folderId);
        fnameId := fnameId - {fullName};
        assert Sound(s.index) ==> NoDangling(Tables());
        freed := freed + Objects(idFname[folderId]);
        idFname := idFname - {folderId};
        dirty := true;
      }
      if WellFormed(s.keyFile) && ok {
        RemovedIsUnlisted(s, SummaryRuns.RemoveFolder(folderId), State());
      }
      if InStep(s) {
        RemoveInStepIff(s, SummaryRuns.RemoveFolder(folderId), State());
      }
    }

    /** The setters of a folder's change key, sync state, flags and counts, and of store-wide values. */
    method SetValue(group: string, key: Key, value: string)
      requires SetsNoName(SummaryRuns.SetValue(group, key, value)) || group == STORE_GROUP_NAME
      modifies `keyFile, `dirty
      ensures Step(old(State()), SummaryRuns.SetValue(group, key, value), State())
      ensures old(InStep(State())) && SetsNoName(SummaryRuns.SetValue(group, key, value)) ==> InStep(State())
    {
      ghost var s, op := State(), SummaryRuns.SetValue(group, key, value);
      keyFile := SetString(keyFile, group, key, value);
      dirty := true;
      if InStep(s) && SetsNoName(op) {
        ValueInStep(s, op, State());
      }
    }
  }

  // ---------------------------------------------------------------- facts used above

  /** The cached names of the listed folders differ and each leads to some id. */
  ghost predicate Patchable(ix: Index, ids: seq<string>) {
    && (forall i :: 0 <= i < |ids| ==> NameIn(ix, ids[i]).Some? && HasIdOfName(ix, ids[i]))
    && (forall i, j :: 0 <= i < j < |ids| ==> ids[i] != ids[j] && NameIn(ix, ids[i]) != NameIn(ix, ids[j]))
  }

  /** A patch drops at most the old name of its own folder. */
  lemma PatchKeepsPatchable(ix: Index, ids: seq<string>, name: string)
    requires ids != [] && Patchable(ix, ids)
    ensures Patchable(ReplaceOne(ix, ids[0], name), ids[1..])
  {
    var iy := ReplaceOne(ix, ids[0], name);
    forall i | 0 < i < |ids| ensures NameIn(iy, ids[i]) == NameIn(ix, ids[i]) && HasIdOfName(iy, ids[i]) {
    }
  }

  /** Where names lead to folders cached under them, the collected folders can all be patched. */
  lemma CollectedArePatchable(kf: KeyFile, ix: Index, a: string, ids: seq<string>)
    requires Acyclic(kf) && BuildFullName(kf, a).Some?
    requires NamesLead(ix) && LeadsBack(ix, a) && SubfoldersNamed(kf, ix, a)
    requires Collects(ReplaceOne(ix, a, BuildFullName(kf, a).value), NameIn(ix, a).value + "/", ids)
    ensures forall d :: d in ids ==> Named(kf, d)
    ensures Patchable(ReplaceOne(ix, a, BuildFullName(kf, a).value), ids)
  {
    var ia, prefix := ReplaceOne(ix, a, BuildFullName(kf, a).value), NameIn(ix, a).value + "/";
    NamesStillLead(ix, a, BuildFullName(kf, a).value);
    FullNameIsJoinedPath(kf, a);
    var keys :| CollectsFrom(ia, prefix, keys, ids);
    forall i | 0 <= i < |ids|
      ensures Named(kf, ids[i]) && NameIn(ia, ids[i]) == Some(keys[i]) && HasIdOfName(ia, ids[i])
    {
      assert keys[i] in keys && IdIn(ia, keys[i]) == Some(ids[i]);
      assert ids[i] != a ==> IdIn(ix, keys[i]) == Some(ids[i]);
    }
  }

  /**
   What a caller can check before the call and the original needs: building names ends, each name
   compared has an entry, and only folders with a display name are reindexed.
   */
  ghost predicate CanCall(s: Summary, op: Op) {
    && EditsFolder(op) && Acyclic(s.keyFile)
    && (op.SetParentFolderId? ==> Named(s.keyFile, op.id))
    && (ParentAfter(s.keyFile, op).Some? ==> !Reaches(s.keyFile, ParentAfter(s.keyFile, op).value, op.id))
    && HasIdOfName(s.index, op.id)
    && (!op.NewFolder? ==> NamesLead(s.index) && SubfoldersNamed(s.keyFile, s.index, op.id))
  }

  /** In step with the key file there is nothing to check but the parent and the display name. */
  lemma InStepCanCall(s: Summary, op: Op)
    requires CanEdit(s, op)
    ensures CanCall(s, op)
  {
    SoundIsTidy(s.index);
    CoherentLeadsBack(s.keyFile, s.index, op.id);
    forall n | n in s.index.names ensures Named(s.keyFile, s.index.names[n].value.text) {
      assert IdIn(s.index, n) == Some(s.index.names[n].value.text);
      CoherentLeadsBack(s.keyFile, s.index, s.index.names[n].value.text);
    }
  }

  lemma CallIsProper(s: Summary, op: Op)
    requires CanCall(s, op)
    ensures Acyclic(Edited(s, op)) && BuildFullName(Edited(s, op), op.id) == Some(NewFullName(s.keyFile, op))
    ensures !op.NewFolder? ==> SubfoldersNamed(Edited(s, op), s.index, op.id)
  {
    EditAgrees(s, op);
    var kf := Edited(s, op);
    hide Edited;
    ChangeIsAcyclic(s.keyFile, kf, op.id);
    ChangedFullName(s.keyFile, kf, op.id);
    forall d | Named(s.keyFile, d) ensures Named(kf, d) {
      assert d != op.id ==> NameOf(kf, d) == NameOf(s.keyFile, d);
    }
  }

  /**
   The subtree is replaced.  From tidy tables no freed string is in reach after any step exactly
   when each replacement is safe where it happens.
   */
  ghost predicate ReplacedLiveIff(kf: KeyFile, ix: Index, a: string, order: seq<string>, iy: Index)
    requires Acyclic(kf)
  {
    && ReplacedSubtree(kf, ix, a, order, iy)
    && (Tidy(ix) ==> (LiveThroughout(kf, ix, a, order) <==> SafeThroughout(kf, ix, a, order)))
  }

  ghost predicate TidyPatchIsLiveIff(kf: KeyFile, ia: Index, ids: seq<string>, i: nat)
    requires Acyclic(kf) && i < |ids| && forall d :: d in ids ==> Named(kf, d)
  {
    Tidy(PatchAll(kf, ia, ids[..i])) ==> (PatchLive(kf, ia, ids, i) <==> PatchSafe(kf, ia, ids, i))
  }

  /** In step with the key file before the edit, a free new name keeps freed strings out of reach. */
  lemma FreeNameIsLive(kf0: KeyFile, kf: KeyFile, ix: Index, a: string, order: seq<string>, iy: Index)
    requires ProperTree(kf0) && ProperTree(kf) && AgreeExceptAt(kf0, kf, a) && Coherent(kf0, ix)
    requires ReplacedSubtree(kf, ix, a, order, iy) && FreeFor(ix, BuildFullName(kf, a).value, a)
    ensures LiveThroughout(kf, ix, a, order)
  {
    ReplaceStepsHaveNoDangling(ix, a, BuildFullName(kf, a).value);
    CoherentLeadsBack(kf0, ix, a);
    if Named(kf0, a) {
      CoherentNamesAreDistinct(kf0, ix);
      EditKeepsDistinct(kf0, kf, a);
      LookupTellsFree(kf0, ix, BuildFullName(kf, a).value, a);
      RenameHasNoDangling(kf0, kf, ix, a, order, iy);
    }
  }

  /**
   The edit takes its step, and the freed strings are accounted for.  From a state in step it ends
   in step exactly under the foretold condition, with no freed string in reach on the way if the
   new name is free; entering a single folder never leaves any.
   */
  ghost predicate Edits(s: Summary, op: Op, s': Summary)
    requires CanCall(s, op)
  {
    && Step(s, op, s')
    && (!op.NewFolder? ==> exists order :: ReplacedLiveIff(s'.keyFile, s.index, op.id, order, s'.index))
    && (op.NewFolder? && Tidy(s.index) ==>
          (StepsLive(s.index, op.id, NewFullName(s.keyFile, op)) <==> SafeReplace(s.index, op.id)))
    && (CanEdit(s, op) ==>
          && (InStep(s') <==> StaysInStep(s, op))
          && StepsLive(s.index, op.id, NewFullName(s.keyFile, op))
          && (!op.NewFolder? && FreeFor(s.index, NewFullName(s.keyFile, op), op.id) ==>
                forall order :: ReplacedSubtree(s'.keyFile, s.index, op.id, order, s'.index) ==>
                  LiveThroughout(s'.keyFile, s.index, op.id, order)))
  }

  lemma EditIsComplete(s: Summary, op: Op, s': Summary)
    requires CanCall(s, op) && Step(s, op, s')
    requires !op.NewFolder? ==> exists order :: ReplacedLiveIff(s'.keyFile, s.index, op.id, order, s'.index)
    ensures Edits(s, op, s')
  {
    CallIsProper(s, op);
    if op.NewFolder? && Tidy(s.index) {
      StepsLiveIff(s.index, op.id, NewFullName(s.keyFile, op));
    }
    if CanEdit(s, op) {
      EditIsProper(s, op);
      EditAgrees(s, op);
      EditInStepIff(s, op, s');
      ReplaceStepsHaveNoDangling(s.index, op.id, NewFullName(s.keyFile, op));
      hide Edited, DirtyAfter, FileAfter;
      forall order | ReplacedSubtree(s'.keyFile, s.index, op.id, order, s'.index) &&
                     FreeFor(s.index, NewFullName(s.keyFile, op), op.id)
        ensures LiveThroughout(s'.keyFile, s.index, op.id, order)
      {
        FreeNameIsLive(s.keyFile, s'.keyFile, s.index, op.id, order, s'.index);
      }
    }
  }

  lemma RemovalIsSafe(s: Summary, id: string)
    ensures Sound(s.index) ==> NoDangling(s.index)
    ensures Sound(s.index) && id in s.index.ids ==>
              NoDangling(RemoveEntry(s.index, id)) && NoDangling(s.index.(names := RemoveEntry(s.index, id).names))
  {
    if Sound(s.index) {
      SoundHasNoDangling(s.index);
      if id in s.index.ids {
        RemoveEntryIsSound(s.index, id);
      }
    }
  }
}
