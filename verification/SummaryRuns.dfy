/**
 The store summary as a state machine over its public operations, and what holds over every
 run: the tables agree with the key file, and the file on disk agrees with it unless dirty.
 */
module SummaryRuns {
  import opened Options
  import opened KeyFiles
  import opened Paths
  import opened FolderTree
  import opened SummaryIndex
  import opened SummaryChanges

  /** The file at the summary's path: missing, readable, or readable only in part. */
  datatype FileState = Absent | Stored(kf: KeyFile) | Damaged(parsed: KeyFile)

  datatype Summary = Summary(keyFile: KeyFile, dirty: bool, index: Index, file: FileState)

  datatype Op =
    | Load
    | Save(written: bool)
    | Clear
    | Remove(unlinked: bool)
    | Rebuild
    | SetFolderName(id: string, name: string)
    | SetParentFolderId(id: string, parent: Option<string>)
    | NewFolder(id: string, parent: Option<string>, changeKey: Option<string>, name: string, flags: nat, total: nat)
    | RemoveFolder(id: string)
    | SetValue(group: string, key: Key, value: string)

  const NEW_SUMMARY := Summary(EMPTY, false, Index(map[], map[], {}, 0), Absent)

  // ---------------------------------------------------------------- one operation

  /** A missing file leaves the key file as it was, a damaged one leaves what was parsed. */
  function ReadFile(kf: KeyFile, file: FileState): KeyFile {
    match file
    case Absent => kf
    case Stored(k) => k
    case Damaged(k) => k
  }

  /** A key file of another version is dropped and the current version noted. */
  function Upgraded(kf: KeyFile): KeyFile {
    if IsCurrent(kf) then kf
    else SetString(EMPTY, STORE_GROUP_NAME, Version, Decimal(CURRENT_SUMMARY_VERSION))
  }

  function SetOptional(kf: KeyFile, g: string, k: Key, v: Option<string>): KeyFile {
    if v.Some? then SetString(kf, g, k, v.value) else kf
  }

  /** The key file after an operation that edits it. */
  function Edited(s: Summary, op: Op): KeyFile {
    match op
    case Load => Upgraded(ReadFile(s.keyFile, s.file))
    case Clear => EMPTY
    case Remove(_) => EMPTY
    case SetFolderName(id, name) => SetString(s.keyFile, id, DisplayName, name)
    case SetParentFolderId(id, parent) =>
      if parent.Some? then SetString(s.keyFile, id, ParentFolderId, parent.value)
      else RemoveKey(s.keyFile, id, ParentFolderId)
    case NewFolder(id, parent, changeKey, name, flags, total) =>
      var kf := SetOptional(SetOptional(s.keyFile, id, ParentFolderId, parent), id, ChangeKey, changeKey);
      SetString(SetString(SetString(kf, id, DisplayName, name), id, Flags, Decimal(flags)), id, Total, Decimal(total))
    case RemoveFolder(id) => if id in s.index.ids then RemoveGroup(s.keyFile, id) else s.keyFile
    case SetValue(g, k, v) => SetString(s.keyFile, g, k, v)
    case _ => s.keyFile
  }

  function DirtyAfter(s: Summary, op: Op): bool {
    match op
    case Load => s.dirty || !IsCurrent(ReadFile(s.keyFile, s.file))
    case Save(_) => false
    case Rebuild => s.dirty
    case RemoveFolder(id) => s.dirty || id in s.index.ids
    case _ => true
  }

  function FileAfter(s: Summary, op: Op): FileState {
    match op
    case Save(written) => if s.dirty && written then Stored(s.keyFile) else s.file
    case Remove(unlinked) => if unlinked then Absent else s.file
    case _ => s.file
  }

  /** The operations that build full names, which never returns on cyclic parents. */
  predicate BuildsNames(op: Op) {
    op.Load? || op.Rebuild? || op.SetFolderName? || op.SetParentFolderId? || op.NewFolder?
  }

  /** The tables after the operation; the order of the patched subfolders is left open. */
  ghost predicate IndexStep(s: Summary, op: Op, kf: KeyFile, iy: Index)
    requires BuildsNames(op) ==> Acyclic(kf)
  {
    match op
    case Load => iy == Rebuilt(kf, s.index)
    case Rebuild => iy == Rebuilt(kf, s.index)
    case SetFolderName(id, _) => exists order :: ReplacedSubtree(kf, s.index, id, order, iy)
    case SetParentFolderId(id, _) => exists order :: ReplacedSubtree(kf, s.index, id, order, iy)
    case NewFolder(id, _, _, _, _, _) =>
      BuildFullName(kf, id).Some? && iy == ReplaceOne(s.index, id, BuildFullName(kf, id).value)
    case RemoveFolder(id) => iy == if id in s.index.ids then RemoveEntry(s.index, id) else s.index
    case _ => iy == s.index
  }

  ghost predicate Step(s: Summary, op: Op, s': Summary) {
    && s'.keyFile == Edited(s, op)
    && s'.dirty == DirtyAfter(s, op)
    && s'.file == FileAfter(s, op)
    && (BuildsNames(op) ==> Acyclic(s'.keyFile))
    && IndexStep(s, op, s'.keyFile, s'.index)
  }

  // ---------------------------------------------------------------- coherence over runs

  /** The tree is proper, full names are distinct, and the tables agree with them. */
  ghost predicate InStep(s: Summary) {
    ProperTree(s.keyFile) && DistinctNames(s.keyFile) && Coherent(s.keyFile, s.index)
  }

  /** Clearing drops the key file but not the tables; a load or rebuild brings them together again. */
  function UsableAfter(op: Op, usable: bool): bool {
    match op
    case Clear => false
    case Remove(_) => false
    case Load => true
    case Rebuild => true
    case _ => usable
  }

  ghost predicate Invariant(s: Summary, usable: bool) {
    && WellFormed(s.keyFile)
    && OwnsApart(s.index) && NoDangling(s.index)
    && (s.file.Stored? ==> WellFormed(s.file.kf))
    && (s.file.Damaged? ==> WellFormed(s.file.parsed))
    && (usable ==> InStep(s))
  }

  // ---------------------------------------------------------------- editing one folder

  predicate EditsFolder(op: Op) {
    op.SetFolderName? || op.SetParentFolderId? || op.NewFolder?
  }

  /** The folder's parent id and display name once the key file is edited. */
  function ParentAfter(kf: KeyFile, op: Op): Option<string>
    requires EditsFolder(op)
  {
    if op.SetParentFolderId? || (op.NewFolder? && op.parent.Some?) then op.parent else ParentOf(kf, op.id)
  }

  function NameAfter(kf: KeyFile, op: Op): string
    requires EditsFolder(op) && (op.SetParentFolderId? ==> Named(kf, op.id))
  {
    if op.SetParentFolderId? then NameOf(kf, op.id).value else op.name
  }

  /**
   What a caller can check before the call: the new parent does not lie below the folder, the
   name has no slash, and only a folder with a name is moved.
   */
  ghost predicate CanEdit(s: Summary, op: Op) {
    && EditsFolder(op) && InStep(s)
    && (op.SetParentFolderId? ==> Named(s.keyFile, op.id))
    && (ParentAfter(s.keyFile, op).Some? ==> !Reaches(s.keyFile, ParentAfter(s.keyFile, op).value, op.id))
    && SlashFree(NameAfter(s.keyFile, op)) && !IsStoreGroup(op.id)
  }

  /** The full name the folder will have. */
  function NewFullName(kf: KeyFile, op: Op): string
    requires Acyclic(kf) && EditsFolder(op) && (op.SetParentFolderId? ==> Named(kf, op.id))
  {
    NameUnder(kf, ParentAfter(kf, op), NameAfter(kf, op))
  }

  /** The tables patch the folders below this one: it was renamed or moved and had a name before. */
  predicate PatchesSubtree(kf: KeyFile, op: Op)
    requires EditsFolder(op)
  {
    !op.NewFolder? && Named(kf, op.id)
  }

  /**
   The tables will agree with the key file: the new full name is not entered for another folder,
   and where no subfolders are patched there are none or the full name stays what it was.
   */
  ghost predicate StaysInStep(s: Summary, op: Op)
    requires Acyclic(s.keyFile) && EditsFolder(op) && (op.SetParentFolderId? ==> Named(s.keyFile, op.id))
  {
    var name := NewFullName(s.keyFile, op);
    && FreeFor(s.index, name, op.id)
    && (PatchesSubtree(s.keyFile, op) || !IsParentId(s.keyFile, op.id) || Bears(s.keyFile, op.id, name))
  }

  lemma EditAgrees(s: Summary, op: Op)
    requires EditsFolder(op) && (op.SetParentFolderId? ==> Named(s.keyFile, op.id))
    ensures var kf := Edited(s, op);
            && AgreeExceptAt(s.keyFile, kf, op.id) && Named(kf, op.id)
            && ParentOf(kf, op.id) == ParentAfter(s.keyFile, op)
            && NameOf(kf, op.id) == Some(NameAfter(s.keyFile, op))
  {
    hide SetString, RemoveKey, WellFormed;
  }

  /** Such an edit closes no cycle and gives the folder the full name foretold. */
  lemma EditIsProper(s: Summary, op: Op)
    requires CanEdit(s, op)
    ensures ProperTree(Edited(s, op))
    ensures BuildFullName(Edited(s, op), op.id) == Some(NewFullName(s.keyFile, op))
  {
    EditAgrees(s, op);
    ChangeIsAcyclic(s.keyFile, Edited(s, op), op.id);
    ChangedFullName(s.keyFile, Edited(s, op), op.id);
  }

  /** After a rename, a move or a new folder the summary is in step exactly under that condition. */
  lemma EditInStepIff(s: Summary, op: Op, s': Summary)
    requires CanEdit(s, op) && Step(s, op, s')
    ensures InStep(s') <==> StaysInStep(s, op)
  {
    EditAgrees(s, op);
    EditIsProper(s, op);
    if InStep(s') || Coherent(s'.keyFile, s'.index) {
      CoherentNamesAreDistinct(s'.keyFile, s'.index);
    }
    if op.NewFolder? {
      NewFolderCoherence(s.keyFile, s'.keyFile, s.index, op.id);
    } else {
      SetterCoherence(s, op, s');
    }
  }

  lemma SetterCoherence(s: Summary, op: Op, s': Summary)
    requires CanEdit(s, op) && Step(s, op, s') && !op.NewFolder?
    requires ProperTree(s'.keyFile) && BuildFullName(s'.keyFile, op.id) == Some(NewFullName(s.keyFile, op))
    ensures Coherent(s'.keyFile, s'.index) <==> StaysInStep(s, op)
  {
    EditAgrees(s, op);
    CoherentLeadsBack(s.keyFile, s.index, op.id);
    FullNameIsJoinedPath(s.keyFile, op.id);
    var order :| ReplacedSubtree(s'.keyFile, s.index, op.id, order, s'.index);
    hide InStep, Coherent, Edited, DirtyAfter, FileAfter;
    if Named(s.keyFile, op.id) {
      RenameCoherence(s.keyFile, s'.keyFile, s.index, op.id, order, s'.index);
    } else {
      NewFolderCoherence(s.keyFile, s'.keyFile, s.index, op.id);
    }
  }

  // ---------------------------------------------------------------- what every step keeps

  /** A value is set that is no folder's name or parent; the store-wide group is no folder. */
  predicate SetsNoName(op: Op)
    requires op.SetValue?
  {
    op.key != DisplayName && (op.key != ParentFolderId || op.group == STORE_GROUP_NAME)
  }

  /** What the callers of an operation keep to. */
  ghost predicate Allowed(s: Summary, op: Op, usable: bool) {
    match op
    case SetFolderName(_, _) => usable && CanEdit(s, op) && StaysInStep(s, op)
    case SetParentFolderId(_, _) => usable && CanEdit(s, op) && StaysInStep(s, op)
    case NewFolder(_, _, _, _, _, _) => usable && CanEdit(s, op) && StaysInStep(s, op)
    case RemoveFolder(id) => usable && (id in s.index.ids ==> !IsParentId(s.keyFile, id))
    case SetValue(_, _, _) => SetsNoName(op)
    case Load => ProperTree(Edited(s, op)) && DistinctNames(Edited(s, op))
    case Rebuild => ProperTree(s.keyFile) && DistinctNames(s.keyFile)
    case _ => true
  }

  lemma EditKeepsWellFormed(s: Summary, op: Op)
    requires WellFormed(s.keyFile)
    requires s.file.Stored? ==> WellFormed(s.file.kf)
    requires s.file.Damaged? ==> WellFormed(s.file.parsed)
    ensures WellFormed(Edited(s, op))
  {
  }

  lemma EditKeepsObjects(s: Summary, op: Op, s': Summary)
    requires CanEdit(s, op) && StaysInStep(s, op) && Step(s, op, s')
    ensures InStep(s') && OwnsApart(s'.index) && NoDangling(s'.index)
  {
    EditInStepIff(s, op, s');
    SoundHasNoDangling(s'.index);
  }

  /** Removing a listed folder keeps step exactly when no other folder has it as parent id. */
  lemma RemoveInStepIff(s: Summary, op: Op, s': Summary)
    requires op.RemoveFolder? && InStep(s) && Step(s, op, s')
    ensures InStep(s') <==> (op.id in s.index.ids ==> !IsParentId(s.keyFile, op.id))
    ensures OwnsApart(s'.index) && NoDangling(s'.index)
  {
    SoundHasNoDangling(s.index);
    if op.id in s.index.ids {
      UnnamedIsAcyclic(s.keyFile, s'.keyFile, op.id);
      assert NameIn(s.index, op.id) == BuildFullName(s.keyFile, op.id);
      RemoveFolderCoherence(s.keyFile, s'.keyFile, s.index, op.id);
      RemoveEntryIsSound(s.index, op.id);
      if Coherent(s'.keyFile, s'.index) {
        CoherentNamesAreDistinct(s'.keyFile, s'.index);
      }
    }
  }

  lemma StoreGroupIsNoFolder()
    ensures IsStoreGroup(STORE_GROUP_NAME)
  {
    assert AsciiLower(STORE_GROUP_NAME) == STORE_GROUP_NAME;
  }

  /** Setting another value keeps the summary in step. */
  lemma ValueInStep(s: Summary, op: Op, s': Summary)
    requires op.SetValue? && SetsNoName(op) && InStep(s) && Step(s, op, s')
    ensures InStep(s')
  {
    StoreGroupIsNoFolder();
    var a := STORE_GROUP_NAME;
    assert AgreeExceptAt(s.keyFile, s'.keyFile, a) && !Named(s.keyFile, a) && !Named(s'.keyFile, a);
    UnnamedIsAcyclic(s.keyFile, s'.keyFile, a);
    forall id ensures BuildFullName(s'.keyFile, id) == BuildFullName(s.keyFile, id) {
      SameNameKeepsOthers(s.keyFile, s'.keyFile, a, id);
    }
    forall i, j | Named(s'.keyFile, i) && SameFullName(s'.keyFile, i, j) ensures i == j {
      var same := SameFullName(s.keyFile, i, j);
    }
  }

  lemma RebuildKeepsStep(s: Summary, op: Op, s': Summary)
    requires op.Load? || op.Rebuild?
    requires WellFormed(s'.keyFile) && OwnsApart(s.index)
    requires Step(s, op, s') && Allowed(s, op, true)
    ensures InStep(s')
  {
    RebuildIsCoherentIffDistinct(s'.keyFile, s.index);
  }

  lemma StepKeepsInvariant(s: Summary, op: Op, s': Summary, usable: bool)
    requires Invariant(s, usable) && Step(s, op, s') && Allowed(s, op, usable)
    ensures Invariant(s', UsableAfter(op, usable))
  {
    EditKeepsWellFormed(s, op);
    match op {
      case Load =>
        RebuildKeepsStep(s, op, s');
      case Rebuild =>
        RebuildKeepsStep(s, op, s');
      case SetFolderName(_, _) =>
        EditKeepsObjects(s, op, s');
      case SetParentFolderId(_, _) =>
        EditKeepsObjects(s, op, s');
      case NewFolder(_, _, _, _, _, _) =>
        EditKeepsObjects(s, op, s');
      case RemoveFolder(_) =>
        RemoveInStepIff(s, op, s');
      case SetValue(_, _, _) =>
        if usable { ValueInStep(s, op, s'); }
      case _ =>
    }
    if UsableAfter(op, usable) {
      SoundHasNoDangling(s'.index);
    }
  }

  function UsableAt(ops: seq<Op>): bool {
    if ops == [] then true else UsableAfter(ops[|ops| - 1], UsableAt(ops[..|ops| - 1]))
  }

  /** A run: states[i + 1] is reached from states[i] by an allowed ops[i]. */
  ghost predicate Run(states: seq<Summary>, ops: seq<Op>) {
    && |states| == |ops| + 1
    && forall i :: 0 <= i < |ops| ==>
      && Step(states[i], ops[i], states[i + 1])
      && Allowed(states[i], ops[i], UsableAt(ops[..i]))
  }

  lemma RunPrefix(states: seq<Summary>, ops: seq<Op>, n: nat)
    requires Run(states, ops) && n <= |ops|
    ensures Run(states[..n + 1], ops[..n])
  {
    forall i | 0 <= i < n
      ensures Step(states[i], ops[i], states[i + 1])
      ensures Allowed(states[i], ops[i], UsableAt(ops[..n][..i]))
    {
      assert ops[..n][..i] == ops[..i];
    }
  }

  lemma {:induction false} RunKeepsInvariant(states: seq<Summary>, ops: seq<Op>)
    requires Run(states, ops) && Invariant(states[0], true)
    ensures Invariant(states[|ops|], UsableAt(ops))
  {
    if ops != [] {
      var n := |ops| - 1;
      RunPrefix(states, ops, n);
      RunKeepsInvariant(states[..n + 1], ops[..n]);
      StepKeepsInvariant(states[n], ops[n], states[n + 1], UsableAt(ops[..n]));
    }
  }

  lemma NewSummaryIsInStep(file: FileState)
    requires file.Stored? ==> WellFormed(file.kf)
    requires file.Damaged? ==> WellFormed(file.parsed)
    ensures Invariant(NEW_SUMMARY.(file := file), true)
  {
    var rank: string -> nat := id => 0;
    assert Ranked(EMPTY, rank);
  }

  /**
   At every point of every run from a new summary, unless it was cleared since the last load
   or rebuild: every folder is cached under its recomputed full name, the two tables are
   mutually inverse, and no table holds a freed string.
   */
  lemma RunsStayCoherent(states: seq<Summary>, ops: seq<Op>, i: nat)
    requires Run(states, ops) && i <= |ops|
    requires states[0] == NEW_SUMMARY.(file := states[0].file)
    requires states[0].file.Stored? ==> WellFormed(states[0].file.kf)
    requires states[0].file.Damaged? ==> WellFormed(states[0].file.parsed)
    requires UsableAt(ops[..i])
    ensures var s := states[i];
      && Acyclic(s.keyFile)
      && NoDangling(s.index)
      && (forall id :: NameIn(s.index, id) == BuildFullName(s.keyFile, id))
      && (forall id, name :: NameIn(s.index, id) == Some(name) <==> IdIn(s.index, name) == Some(id))
  {
    NewSummaryIsInStep(states[0].file);
    RunPrefix(states, ops, i);
    RunKeepsInvariant(states[..i + 1], ops[..i]);
    forall id, name ensures NameIn(states[i].index, id) == Some(name) <==> IdIn(states[i].index, name) == Some(id) {
      SoundTablesAreInverse(states[i].index, id, name);
    }
  }

  // ---------------------------------------------------------------- persistence

  /** Unless the summary is dirty, the file holds exactly the key file. */
  predicate Persisted(s: Summary) {
    !s.dirty ==> s.file == Stored(s.keyFile)
  }

  /** The one way a load leaves a clean summary that differs from its file. */
  predicate LoadSeesFile(s: Summary) {
    s.dirty || s.file.Stored? || !IsCurrent(ReadFile(s.keyFile, s.file))
  }

  lemma LoadIsPersistedIff(s: Summary, s': Summary)
    requires Step(s, Load, s')
    ensures Persisted(s') <==> LoadSeesFile(s)
  {
  }

  /** Saving clears the dirty mark even when the write fails. */
  lemma SaveIsPersistedIff(s: Summary, written: bool, s': Summary)
    requires Persisted(s) && Step(s, Save(written), s')
    ensures Persisted(s') <==> !s.dirty || written || s.file == Stored(s.keyFile)
  {
  }

  /** A value set in a new summary is lost when the write fails: clean, but not in the file. */
  lemma FailedSaveLosesChange(group: string, key: Key, value: string)
    ensures var s1 := NEW_SUMMARY.(keyFile := SetString(EMPTY, group, key, value), dirty := true);
            var s2 := s1.(dirty := false);
            && Step(NEW_SUMMARY, SetValue(group, key, value), s1)
            && Step(s1, Save(false), s2)
            && Persisted(s1) && !Persisted(s2)
  {
  }

  /** A failed write of new contents, or a load that finds no file. */
  predicate Loses(s: Summary, op: Op) {
    || (op == Save(false) && s.dirty && s.file != Stored(s.keyFile))
    || (op.Load? && !LoadSeesFile(s))
  }

  /** The summary becomes dirty, is written or is read. */
  predicate Mends(s: Summary, op: Op) {
    DirtyAfter(s, op) || (op == Save(true) && s.dirty) || (op.Load? && LoadSeesFile(s))
  }

  /** Operation i loses changes and no later one mends that. */
  ghost predicate Lapse(states: seq<Summary>, ops: seq<Op>, i: nat)
    requires |states| == |ops| + 1 && i < |ops|
  {
    Loses(states[i], ops[i]) && forall j :: i < j < |ops| ==> !Mends(states[j], ops[j])
  }

  lemma StepIsPersistedIff(s: Summary, op: Op, s': Summary)
    requires Step(s, op, s')
    ensures Persisted(s') <==> Mends(s, op) || (Persisted(s) && !Loses(s, op))
    ensures !(Mends(s, op) && Loses(s, op))
  {
  }

  /**
   In every run, a clean summary equals its file at the end exactly when it did at the start or
   some operation mended it, and there was no lapse since.
   */
  lemma {:induction false} RunsPersistedIff(states: seq<Summary>, ops: seq<Op>)
    requires |states| == |ops| + 1
    requires forall i :: 0 <= i < |ops| ==> Step(states[i], ops[i], states[i + 1])
    ensures Persisted(states[|ops|]) <==>
            (Persisted(states[0]) || exists i :: 0 <= i < |ops| && Mends(states[i], ops[i])) &&
            !exists i :: 0 <= i < |ops| && Lapse(states, ops, i)
  {
    if ops != [] {
      var n := |ops| - 1;
      var front, done := states[..n + 1], ops[..n];
      RunsPersistedIff(front, done);
      assert Step(states[n], ops[n], states[n + 1]);
      StepIsPersistedIff(states[n], ops[n], states[n + 1]);
      forall i | 0 <= i < n
        ensures Mends(states[i], ops[i]) == Mends(front[i], done[i])
        ensures Lapse(states, ops, i) <==> Lapse(front, done, i) && !Mends(states[n], ops[n])
      {
        LapseGrows(states, ops, i);
      }
      assert Lapse(states, ops, n) <==> Loses(states[n], ops[n]);
    }
  }

  lemma LapseGrows(states: seq<Summary>, ops: seq<Op>, i: nat)
    requires |states| == |ops| + 1 && i < |ops| - 1
    ensures var n := |ops| - 1;
            Lapse(states, ops, i) <==> Lapse(states[..n + 1], ops[..n], i) && !Mends(states[n], ops[n])
  {
    var n := |ops| - 1;
    var front, done := states[..n + 1], ops[..n];
    assert forall j :: i <= j < n ==> front[j] == states[j] && done[j] == ops[j];
    if Lapse(front, done, i) && !Mends(states[n], ops[n]) {
      forall j | i < j < |ops| ensures !Mends(states[j], ops[j]) {
        assert j < n ==> !Mends(front[j], done[j]);
      }
    }
    if Lapse(states, ops, i) {
      forall j | i < j < n ensures !Mends(front[j], done[j]) {
        assert !Mends(states[j], ops[j]);
      }
    }
  }

  /** Starting up on a damaged file of the current version: clean after the load, but not what the file holds. */
  lemma DamagedFileIsMissed(kf: KeyFile, s: Summary)
    requires IsCurrent(kf) && Step(NEW_SUMMARY.(file := Damaged(kf)), Load, s)
    ensures s.keyFile == kf && !s.dirty && s.file == Damaged(kf) && !Persisted(s)
    ensures Loses(NEW_SUMMARY.(file := Damaged(kf)), Load)
  {
  }

  /** A saved summary of the current version loads back to the same key file and the same tables. */
  lemma SaveThenLoad(s: Summary, s1: Summary, s2: Summary)
    requires Invariant(s, true) && Persisted(s) && IsCurrent(s.keyFile)
    requires Step(s, Save(true), s1) && Step(s1, Load, s2)
    ensures s2.keyFile == s.keyFile && !s2.dirty && s2.file == Stored(s.keyFile)
    ensures forall id :: NameIn(s2.index, id) == NameIn(s.index, id)
    ensures forall n :: IdIn(s2.index, n) == IdIn(s.index, n)
  {
    RebuildIsCoherentIffDistinct(s.keyFile, s1.index);
    CoherenceDeterminesTables(s.keyFile, s2.index, s.index);
  }

  /** The operations after which the version may not be current; the setters write it as a value. */
  predicate DropsVersion(s: Summary, op: Op) {
    || op.Clear? || op.Remove?
    || (op.RemoveFolder? && op.id == STORE_GROUP_NAME && op.id in s.index.ids)
    || (op.SetValue? && op.group == STORE_GROUP_NAME && op.key == Version &&
        op.value != Decimal(CURRENT_SUMMARY_VERSION))
  }

  /** A load leaves a current version, and it stays current exactly until one of these operations. */
  lemma VersionStaysCurrentIff(s: Summary, op: Op, s': Summary)
    requires Step(s, op, s') && (op.Load? || IsCurrent(s.keyFile))
    ensures IsCurrent(s'.keyFile) <==> !DropsVersion(s, op)
  {
    hide SetString, RemoveKey, RemoveGroup, WellFormed, IndexStep, FileAfter, DirtyAfter;
  }

  /** The version is current at the end of every run that drops it nowhere after its last load. */
  lemma {:induction false} RunsStayCurrent(states: seq<Summary>, ops: seq<Op>, load: nat)
    requires |states| == |ops| + 1 && load < |ops| && ops[load].Load?
    requires forall i :: 0 <= i < |ops| ==> Step(states[i], ops[i], states[i + 1])
    requires forall i :: load < i < |ops| ==> !DropsVersion(states[i], ops[i])
    ensures IsCurrent(states[|ops|].keyFile)
  {
    var n := |ops| - 1;
    if load < n {
      RunsStayCurrent(states[..n + 1], ops[..n], load);
    }
    assert Step(states[n], ops[n], states[n + 1]);
    VersionStaysCurrentIff(states[n], ops[n], states[n + 1]);
  }
}
