/**
 The string objects of the tables when full names are not distinct: when replacing an entry
 leaves a freed string in reach, when a cached name loses its entry, and both over whole runs
 of table operations.
 */
module SummaryObjects {
  import opened Options
  import opened KeyFiles
  import opened FolderTree
  import opened SummaryIndex
  import opened SummaryChanges

  /** Each name leads to a folder that is cached under it. */
  ghost predicate NamesLead(ix: Index) {
    forall n {:trigger IdIn(ix, n)} :: n in ix.names ==> NameIn(ix, ix.names[n].value.text) == Some(n)
  }

  /** What remains of soundness when two folders may bear one name. */
  ghost predicate Tidy(ix: Index) {
    OwnsApart(ix) && Borrows(ix) && NamesLead(ix)
  }

  /**
   The folder's entry can be replaced safely: its cached name leads back to it, so that entry goes
   first, or the entry of that name has another string object as key.
   */
  predicate SafeReplace(ix: Index, e: string) {
    e in ix.ids ==>
      LeadsBack(ix, e) || ix.ids[e].value.text !in ix.names || ix.names[ix.ids[e].value.text].key != ix.ids[e].value
  }

  lemma TidyHasNoDangling(ix: Index)
    requires Tidy(ix)
    ensures NoDangling(ix)
  {
    BorrowsHasNoDangling(ix);
  }

  lemma SoundIsTidy(ix: Index)
    requires Sound(ix)
    ensures Tidy(ix) && forall e :: SafeReplace(ix, e)
  {
    forall n | n in ix.names ensures BorrowedAt(ix, n) && NameIn(ix, ix.names[n].value.text) == Some(n) {
      assert Shared(ix, n);
    }
    forall e ensures SafeReplace(ix, e) {
      assert e in ix.ids ==> NameIn(ix, e) == Some(ix.ids[e].value.text);
    }
  }

  /** Whatever the key file, the tables are tidy after a rebuild. */
  lemma RebuiltIsTidy(kf: KeyFile, ix: Index, done: seq<string>)
    requires Acyclic(kf) && OwnsApart(ix) && Distinct(done)
    ensures Tidy(RebuildFrom(kf, ix, done))
  {
    RebuildFromAnything(kf, ix, done);
    var iy := RebuildFrom(kf, ix, done);
    forall n | n in iy.names ensures NameIn(iy, iy.names[n].value.text) == Some(n) {
      assert IdIn(iy, n) == LastBearer(kf, done, n);
      LastBearerBears(kf, done, n);
    }
  }

  /** The owners of the two objects of a name's entry. */
  lemma Owners(ix: Index, n: string) returns (first: string, last: string)
    requires Borrows(ix) && NamesLead(ix) && n in ix.names
    ensures first in ix.ids && ix.ids[first].value == ix.names[n].key && NameIn(ix, first) == Some(n)
    ensures last in ix.ids && ix.ids[last].key == ix.names[n].value && NameIn(ix, last) == Some(n)
    ensures IdIn(ix, n) == Some(last)
  {
    assert BorrowedAt(ix, n) && IdIn(ix, n).Some?;
    first :| first in ix.ids && ix.ids[first].value == ix.names[n].key;
    last := ix.names[n].value.text;
  }

  /** A name that is left once the folder's own entry is gone has no object of the folder. */
  lemma LeftEntryIsApart(ix: Index, e: string, n: string)
    requires Tidy(ix) && SafeReplace(ix, e) && e in ix.ids && n in Unlink(ix, e).names
    ensures Apart(ix.names[n], ix.ids[e])
    ensures ix.names[n].value.text != e
  {
    var first, last := Owners(ix, n);
    assert last != e;
    assert first != e;
    hide Borrows, NamesLead, SafeReplace;
    assert Apart(ix.ids[first], ix.ids[e]) && Apart(ix.ids[last], ix.ids[e]);
  }

  lemma NamesStillLead(ix: Index, e: string, m: string)
    requires NamesLead(ix)
    ensures NamesLead(ReplaceOne(ix, e, m))
  {
    forall n | n in ReplaceOne(ix, e, m).names
      ensures NameIn(ReplaceOne(ix, e, m), ReplaceOne(ix, e, m).names[n].value.text) == Some(n)
    {
      assert n in ix.names ==> IdIn(ix, n) == Some(ix.names[n].value.text);
    }
  }

  lemma SafeReplaceKeepsBorrows(ix: Index, e: string, m: string)
    requires Tidy(ix) && SafeReplace(ix, e)
    ensures Borrows(ReplaceOne(ix, e, m))
  {
    var iy := ReplaceOne(ix, e, m);
    forall n | n in iy.names ensures BorrowedAt(iy, n) {
      if n in Unlink(ix, e).names {
        var first, last := Owners(ix, n);
        if e in ix.ids {
          LeftEntryIsApart(ix, e, n);
        }
        assert BorrowedAt(ix, n);
        assert first != e && iy.ids[first].value == iy.names[n].key;
      } else {
        assert iy.ids[e].value == iy.names[n].key;
      }
    }
  }

  /** After a safe replacement the tables are tidy again. */
  lemma SafeReplaceIsTidy(ix: Index, e: string, m: string)
    requires Tidy(ix) && SafeReplace(ix, e)
    ensures Tidy(ReplaceOne(ix, e, m))
  {
    ReplaceOneOwnsApart(ix, e, m);
    NamesStillLead(ix, e, m);
    SafeReplaceKeepsBorrows(ix, e, m);
  }

  /**
   Replacing an entry leaves a freed string in reach exactly when it is not safe, whatever the new
   name is; before the last of the three steps nothing is freed.
   */
  lemma StepsLiveIff(ix: Index, e: string, m: string)
    requires Tidy(ix)
    ensures StepsLive(ix, e, m) <==> SafeReplace(ix, e)
    ensures NoDangling(ReplaceOne(ix, e, m)) <==> SafeReplace(ix, e)
  {
    TidyHasNoDangling(ix);
    EarlyStepsLive(ix, e, m);
    if SafeReplace(ix, e) {
      SafeReplaceIsTidy(ix, e, m);
      TidyHasNoDangling(ReplaceOne(ix, e, m));
    } else {
      UnsafeReplaceDangles(ix, e, m);
    }
  }

  lemma EarlyStepsLive(ix: Index, e: string, m: string)
    requires OwnsApart(ix) && NoDangling(ix)
    ensures NoDangling(Unlinked(ix, e)) && NoDangling(Linked(ix, e, m))
  {
  }

  lemma UnsafeReplaceDangles(ix: Index, e: string, m: string)
    requires !SafeReplace(ix, e)
    ensures !NoDangling(ReplaceOne(ix, e, m))
  {
    var iy, was := ReplaceOne(ix, e, m), ix.ids[e].value.text;
    assert was in iy.names && iy.names[was].key == ix.ids[e].value;
  }

  lemma RemoveIsTidy(ix: Index, e: string)
    requires Tidy(ix) && e in ix.ids
    ensures Tidy(RemoveEntry(ix, e))
  {
    RemoveEntryOwnsApart(ix, e);
    var iy := RemoveEntry(ix, e);
    forall n | n in iy.names ensures BorrowedAt(iy, n) && NameIn(iy, iy.names[n].value.text) == Some(n) {
      var first, last := Owners(ix, n);
      assert BorrowedAt(ix, n) && NameIn(ix, e) != Some(n);
      assert iy.ids[first].value == iy.names[n].key;
    }
  }

  // ---------------------------------------------------------------- runs of table operations

  /** What the summary does to its tables between two rebuilds. */
  datatype TableOp = Put(id: string, name: string) | Drop(id: string)

  function Apply(ix: Index, op: TableOp): Index {
    match op
    case Put(id, name) => ReplaceOne(ix, id, name)
    case Drop(id) => if id in ix.ids then RemoveEntry(ix, id) else ix
  }

  function After(ix: Index, ops: seq<TableOp>): Index {
    if ops == [] then ix else Apply(After(ix, ops[..|ops| - 1]), ops[|ops| - 1])
  }

  /** Operation i is safe where it happens; dropping always is. */
  predicate SafeAt(ix: Index, ops: seq<TableOp>, i: nat)
    requires i < |ops|
  {
    ops[i].Put? ==> SafeReplace(After(ix, ops[..i]), ops[i].id)
  }

  /** After the first i operations no freed string is in reach. */
  ghost predicate LiveAt(ix: Index, ops: seq<TableOp>, i: nat)
    requires i <= |ops|
  {
    NoDangling(After(ix, ops[..i]))
  }

  lemma SafeStepIsTidy(ix: Index, ops: seq<TableOp>, i: nat)
    requires i < |ops| && Tidy(After(ix, ops[..i]))
    ensures SafeAt(ix, ops, i) ==> Tidy(After(ix, ops[..i + 1]))
    ensures LiveAt(ix, ops, i + 1) ==> SafeAt(ix, ops, i)
  {
    AfterOneMore(ix, ops, i);
    var soFar := After(ix, ops[..i]);
    hide Tidy, SafeReplace, ReplaceOne, RemoveEntry, NoDangling, After;
    match ops[i] {
      case Put(id, name) =>
        StepsLiveIff(soFar, id, name);
        if SafeReplace(soFar, id) {
          SafeReplaceIsTidy(soFar, id, name);
        }
      case Drop(id) =>
        if id in soFar.ids {
          RemoveIsTidy(soFar, id);
        }
    }
  }

  lemma {:induction false} SafeRunIsTidy(ix: Index, ops: seq<TableOp>, n: nat)
    requires Tidy(ix) && n <= |ops|
    requires forall i :: 0 <= i < n ==> SafeAt(ix, ops, i)
    ensures Tidy(After(ix, ops[..n])) && LiveAt(ix, ops, n)
  {
    if n > 0 {
      SafeRunIsTidy(ix, ops, n - 1);
      hide SafeAt;
      SafeStepIsTidy(ix, ops, n - 1);
    }
    TidyHasNoDangling(After(ix, ops[..n]));
  }

  lemma {:induction false} LiveRunIsSafe(ix: Index, ops: seq<TableOp>, n: nat)
    requires Tidy(ix) && n <= |ops|
    requires forall i :: 0 <= i <= |ops| ==> LiveAt(ix, ops, i)
    ensures forall i :: 0 <= i < n ==> SafeAt(ix, ops, i)
  {
    hide Tidy, LiveAt, SafeAt, After;
    if n > 0 {
      LiveRunIsSafe(ix, ops, n - 1);
      SafeRunIsTidy(ix, ops, n - 1);
      SafeStepIsTidy(ix, ops, n - 1);
    }
  }

  /**
   Over any run of table operations, under any names, no freed string is ever in reach exactly
   when each replacement is safe where it happens.
   */
  lemma RunsHaveNoDanglingIff(ix: Index, ops: seq<TableOp>)
    requires Tidy(ix)
    ensures (forall i :: 0 <= i <= |ops| ==> LiveAt(ix, ops, i)) <==>
            (forall i :: 0 <= i < |ops| ==> SafeAt(ix, ops, i))
  {
    hide Tidy, LiveAt, SafeAt, After;
    if forall i :: 0 <= i < |ops| ==> SafeAt(ix, ops, i) {
      forall i | 0 <= i <= |ops| ensures LiveAt(ix, ops, i) {
        SafeRunIsTidy(ix, ops, i);
      }
    }
    if forall i :: 0 <= i <= |ops| ==> LiveAt(ix, ops, i) {
      LiveRunIsSafe(ix, ops, |ops|);
    }
  }

  lemma AfterOneMore(ix: Index, ops: seq<TableOp>, n: nat)
    requires n < |ops|
    ensures After(ix, ops[..n + 1]) == Apply(After(ix, ops[..n]), ops[n])
  {
    assert ops[..n + 1][..n] == ops[..n];
  }

  // ---------------------------------------------------------------- no string is lost

  ghost predicate Owned(ix: Index, x: nat) {
    exists id :: id in ix.ids && x in Objects(ix.ids[id])
  }

  /** Every string ever handed out is freed or owned by id_fname_hash. */
  ghost predicate Accounted(ix: Index) {
    forall x: nat :: x < ix.next ==> x in ix.freed || Owned(ix, x)
  }

  lemma ApplyKeepsAccounted(ix: Index, op: TableOp)
    requires Accounted(ix)
    ensures Accounted(Apply(ix, op))
  {
    var iy := Apply(ix, op);
    forall x: nat | x < iy.next ensures x in iy.freed || Owned(iy, x) {
      if x < ix.next && x !in ix.freed {
        var id :| id in ix.ids && x in Objects(ix.ids[id]);
        assert id != op.id ==> id in iy.ids && iy.ids[id] == ix.ids[id];
      } else if x >= ix.next {
        assert op.Put? && x in Objects(iy.ids[op.id]);
      }
    }
  }

  lemma {:induction false} RunsLoseNoString(ix: Index, ops: seq<TableOp>)
    requires Accounted(ix)
    ensures Accounted(After(ix, ops))
  {
    if ops != [] {
      RunsLoseNoString(ix, ops[..|ops| - 1]);
      ApplyKeepsAccounted(After(ix, ops[..|ops| - 1]), ops[|ops| - 1]);
    }
  }

  lemma {:induction false} RebuildLosesNoString(kf: KeyFile, ix: Index, done: seq<string>)
    requires Acyclic(kf) && OwnsApart(ix) && Distinct(done) && Accounted(ix)
    ensures Accounted(RebuildFrom(kf, ix, done))
  {
    if done == [] {
      forall x: nat | x < ix.next ensures x in Emptied(ix).freed {
        if x !in ix.freed {
          assert Owned(ix, x);
        }
      }
    } else {
      var before, id := done[..|done| - 1], done[|done| - 1];
      RebuildLosesNoString(kf, ix, before);
      RebuildFromAnything(kf, ix, before);
      var soFar := RebuildFrom(kf, ix, before);
      assert id !in before && NameIn(soFar, id) == None;
      RebuildStepLosesNone(kf, soFar, id);
    }
  }

  lemma RebuildStepLosesNone(kf: KeyFile, ix: Index, id: string)
    requires Acyclic(kf) && Accounted(ix) && id !in ix.ids
    ensures Accounted(RebuildStep(kf, ix, id))
  {
    var iy := RebuildStep(kf, ix, id);
    forall x: nat | x < iy.next ensures x in iy.freed || Owned(iy, x) {
      if x < ix.next && x !in ix.freed {
        var d :| d in ix.ids && x in Objects(ix.ids[d]);
        assert d in iy.ids && iy.ids[d] == ix.ids[d];
      } else if x >= ix.next {
        assert x in Objects(iy.ids[id]);
      }
    }
  }

  // ---------------------------------------------------------------- names that have lost their entry

  /** The cached name of the folder, if any, leads to some id; the original reads that id unseen. */
  predicate HasIdOfName(ix: Index, id: string) {
    NameIn(ix, id).Some? ==> IdIn(ix, NameIn(ix, id).value).Some?
  }

  /** No other folder is cached under the same name. */
  ghost predicate SoleBearer(ix: Index, id: string) {
    forall d :: d in ix.ids && NameIn(ix, d) == NameIn(ix, id) ==> d == id
  }

  /** The operation takes away a name that another folder is still cached under. */
  ghost predicate Orphans(ix: Index, op: TableOp) {
    match op
    case Put(id, name) => LeadsBack(ix, id) && NameIn(ix, id) != Some(name) && !SoleBearer(ix, id)
    case Drop(id) => id in ix.ids && !SoleBearer(ix, id)
  }

  /** While every lookup finds its entry, all lookups stay safe exactly when the operation orphans no name. */
  lemma LookupsStaySafeIff(ix: Index, op: TableOp)
    requires forall id :: HasIdOfName(ix, id)
    ensures (forall id :: HasIdOfName(Apply(ix, op), id)) <==> !Orphans(ix, op)
  {
    var iy := Apply(ix, op);
    if Orphans(ix, op) {
      var d :| d in ix.ids && NameIn(ix, d) == NameIn(ix, op.id) && d != op.id;
      assert NameIn(iy, d) == NameIn(ix, d);
      assert !HasIdOfName(iy, d);
    } else {
      forall id ensures HasIdOfName(iy, id) {
        assert HasIdOfName(ix, id);
      }
    }
  }

  ghost predicate AllEntered(ix: Index) {
    forall id :: HasIdOfName(ix, id)
  }

  ghost predicate EnteredAt(ix: Index, ops: seq<TableOp>, i: nat)
    requires i <= |ops|
  {
    AllEntered(After(ix, ops[..i]))
  }

  ghost predicate OrphansAt(ix: Index, ops: seq<TableOp>, i: nat)
    requires i < |ops|
  {
    Orphans(After(ix, ops[..i]), ops[i])
  }

  lemma EnteredStepIff(ix: Index, ops: seq<TableOp>, i: nat)
    requires i < |ops| && EnteredAt(ix, ops, i)
    ensures EnteredAt(ix, ops, i + 1) <==> !OrphansAt(ix, ops, i)
  {
    AfterOneMore(ix, ops, i);
    LookupsStaySafeIff(After(ix, ops[..i]), ops[i]);
  }

  lemma {:induction false} UnorphanedRunIsEntered(ix: Index, ops: seq<TableOp>, n: nat)
    requires AllEntered(ix) && n <= |ops|
    requires forall i :: 0 <= i < n ==> !OrphansAt(ix, ops, i)
    ensures EnteredAt(ix, ops, n)
  {
    assert ops[..0] == [];
    if n > 0 {
      UnorphanedRunIsEntered(ix, ops, n - 1);
      hide AllEntered, EnteredAt, OrphansAt;
      EnteredStepIff(ix, ops, n - 1);
    }
  }

  /** Over any run of table operations every lookup finds its entry exactly when none orphans a name. */
  lemma RunsFindTheirIdsIff(ix: Index, ops: seq<TableOp>)
    requires AllEntered(ix)
    ensures (forall i :: 0 <= i <= |ops| ==> EnteredAt(ix, ops, i)) <==>
            (forall i :: 0 <= i < |ops| ==> !OrphansAt(ix, ops, i))
  {
    hide AllEntered, EnteredAt, OrphansAt;
    if forall i :: 0 <= i < |ops| ==> !OrphansAt(ix, ops, i) {
      forall i | 0 <= i <= |ops| ensures EnteredAt(ix, ops, i) {
        UnorphanedRunIsEntered(ix, ops, i);
      }
    }
    if forall i :: 0 <= i <= |ops| ==> EnteredAt(ix, ops, i) {
      forall i | 0 <= i < |ops| ensures !OrphansAt(ix, ops, i) {
        EnteredStepIff(ix, ops, i);
      }
    }
  }

  /** A rebuild enters every cached name. */
  lemma RebuiltIsEntered(kf: KeyFile, ix: Index, done: seq<string>)
    requires Acyclic(kf) && OwnsApart(ix) && Distinct(done)
    ensures AllEntered(RebuildFrom(kf, ix, done))
  {
    RebuildFromAnything(kf, ix, done);
    var iy := RebuildFrom(kf, ix, done);
    forall id ensures HasIdOfName(iy, id) {
      if NameIn(iy, id).Some? {
        LastBearerBears(kf, done, NameIn(iy, id).value);
        assert IdIn(iy, NameIn(iy, id).value) == LastBearer(kf, done, NameIn(iy, id).value);
      }
    }
  }

  // ---------------------------------------------------------------- renaming a subtree of tidy tables

  /** Patch i is safe where it happens. */
  ghost predicate PatchSafe(kf: KeyFile, ia: Index, order: seq<string>, i: nat)
    requires Acyclic(kf) && i < |order|
    requires forall d :: d in order ==> Named(kf, d)
  {
    SafeReplace(PatchAll(kf, ia, order[..i]), order[i])
  }

  ghost predicate LiveThroughout(kf: KeyFile, ix: Index, a: string, order: seq<string>)
    requires Acyclic(kf) && BuildFullName(kf, a).Some? && forall d :: d in order ==> Named(kf, d)
  {
    && StepsLive(ix, a, BuildFullName(kf, a).value)
    && forall i :: 0 <= i < |order| ==> PatchLive(kf, ReplaceOne(ix, a, BuildFullName(kf, a).value), order, i)
  }

  ghost predicate SafeThroughout(kf: KeyFile, ix: Index, a: string, order: seq<string>)
    requires Acyclic(kf) && BuildFullName(kf, a).Some? && forall d :: d in order ==> Named(kf, d)
  {
    && SafeReplace(ix, a)
    && forall i :: 0 <= i < |order| ==> PatchSafe(kf, ReplaceOne(ix, a, BuildFullName(kf, a).value), order, i)
  }

  /** In tidy tables a patch leaves no freed string in reach at any step exactly when it is safe. */
  lemma PatchLiveIff(kf: KeyFile, ia: Index, order: seq<string>, i: nat)
    requires Acyclic(kf) && i < |order| && forall d :: d in order ==> Named(kf, d)
    requires Tidy(PatchAll(kf, ia, order[..i]))
    ensures PatchLive(kf, ia, order, i) <==> PatchSafe(kf, ia, order, i)
    ensures PatchSafe(kf, ia, order, i) ==> Tidy(PatchAll(kf, ia, order[..i + 1]))
  {
    var ix, name := PatchAll(kf, ia, order[..i]), BuildFullName(kf, order[i]).value;
    assert order[..i + 1][..i] == order[..i];
    assert PatchAll(kf, ia, order[..i + 1]) == ReplaceOne(ix, order[i], name);
    hide Tidy, SafeReplace, ReplaceOne, StepsLive, PatchAll;
    StepsLiveIff(ix, order[i], name);
    if SafeReplace(ix, order[i]) {
      SafeReplaceIsTidy(ix, order[i], name);
    }
  }

  lemma {:induction false} SafePatchesTidy(kf: KeyFile, ia: Index, order: seq<string>, n: nat)
    requires Acyclic(kf) && n <= |order| && forall d :: d in order ==> Named(kf, d)
    requires Tidy(ia) && forall i :: 0 <= i < n ==> PatchSafe(kf, ia, order, i)
    ensures Tidy(PatchAll(kf, ia, order[..n]))
  {
    if n == 0 {
      assert order[..n] == [];
    } else {
      SafePatchesTidy(kf, ia, order, n - 1);
      hide Tidy, PatchLive, PatchSafe, PatchAll;
      PatchLiveIff(kf, ia, order, n - 1);
    }
  }

  lemma SafePatchesLive(kf: KeyFile, ia: Index, order: seq<string>, n: nat)
    requires Acyclic(kf) && n <= |order| && forall d :: d in order ==> Named(kf, d)
    requires Tidy(ia) && forall i :: 0 <= i < n ==> PatchSafe(kf, ia, order, i)
    ensures forall i :: 0 <= i < n ==> PatchLive(kf, ia, order, i)
  {
    hide Tidy, PatchLive, PatchSafe, PatchAll;
    forall i | 0 <= i < n ensures PatchLive(kf, ia, order, i) {
      SafePatchesTidy(kf, ia, order, i);
      PatchLiveIff(kf, ia, order, i);
    }
  }

  lemma {:induction false} LivePatchesSafe(kf: KeyFile, ia: Index, order: seq<string>, n: nat)
    requires Acyclic(kf) && n <= |order| && forall d :: d in order ==> Named(kf, d)
    requires Tidy(ia) && forall i :: 0 <= i < n ==> PatchLive(kf, ia, order, i)
    ensures forall i :: 0 <= i < n ==> PatchSafe(kf, ia, order, i)
  {
    hide Tidy, PatchLive, PatchSafe, PatchAll;
    if n > 0 {
      LivePatchesSafe(kf, ia, order, n - 1);
      SafePatchesTidy(kf, ia, order, n - 1);
      PatchLiveIff(kf, ia, order, n - 1);
    }
  }

  /** A rename in tidy tables leaves no freed string in reach at any step exactly when each replacement is safe. */
  lemma LiveThroughoutIff(kf: KeyFile, ix: Index, a: string, order: seq<string>)
    requires Acyclic(kf) && BuildFullName(kf, a).Some? && forall d :: d in order ==> Named(kf, d)
    requires Tidy(ix)
    ensures LiveThroughout(kf, ix, a, order) <==> SafeThroughout(kf, ix, a, order)
  {
    StepsLiveIff(ix, a, BuildFullName(kf, a).value);
    if SafeReplace(ix, a) {
      SafeReplaceIsTidy(ix, a, BuildFullName(kf, a).value);
      var ia, n := ReplaceOne(ix, a, BuildFullName(kf, a).value), |order|;
      hide Tidy, SafeReplace, StepsLive, ReplaceOne, PatchLive, PatchSafe;
      if forall i :: 0 <= i < n ==> PatchSafe(kf, ia, order, i) {
        SafePatchesLive(kf, ia, order, n);
      }
      if forall i :: 0 <= i < n ==> PatchLive(kf, ia, order, i) {
        LivePatchesSafe(kf, ia, order, n);
      }
    }
  }

  /** The folders that a rename of a collects all have a display name. */
  ghost predicate SubfoldersNamed(kf: KeyFile, ix: Index, a: string) {
    LeadsBack(ix, a) ==>
      forall n :: n in ix.names && NameIn(ix, a).value + "/" <= n ==> Named(kf, ix.names[n].value.text)
  }

  // ---------------------------------------------------------------- two folders of one name

  /** Folders "a" and "b", both named "x". */
  function Twins(): KeyFile {
    SetString(SetString(EMPTY, "a", DisplayName, "x"), "b", DisplayName, "x")
  }

  lemma TwinNames()
    ensures Acyclic(Twins())
    ensures BuildFullName(Twins(), "a") == Some("x") && BuildFullName(Twins(), "b") == Some("x")
  {
    assert forall id :: ParentOf(EMPTY, id) == None;
    assert forall id :: ParentOf(Twins(), id) == None;
    assert NameOf(Twins(), "a") == Some("x") && NameOf(Twins(), "b") == Some("x");
    hide Twins;
    var rank: string -> nat := id => 0;
    assert Ranked(Twins(), rank);
  }

  lemma TwinBearers()
    ensures Acyclic(Twins())
    ensures FirstBearer(Twins(), ["a", "b"], "x") == Some("a") && LastBearer(Twins(), ["a", "b"], "x") == Some("b")
  {
    TwinNames();
    hide Twins, BuildFullName;
    var done := ["a", "b"];
    assert done[..1] == ["a"] && done[..1][..0] == [];
    assert FirstBearer(Twins(), done[..1], "x") == Some("a");
  }

  /** The rebuild keeps the name object of "a" as key of "x", which leads to "b". */
  lemma TwinsRebuilt(ix: Index)
    requires OwnsApart(ix)
    ensures Acyclic(Twins())
    ensures var iy := Rebuilt(Twins(), ix);
            && Tidy(iy) && "a" in iy.ids && "b" in iy.ids
            && NameIn(iy, "a") == NameIn(iy, "b") == Some("x") && IdIn(iy, "x") == Some("b")
            && "x" in iy.names && iy.names["x"].key == iy.ids["a"].value
  {
    TwinNames();
    TwinBearers();
    TwinsAreFolders();
    var kf, done := Twins(), ["a", "b"];
    hide Twins, BuildFullName, FirstBearer, LastBearer, FolderGroups;
    RebuiltIsTidy(kf, ix, done);
    RebuildFromAnything(kf, ix, done);
    var iy := RebuildFrom(kf, ix, done);
    hide RebuildFrom;
    assert NameIn(iy, "a") == Some("x") && NameIn(iy, "b") == Some("x") && IdIn(iy, "x") == Some("b");
    assert FirstOwnsKey(kf, done, iy, "x");
  }

  lemma TwinsAreFolders()
    ensures FolderGroups(Twins().order) == ["a", "b"]
  {
    var order := ["a", "b"];
    assert Twins().order == order;
    assert order[..1] == ["a"] && order[..1][..0] == [];
    assert |AsciiLower("a")| == |AsciiLower("b")| == 1;
  }

  /** Renaming "a" frees the string that is still the key of the entry of "x". */
  lemma RenamedTwinDangles(ix: Index, name: string)
    requires OwnsApart(ix)
    ensures Acyclic(Twins()) && !NoDangling(ReplaceOne(Rebuilt(Twins(), ix), "a", name))
  {
    TwinsRebuilt(ix);
    StepsLiveIff(Rebuilt(Twins(), ix), "a", name);
  }

  /** Removing "b" leaves "a" cached under "x", which is no longer entered: renaming "a" then reads a missing id. */
  lemma RemovedTwinOrphans(ix: Index)
    requires OwnsApart(ix)
    ensures Acyclic(Twins()) && "b" in Rebuilt(Twins(), ix).ids
    ensures !HasIdOfName(RemoveEntry(Rebuilt(Twins(), ix), "b"), "a")
  {
    TwinsRebuilt(ix);
    assert NameIn(RemoveEntry(Rebuilt(Twins(), ix), "b"), "a") == Some("x");
  }

  /** From sound tables: giving b the name of a is harmless, but renaming a afterwards is not. */
  lemma ClashThenRenameDangles(ix: Index, a: string, b: string, name: string)
    requires Sound(ix) && a in ix.ids && b != a
    ensures NoDangling(ReplaceOne(ix, b, NameIn(ix, a).value))
    ensures !NoDangling(ReplaceOne(ReplaceOne(ix, b, NameIn(ix, a).value), a, name))
  {
    SoundIsTidy(ix);
    var n := NameIn(ix, a).value;
    var iy := ReplaceOne(ix, b, n);
    SafeReplaceIsTidy(ix, b, n);
    TidyHasNoDangling(iy);
    assert Shared(ix, n) && IdIn(ix, n) == Some(a);
    assert NameIn(iy, a) == Some(n) && IdIn(iy, n) == Some(b);
    assert iy.names[n].key == iy.ids[a].value;
    StepsLiveIff(iy, a, name);
  }

  // ---------------------------------------------------------------- renaming after a rebuild

  /**
   When several folders bear one name, renaming one of them leaves a freed string in the tables
   exactly when it is the first but not the last of them: the entry of the name is then kept,
   and its key is the old name of that folder.
   */
  lemma RenameAfterRebuild(kf: KeyFile, ix: Index, done: seq<string>, e: string, name: string)
    requires Acyclic(kf) && OwnsApart(ix) && Distinct(done) && e in done && BuildFullName(kf, e).Some?
    ensures var was := BuildFullName(kf, e).value;
            NoDangling(ReplaceOne(RebuildFrom(kf, ix, done), e, name)) <==>
            LastBearer(kf, done, was) == Some(e) || FirstBearer(kf, done, was) != Some(e)
  {
    var iy, was := RebuildFrom(kf, ix, done), BuildFullName(kf, e).value;
    RebuiltIsTidy(kf, ix, done);
    RebuildFromAnything(kf, ix, done);
    StepsLiveIff(iy, e, name);
    assert NameIn(iy, e) == Some(was) && IdIn(iy, was) == LastBearer(kf, done, was);
    assert FirstOwnsKey(kf, done, iy, was);
    LastBearerBears(kf, done, was);
    var first := FirstBearer(kf, done, was).value;
    assert first != e ==> Apart(iy.ids[first], iy.ids[e]);
  }
}
