/**
 The two hash tables of the store summary, with the string objects they share.

 A Ref is a string object: its address is its identity.  id_fname_hash owns its keys and
 values and frees them; fname_id_hash holds the same objects and owns nothing.
 */
module SummaryIndex {
  import opened Options
  import opened KeyFiles
  import opened FolderTree

  datatype Ref = Ref(addr: nat, text: string)

  datatype Entry = Entry(key: Ref, value: Ref)

  type Table = map<string, Entry>

  /** g_hash_table_insert: a key that is already present keeps its key object. */
  function Insert(t: Table, k: Ref, v: Ref): Table {
    t[k.text := Entry(if k.text in t then t[k.text].key else k, v)]
  }

  /** g_hash_table_replace: the key object is exchanged as well. */
  function Replace(t: Table, k: Ref, v: Ref): Table {
    t[k.text := Entry(k, v)]
  }

  /** ids is id_fname_hash, names is fname_id_hash; addresses below next have been handed out. */
  datatype Index = Index(ids: Table, names: Table, freed: set<nat>, next: nat)

  function Objects(e: Entry): set<nat> {
    {e.key.addr, e.value.addr}
  }

  /** Neither object of the entry has been freed. */
  predicate Live(e: Entry, freed: set<nat>) {
    e.key.addr !in freed && e.value.addr !in freed
  }

  /** Two entries have no object in common. */
  predicate Apart(e: Entry, f: Entry) {
    && e.key.addr != f.key.addr && e.key.addr != f.value.addr
    && e.value.addr != f.key.addr && e.value.addr != f.value.addr
  }

  /** The cached full name of a folder id. */
  function NameIn(ix: Index, id: string): Option<string> {
    if id in ix.ids then Some(ix.ids[id].value.text) else None
  }

  /** The cached folder id of a full name. */
  function IdIn(ix: Index, name: string): Option<string> {
    if name in ix.names then Some(ix.names[name].value.text) else None
  }

  // ---------------------------------------------------------------- invariants

  /** No object in either table has been freed. */
  ghost predicate NoDangling(ix: Index) {
    && (forall id :: id in ix.ids ==> Live(ix.ids[id], ix.freed))
    && (forall n :: n in ix.names ==> Live(ix.names[n], ix.freed))
  }

  /** The entry is filed under the text of its key and its two objects were handed out. */
  predicate Filed(ix: Index, id: string, e: Entry) {
    e.key.text == id && e.key.addr < ix.next && e.value.addr < ix.next && e.key.addr != e.value.addr
  }

  /** Every object id_fname_hash owns is alive and owned once. */
  ghost predicate OwnsApart(ix: Index) {
    && (forall id :: id in ix.ids ==> Filed(ix, id, ix.ids[id]) && Live(ix.ids[id], ix.freed))
    && (forall i, j :: i in ix.ids && j in ix.ids && i != j ==> Apart(ix.ids[i], ix.ids[j]))
    && (forall x :: x in ix.freed ==> x < ix.next)
  }

  /** The entry of fname_id_hash at n consists of the very objects of one id_fname_hash entry. */
  predicate Shared(ix: Index, n: string)
    requires n in ix.names
  {
    var e := ix.names[n];
    e.key.text == n && e.value.text in ix.ids && ix.ids[e.value.text] == Entry(e.value, e.key)
  }

  ghost predicate SharesObjects(ix: Index) {
    forall n {:trigger Shared(ix, n)} {:trigger IdIn(ix, n)} :: n in ix.names ==> Shared(ix, n)
  }

  ghost predicate HasInverse(ix: Index) {
    forall id {:trigger NameIn(ix, id)} :: id in ix.ids ==> IdIn(ix, ix.ids[id].value.text) == Some(id)
  }

  ghost predicate Sound(ix: Index) {
    OwnsApart(ix) && SharesObjects(ix) && HasInverse(ix)
  }

  lemma SoundHasNoDangling(ix: Index)
    requires Sound(ix)
    ensures NoDangling(ix)
  {
    forall n | n in ix.names ensures Live(ix.names[n], ix.freed) {
      assert Shared(ix, n);
      assert Live(ix.ids[ix.names[n].value.text], ix.freed);
    }
  }

  /** In a sound index the two tables are inverse maps. */
  lemma SoundTablesAreInverse(ix: Index, id: string, name: string)
    requires Sound(ix)
    ensures NameIn(ix, id) == Some(name) <==> IdIn(ix, name) == Some(id)
  {
  }

  /** The tables agree with the names recomputed from the key file. */
  ghost predicate Coherent(kf: KeyFile, ix: Index)
    requires Acyclic(kf)
  {
    Sound(ix) && forall id {:trigger NameIn(ix, id)} :: NameIn(ix, id) == BuildFullName(kf, id)
  }

  /** Coherence fixes the contents of both tables, so it does not matter how it was reached. */
  lemma CoherenceDeterminesTables(kf: KeyFile, ix: Index, iy: Index)
    requires Acyclic(kf) && Coherent(kf, ix) && Coherent(kf, iy)
    ensures forall id :: NameIn(ix, id) == NameIn(iy, id)
    ensures forall n :: IdIn(ix, n) == IdIn(iy, n)
  {
    forall n ensures IdIn(ix, n) == IdIn(iy, n) {
      if n in ix.names {
        SoundTablesAreInverse(ix, ix.names[n].value.text, n);
        SoundTablesAreInverse(iy, ix.names[n].value.text, n);
        assert NameIn(iy, ix.names[n].value.text) == NameIn(ix, ix.names[n].value.text);
      }
      if n in iy.names {
        SoundTablesAreInverse(ix, iy.names[n].value.text, n);
        SoundTablesAreInverse(iy, iy.names[n].value.text, n);
        assert NameIn(iy, iy.names[n].value.text) == NameIn(ix, iy.names[n].value.text);
      }
    }
  }

  /** Looking up the name of an id and then the id of that name gives the id back. */
  lemma CoherentRoundTrip(kf: KeyFile, ix: Index, id: string)
    requires Acyclic(kf) && Coherent(kf, ix) && Named(kf, id)
    ensures NameIn(ix, id).Some? && IdIn(ix, NameIn(ix, id).value) == Some(id)
  {
  }

  /** One lookup in fname_id_hash tells whether another folder bears a name. */
  lemma LookupTellsFree(kf: KeyFile, ix: Index, name: string, a: string)
    requires Acyclic(kf) && Coherent(kf, ix)
    ensures FreeFor(ix, name, a) <==> NameIsFree(kf, name, a)
  {
    forall id ensures Bears(kf, id, name) <==> IdIn(ix, name) == Some(id) {
      SoundTablesAreInverse(ix, id, name);
      assert NameIn(ix, id) == BuildFullName(kf, id);
    }
    if IdIn(ix, name).Some? {
      assert Bears(kf, IdIn(ix, name).value, name);
    }
  }

  /** Two tables that are inverse to each other cannot hold a name twice. */
  lemma CoherentNamesAreDistinct(kf: KeyFile, ix: Index)
    requires Acyclic(kf) && Coherent(kf, ix)
    ensures DistinctNames(kf)
  {
    forall i, j | Named(kf, i) && SameFullName(kf, i, j) ensures i == j {
      FullNameIsJoinedPath(kf, i);
      SoundTablesAreInverse(ix, i, BuildFullName(kf, i).value);
      SoundTablesAreInverse(ix, j, BuildFullName(kf, i).value);
      assert NameIn(ix, i) == NameIn(ix, j);
    }
  }

  // ---------------------------------------------------------------- replacing one entry

  /** Step 1: drop the old name if it still leads to this id. */
  function Unlink(ix: Index, id: string): Index {
    var cached := NameIn(ix, id);
    if cached.Some? && IdIn(ix, cached.value) == Some(id) then ix.(names := ix.names - {cached.value}) else ix
  }

  /** Step 2: enter the new name. */
  function Link(ix: Index, id: Ref, name: Ref): Index {
    ix.(names := Insert(ix.names, name, id))
  }

  /** Step 3: give both objects to id_fname_hash, which frees the ones it held. */
  function Own(ix: Index, id: Ref, name: Ref): Index {
    ix.(ids := Replace(ix.ids, id, name),
        freed := ix.freed + if id.text in ix.ids then Objects(ix.ids[id.text]) else {})
  }

  /** No other id is entered under the name. */
  predicate FreeFor(ix: Index, name: string, id: string) {
    IdIn(ix, name) == None || IdIn(ix, name) == Some(id)
  }

  /** The three steps with two newly allocated strings. */
  function ReplaceOne(ix: Index, id: string, name: string): Index {
    var k, v := Ref(ix.next, id), Ref(ix.next + 1, name);
    Own(Link(Unlink(ix, id).(next := ix.next + 2), k, v), k, v)
  }

  lemma ReplaceOneOwnsApart(ix: Index, id: string, name: string)
    requires OwnsApart(ix)
    ensures OwnsApart(ReplaceOne(ix, id, name))
  {
    var iy := ReplaceOne(ix, id, name);
    forall j | j in iy.ids ensures Filed(iy, j, iy.ids[j]) && Live(iy.ids[j], iy.freed) {
      if j != id {
        assert Filed(ix, j, ix.ids[j]) && Live(ix.ids[j], ix.freed);
        if id in ix.ids {
          assert Apart(ix.ids[id], ix.ids[j]);
        }
      }
    }
    forall i, j | i in iy.ids && j in iy.ids && i != j ensures Apart(iy.ids[i], iy.ids[j]) {
      if i != id {
        assert Filed(ix, i, ix.ids[i]);
      }
      if j != id {
        assert Filed(ix, j, ix.ids[j]);
      }
    }
  }

  /** The entries left by step 1 belong to other ids and keep their objects. */
  lemma UnlinkedEntries(ix: Index, id: string, n: string)
    requires Sound(ix) && n in Unlink(ix, id).names
    ensures n in ix.names && Unlink(ix, id).names[n] == ix.names[n] && ix.names[n].value.text != id
  {
    assert Shared(ix, n);
    var cached := NameIn(ix, id);
  }

  /** One entry is replaced soundly exactly when no other id is entered under the new name. */
  lemma ReplaceOneIsSound(ix: Index, id: string, name: string)
    requires Sound(ix)
    ensures Sound(ReplaceOne(ix, id, name)) <==> FreeFor(ix, name, id)
    ensures forall j :: NameIn(ReplaceOne(ix, id, name), j) == if j == id then Some(name) else NameIn(ix, j)
  {
    if FreeFor(ix, name, id) {
      FreeReplaceIsSound(ix, id, name);
    } else {
      var e := IdIn(ix, name).value;
      assert Shared(ix, name);
      assert NameIn(ReplaceOne(ix, id, name), e) == Some(name);
    }
  }

  lemma FreeReplaceIsSound(ix: Index, id: string, name: string)
    requires Sound(ix) && FreeFor(ix, name, id)
    ensures Sound(ReplaceOne(ix, id, name))
  {
    var iy := ReplaceOne(ix, id, name);
    ReplaceOneOwnsApart(ix, id, name);
    if name in Unlink(ix, id).names {
      UnlinkedEntries(ix, id, name);
    }
    forall n | n in iy.names ensures Shared(iy, n) {
      if n != name {
        UnlinkedEntries(ix, id, n);
        assert Shared(ix, n);
      }
    }
    forall j | j in iy.ids ensures IdIn(iy, iy.ids[j].value.text) == Some(j) {
      if j != id {
        assert NameIn(ix, j).Some?;
        assert IdIn(ix, ix.ids[j].value.text) == Some(j);
      }
    }
  }

  /** The index between the steps: the old name is gone, then the new one is entered. */
  function Unlinked(ix: Index, id: string): Index {
    Unlink(ix, id).(next := ix.next + 2)
  }

  function Linked(ix: Index, id: string, name: string): Index {
    Link(Unlinked(ix, id), Ref(ix.next, id), Ref(ix.next + 1, name))
  }

  /** Nothing freed is reachable after any of the three steps. */
  ghost predicate StepsLive(ix: Index, id: string, name: string) {
    && NoDangling(Unlinked(ix, id))
    && NoDangling(Linked(ix, id, name))
    && NoDangling(ReplaceOne(ix, id, name))
  }

  /** One entry of sound tables can be replaced under any name. */
  lemma ReplaceStepsHaveNoDangling(ix: Index, id: string, name: string)
    requires Sound(ix)
    ensures StepsLive(ix, id, name)
  {
    SoundHasNoDangling(ix);
    var iy := ReplaceOne(ix, id, name);
    ReplaceOneOwnsApart(ix, id, name);
    forall n | n in Unlink(ix, id).names ensures Live(ix.names[n], iy.freed) {
      UnlinkedEntries(ix, id, n);
      assert Shared(ix, n);
      var x := ix.names[n].value.text;
      assert id in ix.ids ==> Apart(ix.ids[x], ix.ids[id]);
    }
    assert id in iy.ids && Live(iy.ids[id], iy.freed);
  }

  // ---------------------------------------------------------------- renaming a subtree

  /** The names of all listed folders are recomputed, one after the other. */
  function PatchAll(kf: KeyFile, ix: Index, order: seq<string>): Index
    requires Acyclic(kf)
    requires forall d :: d in order ==> Named(kf, d)
  {
    if order == [] then ix
    else
      var d := order[|order| - 1];
      ReplaceOne(PatchAll(kf, ix, order[..|order| - 1]), d, BuildFullName(kf, d).value)
  }

  /** order lists the members of s once each. */
  ghost predicate Lists(order: seq<string>, s: set<string>) {
    Distinct(order) && forall d :: d in order <==> d in s
  }

  /** Names in done are those of the new key file, all others those of the old one. */
  ghost predicate Mixed(kf0: KeyFile, kf: KeyFile, done: set<string>, ix: Index)
    requires Acyclic(kf0) && Acyclic(kf)
  {
    && Sound(ix)
    && (forall id {:trigger NameIn(ix, id)} :: id in done ==> NameIn(ix, id) == BuildFullName(kf, id))
    && (forall id {:trigger NameIn(ix, id)} :: id !in done ==> NameIn(ix, id) == BuildFullName(kf0, id))
  }

  ghost predicate SafeEdit(kf0: KeyFile, kf: KeyFile, a: string) {
    && ProperTree(kf0) && ProperTree(kf) && EditedAt(kf0, kf, a)
    && DistinctNames(kf0) && DistinctNames(kf)
  }

  /** The new name of the next folder to patch is not in use. */
  lemma MixedNameIsFree(kf0: KeyFile, kf: KeyFile, a: string, done: set<string>, ix: Index, d: string)
    requires SafeEdit(kf0, kf, a) && Mixed(kf0, kf, done, ix)
    requires forall e :: e in done ==> Under(kf, a, e)
    requires d !in done && Under(kf, a, d)
    ensures BuildFullName(kf, d).Some? && FreeFor(ix, BuildFullName(kf, d).value, d)
  {
    FullNameIsJoinedPath(kf, d);
    var name := BuildFullName(kf, d).value;
    if name in ix.names {
      var e := ix.names[name].value.text;
      SoundTablesAreInverse(ix, e, name);
      var same := SameFullName(kf, e, d);
      if e !in done {
        if Under(kf, a, e) {
          SubtreeNamesDoNotClash(kf0, kf, a, d, e);
        } else {
          EditKeepsNamesOutside(kf0, kf, a, e);
        }
      }
    }
  }

  lemma PatchOneKeepsMixed(kf0: KeyFile, kf: KeyFile, a: string, done: set<string>, ix: Index, d: string)
    requires SafeEdit(kf0, kf, a) && Mixed(kf0, kf, done, ix)
    requires forall e :: e in done ==> Under(kf, a, e)
    requires d !in done && Under(kf, a, d)
    ensures Mixed(kf0, kf, done + {d}, ReplaceOne(ix, d, BuildFullName(kf, d).value))
    ensures StepsLive(ix, d, BuildFullName(kf, d).value)
  {
    MixedNameIsFree(kf0, kf, a, done, ix, d);
    ReplaceOneIsSound(ix, d, BuildFullName(kf, d).value);
    ReplaceStepsHaveNoDangling(ix, d, BuildFullName(kf, d).value);
  }

  lemma {:induction false} PatchAllKeepsMixed(kf0: KeyFile, kf: KeyFile, a: string, done: set<string>, ix: Index,
                                              order: seq<string>, all: set<string>)
    requires SafeEdit(kf0, kf, a) && Mixed(kf0, kf, done, ix)
    requires forall e :: e in all ==> Under(kf, a, e)
    requires Lists(order, all - done) && done <= all
    ensures forall d :: d in order ==> Named(kf, d)
    ensures Mixed(kf0, kf, all, PatchAll(kf, ix, order))
  {
    forall e | e in order ensures Named(kf, e) {
      assert e in all - done && Under(kf, a, e);
    }
    if order == [] {
      assert forall d :: d in all - done <==> d in order;
      assert all == done + (all - done) == done;
    } else {
      var d, front := order[|order| - 1], order[..|order| - 1];
      ListsFront(order, all - done);
      var rest := all - {d};
      assert rest - done == all - done - {d} && rest + {d} == all;
      PatchAllKeepsMixed(kf0, kf, a, done, ix, front, rest);
      PatchOneKeepsMixed(kf0, kf, a, rest, PatchAll(kf, ix, front), d);
    }
  }

  lemma ListsFront(order: seq<string>, s: set<string>)
    requires Lists(order, s) && order != []
    ensures order[|order| - 1] in s && Lists(order[..|order| - 1], s - {order[|order| - 1]})
  {
  }

  /** Once a itself is replaced, the prefix scan finds exactly a's proper descendants, each once. */
  lemma PrefixScanFindsDescendants(kf0: KeyFile, kf: KeyFile, ix: Index, a: string, n: string, d: string)
    requires ProperTree(kf0) && ProperTree(kf) && EditedAt(kf0, kf, a) && Coherent(kf0, ix)
    requires BuildFullName(kf0, a).Some? && BuildFullName(kf, a).Some?
    ensures var ia, was := ReplaceOne(ix, a, BuildFullName(kf, a).value), BuildFullName(kf0, a).value;
            was + "/" <= n && IdIn(ia, n) == Some(d) <==>
            d != a && Under(kf, a, d) && BuildFullName(kf0, d) == Some(n)
  {
    var was := BuildFullName(kf0, a).value;
    FullNameIsJoinedPath(kf0, a);
    FullNameIsJoinedPath(kf, a);
    FullNameIsJoinedPath(kf0, d);
    CoherentNamesAreDistinct(kf0, ix);
    NewNameIsNotBelowOldName(kf0, kf, a);
    EditKeepsSubtree(kf0, kf, a, d);
    assert NameIn(ix, a) == Some(was) && NameIn(ix, d) == BuildFullName(kf0, d);
    SoundTablesAreInverse(ix, a, was);
    SoundTablesAreInverse(ix, d, n);
    if Named(kf0, d) {
      NamePrefixIsSubtree(kf0, a, d);
    }
    if was + "/" <= n {
      assert n != was && n != BuildFullName(kf, a).value;
      assert IdIn(ReplaceOne(ix, a, BuildFullName(kf, a).value), n) == IdIn(ix, n);
    }
  }

  /** The names that a prefix scan visits, in any order, and the ids it collects from them. */
  ghost predicate Collects(ix: Index, prefix: string, ids: seq<string>) {
    exists keys :: CollectsFrom(ix, prefix, keys, ids)
  }

  ghost predicate CollectsFrom(ix: Index, prefix: string, keys: seq<string>, ids: seq<string>) {
    && Distinct(keys)
    && (forall n :: n in keys <==> n in ix.names && prefix <= n)
    && |ids| == |keys|
    && forall i :: 0 <= i < |ids| ==> IdIn(ix, keys[i]) == Some(ids[i])
  }

  /** The folder's cached name leads back to it, so its subfolders are looked for. */
  predicate LeadsBack(ix: Index, a: string) {
    NameIn(ix, a).Some? && IdIn(ix, NameIn(ix, a).value) == Some(a)
  }

  /** The outcome of replacing folder a and, recursively, all folders collected below its old name. */
  ghost predicate ReplacedSubtree(kf: KeyFile, ix: Index, a: string, order: seq<string>, iy: Index)
    requires Acyclic(kf)
  {
    && Named(kf, a)
    && BuildFullName(kf, a).Some?
    && (forall d :: d in order ==> Named(kf, d))
    && var ia := ReplaceOne(ix, a, BuildFullName(kf, a).value);
      && (if LeadsBack(ix, a) then Collects(ia, NameIn(ix, a).value + "/", order) else order == [])
      && iy == PatchAll(kf, ia, order)
  }

  /** In a coherent index the collected folders are the proper descendants of a, each once. */
  lemma CollectedAreDescendants(kf0: KeyFile, kf: KeyFile, ix: Index, a: string, order: seq<string>)
    requires ProperTree(kf0) && ProperTree(kf) && EditedAt(kf0, kf, a) && Coherent(kf0, ix)
    requires BuildFullName(kf0, a).Some? && BuildFullName(kf, a).Some?
    requires Collects(ReplaceOne(ix, a, BuildFullName(kf, a).value), BuildFullName(kf0, a).value + "/", order)
    ensures Distinct(order)
    ensures forall d :: d in order <==> d != a && Under(kf, a, d)
  {
    var ia, prefix := ReplaceOne(ix, a, BuildFullName(kf, a).value), BuildFullName(kf0, a).value + "/";
    hide ReplaceOne, Coherent, BuildFullName;
    var keys :| CollectsFrom(ia, prefix, keys, order);
    forall i | 0 <= i < |order|
      ensures BuildFullName(kf0, order[i]) == Some(keys[i]) && order[i] != a && Under(kf, a, order[i])
    {
      assert keys[i] in keys;
      PrefixScanFindsDescendants(kf0, kf, ix, a, keys[i], order[i]);
    }
    forall d | d != a && Under(kf, a, d) ensures d in order {
      EditKeepsSubtree(kf0, kf, a, d);
      FullNameIsJoinedPath(kf0, d);
      var n := BuildFullName(kf0, d).value;
      PrefixScanFindsDescendants(kf0, kf, ix, a, n, d);
      assert n in keys;
      var i :| 0 <= i < |keys| && keys[i] == n;
      assert order[i] == d;
    }
  }

  lemma CoherentLeadsBack(kf: KeyFile, ix: Index, a: string)
    requires Acyclic(kf) && Coherent(kf, ix)
    ensures LeadsBack(ix, a) <==> Named(kf, a)
    ensures NameIn(ix, a) == BuildFullName(kf, a)
  {
    FullNameIsJoinedPath(kf, a);
    assert NameIn(ix, a) == BuildFullName(kf, a);
  }

  /** After a and any number of the collected folders the names are the new ones exactly there. */
  lemma PatchedSoFar(kf0: KeyFile, kf: KeyFile, ix: Index, a: string, order: seq<string>, i: nat)
    requires SafeEdit(kf0, kf, a) && Coherent(kf0, ix) && i <= |order|
    requires BuildFullName(kf, a).Some? && Distinct(order)
    requires forall d :: d in order ==> d != a && Under(kf, a, d)
    ensures StepsLive(ix, a, BuildFullName(kf, a).value)
    ensures forall d :: d in order ==> Named(kf, d)
    ensures Mixed(kf0, kf, {a} + (set d | d in order[..i]),
                  PatchAll(kf, ReplaceOne(ix, a, BuildFullName(kf, a).value), order[..i]))
  {
    assert Mixed(kf0, kf, {}, ix);
    PatchOneKeepsMixed(kf0, kf, a, {}, ix, a);
    assert {} + {a} == {a};
    var all := {a} + set d | d in order[..i];
    assert forall d :: d in order[..i] ==> d in order;
    assert Lists(order[..i], all - {a});
    PatchAllKeepsMixed(kf0, kf, a, {a}, ReplaceOne(ix, a, BuildFullName(kf, a).value), order[..i], all);
  }

  /**
   A rename or a move of an indexed folder restores full coherence, whatever order the
   matched subfolders are visited in.
   */
  lemma ReplaceSubtreeRestoresCoherence(kf0: KeyFile, kf: KeyFile, ix: Index, a: string, order: seq<string>, iy: Index)
    requires SafeEdit(kf0, kf, a)
    requires Coherent(kf0, ix)
    requires ReplacedSubtree(kf, ix, a, order, iy)
    ensures Coherent(kf, iy)
  {
    CoherentLeadsBack(kf0, ix, a);
    CollectedAreDescendants(kf0, kf, ix, a, order);
    PatchedSoFar(kf0, kf, ix, a, order, |order|);
    assert order[..|order|] == order;
    forall id ensures NameIn(iy, id) == BuildFullName(kf, id) {
      if id != a && id !in order {
        assert !Under(kf, a, id);
        EditKeepsNamesOutside(kf0, kf, a, id);
      }
    }
  }

  /** At patch i nothing freed is reachable after any of its steps. */
  ghost predicate PatchLive(kf: KeyFile, ia: Index, order: seq<string>, i: nat)
    requires Acyclic(kf) && i < |order|
    requires forall d :: d in order ==> Named(kf, d)
  {
    StepsLive(PatchAll(kf, ia, order[..i]), order[i], BuildFullName(kf, order[i]).value)
  }

  lemma PatchIsLive(kf0: KeyFile, kf: KeyFile, ix: Index, a: string, order: seq<string>, i: nat)
    requires SafeEdit(kf0, kf, a) && Coherent(kf0, ix) && i < |order|
    requires BuildFullName(kf, a).Some? && Distinct(order)
    requires forall d :: d in order ==> d != a && Under(kf, a, d)
    ensures forall d :: d in order ==> Named(kf, d)
    ensures PatchLive(kf, ReplaceOne(ix, a, BuildFullName(kf, a).value), order, i)
  {
    PatchedSoFar(kf0, kf, ix, a, order, i);
    var done, ia := {a} + (set d | d in order[..i]), ReplaceOne(ix, a, BuildFullName(kf, a).value);
    forall d | d in order[..i] ensures d != order[i] {
      var j :| 0 <= j < i && order[j] == d;
    }
    assert order[i] in order;
    hide StepsLive, Mixed, PatchAll, Coherent, ReplaceOne, BuildFullName, DistinctNames;
    PatchOneKeepsMixed(kf0, kf, a, done, PatchAll(kf, ia, order[..i]), order[i]);
  }

  /** Through the whole rename or move, at every step of every patch, no freed string is reachable. */
  lemma RenameHasNoDangling(kf0: KeyFile, kf: KeyFile, ix: Index, a: string, order: seq<string>, iy: Index)
    requires SafeEdit(kf0, kf, a) && Coherent(kf0, ix) && ReplacedSubtree(kf, ix, a, order, iy)
    ensures StepsLive(ix, a, BuildFullName(kf, a).value)
    ensures forall i :: 0 <= i < |order| ==> PatchLive(kf, ReplaceOne(ix, a, BuildFullName(kf, a).value), order, i)
  {
    CoherentLeadsBack(kf0, ix, a);
    CollectedAreDescendants(kf0, kf, ix, a, order);
    PatchedSoFar(kf0, kf, ix, a, order, 0);
    hide PatchLive, StepsLive, Coherent, Collects, PatchAll;
    forall i | 0 <= i < |order| ensures PatchLive(kf, ReplaceOne(ix, a, BuildFullName(kf, a).value), order, i) {
      PatchIsLive(kf0, kf, ix, a, order, i);
    }
  }

  /** A rename or a move keeps coherence exactly when the new name was not entered for another folder. */
  lemma RenameCoherence(kf0: KeyFile, kf: KeyFile, ix: Index, a: string, order: seq<string>, iy: Index)
    requires ProperTree(kf0) && ProperTree(kf) && EditedAt(kf0, kf, a)
    requires Coherent(kf0, ix)
    requires ReplacedSubtree(kf, ix, a, order, iy)
    ensures Coherent(kf, iy) <==> FreeFor(ix, BuildFullName(kf, a).value, a)
  {
    CoherentNamesAreDistinct(kf0, ix);
    EditKeepsDistinct(kf0, kf, a);
    LookupTellsFree(kf0, ix, BuildFullName(kf, a).value, a);
    if DistinctNames(kf) {
      ReplaceSubtreeRestoresCoherence(kf0, kf, ix, a, order, iy);
    }
    if Coherent(kf, iy) {
      CoherentNamesAreDistinct(kf, iy);
    }
  }
}
