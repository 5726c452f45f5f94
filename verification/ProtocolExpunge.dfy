/**
 The device's directory during an expunge, which selects none of its own: the exact condition
 under which its deletions find the folder's directory, and a run in which they do not.
 */
module ProtocolExpunge {
  import opened Options
  import opened Protocol
  import opened ProtocolSafety

  /** An expunge past its lock; it selects no directory of its own. */
  predicate InExpunge(pc: PC) {
    pc.Expunging? && !pc.expunge.ExpungeEnter?
  }

  /** From state j, where it takes the lock, to state i the thread is in one expunge. */
  ghost predicate ExpungeSpan(run: seq<System>, j: nat, i: nat, t: Tid) {
    && j < i < |run|
    && (forall k :: j <= k <= i ==> t in run[k].pcs)
    && run[j].pcs[t].Expunging? && run[j].pcs[t].expunge.ExpungeEnter?
    && forall k :: j < k <= i ==> InExpunge(run[k].pcs[t])
  }

  lemma ExpungeFacts(pc: PC, ok: bool, pc': PC)
    requires Follows(pc, ok, pc') && InExpunge(pc')
    ensures pc.Expunging? && pc.f == pc'.f
  {
  }

  lemma InExpungeHolds(pc: PC)
    requires pc.Expunging?
    ensures InExpunge(pc) ==> Holds(pc, CurrentFolder) > 0
    ensures !OpAt(pc).Select? && !OpAt(pc).Note?
  {
  }

  /** One step neither brings a thread into an expunge from elsewhere nor moves the device in it. */
  lemma StepInExpunge(s: System, s': System, t: Tid)
    requires LocksAgree(s) && Next(s, s') && t in s'.pcs && InExpunge(s'.pcs[t])
    ensures t in s.pcs && s.pcs[t].Expunging? && s.pcs[t].f == s'.pcs[t].f
    ensures s'.sh.device == s.sh.device && s'.sh.settled == s.sh.settled
  {
    hide LocksAgree, Exec, OpAt, Follows, Holds;
    var x :| ThreadStep(s, x, s') || QuietStep(s, x, s');
    if ThreadStep(s, x, s') {
      var op := OpAt(s.pcs[x]);
      var ok :| Exec(x, op, s.sh, ok, s'.sh) && Follows(s.pcs[x], ok, s'.pcs[x]) &&
                forall y :: y in s.pcs && y != x ==> s'.pcs[y] == Wake(s.pcs[y], op);
      ExecMovesDevice(x, op, s.sh, ok, s'.sh);
      if x == t {
        ExpungeFacts(s.pcs[t], ok, s'.pcs[t]);
        InExpungeHolds(s.pcs[t]);
      } else {
        InExpungeHolds(s.pcs[t]);
        HolderIsAlone(s, t, x);
      }
    } else if x == t {
      ExpungeFacts(s.pcs[t], true, s'.pcs[t]);
    }
  }

  /**
   An expunge selects no directory: all the while the device stays where it was when the lock was
   taken, so its deletions find the folder's directory exactly when the device was there already.
   */
  lemma {:induction false} ExpungeFindsItsDirectoryIff(run: seq<System>, i: nat, t: Tid) returns (j: nat)
    requires IsRun(run) && i < |run| && t in run[i].pcs && InExpunge(run[i].pcs[t])
    ensures ExpungeSpan(run, j, i, t) && run[j].pcs[t].f == run[i].pcs[t].f
    ensures run[i].sh.device == run[j].sh.device && run[i].sh.settled == run[j].sh.settled
    ensures run[i].sh.device == DirOf(run[i].pcs[t].f) <==> run[j].sh.device == DirOf(run[j].pcs[t].f)
  {
    hide Inv, Init, Next, InExpunge;
    if i == 0 {
      StartsIdle(run, t);
    } else {
      RunStepInExpunge(run, i, t);
      if InExpunge(run[i - 1].pcs[t]) {
        j := ExpungeFindsItsDirectoryIff(run, i - 1, t);
      } else {
        j := i - 1;
        NotInExpunge(run[j].pcs[t]);
      }
    }
  }

  lemma NotInExpunge(pc: PC)
    requires pc.Expunging? && !InExpunge(pc)
    ensures pc.expunge.ExpungeEnter?
  {
  }

  lemma StartsIdle(run: seq<System>, t: Tid)
    requires IsRun(run) && t in run[0].pcs
    ensures !InExpunge(run[0].pcs[t])
  {
  }

  lemma RunStepInExpunge(run: seq<System>, i: nat, t: Tid)
    requires IsRun(run) && 0 < i < |run| && t in run[i].pcs && InExpunge(run[i].pcs[t])
    ensures t in run[i - 1].pcs && run[i - 1].pcs[t].Expunging? && run[i - 1].pcs[t].f == run[i].pcs[t].f
    ensures run[i].sh.device == run[i - 1].sh.device && run[i].sh.settled == run[i - 1].sh.settled
  {
    RunsKeepInv(run, i - 1);
    assert Next(run[i - 1], run[i - 1 + 1]);
    hide Next, LocksAgree, InExpunge;
    StepInExpunge(run[i - 1], run[i], t);
  }

  /**
   When the last selection made before the expunge took the lock succeeded, its deletions find the
   folder's directory exactly when it was that directory.
   */
  lemma SettledExpungeIff(run: seq<System>, i: nat, t: Tid) returns (j: nat)
    requires IsRun(run) && i < |run| && t in run[i].pcs && InExpunge(run[i].pcs[t])
    ensures ExpungeSpan(run, j, i, t) && run[j].pcs[t].f == run[i].pcs[t].f
    ensures run[j].sh.settled.Some? ==>
              (run[i].sh.device == DirOf(run[i].pcs[t].f) <==> run[j].sh.settled == Some(DirOf(run[j].pcs[t].f)))
  {
    j := ExpungeFindsItsDirectoryIff(run, i, t);
    RunsKeepInv(run, j);
  }

  // ---------------------------------------------------------------- a run that misses it

  lemma Extend(run: seq<System>, s: System) returns (longer: seq<System>)
    requires IsRun(run) && Next(run[|run| - 1], s)
    ensures IsRun(longer) && longer == run + [s]
  {
    longer := run + [s];
    hide Init, Next;
    forall i | 0 <= i < |longer| - 1 ensures Next(longer[i], longer[i + 1]) {
      if i < |run| - 1 {
        assert longer[i] == run[i] && longer[i + 1] == run[i + 1];
      } else {
        assert longer[i] == run[|run| - 1] && longer[i + 1] == s;
      }
    }
  }

  /** Some run of a single thread ends at this point with this shared state. */
  ghost predicate Reached(pc: PC, sh: Shared) {
    exists run :: IsRun(run) && run[|run| - 1] == System(map[0 := pc], sh)
  }

  lemma Begin(pc: PC, sh: Shared)
    requires Reached(Idle, sh) && Starts(pc)
    ensures Reached(pc, sh)
  {
    var run: seq<System> :| IsRun(run) && run[|run| - 1] == System(map[0 := Idle], sh);
    var s, s' := run[|run| - 1], System(map[0 := pc], sh);
    hide IsRun;
    assert s' == System(s.pcs[0 := s'.pcs[0]], s.sh);
    assert QuietStep(s, 0, s');
    var longer := Extend(run, s');
  }

  /** The thread's next action, with the outcome ok. */
  lemma Continue(pc: PC, sh: Shared, ok: bool, pc': PC, sh': Shared)
    requires Reached(pc, sh) && Exec(0, OpAt(pc), sh, ok, sh') && Follows(pc, ok, pc')
    ensures Reached(pc', sh')
  {
    var run: seq<System> :| IsRun(run) && run[|run| - 1] == System(map[0 := pc], sh);
    var s' := System(map[0 := pc'], sh');
    hide OpAt, Follows, Exec, IsRun;
    assert ThreadStep(run[|run| - 1], 0, s');
    var longer := Extend(run, s');
  }

  /** The shared state of the run, apart from what its directories say. */
  function Solo(locks: map<Lock, Hold>, refreshing: set<Folder>, d: Dir, last: map<Tid, Dir>): Shared {
    Shared(locks, {}, refreshing, true, d, ROOT_DIR, last, Some(d), 0, 0)
  }

  const ONCE := map[CurrentFolder := Hold(0, 1)]
  const TWICE := map[CurrentFolder := Hold(0, 2)]

  /** The folder is opened, which selects its directory. */
  lemma OpenedRun(f: Folder, sh: Shared) returns (last: map<Tid, Dir>)
    requires sh == Shared(map[], {}, {}, true, ROOT_DIR, ROOT_DIR, map[], None, 0, 0) && Reached(Idle, sh)
    ensures Reached(Idle, Solo(map[], {}, DirOf(f), last))
  {
    hide Reached;
    last := map[0 := DirOf(f)];
    var d, sh1 := DirOf(f), sh.(locks := ONCE);
    Begin(Opening(f, OpenLock), sh);
    Continue(Opening(f, OpenLock), sh, true, Opening(f, OpenCall), sh1);
    Continue(Opening(f, OpenCall), sh1, true, Opening(f, OpenUnlock), Solo(ONCE, {}, d, last));
    Continue(Opening(f, OpenUnlock), Solo(ONCE, {}, d, last), true, Idle, Solo(map[], {}, d, last));
  }

  /** A refresh sets its flag and takes the current-folder lock. */
  lemma RefreshBegun(f: Folder, d: Dir, last: map<Tid, Dir>)
    requires Reached(Idle, Solo(map[], {}, d, last))
    ensures Reached(Refreshing(f, RefreshInbox), Solo(ONCE, {f}, d, last))
  {
    hide Reached;
    var held := map[State(f) := Hold(0, 1)];
    Begin(Refreshing(f, RefreshLock), Solo(map[], {}, d, last));
    Continue(Refreshing(f, RefreshLock), Solo(map[], {}, d, last), true,
             Refreshing(f, RefreshCheck), Solo(held, {}, d, last));
    Continue(Refreshing(f, RefreshCheck), Solo(held, {}, d, last), false,
             Refreshing(f, RefreshSet), Solo(held, {}, d, last));
    Continue(Refreshing(f, RefreshSet), Solo(held, {}, d, last), true,
             Refreshing(f, RefreshUnlock), Solo(held, {f}, d, last));
    Continue(Refreshing(f, RefreshUnlock), Solo(held, {f}, d, last), true,
             Refreshing(f, RefreshEnter), Solo(map[], {f}, d, last));
    Continue(Refreshing(f, RefreshEnter), Solo(map[], {f}, d, last), true,
             Refreshing(f, RefreshInbox), Solo(ONCE, {f}, d, last));
  }

  /** It selects the root directory. */
  lemma RootSelected(f: Folder, d: Dir, last: map<Tid, Dir>) returns (last': map<Tid, Dir>)
    requires Reached(Refreshing(f, RefreshInbox), Solo(ONCE, {f}, d, last))
    ensures Reached(Refreshing(f, RefreshList), Solo(ONCE, {f}, ROOT_DIR, last'))
  {
    hide Reached;
    last' := last[0 := ROOT_DIR];
    var sh := Solo(TWICE, {f}, ROOT_DIR, last');
    Continue(Refreshing(f, RefreshInbox), Solo(ONCE, {f}, d, last), true,
             Selecting(f, ForRefresh, SelectLock), Solo(ONCE, {f}, d, last));
    Continue(Selecting(f, ForRefresh, SelectLock), Solo(ONCE, {f}, d, last), true,
             Selecting(f, ForRefresh, SelectCall), Solo(TWICE, {f}, d, last));
    Continue(Selecting(f, ForRefresh, SelectCall), Solo(TWICE, {f}, d, last), true,
             Selecting(f, ForRefresh, SelectNote), sh);
    Continue(Selecting(f, ForRefresh, SelectNote), sh, true, Selecting(f, ForRefresh, SelectUnlock(true)), sh);
    Continue(Selecting(f, ForRefresh, SelectUnlock(true)), sh, true,
             Refreshing(f, RefreshList), Solo(ONCE, {f}, ROOT_DIR, last'));
  }

  /** Its listing fails and it ends. */
  lemma RefreshEnded(f: Folder, d: Dir, last: map<Tid, Dir>)
    requires Reached(Refreshing(f, RefreshList), Solo(ONCE, {f}, d, last))
    ensures Reached(Idle, Solo(map[], {}, d, last))
  {
    hide Reached;
    var held := map[State(f) := Hold(0, 1)];
    Continue(Refreshing(f, RefreshList), Solo(ONCE, {f}, d, last), false,
             Refreshing(f, RefreshLeave), Solo(ONCE, {f}, d, last));
    Continue(Refreshing(f, RefreshLeave), Solo(ONCE, {f}, d, last), true,
             Refreshing(f, RefreshEndLock), Solo(map[], {f}, d, last));
    Continue(Refreshing(f, RefreshEndLock), Solo(map[], {f}, d, last), true,
             Refreshing(f, RefreshReset), Solo(held, {f}, d, last));
    Continue(Refreshing(f, RefreshReset), Solo(held, {f}, d, last), true,
             Refreshing(f, RefreshEndUnlock), Solo(held, {}, d, last));
    Continue(Refreshing(f, RefreshEndUnlock), Solo(held, {}, d, last), true, Idle, Solo(map[], {}, d, last));
  }

  lemma ExpungeBegun(f: Folder, d: Dir, last: map<Tid, Dir>)
    requires Reached(Idle, Solo(map[], {}, d, last))
    ensures Reached(Expunging(f, ExpungeSend), Solo(ONCE, {}, d, last))
  {
    hide Reached;
    Begin(Expunging(f, ExpungeEnter), Solo(map[], {}, d, last));
    Continue(Expunging(f, ExpungeEnter), Solo(map[], {}, d, last), true,
             Expunging(f, ExpungeLoop), Solo(ONCE, {}, d, last));
    Continue(Expunging(f, ExpungeLoop), Solo(ONCE, {}, d, last), true,
             Expunging(f, ExpungeSend), Solo(ONCE, {}, d, last));
  }

  /**
   One thread opens a folder, refreshes it and expunges it: the deletion is sent while the device
   is still in the root directory, where the refresh left it.
   */
  lemma ExpungeMayMissItsDirectory(f: Folder) returns (run: seq<System>)
    ensures IsRun(run)
    ensures run[|run| - 1].pcs == map[0 := Expunging(f, ExpungeSend)]
    ensures OpAt(run[|run| - 1].pcs[0]) == Send(SetMessage, DirOf(f))
    ensures run[|run| - 1].sh.device == ROOT_DIR != DirOf(f)
  {
    var sh := Shared(map[], {}, {}, true, ROOT_DIR, ROOT_DIR, map[], None, 0, 0);
    assert IsRun([System(map[0 := Idle], sh)]);
    assert Reached(Idle, sh);
    hide Reached, IsRun;
    var last := OpenedRun(f, sh);
    RefreshBegun(f, DirOf(f), last);
    last := RootSelected(f, DirOf(f), last);
    RefreshEnded(f, ROOT_DIR, last);
    ExpungeBegun(f, ROOT_DIR, last);
    run := RunTo(Expunging(f, ExpungeSend), Solo(ONCE, {}, ROOT_DIR, last));
    assert |DirOf(f)| > |ROOT_DIR|;
  }

  lemma RunTo(pc: PC, sh: Shared) returns (run: seq<System>)
    requires Reached(pc, sh)
    ensures IsRun(run) && run[|run| - 1] == System(map[0 := pc], sh)
  {
    run :| IsRun(run) && run[|run| - 1] == System(map[0 := pc], sh);
  }
}
