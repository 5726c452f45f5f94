/**
 No interleaving gets stuck: locks are taken in rank order, a sleeping thread is owed a
 wakeup, so while some operation is unfinished some thread can do its next action.
 Spurious wakeups and newly begun operations are not counted as progress.
 */
module ProtocolProgress {
  import opened Options
  import opened Protocol
  import opened ProtocolSafety

  function Rank(l: Lock): nat {
    match l
    case Finfo => 0
    case CurrentFolder => 1
    case Cache(_) => 2
    case State(_) => 3
  }

  /** A lock is acquired only above all locks held, or again when it is re-entrant. */
  lemma LocksAreTakenInRankOrder(pc: PC, l: Lock, held: Lock)
    requires OpAt(pc) == Acquire(l) && Holds(pc, held) > 0
    ensures Rank(held) < Rank(l) || (held == l && Reentrant(l))
  {
  }

  /** While a thread holds a state lock it holds no other lock and acquires none. */
  lemma StateLockIsHeldAlone(pc: PC, f: Folder, l: Lock)
    requires Holds(pc, State(f)) > 0
    ensures !OpAt(pc).Acquire?
    ensures Holds(pc, l) > 0 ==> l == State(f)
  {
  }

  lemma RestingHoldsNothing(pc: PC, l: Lock)
    requires OpAt(pc).Nothing?
    ensures Holds(pc, l) == 0
    ensures pc.Idle? || IsAsleep(pc)
  {
  }

  // ---------------------------------------------------------------- an action can be done

  function SomeNext(pc: PC, ok: bool): PC {
    match pc
    case Idle => Browsing(InfoLock)
    case Fetching(f, u, at) => FetchNext(f, u, at, ok)
    case Selecting(f, c, at) =>
      (match at
       case SelectLock => Selecting(f, c, SelectCall)
       case SelectCall => Selecting(f, c, if ok then SelectNote else SelectUnlock(false))
       case SelectNote => Selecting(f, c, SelectUnlock(true))
       case SelectUnlock(selected) => Selected(f, c, selected))
    case Refreshing(f, at) => RefreshNext(f, at, ok)
    case Marking(f, r, at) =>
      (match at
       case MarkEnter => Selecting(f, ForMark(r), SelectLock)
       case MarkSend => Marking(f, r, MarkLeave)
       case MarkLeave => if r.InRefresh? then Refreshing(f, RefreshMerge(r.initial)) else Idle)
    case Expunging(f, at) =>
      (match at
       case ExpungeEnter => Expunging(f, ExpungeLoop)
       case ExpungeLoop => Expunging(f, ExpungeLeave)
       case ExpungeSend => Expunging(f, ExpungeLeave)
       case ExpungeLeave => Idle)
    case Opening(f, at) =>
      (match at
       case OpenLock => Opening(f, OpenCall)
       case OpenCall => Opening(f, OpenUnlock)
       case OpenUnlock => Idle)
    case Connecting(k, at) => ConnectNext(k, at, ok)
    case Browsing(at) =>
      (match at
       case InfoLock => Browsing(InfoOnline)
       case InfoOnline => Browsing(if ok then WalkLock else InfoUnlock)
       case WalkLock => Browsing(WalkNext([ROOT_DIR]))
       case WalkNext(todo) => Browsing(if todo == [] then WalkUnlock else WalkSelect(todo[0], todo[1..]))
       case WalkSelect(d, todo) => Browsing(if ok then WalkNote(d, todo) else WalkNext(todo))
       case WalkNote(d, todo) => Browsing(WalkList(d, todo))
       case WalkList(_, todo) => Browsing(WalkNext(todo))
       case WalkUnlock => Browsing(InfoUnlock)
       case InfoUnlock => Idle)
  }

  /** Every point has a successor for either outcome of its action, expunging for a failed one. */
  lemma SomeNextFollows(pc: PC, ok: bool)
    requires pc.Expunging? ==> !ok
    ensures Follows(pc, ok, SomeNext(pc, ok))
  {
  }

  /** The thread's next action is not blocked. */
  predicate Ready(s: System, t: Tid) {
    t in s.pcs &&
    match OpAt(s.pcs[t])
    case Nothing => false
    case Acquire(l) => CanAcquire(s.sh, t, l)
    case _ => true
  }

  /** The outcome and the new shared state of an unblocked action. */
  lemma SomeOutcome(t: Tid, op: Op, sh: Shared) returns (ok: bool, sh': Shared)
    requires !op.Nothing?
    requires op.Acquire? ==> CanAcquire(sh, t, op.l)
    requires op.Release? ==> Depth(sh, t, op.l) > 0
    ensures Exec(t, op, sh, ok, sh')
    ensures op.Choose? || op.Acquire? || op.Release? || op.Send? ==> !ok
  {
    ok := false;
    sh' := sh;
    match op {
      case Acquire(l) =>
        sh' := sh.(locks := sh.locks[l := Hold(t, Depth(sh, t, l) + 1)]);
      case Release(l) =>
        sh' := sh.(locks := if Depth(sh, t, l) == 1 then sh.locks - {l}
                            else sh.locks[l := Hold(t, Depth(sh, t, l) - 1)]);
      case TestUid(f, u) =>
        ok := (f, u) in sh.inflight;
      case InsertUid(f, u) =>
        sh' := sh.(inflight := sh.inflight + {(f, u)});
      case RemoveUid(f, u) =>
        sh' := sh.(inflight := sh.inflight - {(f, u)});
      case TestRefreshing(f) =>
        ok := f in sh.refreshing;
      case SetRefreshing(f, on) =>
        sh' := sh.(refreshing := if on then sh.refreshing + {f} else sh.refreshing - {f});
      case TestInitial =>
        ok := sh.initialFetch;
        sh' := sh.(grants := sh.grants + if ok then 1 else 0);
      case ClearInitial =>
        sh' := sh.(initialFetch := false);
      case Prune =>
        sh' := sh.(prunes := sh.prunes + 1);
      case Select(d) =>
        sh' := sh.(device := sh.device, settled := None);
      case Note(d) =>
        sh' := sh.(noted := d);
      case _ =>
    }
  }

  lemma ReleaseIsHeld(pc: PC)
    requires OpAt(pc).Release?
    ensures Holds(pc, OpAt(pc).l) > 0
  {
  }

  lemma ExpungeOps(pc: PC)
    requires pc.Expunging?
    ensures OpAt(pc).Choose? || OpAt(pc).Acquire? || OpAt(pc).Release? || OpAt(pc).Send?
  {
  }

  lemma ReadyCanStep(s: System, t: Tid) returns (s': System)
    requires LocksAgree(s) && Ready(s, t)
    ensures ThreadStep(s, t, s')
  {
    hide OpAt, Follows, Holds, SomeNext, Exec, Wake;
    var pc, op := s.pcs[t], OpAt(s.pcs[t]);
    if op.Release? {
      ReleaseIsHeld(pc);
      assert Depth(s.sh, t, op.l) == Holds(s.pcs[t], op.l);
    }
    var ok, sh' := SomeOutcome(t, op, s.sh);
    if pc.Expunging? {
      ExpungeOps(pc);
    }
    SomeNextFollows(pc, ok);
    s' := System(map x | x in s.pcs :: if x == t then SomeNext(pc, ok) else Wake(s.pcs[x], op), sh');
  }

  // ---------------------------------------------------------------- no deadlock

  /** Follow the lock a thread waits for to its holder; ranks rise, so an unblocked thread is found. */
  lemma {:induction false} Unblocked(s: System, t: Tid) returns (x: Tid)
    requires LocksAgree(s) && t in s.pcs && !OpAt(s.pcs[t]).Nothing?
    ensures Ready(s, x)
    decreases if OpAt(s.pcs[t]).Acquire? then 4 - Rank(OpAt(s.pcs[t]).l) else 0
  {
    hide OpAt, Holds;
    x := t;
    if !Ready(s, t) {
      var l := OpAt(s.pcs[t]).l;
      var holder := s.sh.locks[l].owner;
      assert Depth(s.sh, holder, l) == Holds(s.pcs[holder], l);
      if OpAt(s.pcs[holder]).Nothing? {
        RestingHoldsNothing(s.pcs[holder], l);
      }
      if Ready(s, holder) {
        x := holder;
      } else {
        LocksAreTakenInRankOrder(s.pcs[holder], OpAt(s.pcs[holder]).l, l);
        x := Unblocked(s, holder);
      }
    }
  }

  /** Someone who will broadcast, or will remove the uid first, is awake. */
  lemma SleeperHasHelper(s: System, t: Tid) returns (x: Tid)
    requires SingleFlight(s) && NoLostWakeup(s) && t in s.pcs && IsAsleep(s.pcs[t])
    ensures x in s.pcs && !OpAt(s.pcs[x]).Nothing?
  {
    var k := SleepsFor(s.pcs[t]).value;
    if k in s.sh.inflight {
      x :| x in s.pcs && Carries(s.pcs[x]) == Some(k);
      HelperIsAwake(s.pcs[x]);
    } else {
      x :| x in s.pcs && Owes(s.pcs[x]) == Some(k.0);
      HelperIsAwake(s.pcs[x]);
    }
  }

  lemma HelperIsAwake(pc: PC)
    requires Carries(pc).Some? || Owes(pc).Some?
    ensures !OpAt(pc).Nothing?
  {
  }

  /** In every reachable state with an unfinished operation some thread can act. */
  lemma NoDeadlock(run: seq<System>, i: nat, t: Tid) returns (x: Tid, s': System)
    requires IsRun(run) && i < |run|
    requires t in run[i].pcs && !run[i].pcs[t].Idle?
    ensures ThreadStep(run[i], x, s')
  {
    hide OpAt, ThreadStep;
    RunsKeepInv(run, i);
    var s := run[i];
    var helper := t;
    if OpAt(s.pcs[t]).Nothing? {
      RestingHoldsNothing(s.pcs[t], Finfo);
      helper := SleeperHasHelper(s, t);
    }
    x := Unblocked(s, helper);
    s' := ReadyCanStep(s, x);
  }
}
