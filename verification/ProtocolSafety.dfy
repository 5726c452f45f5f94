/**
 What holds in every interleaving of any number of threads: mutual exclusion, single flight
 of fetches and refreshes, no lost wakeup, agreement with the device's directory, and at most
 one removal pass.
 */
module ProtocolSafety {
  import opened Options
  import opened Protocol

  // ---------------------------------------------------------------- locks held at a point

  function MarkDepth(r: MarkFor): nat {
    if r.InRefresh? then 1 else 0
  }

  function SelectDepth(c: SelectFor): nat {
    if c.ForMark? then MarkDepth(c.r) + 1 else 1
  }

  function FetchDepth(at: FetchAt): nat {
    match at
    case FetchMkdir | FetchGet | FetchParse | FetchCacheLock | FetchCacheRead | FetchCacheUnlock
       | FetchLeave => 1
    case _ => 0
  }

  function RefreshDepth(at: RefreshAt): nat {
    match at
    case RefreshInbox | RefreshList | RefreshTest | RefreshClear | RefreshMerge(_) | RefreshPrune | RefreshLeave => 1
    case _ => 0
  }

  /** How often a thread at this point has acquired the current-folder lock. */
  function FolderDepth(pc: PC): nat {
    match pc
    case Idle => 0
    case Fetching(_, _, at) => FetchDepth(at)
    case Selecting(_, c, at) => SelectDepth(c) + if at.SelectLock? then 0 else 1
    case Refreshing(_, at) => RefreshDepth(at)
    case Marking(_, r, at) => MarkDepth(r) + if at.MarkEnter? then 0 else 1
    case Expunging(_, at) => if at.ExpungeEnter? then 0 else 1
    case Opening(_, at) => if at.OpenLock? then 0 else 1
    case Connecting(_, at) => if at.ConnectLock? then 0 else 1
    case Browsing(at) => if at.InfoLock? || at.InfoOnline? || at.WalkLock? || at.InfoUnlock? then 0 else 1
  }

  predicate FetchHoldsState(at: FetchAt) {
    match at
    case FetchCheck | FetchWait | FetchRecheck | WaitedUnlock | FetchInsert | FetchUnlock | FetchRemove
       | FetchCleanUnlock => true
    case _ => false
  }

  predicate FetchHoldsCache(at: FetchAt) {
    match at
    case TryCacheRead | TryCacheUnlock(_) | WaitedCacheRead | WaitedCacheUnlock | FetchCacheRead
       | FetchCacheUnlock => true
    case _ => false
  }

  predicate RefreshHoldsState(at: RefreshAt) {
    match at
    case RefreshCheck | RefreshSkip | RefreshSet | RefreshUnlock | RefreshReset | RefreshEndUnlock => true
    case _ => false
  }

  /** How often a thread at this point has acquired the lock. */
  function Holds(pc: PC, l: Lock): nat {
    match l
    case Finfo =>
      if (pc.Connecting? && pc.k.Listing?) || (pc.Browsing? && !pc.info.InfoLock?) then 1 else 0
    case CurrentFolder => FolderDepth(pc)
    case Cache(f) =>
      if pc.Fetching? && pc.f == f && FetchHoldsCache(pc.fetch) then 1 else 0
    case State(f) =>
      if pc.Fetching? && pc.f == f && FetchHoldsState(pc.fetch) then 1
      else if pc.Refreshing? && pc.f == f && RefreshHoldsState(pc.refresh) then 1
      else 0
  }

  /** Each action changes the held locks by what it acquires or releases. */
  lemma FollowsKeepsHolds(pc: PC, ok: bool, pc': PC, l: Lock)
    requires Follows(pc, ok, pc')
    ensures Holds(pc', l) == Holds(pc, l) + (if OpAt(pc) == Acquire(l) then 1 else 0)
                                          - (if OpAt(pc) == Release(l) then 1 else 0)
  {
    match l
    case Finfo => FollowsKeepsFinfo(pc, ok, pc');
    case CurrentFolder => FollowsKeepsFolder(pc, ok, pc');
    case Cache(f) => FollowsKeepsCache(pc, ok, pc', f);
    case State(f) => FollowsKeepsState(pc, ok, pc', f);
  }

  lemma FollowsKeepsFinfo(pc: PC, ok: bool, pc': PC)
    requires Follows(pc, ok, pc')
    ensures Holds(pc', Finfo) == Holds(pc, Finfo) + (if OpAt(pc) == Acquire(Finfo) then 1 else 0)
                                                  - (if OpAt(pc) == Release(Finfo) then 1 else 0)
  {
    match pc
    case Fetching(f, u, at) => FetchKeepsFinfo(f, u, at, ok);
    case Refreshing(f, at) => RefreshKeepsFinfo(f, at, ok);
    case Browsing(at) => BrowsingKeepsFinfo(at, ok, pc');
    case _ => OthersKeepFinfo(pc, ok, pc');
  }

  lemma FetchKeepsFinfo(f: Folder, u: Uid, at: FetchAt, ok: bool)
    ensures Holds(FetchNext(f, u, at, ok), Finfo) == 0
    ensures FetchOp(f, u, at) != Acquire(Finfo) && FetchOp(f, u, at) != Release(Finfo)
  {
  }

  lemma RefreshKeepsFinfo(f: Folder, at: RefreshAt, ok: bool)
    ensures Holds(RefreshNext(f, at, ok), Finfo) == 0
    ensures RefreshOp(f, at) != Acquire(Finfo) && RefreshOp(f, at) != Release(Finfo)
  {
  }

  lemma BrowsingKeepsFinfo(at: InfoAt, ok: bool, pc': PC)
    requires InfoNext(at, ok, pc')
    ensures Holds(pc', Finfo) == Holds(Browsing(at), Finfo) + (if InfoOp(at) == Acquire(Finfo) then 1 else 0)
                                                            - (if InfoOp(at) == Release(Finfo) then 1 else 0)
  {
  }

  lemma OthersKeepFinfo(pc: PC, ok: bool, pc': PC)
    requires Follows(pc, ok, pc') && !pc.Fetching? && !pc.Refreshing? && !pc.Browsing?
    ensures Holds(pc', Finfo) == Holds(pc, Finfo) + (if OpAt(pc) == Acquire(Finfo) then 1 else 0)
                                                  - (if OpAt(pc) == Release(Finfo) then 1 else 0)
  {
  }

  lemma FollowsKeepsFolder(pc: PC, ok: bool, pc': PC)
    requires Follows(pc, ok, pc')
    ensures Holds(pc', CurrentFolder) ==
            Holds(pc, CurrentFolder) + (if OpAt(pc) == Acquire(CurrentFolder) then 1 else 0)
                                     - (if OpAt(pc) == Release(CurrentFolder) then 1 else 0)
  {
    match pc
    case Fetching(f, u, at) => FetchKeepsFolder(f, u, at, ok);
    case Refreshing(f, at) => RefreshKeepsFolder(f, at, ok);
    case Browsing(at) => BrowsingKeepsFolder(at, ok, pc');
    case _ => OthersKeepFolder(pc, ok, pc');
  }

  lemma FetchKeepsFolder(f: Folder, u: Uid, at: FetchAt, ok: bool)
    ensures FolderDepth(FetchNext(f, u, at, ok)) ==
            FetchDepth(at) + (if FetchOp(f, u, at) == Acquire(CurrentFolder) then 1 else 0)
                           - (if FetchOp(f, u, at) == Release(CurrentFolder) then 1 else 0)
  {
  }

  lemma RefreshKeepsFolder(f: Folder, at: RefreshAt, ok: bool)
    ensures FolderDepth(RefreshNext(f, at, ok)) ==
            RefreshDepth(at) + (if RefreshOp(f, at) == Acquire(CurrentFolder) then 1 else 0)
                             - (if RefreshOp(f, at) == Release(CurrentFolder) then 1 else 0)
  {
  }

  lemma BrowsingKeepsFolder(at: InfoAt, ok: bool, pc': PC)
    requires InfoNext(at, ok, pc')
    ensures FolderDepth(pc') ==
            FolderDepth(Browsing(at)) + (if InfoOp(at) == Acquire(CurrentFolder) then 1 else 0)
                                      - (if InfoOp(at) == Release(CurrentFolder) then 1 else 0)
  {
  }

  lemma OthersKeepFolder(pc: PC, ok: bool, pc': PC)
    requires Follows(pc, ok, pc') && !pc.Fetching? && !pc.Refreshing? && !pc.Browsing?
    ensures FolderDepth(pc') ==
            FolderDepth(pc) + (if OpAt(pc) == Acquire(CurrentFolder) then 1 else 0)
                            - (if OpAt(pc) == Release(CurrentFolder) then 1 else 0)
  {
  }

  lemma FollowsKeepsCache(pc: PC, ok: bool, pc': PC, f: Folder)
    requires Follows(pc, ok, pc')
    ensures Holds(pc', Cache(f)) == Holds(pc, Cache(f)) + (if OpAt(pc) == Acquire(Cache(f)) then 1 else 0)
                                                        - (if OpAt(pc) == Release(Cache(f)) then 1 else 0)
  {
    if pc.Fetching? {
      FetchKeepsCache(pc.f, pc.u, pc.fetch, ok, f);
    } else {
      OthersKeepCache(pc, ok, pc', f);
    }
  }

  lemma FetchKeepsCache(g: Folder, u: Uid, at: FetchAt, ok: bool, f: Folder)
    ensures Holds(FetchNext(g, u, at, ok), Cache(f)) ==
            (if g == f && FetchHoldsCache(at) then 1 else 0)
            + (if FetchOp(g, u, at) == Acquire(Cache(f)) then 1 else 0)
            - (if FetchOp(g, u, at) == Release(Cache(f)) then 1 else 0)
  {
  }

  lemma OthersKeepCache(pc: PC, ok: bool, pc': PC, f: Folder)
    requires Follows(pc, ok, pc') && !pc.Fetching?
    ensures Holds(pc', Cache(f)) == Holds(pc, Cache(f)) == 0
    ensures OpAt(pc) != Acquire(Cache(f)) && OpAt(pc) != Release(Cache(f))
  {
  }

  lemma FollowsKeepsState(pc: PC, ok: bool, pc': PC, f: Folder)
    requires Follows(pc, ok, pc')
    ensures Holds(pc', State(f)) == Holds(pc, State(f)) + (if OpAt(pc) == Acquire(State(f)) then 1 else 0)
                                                        - (if OpAt(pc) == Release(State(f)) then 1 else 0)
  {
    match pc
    case Fetching(g, u, at) => FetchKeepsState(g, u, at, ok, f);
    case Refreshing(g, at) => RefreshKeepsState(g, at, ok, f);
    case _ => OthersKeepState(pc, ok, pc', f);
  }

  lemma FetchKeepsState(g: Folder, u: Uid, at: FetchAt, ok: bool, f: Folder)
    ensures Holds(FetchNext(g, u, at, ok), State(f)) ==
            (if g == f && FetchHoldsState(at) then 1 else 0)
            + (if FetchOp(g, u, at) == Acquire(State(f)) then 1 else 0)
            - (if FetchOp(g, u, at) == Release(State(f)) then 1 else 0)
  {
  }

  lemma RefreshKeepsState(g: Folder, at: RefreshAt, ok: bool, f: Folder)
    ensures Holds(RefreshNext(g, at, ok), State(f)) ==
            (if g == f && RefreshHoldsState(at) then 1 else 0)
            + (if RefreshOp(g, at) == Acquire(State(f)) then 1 else 0)
            - (if RefreshOp(g, at) == Release(State(f)) then 1 else 0)
  {
  }

  lemma OthersKeepState(pc: PC, ok: bool, pc': PC, f: Folder)
    requires Follows(pc, ok, pc') && !pc.Fetching? && !pc.Refreshing?
    ensures Holds(pc', State(f)) == Holds(pc, State(f)) == 0
    ensures OpAt(pc) != Acquire(State(f)) && OpAt(pc) != Release(State(f))
  {
  }

  /** The lock table says of every thread what its program point says. */
  ghost predicate LocksAgree(s: System) {
    && (forall t, l {:trigger Depth(s.sh, t, l)} {:trigger Holds(s.pcs[t], l)} ::
          t in s.pcs ==> Depth(s.sh, t, l) == Holds(s.pcs[t], l))
    && (forall l :: l in s.sh.locks ==> s.sh.locks[l].owner in s.pcs && s.sh.locks[l].depth > 0)
  }

  lemma ExecMovesLocks(t: Tid, op: Op, sh: Shared, ok: bool, sh': Shared)
    requires Exec(t, op, sh, ok, sh')
    ensures forall x, l :: Depth(sh', x, l) == Depth(sh, x, l) + (if x == t && op == Acquire(l) then 1 else 0)
                                                               - (if x == t && op == Release(l) then 1 else 0)
    ensures forall l :: l in sh'.locks ==> sh'.locks[l].owner == t || (l in sh.locks && sh'.locks[l] == sh.locks[l])
    ensures forall l :: l in sh'.locks && (l in sh.locks ==> sh.locks[l].depth > 0) ==> sh'.locks[l].depth > 0
  {
  }

  lemma StepKeepsLocks(s: System, t: Tid, s': System)
    requires LocksAgree(s) && ThreadStep(s, t, s')
    ensures LocksAgree(s')
  {
    hide OpAt, Follows, Wake, Holds, Carries, SeesFree, SeesInFlight, Owes, SleepsFor, Refreshes, SeesIdle;
    hide Relies, Granted, Clears;
    var op := OpAt(s.pcs[t]);
    var ok :| Exec(t, op, s.sh, ok, s'.sh) && Follows(s.pcs[t], ok, s'.pcs[t]) &&
              forall x :: x in s.pcs && x != t ==> s'.pcs[x] == Wake(s.pcs[x], op);
    ExecMovesLocks(t, op, s.sh, ok, s'.sh);
    hide Exec, Depth;
    forall x, l | x in s'.pcs ensures Depth(s'.sh, x, l) == Holds(s'.pcs[x], l) {
      assert Depth(s.sh, x, l) == Holds(s.pcs[x], l);
      FollowsKeepsHolds(s.pcs[t], ok, s'.pcs[t], l);
      WakeKeeps(s.pcs[x], op);
    }
  }

  /** A lock is held by one thread at a time. */
  lemma MutualExclusion(s: System, x: Tid, y: Tid, l: Lock)
    requires LocksAgree(s) && x in s.pcs && y in s.pcs
    requires Holds(s.pcs[x], l) > 0 && Holds(s.pcs[y], l) > 0
    ensures x == y
  {
  }

  // ---------------------------------------------------------------- single flight of fetches

  predicate FetchCarries(at: FetchAt) {
    match at
    case FetchUnlock | FetchEnter | FetchMkdir | FetchGet | FetchParse | FetchCacheLock | FetchCacheRead
       | FetchCacheUnlock | FetchLeave | FetchCleanLock | FetchRemove => true
    case _ => false
  }

  /** The message a thread is fetching, from the insertion of its uid until the removal. */
  function Carries(pc: PC): Option<(Folder, Uid)> {
    match pc
    case Fetching(f, u, at) => if FetchCarries(at) then Some((f, u)) else None
    case Selecting(f, c, _) => if c.ForFetch? then Some((f, c.u)) else None
    case _ => None
  }

  /** The uid a thread has just found in flight, or just found free, with the state lock held. */
  function SeesInFlight(pc: PC): Option<(Folder, Uid)> {
    if pc.Fetching? && pc.fetch.FetchWait? then Some((pc.f, pc.u)) else None
  }

  function SeesFree(pc: PC): Option<(Folder, Uid)> {
    if pc.Fetching? && pc.fetch.FetchInsert? then Some((pc.f, pc.u)) else None
  }

  /** How the carried uid changes with the action between two points. */
  ghost predicate CarriesOn(pc: PC, op: Op, pc': PC) {
    match op
    case InsertUid(f, u) => SeesFree(pc) == Some((f, u)) && Carries(pc) == None && Carries(pc') == Some((f, u))
    case RemoveUid(f, u) => Carries(pc) == Some((f, u)) && Carries(pc') == None && Holds(pc, State(f)) > 0
    case _ => Carries(pc') == Carries(pc)
  }

  lemma FollowsKeepsCarries(pc: PC, ok: bool, pc': PC)
    requires Follows(pc, ok, pc')
    ensures CarriesOn(pc, OpAt(pc), pc')
    ensures OpAt(pc).InsertUid? ==> Holds(pc, State(OpAt(pc).f)) > 0
  {
    match pc
    case Fetching(f, u, at) => FetchKeepsCarries(f, u, at, ok);
    case _ => OthersKeepCarries(pc, ok, pc');
  }

  lemma FetchKeepsCarries(f: Folder, u: Uid, at: FetchAt, ok: bool)
    ensures CarriesOn(Fetching(f, u, at), FetchOp(f, u, at), FetchNext(f, u, at, ok))
    ensures FetchOp(f, u, at).InsertUid? ==> FetchOp(f, u, at).f == f && FetchHoldsState(at)
  {
    if !at.FetchInsert? && !at.FetchRemove? {
      FetchCarriesOn(f, u, at, ok);
    }
  }

  lemma FetchCarriesOn(f: Folder, u: Uid, at: FetchAt, ok: bool)
    requires !at.FetchInsert? && !at.FetchRemove?
    ensures Carries(FetchNext(f, u, at, ok)) == Carries(Fetching(f, u, at))
    ensures !FetchOp(f, u, at).InsertUid? && !FetchOp(f, u, at).RemoveUid?
  {
  }

  lemma OthersKeepCarries(pc: PC, ok: bool, pc': PC)
    requires Follows(pc, ok, pc') && !pc.Fetching?
    ensures !OpAt(pc).InsertUid? && !OpAt(pc).RemoveUid? && Carries(pc') == Carries(pc)
  {
  }

  /** uid_eflags holds exactly the uids being fetched, each by exactly one thread. */
  ghost predicate SingleFlight(s: System) {
    && (forall t {:trigger Carries(s.pcs[t])} ::
          t in s.pcs && Carries(s.pcs[t]).Some? ==> Carries(s.pcs[t]).value in s.sh.inflight)
    && (forall k ::
          k in s.sh.inflight ==> exists t {:trigger Carries(s.pcs[t])} :: t in s.pcs && Carries(s.pcs[t]) == Some(k))
    && (forall x, y {:trigger Carries(s.pcs[x]), Carries(s.pcs[y])} ::
          x in s.pcs && y in s.pcs && Carries(s.pcs[x]).Some? && Carries(s.pcs[x]) == Carries(s.pcs[y]) ==> x == y)
    && (forall t {:trigger SeesFree(s.pcs[t])} ::
          t in s.pcs && SeesFree(s.pcs[t]).Some? ==> SeesFree(s.pcs[t]).value !in s.sh.inflight)
    && (forall t {:trigger SeesInFlight(s.pcs[t])} ::
          t in s.pcs && SeesInFlight(s.pcs[t]).Some? ==> SeesInFlight(s.pcs[t]).value in s.sh.inflight)
  }

  lemma WakeKeeps(pc: PC, op: Op)
    ensures Carries(Wake(pc, op)) == Carries(pc)
    ensures SeesInFlight(Wake(pc, op)) == SeesInFlight(pc) && SeesFree(Wake(pc, op)) == SeesFree(pc)
    ensures forall l :: Holds(Wake(pc, op), l) == Holds(pc, l)
    ensures Owes(Wake(pc, op)) == Owes(pc)
    ensures Refreshes(Wake(pc, op)) == Refreshes(pc) && SeesIdle(Wake(pc, op)) == SeesIdle(pc)
    ensures Relies(Wake(pc, op)) == Relies(pc) && AboutToNote(Wake(pc, op)) == AboutToNote(pc)
    ensures Granted(Wake(pc, op)) == Granted(pc) && Clears(Wake(pc, op)) == Clears(pc)
  {
  }

  lemma StepKeepsSingleFlight(s: System, t: Tid, s': System)
    requires LocksAgree(s) && SingleFlight(s) && ThreadStep(s, t, s')
    ensures SingleFlight(s')
  {
    hide OpAt, Follows, Wake, Holds, Carries, SeesFree, SeesInFlight, Owes, SleepsFor, Refreshes, SeesIdle;
    hide Relies, Granted, Clears;
    var op := OpAt(s.pcs[t]);
    var ok :| Exec(t, op, s.sh, ok, s'.sh) && Follows(s.pcs[t], ok, s'.pcs[t]) &&
              forall x :: x in s.pcs && x != t ==> s'.pcs[x] == Wake(s.pcs[x], op);
    FollowsKeepsCarries(s.pcs[t], ok, s'.pcs[t]);
    forall x | x in s.pcs && x != t
      ensures Carries(s'.pcs[x]) == Carries(s.pcs[x])
      ensures SeesFree(s'.pcs[x]) == SeesFree(s.pcs[x]) && SeesInFlight(s'.pcs[x]) == SeesInFlight(s.pcs[x])
    {
      WakeKeeps(s.pcs[x], op);
    }
    FlightOwners(s, t, s', ok);
    FlightWaiters(s, t, s', ok);
  }

  lemma ExecMovesInFlight(t: Tid, op: Op, sh: Shared, ok: bool, sh': Shared)
    requires Exec(t, op, sh, ok, sh')
    ensures sh'.inflight == match op
                            case InsertUid(f, u) => sh.inflight + {(f, u)}
                            case RemoveUid(f, u) => sh.inflight - {(f, u)}
                            case _ => sh.inflight
    ensures op.TestUid? ==> ok == ((op.f, op.u) in sh.inflight)
  {
  }

  lemma FlightOwners(s: System, t: Tid, s': System, ok: bool)
    requires LocksAgree(s) && SingleFlight(s) && t in s.pcs && s'.pcs.Keys == s.pcs.Keys
    requires Exec(t, OpAt(s.pcs[t]), s.sh, ok, s'.sh) && Follows(s.pcs[t], ok, s'.pcs[t])
    requires forall x :: x in s.pcs && x != t ==> Carries(s'.pcs[x]) == Carries(s.pcs[x])
    ensures forall x :: x in s'.pcs && Carries(s'.pcs[x]).Some? ==> Carries(s'.pcs[x]).value in s'.sh.inflight
    ensures forall k :: k in s'.sh.inflight ==> exists x :: x in s'.pcs && Carries(s'.pcs[x]) == Some(k)
    ensures forall x, y ::
          x in s'.pcs && y in s'.pcs && Carries(s'.pcs[x]).Some? && Carries(s'.pcs[x]) == Carries(s'.pcs[y]) ==> x == y
  {
    hide OpAt, Follows, Wake, Holds, Carries, SeesFree, SeesInFlight, Owes, SleepsFor, Refreshes, SeesIdle;
    hide Relies, Granted, Clears;
    ExecMovesInFlight(t, OpAt(s.pcs[t]), s.sh, ok, s'.sh);
    hide Exec, LocksAgree;
    FollowsKeepsCarries(s.pcs[t], ok, s'.pcs[t]);
    forall k | k in s'.sh.inflight ensures exists x :: x in s'.pcs && Carries(s'.pcs[x]) == Some(k) {
      if k in s.sh.inflight {
        var x :| x in s.pcs && Carries(s.pcs[x]) == Some(k);
        assert Carries(s'.pcs[x]) == Some(k);
      } else {
        assert Carries(s'.pcs[t]) == Some(k);
      }
    }
  }

  lemma FlightWaiters(s: System, t: Tid, s': System, ok: bool)
    requires LocksAgree(s) && SingleFlight(s) && t in s.pcs && s'.pcs.Keys == s.pcs.Keys
    requires Exec(t, OpAt(s.pcs[t]), s.sh, ok, s'.sh) && Follows(s.pcs[t], ok, s'.pcs[t])
    requires forall x :: x in s.pcs && x != t ==>
               SeesFree(s'.pcs[x]) == SeesFree(s.pcs[x]) && SeesInFlight(s'.pcs[x]) == SeesInFlight(s.pcs[x])
    ensures forall x :: x in s'.pcs && SeesFree(s'.pcs[x]).Some? ==> SeesFree(s'.pcs[x]).value !in s'.sh.inflight
    ensures forall x :: x in s'.pcs && SeesInFlight(s'.pcs[x]).Some? ==> SeesInFlight(s'.pcs[x]).value in s'.sh.inflight
  {
    hide OpAt, Follows, Wake, Holds, Carries, SeesFree, SeesInFlight, Owes, SleepsFor, Refreshes, SeesIdle;
    hide Relies, Granted, Clears;
    ExecMovesInFlight(t, OpAt(s.pcs[t]), s.sh, ok, s'.sh);
    hide Exec, LocksAgree;
    FollowsKeepsCarries(s.pcs[t], ok, s'.pcs[t]);
    FollowsSees(s.pcs[t], ok, s'.pcs[t]);
    forall x | x in s.pcs && x != t
      ensures SeesFree(s.pcs[x]).Some? ==> Holds(s.pcs[t], State(SeesFree(s.pcs[x]).value.0)) == 0
      ensures SeesInFlight(s.pcs[x]).Some? ==> Holds(s.pcs[t], State(SeesInFlight(s.pcs[x]).value.0)) == 0
    {
      SeeingHoldsState(s.pcs[x]);
      if SeesFree(s.pcs[x]).Some? && Holds(s.pcs[t], State(SeesFree(s.pcs[x]).value.0)) > 0 {
        MutualExclusion(s, x, t, State(SeesFree(s.pcs[x]).value.0));
      }
      if SeesInFlight(s.pcs[x]).Some? && Holds(s.pcs[t], State(SeesInFlight(s.pcs[x]).value.0)) > 0 {
        MutualExclusion(s, x, t, State(SeesInFlight(s.pcs[x]).value.0));
      }
    }
  }

  lemma SeeingHoldsState(pc: PC)
    ensures SeesFree(pc).Some? ==> Holds(pc, State(SeesFree(pc).value.0)) > 0
    ensures SeesInFlight(pc).Some? ==> Holds(pc, State(SeesInFlight(pc).value.0)) > 0
  {
  }

  /** What a thread has just seen is what its test of the table told. */
  lemma FollowsSees(pc: PC, ok: bool, pc': PC)
    requires Follows(pc, ok, pc')
    ensures SeesFree(pc').Some? ==> !ok && OpAt(pc) == TestUid(SeesFree(pc').value.0, SeesFree(pc').value.1)
    ensures SeesInFlight(pc').Some? ==> ok && OpAt(pc) == TestUid(SeesInFlight(pc').value.0, SeesInFlight(pc').value.1)
  {
  }

  // ---------------------------------------------------------------- no lost wakeup

  /** The folder whose condition variable the thread is about to broadcast on. */
  function Owes(pc: PC): Option<Folder> {
    if pc.Fetching? && (pc.fetch.FetchCleanUnlock? || pc.fetch.FetchBroadcast?) then Some(pc.f) else None
  }

  /** The uid a thread sleeps for. */
  function SleepsFor(pc: PC): Option<(Folder, Uid)> {
    if IsAsleep(pc) then Some((pc.f, pc.u)) else None
  }

  /**
   A thread asleep for a uid has that uid in flight, so a live thread owns it, or some thread
   still owes the broadcast.
   */
  ghost predicate NoLostWakeup(s: System) {
    forall t {:trigger SleepsFor(s.pcs[t])} :: t in s.pcs && SleepsFor(s.pcs[t]).Some? ==>
      || SleepsFor(s.pcs[t]).value in s.sh.inflight
      || exists x :: x in s.pcs && Owes(s.pcs[x]) == Some(SleepsFor(s.pcs[t]).value.0)
  }

  lemma FollowsKeepsOwes(pc: PC, ok: bool, pc': PC)
    requires Follows(pc, ok, pc')
    ensures Owes(pc).Some? ==> Owes(pc') == Owes(pc) || OpAt(pc) == Broadcast(Owes(pc).value)
    ensures OpAt(pc).RemoveUid? ==> Owes(pc') == Some(OpAt(pc).f)
    ensures SleepsFor(pc').Some? ==> SeesInFlight(pc) == SleepsFor(pc') && OpAt(pc).Release?
  {
  }

  lemma WakeSleeps(pc: PC, op: Op)
    ensures SleepsFor(Wake(pc, op)) ==
            if SleepsFor(pc).Some? && op == Broadcast(SleepsFor(pc).value.0) then None else SleepsFor(pc)
  {
  }

  lemma SeenIsInFlight(s: System, t: Tid)
    requires SingleFlight(s) && t in s.pcs
    ensures SeesInFlight(s.pcs[t]).Some? ==> SeesInFlight(s.pcs[t]).value in s.sh.inflight
  {
  }

  lemma StepKeepsWakeups(s: System, t: Tid, s': System)
    requires LocksAgree(s) && SingleFlight(s) && NoLostWakeup(s) && ThreadStep(s, t, s')
    ensures NoLostWakeup(s')
  {
    SeenIsInFlight(s, t);
    hide SingleFlight, LocksAgree;
    hide OpAt, Follows, Wake, Holds, Carries, SeesFree, SeesInFlight, Owes, SleepsFor, Refreshes, SeesIdle;
    hide Relies, Granted, Clears;
    var op := OpAt(s.pcs[t]);
    var ok :| Exec(t, op, s.sh, ok, s'.sh) && Follows(s.pcs[t], ok, s'.pcs[t]) &&
              forall x :: x in s.pcs && x != t ==> s'.pcs[x] == Wake(s.pcs[x], op);
    ExecMovesInFlight(t, op, s.sh, ok, s'.sh);
    hide Exec;
    FollowsKeepsOwes(s.pcs[t], ok, s'.pcs[t]);
    forall y | y in s'.pcs && SleepsFor(s'.pcs[y]).Some?
      ensures SleepsFor(s'.pcs[y]).value in s'.sh.inflight ||
              exists x :: x in s'.pcs && Owes(s'.pcs[x]) == Some(SleepsFor(s'.pcs[y]).value.0)
    {
      var k := SleepsFor(s'.pcs[y]).value;
      if y != t {
        WakeSleeps(s.pcs[y], op);
        if k in s.sh.inflight {
          assert k in s'.sh.inflight || Owes(s'.pcs[t]) == Some(k.0);
        } else {
          var x :| x in s.pcs && Owes(s.pcs[x]) == Some(k.0);
          WakeKeeps(s.pcs[x], op);
          assert Owes(s'.pcs[x]) == Some(k.0);
        }
      }
    }
  }

  // ---------------------------------------------------------------- single refresh of a folder

  predicate RefreshIsOn(at: RefreshAt) {
    match at
    case RefreshLock | RefreshCheck | RefreshSkip | RefreshSet | RefreshEndUnlock => false
    case _ => true
  }

  /** The folder a thread is refreshing, between setting and resetting the flag. */
  function Refreshes(pc: PC): Option<Folder> {
    match pc
    case Refreshing(f, at) => if RefreshIsOn(at) then Some(f) else None
    case Marking(f, r, _) => if r.InRefresh? then Some(f) else None
    case Selecting(f, c, _) => if c.ForRefresh? || (c.ForMark? && c.r.InRefresh?) then Some(f) else None
    case _ => None
  }

  /** The folder a thread has just found not refreshing, with the state lock held. */
  function SeesIdle(pc: PC): Option<Folder> {
    if pc.Refreshing? && pc.refresh.RefreshSet? then Some(pc.f) else None
  }

  /** How the refreshed folder changes with the action between two points. */
  ghost predicate RefreshesOn(pc: PC, op: Op, pc': PC) {
    match op
    case SetRefreshing(f, on) =>
      && Holds(pc, State(f)) > 0
      && (if on then SeesIdle(pc) == Some(f) && Refreshes(pc) == None && Refreshes(pc') == Some(f)
          else Refreshes(pc) == Some(f) && Refreshes(pc') == None)
    case _ => Refreshes(pc') == Refreshes(pc)
  }

  lemma FollowsKeepsRefreshes(pc: PC, ok: bool, pc': PC)
    requires Follows(pc, ok, pc')
    ensures RefreshesOn(pc, OpAt(pc), pc')
    ensures SeesIdle(pc').Some? ==> !ok && OpAt(pc) == TestRefreshing(SeesIdle(pc').value)
  {
    match pc
    case Refreshing(f, at) => RefreshKeepsRefreshes(f, at, ok);
    case _ => OthersKeepRefreshes(pc, ok, pc');
  }

  lemma RefreshKeepsRefreshes(f: Folder, at: RefreshAt, ok: bool)
    ensures RefreshesOn(Refreshing(f, at), RefreshOp(f, at), RefreshNext(f, at, ok))
    ensures SeesIdle(RefreshNext(f, at, ok)).Some? ==> !ok && RefreshOp(f, at) == TestRefreshing(f)
    ensures SeesIdle(RefreshNext(f, at, ok)).Some? ==> SeesIdle(RefreshNext(f, at, ok)).value == f
  {
  }

  lemma OthersKeepRefreshes(pc: PC, ok: bool, pc': PC)
    requires Follows(pc, ok, pc') && !pc.Refreshing?
    ensures !OpAt(pc).SetRefreshing? && Refreshes(pc') == Refreshes(pc) && SeesIdle(pc') == None
  {
  }

  lemma SeeingIdleHoldsState(pc: PC)
    ensures SeesIdle(pc).Some? ==> Holds(pc, State(SeesIdle(pc).value)) > 0
  {
  }

  /** The refreshing flag of a folder is set exactly while one thread refreshes it. */
  ghost predicate SingleRefresh(s: System) {
    && (forall t {:trigger Refreshes(s.pcs[t])} ::
          t in s.pcs && Refreshes(s.pcs[t]).Some? ==> Refreshes(s.pcs[t]).value in s.sh.refreshing)
    && (forall f ::
          f in s.sh.refreshing ==>
            exists t {:trigger Refreshes(s.pcs[t])} :: t in s.pcs && Refreshes(s.pcs[t]) == Some(f))
    && (forall x, y {:trigger Refreshes(s.pcs[x]), Refreshes(s.pcs[y])} ::
          x in s.pcs && y in s.pcs && Refreshes(s.pcs[x]).Some? && Refreshes(s.pcs[x]) == Refreshes(s.pcs[y]) ==>
            x == y)
    && (forall t {:trigger SeesIdle(s.pcs[t])} ::
          t in s.pcs && SeesIdle(s.pcs[t]).Some? ==> SeesIdle(s.pcs[t]).value !in s.sh.refreshing)
  }

  lemma StepKeepsSingleRefresh(s: System, t: Tid, s': System)
    requires LocksAgree(s) && SingleRefresh(s) && ThreadStep(s, t, s')
    ensures SingleRefresh(s')
  {
    hide LocksAgree;
    hide OpAt, Follows, Wake, Holds, Carries, SeesFree, SeesInFlight, Owes, SleepsFor, Refreshes, SeesIdle;
    hide Relies, Granted, Clears;
    var op := OpAt(s.pcs[t]);
    var ok :| Exec(t, op, s.sh, ok, s'.sh) && Follows(s.pcs[t], ok, s'.pcs[t]) &&
              forall x :: x in s.pcs && x != t ==> s'.pcs[x] == Wake(s.pcs[x], op);
    forall x | x in s.pcs && x != t
      ensures Refreshes(s'.pcs[x]) == Refreshes(s.pcs[x]) && SeesIdle(s'.pcs[x]) == SeesIdle(s.pcs[x])
    {
      WakeKeeps(s.pcs[x], op);
    }
    RefreshOwners(s, t, s', ok);
    RefreshSeers(s, t, s', ok);
  }

  lemma ExecMovesRefreshing(t: Tid, op: Op, sh: Shared, ok: bool, sh': Shared)
    requires Exec(t, op, sh, ok, sh')
    ensures sh'.refreshing == match op
                              case SetRefreshing(f, on) => if on then sh.refreshing + {f} else sh.refreshing - {f}
                              case _ => sh.refreshing
    ensures op.TestRefreshing? ==> ok == (op.f in sh.refreshing)
  {
  }

  lemma RefreshOwners(s: System, t: Tid, s': System, ok: bool)
    requires SingleRefresh(s) && t in s.pcs && s'.pcs.Keys == s.pcs.Keys
    requires Exec(t, OpAt(s.pcs[t]), s.sh, ok, s'.sh) && Follows(s.pcs[t], ok, s'.pcs[t])
    requires forall x :: x in s.pcs && x != t ==> Refreshes(s'.pcs[x]) == Refreshes(s.pcs[x])
    ensures forall x :: x in s'.pcs && Refreshes(s'.pcs[x]).Some? ==> Refreshes(s'.pcs[x]).value in s'.sh.refreshing
    ensures forall f :: f in s'.sh.refreshing ==> exists x :: x in s'.pcs && Refreshes(s'.pcs[x]) == Some(f)
    ensures forall x, y {:trigger Refreshes(s'.pcs[x]), Refreshes(s'.pcs[y])} ::
              x in s'.pcs && y in s'.pcs && Refreshes(s'.pcs[x]).Some? &&
              Refreshes(s'.pcs[x]) == Refreshes(s'.pcs[y]) ==>
                x == y
  {
    hide OpAt, Follows, Refreshes, SeesIdle, Holds;
    ExecMovesRefreshing(t, OpAt(s.pcs[t]), s.sh, ok, s'.sh);
    hide Exec;
    FollowsKeepsRefreshes(s.pcs[t], ok, s'.pcs[t]);
    forall f | f in s'.sh.refreshing ensures exists x :: x in s'.pcs && Refreshes(s'.pcs[x]) == Some(f) {
      if f in s.sh.refreshing {
        var x :| x in s.pcs && Refreshes(s.pcs[x]) == Some(f);
        assert Refreshes(s'.pcs[x]) == Some(f);
      } else {
        assert Refreshes(s'.pcs[t]) == Some(f);
      }
    }
  }

  lemma RefreshSeers(s: System, t: Tid, s': System, ok: bool)
    requires LocksAgree(s) && SingleRefresh(s) && t in s.pcs && s'.pcs.Keys == s.pcs.Keys
    requires Exec(t, OpAt(s.pcs[t]), s.sh, ok, s'.sh) && Follows(s.pcs[t], ok, s'.pcs[t])
    requires forall x :: x in s.pcs && x != t ==> SeesIdle(s'.pcs[x]) == SeesIdle(s.pcs[x])
    ensures forall x :: x in s'.pcs && SeesIdle(s'.pcs[x]).Some? ==> SeesIdle(s'.pcs[x]).value !in s'.sh.refreshing
  {
    hide OpAt, Follows, Refreshes, SeesIdle, Holds, LocksAgree;
    ExecMovesRefreshing(t, OpAt(s.pcs[t]), s.sh, ok, s'.sh);
    hide Exec;
    FollowsKeepsRefreshes(s.pcs[t], ok, s'.pcs[t]);
    forall x | x in s.pcs && x != t
      ensures SeesIdle(s.pcs[x]).Some? ==> Holds(s.pcs[t], State(SeesIdle(s.pcs[x]).value)) == 0
    {
      SeeingIdleHoldsState(s.pcs[x]);
      if SeesIdle(s.pcs[x]).Some? && Holds(s.pcs[t], State(SeesIdle(s.pcs[x]).value)) > 0 {
        MutualExclusion(s, x, t, State(SeesIdle(s.pcs[x]).value));
      }
    }
  }

  // ---------------------------------------------------------------- the device's directory

  /** The directory that the thread counts on the device being in. */
  function Relies(pc: PC): Option<Dir> {
    match pc
    case Fetching(f, _, at) => if at.FetchGet? then Some(DirOf(f)) else None
    case Selecting(f, c, at) =>
      if at.SelectNote? || (at.SelectUnlock? && at.ok) then Some(Target(f, c)) else None
    case Refreshing(_, at) => if at.RefreshList? then Some(ROOT_DIR) else None
    case Marking(f, _, at) => if at.MarkSend? then Some(DirOf(f)) else None
    case Connecting(_, at) => if at.ConnectNote? || at.ConnectList? then Some(ROOT_DIR) else None
    case Browsing(at) => if at.WalkNote? || at.WalkList? then Some(at.d) else None
    case _ => None
  }

  /** The thread has selected the directory but not yet noted it in current_selected_folder. */
  predicate AboutToNote(pc: PC) {
    OpAt(pc).Note?
  }

  lemma FollowsKeepsRelies(pc: PC, ok: bool, pc': PC)
    requires Follows(pc, ok, pc')
    ensures Relies(pc').Some? ==>
              if OpAt(pc).Select? then ok && OpAt(pc).d == Relies(pc').value else Relies(pc) == Relies(pc')
    ensures Relies(pc').Some? && !AboutToNote(pc') ==>
              if AboutToNote(pc) then OpAt(pc).d == Relies(pc').value else Relies(pc) == Relies(pc')
  {
    match pc
    case Fetching(f, u, at) => FetchKeepsRelies(f, u, at, ok);
    case _ =>
  }

  lemma FetchKeepsRelies(f: Folder, u: Uid, at: FetchAt, ok: bool)
    ensures Relies(FetchNext(f, u, at, ok)) == None
  {
  }

  lemma RelyingHoldsFolderLock(pc: PC)
    ensures Relies(pc).Some? || OpAt(pc).Select? || OpAt(pc).Note? ==> Holds(pc, CurrentFolder) > 0
  {
  }

  /** The device is where the thread last put it, and current_selected_folder says so once it is noted. */
  ghost predicate DeviceAgrees(s: System) {
    forall t {:trigger Relies(s.pcs[t])} :: t in s.pcs && Relies(s.pcs[t]).Some? ==>
      && s.sh.device == Relies(s.pcs[t]).value
      && t in s.sh.lastSelected && s.sh.lastSelected[t] == Relies(s.pcs[t]).value
      && (AboutToNote(s.pcs[t]) || s.sh.noted == Relies(s.pcs[t]).value)
  }

  lemma ExecMovesDevice(t: Tid, op: Op, sh: Shared, ok: bool, sh': Shared)
    requires Exec(t, op, sh, ok, sh')
    ensures !op.Select? ==> sh'.device == sh.device && sh'.lastSelected == sh.lastSelected
    ensures op.Select? && ok ==> sh'.device == op.d && sh'.lastSelected == sh.lastSelected[t := op.d]
    ensures sh'.noted == if op.Note? then op.d else sh.noted
    ensures sh'.settled == if op.Select? then (if ok then Some(op.d) else None) else sh.settled
  {
  }

  /** Unless the last selection failed, the device is where it led to. */
  predicate SettledAgrees(s: System) {
    s.sh.settled.Some? ==> s.sh.device == s.sh.settled.value
  }

  lemma StepKeepsSettled(s: System, t: Tid, s': System)
    requires SettledAgrees(s) && ThreadStep(s, t, s')
    ensures SettledAgrees(s')
  {
    hide OpAt, Follows, Exec;
    var ok :| Exec(t, OpAt(s.pcs[t]), s.sh, ok, s'.sh) && Follows(s.pcs[t], ok, s'.pcs[t]);
    ExecMovesDevice(t, OpAt(s.pcs[t]), s.sh, ok, s'.sh);
  }

  /** While a thread holds the current-folder lock no other one selects or notes a directory. */
  lemma HolderIsAlone(s: System, x: Tid, t: Tid)
    requires LocksAgree(s) && x in s.pcs && t in s.pcs && x != t && Holds(s.pcs[x], CurrentFolder) > 0
    ensures !OpAt(s.pcs[t]).Select? && !OpAt(s.pcs[t]).Note?
  {
    hide LocksAgree, Holds, OpAt, Relies;
    RelyingHoldsFolderLock(s.pcs[t]);
    if Holds(s.pcs[t], CurrentFolder) > 0 {
      MutualExclusion(s, x, t, CurrentFolder);
    }
  }

  lemma StepKeepsDevice(s: System, t: Tid, s': System)
    requires LocksAgree(s) && DeviceAgrees(s) && ThreadStep(s, t, s')
    ensures DeviceAgrees(s')
  {
    hide LocksAgree, AboutToNote;
    hide OpAt, Follows, Wake, Holds, Carries, SeesFree, SeesInFlight, Owes, SleepsFor, Refreshes, SeesIdle;
    hide Relies, Granted, Clears;
    hide Exec;
    var op := OpAt(s.pcs[t]);
    var ok :| Exec(t, op, s.sh, ok, s'.sh) && Follows(s.pcs[t], ok, s'.pcs[t]) &&
              forall x :: x in s.pcs && x != t ==> s'.pcs[x] == Wake(s.pcs[x], op);
    ExecMovesDevice(t, op, s.sh, ok, s'.sh);
    FollowsKeepsRelies(s.pcs[t], ok, s'.pcs[t]);
    NoteIsNote(s.pcs[t]);
    forall x | x in s'.pcs && Relies(s'.pcs[x]).Some?
      ensures s'.sh.device == Relies(s'.pcs[x]).value
      ensures x in s'.sh.lastSelected && s'.sh.lastSelected[x] == Relies(s'.pcs[x]).value
      ensures AboutToNote(s'.pcs[x]) || s'.sh.noted == Relies(s'.pcs[x]).value
    {
      if x != t {
        WakeKeeps(s.pcs[x], op);
        RelyingHoldsFolderLock(s.pcs[x]);
        HolderIsAlone(s, x, t);
      }
    }
  }

  lemma NoteIsNote(pc: PC)
    ensures AboutToNote(pc) <==> OpAt(pc).Note?
    ensures AboutToNote(pc) ==> Relies(pc) == Some(OpAt(pc).d)
  {
  }

  // ---------------------------------------------------------------- the removal pass

  predicate GrantedMark(r: MarkFor) {
    r.InRefresh? && r.initial
  }

  /** The refresh that found initial_fetch set, until it has done its removal pass. */
  predicate Granted(pc: PC) {
    match pc
    case Refreshing(_, at) => at.RefreshClear? || at.RefreshPrune? || (at.RefreshMerge? && at.initial)
    case Marking(_, r, _) => GrantedMark(r)
    case Selecting(_, c, _) => c.ForMark? && GrantedMark(c.r)
    case _ => false
  }

  /** The thread is about to clear initial_fetch. */
  predicate Clears(pc: PC) {
    pc.Refreshing? && pc.refresh.RefreshClear?
  }

  lemma FollowsKeepsGranted(pc: PC, ok: bool, pc': PC)
    requires Follows(pc, ok, pc')
    ensures Granted(pc') <==> (OpAt(pc).TestInitial? && ok) || (Granted(pc) && !OpAt(pc).Prune?)
    ensures Clears(pc') <==> OpAt(pc).TestInitial? && ok
  {
    match pc
    case Refreshing(f, at) => RefreshKeepsGranted(f, at, ok);
    case Fetching(f, u, at) => FetchKeepsGranted(f, u, at, ok);
    case _ => OthersKeepGranted(pc, ok, pc');
  }

  lemma RefreshKeepsGranted(f: Folder, at: RefreshAt, ok: bool)
    ensures var pc, pc' := Refreshing(f, at), RefreshNext(f, at, ok);
            && (Granted(pc') <==> (RefreshOp(f, at).TestInitial? && ok) || (Granted(pc) && !RefreshOp(f, at).Prune?))
            && (Clears(pc') <==> RefreshOp(f, at).TestInitial? && ok)
  {
  }

  lemma FetchKeepsGranted(f: Folder, u: Uid, at: FetchAt, ok: bool)
    ensures !Granted(FetchNext(f, u, at, ok)) && !FetchOp(f, u, at).TestInitial?
  {
  }

  lemma OthersKeepGranted(pc: PC, ok: bool, pc': PC)
    requires Follows(pc, ok, pc') && !pc.Refreshing? && !pc.Fetching?
    ensures !OpAt(pc).TestInitial? && !OpAt(pc).Prune?
    ensures Granted(pc') == Granted(pc) && !Clears(pc')
  {
  }

  lemma GrantOps(pc: PC)
    ensures OpAt(pc).Prune? ==> Granted(pc)
    ensures Granted(pc) || OpAt(pc).TestInitial? ==> Holds(pc, CurrentFolder) > 0
    ensures OpAt(pc).TestInitial? ==> !Granted(pc)
    ensures OpAt(pc).ClearInitial? <==> Clears(pc)
  {
  }

  lemma ExecCounts(t: Tid, op: Op, sh: Shared, ok: bool, sh': Shared)
    requires Exec(t, op, sh, ok, sh')
    ensures sh'.grants == sh.grants + if op.TestInitial? && ok then 1 else 0
    ensures sh'.prunes == sh.prunes + if op.Prune? then 1 else 0
    ensures sh'.initialFetch == (sh.initialFetch && !op.ClearInitial?)
    ensures op.TestInitial? ==> ok == sh.initialFetch
  {
  }

  ghost predicate OnePrune(s: System) {
    && s.sh.prunes <= s.sh.grants <= 1
    && (s.sh.initialFetch ==> s.sh.grants == 0 || exists t :: t in s.pcs && Clears(s.pcs[t]))
    && (forall t :: t in s.pcs && Granted(s.pcs[t]) ==> s.sh.grants == 1 && s.sh.prunes == 0)
  }

  lemma StepKeepsOnePrune(s: System, t: Tid, s': System)
    requires LocksAgree(s) && OnePrune(s) && ThreadStep(s, t, s')
    ensures OnePrune(s')
  {
    hide OpAt, Follows, Wake, Holds, Carries, SeesFree, SeesInFlight, Owes, SleepsFor, Refreshes, SeesIdle;
    hide Relies, Granted, Clears;
    var op := OpAt(s.pcs[t]);
    var ok :| Exec(t, op, s.sh, ok, s'.sh) && Follows(s.pcs[t], ok, s'.pcs[t]) &&
              forall x :: x in s.pcs && x != t ==> s'.pcs[x] == Wake(s.pcs[x], op);
    ExecCounts(t, op, s.sh, ok, s'.sh);
    hide Exec, LocksAgree;
    FollowsKeepsGranted(s.pcs[t], ok, s'.pcs[t]);
    GrantOps(s.pcs[t]);
    forall x | x in s.pcs && x != t
      ensures Granted(s'.pcs[x]) <==> Granted(s.pcs[x])
      ensures Clears(s'.pcs[x]) <==> Clears(s.pcs[x])
      ensures Granted(s.pcs[x]) ==> !op.Prune? && !op.TestInitial?
    {
      WakeKeeps(s.pcs[x], op);
      if Granted(s.pcs[x]) && (op.Prune? || op.TestInitial?) {
        GrantedHoldsFolderLock(s.pcs[x]);
        MutualExclusion(s, x, t, CurrentFolder);
      }
    }
    if s.sh.initialFetch && s.sh.grants != 0 {
      var x :| x in s.pcs && Clears(s.pcs[x]);
      GrantedHoldsFolderLock(s.pcs[x]);
      assert x != t ==> Clears(s'.pcs[x]);
    }
    assert op.TestInitial? && ok ==> Clears(s'.pcs[t]);
  }

  lemma GrantedHoldsFolderLock(pc: PC)
    ensures Clears(pc) ==> Granted(pc)
    ensures Granted(pc) ==> Holds(pc, CurrentFolder) > 0
  {
  }

  // ---------------------------------------------------------------- every run

  ghost predicate Inv(s: System) {
    && LocksAgree(s) && SingleFlight(s) && NoLostWakeup(s)
    && SingleRefresh(s) && DeviceAgrees(s) && SettledAgrees(s) && OnePrune(s)
  }

  lemma InitHasInv(s: System)
    requires Init(s)
    ensures Inv(s)
  {
  }

  lemma QuietStepKeepsInv(s: System, t: Tid, s': System)
    requires Inv(s) && QuietStep(s, t, s')
    ensures Inv(s')
  {
    QuietFacts(s.pcs[t], s'.pcs[t]);
    forall l ensures Holds(s'.pcs[t], l) == Holds(s.pcs[t], l) {
      FollowsKeepsHolds(s.pcs[t], true, s'.pcs[t], l);
    }
    QuietKeepsTables(s, t, s');
    QuietKeepsWakeups(s, t, s');
    QuietKeepsRest(s, t, s');
  }

  /** Only thread t moves, and nothing shared changes. */
  ghost predicate OnlyMoves(s: System, t: Tid, s': System) {
    t in s.pcs && t in s'.pcs && s' == System(s.pcs[t := s'.pcs[t]], s.sh)
  }

  lemma QuietKeepsTables(s: System, t: Tid, s': System)
    requires SingleFlight(s) && SingleRefresh(s) && OnlyMoves(s, t, s')
    requires Carries(s.pcs[t]) == Carries(s'.pcs[t]) == None && Refreshes(s.pcs[t]) == Refreshes(s'.pcs[t]) == None
    requires SeesFree(s'.pcs[t]) == SeesInFlight(s'.pcs[t]) == None && SeesIdle(s'.pcs[t]) == None
    ensures SingleFlight(s') && SingleRefresh(s')
  {
    hide Carries, SeesFree, SeesInFlight, Refreshes, SeesIdle;
    forall k | k in s'.sh.inflight ensures exists x :: x in s'.pcs && Carries(s'.pcs[x]) == Some(k) {
      var x :| x in s.pcs && Carries(s.pcs[x]) == Some(k);
      assert s'.pcs[x] == s.pcs[x];
    }
    forall f | f in s'.sh.refreshing ensures exists x :: x in s'.pcs && Refreshes(s'.pcs[x]) == Some(f) {
      var x :| x in s.pcs && Refreshes(s.pcs[x]) == Some(f);
      assert s'.pcs[x] == s.pcs[x];
    }
  }

  lemma QuietKeepsWakeups(s: System, t: Tid, s': System)
    requires NoLostWakeup(s) && OnlyMoves(s, t, s')
    requires SleepsFor(s'.pcs[t]) == None && Owes(s.pcs[t]) == None
    ensures NoLostWakeup(s')
  {
    hide SleepsFor, Owes;
    forall y | y in s'.pcs && SleepsFor(s'.pcs[y]).Some? && SleepsFor(s'.pcs[y]).value !in s'.sh.inflight
      ensures exists x :: x in s'.pcs && Owes(s'.pcs[x]) == Some(SleepsFor(s'.pcs[y]).value.0)
    {
      assert s'.pcs[y] == s.pcs[y];
      var x :| x in s.pcs && Owes(s.pcs[x]) == Some(SleepsFor(s.pcs[y]).value.0);
      assert s'.pcs[x] == s.pcs[x];
    }
  }

  lemma QuietKeepsRest(s: System, t: Tid, s': System)
    requires LocksAgree(s) && DeviceAgrees(s) && OnePrune(s) && OnlyMoves(s, t, s')
    requires forall l :: Holds(s'.pcs[t], l) == Holds(s.pcs[t], l)
    requires Relies(s'.pcs[t]) == None && !Granted(s'.pcs[t]) && !Clears(s.pcs[t])
    ensures LocksAgree(s') && DeviceAgrees(s') && OnePrune(s')
  {
    hide Holds, Relies, Granted, Clears;
    forall x, l | x in s'.pcs ensures Depth(s'.sh, x, l) == Holds(s'.pcs[x], l) {
      assert Depth(s.sh, x, l) == Holds(s.pcs[x], l);
    }
    if s.sh.initialFetch && s.sh.grants != 0 {
      var x :| x in s.pcs && Clears(s.pcs[x]);
      assert s'.pcs[x] == s.pcs[x];
    }
  }

  lemma QuietFacts(pc: PC, pc': PC)
    requires (pc.Idle? || IsAsleep(pc)) && Follows(pc, true, pc')
    ensures Carries(pc) == Carries(pc') == None && Refreshes(pc) == Refreshes(pc') == None
    ensures Relies(pc') == None && !Granted(pc') && Owes(pc) == None && !Clears(pc)
    ensures SeesFree(pc') == SeesInFlight(pc') == SleepsFor(pc') == None && SeesIdle(pc') == None
    ensures OpAt(pc).Nothing?
  {
  }

  lemma NextKeepsInv(s: System, s': System)
    requires Inv(s) && Next(s, s')
    ensures Inv(s')
  {
    var t :| ThreadStep(s, t, s') || QuietStep(s, t, s');
    if ThreadStep(s, t, s') {
      StepKeepsLocks(s, t, s');
      StepKeepsSingleFlight(s, t, s');
      StepKeepsWakeups(s, t, s');
      StepKeepsSingleRefresh(s, t, s');
      StepKeepsDevice(s, t, s');
      StepKeepsSettled(s, t, s');
      StepKeepsOnePrune(s, t, s');
    } else {
      QuietStepKeepsInv(s, t, s');
    }
  }

  lemma {:induction false} RunsKeepInv(run: seq<System>, i: nat)
    requires IsRun(run) && i < |run|
    ensures Inv(run[i])
  {
    if i == 0 {
      InitHasInv(run[0]);
    } else {
      RunsKeepInv(run, i - 1);
      assert Next(run[i - 1], run[i - 1 + 1]);
      NextKeepsInv(run[i - 1], run[i]);
    }
  }

  /**
   Whenever a request other than an expunge's is sent, the device is in the directory that its
   sender last selected, and current_selected_folder names it.
   */
  lemma RequestsFindTheirDirectory(run: seq<System>, i: nat, t: Tid)
    requires IsRun(run) && i < |run| && t in run[i].pcs
    requires OpAt(run[i].pcs[t]).Send? && !run[i].pcs[t].Expunging?
    ensures var sh, d := run[i].sh, OpAt(run[i].pcs[t]).d;
            sh.device == d && sh.noted == d && t in sh.lastSelected && sh.lastSelected[t] == d
  {
    RunsKeepInv(run, i);
    SendRelies(run[i].pcs[t]);
  }

  lemma SendRelies(pc: PC)
    ensures OpAt(pc).Send? && !pc.Expunging? ==> Relies(pc) == Some(OpAt(pc).d) && !AboutToNote(pc)
  {
  }

  /** Over any run, on all folders together, at most one removal pass takes place. */
  lemma AtMostOnePrune(run: seq<System>, i: nat)
    requires IsRun(run) && i < |run|
    ensures run[i].sh.prunes <= 1
  {
    RunsKeepInv(run, i);
  }

  /** In every reachable state a sleeper's uid is owned by a live thread or its broadcast is still owed. */
  lemma NoWakeupIsLost(run: seq<System>, i: nat, t: Tid)
    requires IsRun(run) && i < |run| && t in run[i].pcs && IsAsleep(run[i].pcs[t])
    ensures var s, k := run[i], (run[i].pcs[t].f, run[i].pcs[t].u);
            || (k in s.sh.inflight && exists x :: x in s.pcs && Carries(s.pcs[x]) == Some(k))
            || (exists x :: x in s.pcs && Owes(s.pcs[x]) == Some(k.0))
  {
    RunsKeepInv(run, i);
    assert SleepsFor(run[i].pcs[t]).Some?;
  }

  /** No two threads hold the same lock in any reachable state. */
  lemma LocksExclude(run: seq<System>, i: nat, x: Tid, y: Tid, l: Lock)
    requires IsRun(run) && i < |run| && x in run[i].pcs && y in run[i].pcs
    requires Holds(run[i].pcs[x], l) > 0 && Holds(run[i].pcs[y], l) > 0
    ensures x == y
  {
    RunsKeepInv(run, i);
    MutualExclusion(run[i], x, y, l);
  }

  /** The uids in flight are those of the fetching threads, and the refreshing folders likewise. */
  lemma FlagsNameOneThread(run: seq<System>, i: nat)
    requires IsRun(run) && i < |run|
    ensures forall f, u :: (f, u) in run[i].sh.inflight <==>
                             exists t :: t in run[i].pcs && Carries(run[i].pcs[t]) == Some((f, u))
    ensures forall f ::
          f in run[i].sh.refreshing <==> exists t :: t in run[i].pcs && Refreshes(run[i].pcs[t]) == Some(f)
    ensures forall x, y |
              x in run[i].pcs && y in run[i].pcs && Carries(run[i].pcs[x]) == Carries(run[i].pcs[y]) ::
              Carries(run[i].pcs[x]).Some? ==> x == y
    ensures forall x, y |
              x in run[i].pcs && y in run[i].pcs && Refreshes(run[i].pcs[x]) == Refreshes(run[i].pcs[y]) ::
              Refreshes(run[i].pcs[x]).Some? ==> x == y
  {
    RunsKeepInv(run, i);
  }
}
