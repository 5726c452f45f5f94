/**
 The threads that work on one account: fetching messages, refreshing, expunging, marking,
 opening folders and listing the folder tree.

 Each thread is at a program point.  OpAt gives the one shared action of a point, Follows the
 points that come after it, and Exec what the action does to the shared state.  D-Bus calls
 return success or failure, freely chosen.
 */
module Protocol {
  import opened Options

  type Tid = nat
  type Folder = string
  type Uid = string
  type Dir = string

  const ROOT_DIR := "/telecom/msg"

  /** The device directory of a folder (map_dir). */
  function DirOf(f: Folder): Dir {
    ROOT_DIR + "/" + f
  }

  datatype Lock =
    | Finfo                 // get_finfo_lock
    | CurrentFolder         // current_folder_lock, re-entrant
    | Cache(f: Folder)      // cache_lock of a folder, re-entrant
    | State(f: Folder)      // state_lock of a folder

  /** Who continues after marking a message: nobody, or a refresh with its initial_fetch flag. */
  datatype MarkFor = Alone | InRefresh(initial: bool)

  /** Who continues after connecting: nobody, or the listing of the folder tree. */
  datatype ConnectFor = Service | Listing

  /** Who selects the current folder. */
  datatype SelectFor =
    | ForFetch(u: Uid)
    | ForRefresh
    | ForMark(r: MarkFor)

  /** A refresh selects the root directory, the others the folder's own. */
  function Target(f: Folder, c: SelectFor): Dir {
    if c.ForRefresh? then ROOT_DIR else DirOf(f)
  }

  /** Points of map_folder_get_message_sync and camel_map_folder_get_message. */
  datatype FetchAt =
    | TryCacheLock | TryCacheRead | TryCacheUnlock(hit: bool)
    | FetchLock | FetchCheck | FetchWait | Asleep | Woken | FetchRecheck
    | WaitedUnlock | WaitedCacheLock | WaitedCacheRead | WaitedCacheUnlock
    | FetchInsert | FetchUnlock | FetchEnter | FetchMkdir | FetchGet | FetchParse
    | FetchCacheLock | FetchCacheRead | FetchCacheUnlock | FetchLeave
    | FetchCleanLock | FetchRemove | FetchCleanUnlock | FetchBroadcast

  /** Points of camel_map_store_set_current_folder. */
  datatype SelectAt = SelectLock | SelectCall | SelectNote | SelectUnlock(ok: bool)

  /** Points of map_refresh_info_sync. */
  datatype RefreshAt =
    | RefreshLock | RefreshCheck | RefreshSkip | RefreshSet | RefreshUnlock
    | RefreshEnter | RefreshInbox | RefreshList | RefreshTest | RefreshClear
    | RefreshMerge(initial: bool) | RefreshPrune | RefreshLeave
    | RefreshEndLock | RefreshReset | RefreshEndUnlock

  /** Points of camel_map_folder_mark_message_read and _deleted. */
  datatype MarkAt = MarkEnter | MarkSend | MarkLeave

  /** Points of map_folder_delete_messages. */
  datatype ExpungeAt = ExpungeEnter | ExpungeLoop | ExpungeSend | ExpungeLeave

  /** Points of map_get_folder_sync. */
  datatype OpenAt = OpenLock | OpenCall | OpenUnlock

  /** Points of the locked section of map_connect_sync. */
  datatype ConnectAt = ConnectLock | ConnectCall | ConnectNote | ConnectList | ConnectUnlock(connected: bool)

  /** Points of map_get_folder_info_sync and create_folder_hierarchy; todo is still to be visited. */
  datatype InfoAt =
    | InfoLock | InfoOnline | WalkLock
    | WalkNext(todo: seq<Dir>) | WalkSelect(d: Dir, todo: seq<Dir>)
    | WalkNote(d: Dir, todo: seq<Dir>) | WalkList(d: Dir, todo: seq<Dir>)
    | WalkUnlock | InfoUnlock

  datatype PC =
    | Idle
    | Fetching(f: Folder, u: Uid, fetch: FetchAt)
    | Selecting(f: Folder, c: SelectFor, select: SelectAt)
    | Refreshing(f: Folder, refresh: RefreshAt)
    | Marking(f: Folder, r: MarkFor, mark: MarkAt)
    | Expunging(f: Folder, expunge: ExpungeAt)
    | Opening(f: Folder, open: OpenAt)
    | Connecting(k: ConnectFor, connect: ConnectAt)
    | Browsing(info: InfoAt)

  /** The request that a D-Bus call sends and that depends on the device's current folder. */
  datatype Request = ListFolders | ListMessages | GetMessage | SetMessage

  /** Calls that need no directory: what they do is not modelled, only that they may fail. */
  datatype CallName = MakeDirectory | ParseMessage | UpdateInbox | GoOnline

  datatype Op =
    | Nothing                             // Idle, or asleep on the condition variable
    | Acquire(l: Lock)
    | Release(l: Lock)
    | TestCache(f: Folder, u: Uid)        // read the message from the cache, if it is there
    | TestUid(f: Folder, u: Uid)
    | InsertUid(f: Folder, u: Uid)
    | RemoveUid(f: Folder, u: Uid)
    | Broadcast(f: Folder)
    | TestRefreshing(f: Folder)
    | SetRefreshing(f: Folder, on: bool)
    | TestInitial
    | ClearInitial
    | Prune                               // the removal pass over missing messages
    | Select(d: Dir)                      // SetFolder on the device
    | Note(d: Dir)                        // current_selected_folder := d
    | Send(q: Request, d: Dir)            // sent to be answered for directory d
    | Call(c: CallName)
    | Choose                              // whether there is another message or directory to handle

  function FetchOp(f: Folder, u: Uid, at: FetchAt): Op {
    match at
    case TryCacheLock => Acquire(Cache(f))
    case TryCacheRead => TestCache(f, u)
    case TryCacheUnlock(_) => Release(Cache(f))
    case FetchLock => Acquire(State(f))
    case FetchCheck => TestUid(f, u)
    case FetchWait => Release(State(f))
    case Asleep => Nothing
    case Woken => Acquire(State(f))
    case FetchRecheck => TestUid(f, u)
    case WaitedUnlock => Release(State(f))
    case WaitedCacheLock => Acquire(Cache(f))
    case WaitedCacheRead => TestCache(f, u)
    case WaitedCacheUnlock => Release(Cache(f))
    case FetchInsert => InsertUid(f, u)
    case FetchUnlock => Release(State(f))
    case FetchEnter => Acquire(CurrentFolder)
    case FetchMkdir => Call(MakeDirectory)
    case FetchGet => Send(GetMessage, DirOf(f))
    case FetchParse => Call(ParseMessage)
    case FetchCacheLock => Acquire(Cache(f))
    case FetchCacheRead => TestCache(f, u)
    case FetchCacheUnlock => Release(Cache(f))
    case FetchLeave => Release(CurrentFolder)
    case FetchCleanLock => Acquire(State(f))
    case FetchRemove => RemoveUid(f, u)
    case FetchCleanUnlock => Release(State(f))
    case FetchBroadcast => Broadcast(f)
  }

  function SelectOp(d: Dir, at: SelectAt): Op {
    match at
    case SelectLock => Acquire(CurrentFolder)
    case SelectCall => Select(d)
    case SelectNote => Note(d)
    case SelectUnlock(_) => Release(CurrentFolder)
  }

  function RefreshOp(f: Folder, at: RefreshAt): Op {
    match at
    case RefreshLock => Acquire(State(f))
    case RefreshCheck => TestRefreshing(f)
    case RefreshSkip => Release(State(f))
    case RefreshSet => SetRefreshing(f, true)
    case RefreshUnlock => Release(State(f))
    case RefreshEnter => Acquire(CurrentFolder)
    case RefreshInbox => Call(UpdateInbox)
    case RefreshList => Send(ListMessages, ROOT_DIR)
    case RefreshTest => TestInitial
    case RefreshClear => ClearInitial
    case RefreshMerge(_) => Choose
    case RefreshPrune => Prune
    case RefreshLeave => Release(CurrentFolder)
    case RefreshEndLock => Acquire(State(f))
    case RefreshReset => SetRefreshing(f, false)
    case RefreshEndUnlock => Release(State(f))
  }

  function InfoOp(at: InfoAt): Op {
    match at
    case InfoLock => Acquire(Finfo)
    case InfoOnline => Call(GoOnline)
    case WalkLock => Acquire(CurrentFolder)
    case WalkNext(_) => Choose
    case WalkSelect(d, _) => Select(d)
    case WalkNote(d, _) => Note(d)
    case WalkList(d, _) => Send(ListFolders, d)
    case WalkUnlock => Release(CurrentFolder)
    case InfoUnlock => Release(Finfo)
  }

  /** The shared action of a program point. */
  function OpAt(pc: PC): Op {
    match pc
    case Idle => Nothing
    case Fetching(f, u, at) => FetchOp(f, u, at)
    case Selecting(f, c, at) => SelectOp(Target(f, c), at)
    case Refreshing(f, at) => RefreshOp(f, at)
    case Marking(f, _, at) =>
      (match at
       case MarkEnter => Acquire(CurrentFolder)
       case MarkSend => Send(SetMessage, DirOf(f))
       case MarkLeave => Release(CurrentFolder))
    case Expunging(f, at) =>
      (match at
       case ExpungeEnter => Acquire(CurrentFolder)
       case ExpungeLoop => Choose
       case ExpungeSend => Send(SetMessage, DirOf(f))
       case ExpungeLeave => Release(CurrentFolder))
    case Opening(f, at) =>
      (match at
       case OpenLock => Acquire(CurrentFolder)
       case OpenCall => Select(DirOf(f))
       case OpenUnlock => Release(CurrentFolder))
    case Connecting(_, at) =>
      (match at
       case ConnectLock => Acquire(CurrentFolder)
       case ConnectCall => Select(ROOT_DIR)
       case ConnectNote => Note(ROOT_DIR)
       case ConnectList => Send(ListFolders, ROOT_DIR)
       case ConnectUnlock(_) => Release(CurrentFolder))
    case Browsing(at) => InfoOp(at)
  }

  function FetchNext(f: Folder, u: Uid, at: FetchAt, ok: bool): PC {
    match at
    case TryCacheLock => Fetching(f, u, TryCacheRead)
    case TryCacheRead => Fetching(f, u, TryCacheUnlock(ok))
    case TryCacheUnlock(hit) => if hit then Idle else Fetching(f, u, FetchLock)
    case FetchLock => Fetching(f, u, FetchCheck)
    case FetchCheck => Fetching(f, u, if ok then FetchWait else FetchInsert)
    case FetchWait => Fetching(f, u, Asleep)
    case Asleep => Fetching(f, u, Woken)
    case Woken => Fetching(f, u, FetchRecheck)
    case FetchRecheck => Fetching(f, u, if ok then FetchWait else WaitedUnlock)
    case WaitedUnlock => Fetching(f, u, WaitedCacheLock)
    case WaitedCacheLock => Fetching(f, u, WaitedCacheRead)
    case WaitedCacheRead => Fetching(f, u, WaitedCacheUnlock)
    case WaitedCacheUnlock => Idle
    case FetchInsert => Fetching(f, u, FetchUnlock)
    case FetchUnlock => Fetching(f, u, FetchEnter)
    case FetchEnter => Fetching(f, u, FetchMkdir)
    case FetchMkdir => if ok then Selecting(f, ForFetch(u), SelectLock) else Fetching(f, u, FetchLeave)
    case FetchGet => Fetching(f, u, if ok then FetchParse else FetchLeave)
    case FetchParse => Fetching(f, u, if ok then FetchCacheLock else FetchLeave)
    case FetchCacheLock => Fetching(f, u, FetchCacheRead)
    case FetchCacheRead => Fetching(f, u, FetchCacheUnlock)
    case FetchCacheUnlock => Fetching(f, u, FetchLeave)
    case FetchLeave => Fetching(f, u, FetchCleanLock)
    case FetchCleanLock => Fetching(f, u, FetchRemove)
    case FetchRemove => Fetching(f, u, FetchCleanUnlock)
    case FetchCleanUnlock => Fetching(f, u, FetchBroadcast)
    case FetchBroadcast => Idle
  }

  function RefreshNext(f: Folder, at: RefreshAt, ok: bool): PC {
    match at
    case RefreshLock => Refreshing(f, RefreshCheck)
    case RefreshCheck => Refreshing(f, if ok then RefreshSkip else RefreshSet)
    case RefreshSkip => Idle
    case RefreshSet => Refreshing(f, RefreshUnlock)
    case RefreshUnlock => Refreshing(f, RefreshEnter)
    case RefreshEnter => Refreshing(f, RefreshInbox)
    case RefreshInbox => if ok then Selecting(f, ForRefresh, SelectLock) else Refreshing(f, RefreshLeave)
    case RefreshList => Refreshing(f, if ok then RefreshTest else RefreshLeave)
    case RefreshTest => Refreshing(f, if ok then RefreshClear else RefreshMerge(false))
    case RefreshClear => Refreshing(f, RefreshMerge(true))
    case RefreshMerge(initial) =>
      if ok then Marking(f, InRefresh(initial), MarkEnter)
      else Refreshing(f, if initial then RefreshPrune else RefreshLeave)
    case RefreshPrune => Refreshing(f, RefreshLeave)
    case RefreshLeave => Refreshing(f, RefreshEndLock)
    case RefreshEndLock => Refreshing(f, RefreshReset)
    case RefreshReset => Refreshing(f, RefreshEndUnlock)
    case RefreshEndUnlock => Idle
  }

  function ConnectNext(k: ConnectFor, at: ConnectAt, ok: bool): PC {
    match at
    case ConnectLock => Connecting(k, ConnectCall)
    case ConnectCall => Connecting(k, if ok then ConnectNote else ConnectUnlock(false))
    case ConnectNote => Connecting(k, ConnectList)
    case ConnectList => Connecting(k, ConnectUnlock(ok))
    case ConnectUnlock(connected) =>
      if k.Service? then Idle else Browsing(if connected then WalkLock else InfoUnlock)
  }

  /** Browsing is the one place where the next point depends on more than the outcome. */
  ghost predicate InfoNext(at: InfoAt, ok: bool, pc': PC) {
    match at
    case InfoLock => pc' == Browsing(InfoOnline)
    case InfoOnline =>
      if ok then pc' == Browsing(WalkLock) || pc' == Connecting(Listing, ConnectLock)
      else pc' == Browsing(InfoUnlock)
    case WalkLock => pc' == Browsing(WalkNext([ROOT_DIR]))
    case WalkNext(todo) => pc' == Browsing(if todo == [] then WalkUnlock else WalkSelect(todo[0], todo[1..]))
    case WalkSelect(d, todo) => pc' == Browsing(if ok then WalkNote(d, todo) else WalkNext(todo))
    case WalkNote(d, todo) => pc' == Browsing(WalkList(d, todo))
    case WalkList(d, todo) =>
      pc'.Browsing? && pc'.info.WalkNext? && if ok then EndsWith(pc'.info.todo, todo) else pc'.info.todo == todo
    case WalkUnlock => pc' == Browsing(InfoUnlock)
    case InfoUnlock => pc' == Idle
  }

  /** The children just listed, whichever they are, come before what was still to do. */
  predicate EndsWith(todo: seq<Dir>, rest: seq<Dir>) {
    |rest| <= |todo| && todo[|todo| - |rest|..] == rest
  }

  /** pc' may follow pc when its action had the outcome ok. */
  ghost predicate Follows(pc: PC, ok: bool, pc': PC) {
    match pc
    case Idle => Starts(pc')
    case Fetching(f, u, at) => pc' == FetchNext(f, u, at, ok)
    case Selecting(f, c, at) =>
      (match at
       case SelectLock => pc' == Selecting(f, c, SelectCall)
       case SelectCall => pc' == Selecting(f, c, if ok then SelectNote else SelectUnlock(false))
       case SelectNote => pc' == Selecting(f, c, SelectUnlock(true))
       case SelectUnlock(selected) => pc' == Selected(f, c, selected))
    case Refreshing(f, at) => pc' == RefreshNext(f, at, ok)
    case Marking(f, r, at) =>
      (match at
       case MarkEnter => pc' == Selecting(f, ForMark(r), SelectLock)
       case MarkSend => pc' == Marking(f, r, MarkLeave)
       case MarkLeave => pc' == if r.InRefresh? then Refreshing(f, RefreshMerge(r.initial)) else Idle)
    case Expunging(f, at) =>
      (match at
       case ExpungeEnter => pc' == Expunging(f, ExpungeLoop)
       case ExpungeLoop => pc' == Expunging(f, if ok then ExpungeSend else ExpungeLeave)
       case ExpungeSend => pc' == Expunging(f, if ok then ExpungeLoop else ExpungeLeave)
       case ExpungeLeave => pc' == Idle)
    case Opening(f, at) =>
      (match at
       case OpenLock => pc' == Opening(f, OpenCall)
       case OpenCall => pc' == Opening(f, OpenUnlock)
       case OpenUnlock => pc' == Idle)
    case Connecting(k, at) => pc' == ConnectNext(k, at, ok)
    case Browsing(at) => InfoNext(at, ok, pc')
  }

  /** Where the caller of camel_map_store_set_current_folder goes on. */
  function Selected(f: Folder, c: SelectFor, ok: bool): PC {
    match c
    case ForFetch(u) => Fetching(f, u, if ok then FetchGet else FetchLeave)
    case ForRefresh => Refreshing(f, if ok then RefreshList else RefreshLeave)
    case ForMark(r) => Marking(f, r, if ok then MarkSend else MarkLeave)
  }

  /** The first points of the operations a thread may begin. */
  predicate Starts(pc: PC) {
    match pc
    case Fetching(_, _, at) => at.TryCacheLock?
    case Refreshing(_, at) => at.RefreshLock?
    case Marking(_, r, at) => r.Alone? && at.MarkEnter?
    case Expunging(_, at) => at.ExpungeEnter?
    case Opening(_, at) => at.OpenLock?
    case Connecting(k, at) => k.Service? && at.ConnectLock?
    case Browsing(at) => at.InfoLock?
    case _ => false
  }

  // ---------------------------------------------------------------- shared state

  datatype Hold = Hold(owner: Tid, depth: nat)

  datatype Shared = Shared(
    locks: map<Lock, Hold>,            // the locks that are held
    inflight: set<(Folder, Uid)>,      // uid_eflags of all folders
    refreshing: set<Folder>,           // the folders whose refreshing flag is set
    initialFetch: bool,
    device: Dir,                       // the directory the device is in
    noted: Dir,                        // current_selected_folder
    lastSelected: map<Tid, Dir>,       // history: what each thread last selected with success
    settled: Option<Dir>,              // history: the last selection of all, unless it failed
    grants: nat,                       // history: how many refreshes read initialFetch as set
    prunes: nat)                       // history: how many removal passes began

  datatype System = System(pcs: map<Tid, PC>, sh: Shared)

  predicate Reentrant(l: Lock) {
    l.CurrentFolder? || l.Cache?
  }

  predicate CanAcquire(sh: Shared, t: Tid, l: Lock) {
    l !in sh.locks || (sh.locks[l].owner == t && Reentrant(l))
  }

  function Depth(sh: Shared, t: Tid, l: Lock): nat {
    if l in sh.locks && sh.locks[l].owner == t then sh.locks[l].depth else 0
  }

  /** What thread t's action does to the shared state, and its outcome. */
  ghost predicate Exec(t: Tid, op: Op, sh: Shared, ok: bool, sh': Shared) {
    match op
    case Nothing => false
    case Acquire(l) =>
      CanAcquire(sh, t, l) && sh' == sh.(locks := sh.locks[l := Hold(t, Depth(sh, t, l) + 1)])
    case Release(l) =>
      && Depth(sh, t, l) > 0
      && sh' == sh.(locks := if Depth(sh, t, l) == 1 then sh.locks - {l}
                             else sh.locks[l := Hold(t, Depth(sh, t, l) - 1)])
    case TestCache(_, _) => sh' == sh
    case TestUid(f, u) => ok == ((f, u) in sh.inflight) && sh' == sh
    case InsertUid(f, u) => sh' == sh.(inflight := sh.inflight + {(f, u)})
    case RemoveUid(f, u) => sh' == sh.(inflight := sh.inflight - {(f, u)})
    case Broadcast(_) => sh' == sh
    case TestRefreshing(f) => ok == (f in sh.refreshing) && sh' == sh
    case SetRefreshing(f, on) =>
      sh' == sh.(refreshing := if on then sh.refreshing + {f} else sh.refreshing - {f})
    case TestInitial =>
      ok == sh.initialFetch && sh' == sh.(grants := sh.grants + if ok then 1 else 0)
    case ClearInitial => sh' == sh.(initialFetch := false)
    case Prune => sh' == sh.(prunes := sh.prunes + 1)
    case Select(d) =>
      if ok then sh' == sh.(device := d, lastSelected := sh.lastSelected[t := d], settled := Some(d))
      else exists anywhere: Dir :: sh' == sh.(device := anywhere, settled := None)
    case Note(d) => sh' == sh.(noted := d)
    case Send(_, _) => sh' == sh
    case Call(_) => sh' == sh
    case Choose => sh' == sh
  }

  predicate IsAsleep(pc: PC) {
    pc.Fetching? && pc.fetch.Asleep?
  }

  /** A broadcast makes every thread asleep on the folder's condition variable compete again. */
  function Wake(pc: PC, op: Op): PC {
    if IsAsleep(pc) && op == Broadcast(pc.f) then pc.(fetch := Woken) else pc
  }

  /** Thread t does the action of its program point. */
  ghost predicate ThreadStep(s: System, t: Tid, s': System) {
    && t in s.pcs && s'.pcs.Keys == s.pcs.Keys
    && exists ok ::
        && Exec(t, OpAt(s.pcs[t]), s.sh, ok, s'.sh)
        && Follows(s.pcs[t], ok, s'.pcs[t])
        && forall x :: x in s.pcs && x != t ==> s'.pcs[x] == Wake(s.pcs[x], OpAt(s.pcs[t]))
  }

  /** A thread begins an operation, or wakes up although nothing was broadcast. */
  ghost predicate QuietStep(s: System, t: Tid, s': System) {
    && t in s.pcs && t in s'.pcs && (s.pcs[t].Idle? || IsAsleep(s.pcs[t]))
    && Follows(s.pcs[t], true, s'.pcs[t])
    && s' == System(s.pcs[t := s'.pcs[t]], s.sh)
  }

  ghost predicate Next(s: System, s': System) {
    exists t :: ThreadStep(s, t, s') || QuietStep(s, t, s')
  }

  /** Any number of idle threads, and a store that has fetched nothing yet. */
  ghost predicate Init(s: System) {
    && (forall t :: t in s.pcs ==> s.pcs[t].Idle?)
    && s.sh.locks == map[] && s.sh.inflight == {} && s.sh.refreshing == {}
    && s.sh.initialFetch && s.sh.lastSelected == map[] && s.sh.settled == None
    && s.sh.grants == 0 && s.sh.prunes == 0
  }

  ghost predicate IsRun(run: seq<System>) {
    && |run| > 0 && Init(run[0])
    && forall i :: 0 <= i < |run| - 1 ==> Next(run[i], run[i + 1])
  }
}
