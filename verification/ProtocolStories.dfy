/**
 What a thread has done by the time its operation ends: a fetch has asked the device for the
 message and read it from the cache unless a call failed, a refresh has listed the messages, a
 mark has been sent, and so on.  Stated on the sequence of the thread's actions.
 */
module ProtocolStories {
  import opened Options
  import opened Protocol
  import opened ProtocolSafety

  /** An action and its outcome. */
  datatype Act = Act(op: Op, ok: bool)

  // ---------------------------------------------------------------- actions in order

  /** An action wanted, perhaps with a certain outcome. */
  datatype Want = Want(op: Op, outcome: Option<bool>)

  function Done(op: Op): Want {
    Want(op, None)
  }

  function With(op: Op, ok: bool): Want {
    Want(op, Some(ok))
  }

  predicate Fits(a: Act, w: Want) {
    a.op == w.op && (w.outcome.None? || w.outcome.value == a.ok)
  }

  /** The wanted actions were done in this order, others in between. */
  predicate InOrder(acts: seq<Act>, wants: seq<Want>)
    decreases |acts|
  {
    wants == [] ||
    (acts != [] &&
     (InOrder(acts[..|acts| - 1], wants) ||
      (Fits(acts[|acts| - 1], wants[|wants| - 1]) && InOrder(acts[..|acts| - 1], wants[..|wants| - 1]))))
  }

  /** At increasing positions. */
  lemma {:induction false} InOrderPositions(acts: seq<Act>, wants: seq<Want>) returns (at: seq<nat>)
    requires InOrder(acts, wants)
    ensures |at| == |wants|
    ensures forall i :: 0 <= i < |at| ==> at[i] < |acts| && Fits(acts[at[i]], wants[i])
    ensures forall i, j :: 0 <= i < j < |at| ==> at[i] < at[j]
    decreases |acts|
  {
    at := [];
    if wants != [] {
      var front := acts[..|acts| - 1];
      if InOrder(front, wants) {
        at := InOrderPositions(front, wants);
      } else {
        at := InOrderPositions(front, wants[..|wants| - 1]);
        at := at + [|acts| - 1];
      }
    }
  }

  lemma InOrderGrows(acts: seq<Act>, a: Act, wants: seq<Want>)
    requires InOrder(acts, wants)
    ensures InOrder(acts + [a], wants)
    ensures forall w :: Fits(a, w) ==> InOrder(acts + [a], wants + [w])
  {
    assert (acts + [a])[..|acts|] == acts;
    forall w | Fits(a, w) ensures InOrder(acts + [a], wants + [w]) {
      assert (wants + [w])[..|wants|] == wants;
    }
  }

  lemma {:induction false} InOrderPrefix(acts: seq<Act>, wants: seq<Want>, k: nat)
    requires InOrder(acts, wants) && k <= |wants|
    ensures InOrder(acts, wants[..k])
    decreases |acts|
  {
    if k == |wants| {
      assert wants[..k] == wants;
    } else if k > 0 {
      var front, less := acts[..|acts| - 1], wants[..|wants| - 1];
      assert less[..k] == wants[..k];
      if InOrder(front, wants) {
        InOrderPrefix(front, wants, k);
      } else {
        InOrderPrefix(front, less, k);
      }
    }
  }

  predicate FailedOne(acts: seq<Act>, critical: set<Op>) {
    exists a :: a in acts && a.op in critical && !a.ok
  }

  function Count(acts: seq<Act>, w: Want): nat {
    if acts == [] then 0
    else Count(acts[..|acts| - 1], w) + if Fits(acts[|acts| - 1], w) then 1 else 0
  }

  lemma CountGrows(acts: seq<Act>, a: Act, w: Want)
    ensures Count(acts + [a], w) == Count(acts, w) + if Fits(a, w) then 1 else 0
  {
    assert (acts + [a])[..|acts|] == acts;
  }

  /** What an operation does in any case, and what it does unless a critical call fails. */
  datatype Plan = Plan(always: seq<Want>, wants: seq<Want>, critical: set<Op>)

  predicate OnPlan(acts: seq<Act>, p: Plan, b: nat, k: nat)
    requires b <= |p.always| && k <= |p.wants|
  {
    InOrder(acts, p.always[..b]) && (FailedOne(acts, p.critical) || InOrder(acts, p.wants[..k]))
  }

  predicate Fulfilled(acts: seq<Act>, p: Plan) {
    InOrder(acts, p.always) && (FailedOne(acts, p.critical) || InOrder(acts, p.wants))
  }

  lemma PlanEnds(acts: seq<Act>, p: Plan)
    requires OnPlan(acts, p, |p.always|, |p.wants|)
    ensures Fulfilled(acts, p)
  {
    assert p.always[..|p.always|] == p.always && p.wants[..|p.wants|] == p.wants;
  }

  lemma PlanBegins(acts: seq<Act>, p: Plan)
    ensures OnPlan(acts, p, 0, 0)
  {
  }

  lemma PrefixStep(acts: seq<Act>, a: Act, wants: seq<Want>, k: nat, k': nat)
    requires k <= |wants| && k' <= |wants| && InOrder(acts, wants[..k])
    requires k' <= k || (k' == k + 1 && Fits(a, wants[k]))
    ensures InOrder(acts + [a], wants[..k'])
  {
    InOrderGrows(acts, a, wants[..k]);
    if k' <= k {
      InOrderPrefix(acts + [a], wants[..k], k');
      assert wants[..k][..k'] == wants[..k'];
    } else {
      assert wants[..k'] == wants[..k] + [wants[k]];
    }
  }

  /** An action that is the next one planned, or changes nothing, or is a critical call that fails. */
  lemma PlanStep(acts: seq<Act>, a: Act, p: Plan, b: nat, k: nat, b': nat, k': nat)
    requires b <= |p.always| && k <= |p.wants| && b' <= |p.always| && k' <= |p.wants| && OnPlan(acts, p, b, k)
    requires b' <= b || (b' == b + 1 && Fits(a, p.always[b]))
    requires k' <= k || (k' == k + 1 && Fits(a, p.wants[k])) || (a.op in p.critical && !a.ok)
    ensures OnPlan(acts + [a], p, b', k')
  {
    PrefixStep(acts, a, p.always, b, b');
    assert forall x :: x in acts + [a] <==> x in acts || x == a;
    if !FailedOne(acts + [a], p.critical) {
      assert a in acts + [a];
      assert !FailedOne(acts, p.critical);
      PrefixStep(acts, a, p.wants, k, k');
    }
  }

  // ---------------------------------------------------------------- fetching a message

  function FetchPlan(f: Folder, u: Uid): Plan {
    Plan([Done(InsertUid(f, u)), Done(Acquire(CurrentFolder)), Done(Release(CurrentFolder)), Done(RemoveUid(f, u)),
          Done(Broadcast(f))],
         [Done(InsertUid(f, u)), Done(Acquire(CurrentFolder)), With(Call(MakeDirectory), true),
          With(Select(DirOf(f)), true), Done(Note(DirOf(f))), With(Send(GetMessage, DirOf(f)), true),
          With(Call(ParseMessage), true), Done(Acquire(Cache(f))), Done(TestCache(f, u)),
          Done(Release(CurrentFolder)), Done(RemoveUid(f, u)), Done(Broadcast(f))],
         {Call(MakeDirectory), Select(DirOf(f)), Send(GetMessage, DirOf(f)), Call(ParseMessage)})
  }

  /** A thread that found the message in flight waits until it is not, and then reads the cache. */
  function WaitWants(f: Folder, u: Uid): seq<Want> {
    [With(TestUid(f, u), true), With(TestUid(f, u), false), Done(Acquire(Cache(f))), Done(TestCache(f, u))]
  }

  /** How a fetch ends: with the cached message, after a wait, or after fetching it. */
  predicate Fetched(f: Folder, u: Uid, acts: seq<Act>) {
    || (|acts| == 3 && acts[1] == Act(TestCache(f, u), true))
    || InOrder(acts, WaitWants(f, u))
    || Fulfilled(acts, FetchPlan(f, u))
  }

  /** How far a fetching thread has come: with its waiting, or with its plan. */
  datatype Stage = Early(n: nat) | Waiting(w: nat) | Planned(b: nat, k: nat)

  function FetchStage(at: FetchAt): Stage {
    match at
    case TryCacheLock => Early(0)
    case TryCacheRead => Early(1)
    case TryCacheUnlock(_) => Early(2)
    case FetchLock => Waiting(0)
    case FetchCheck => Waiting(0)
    case FetchWait => Waiting(1)
    case Asleep => Waiting(1)
    case Woken => Waiting(1)
    case FetchRecheck => Waiting(1)
    case WaitedUnlock => Waiting(2)
    case WaitedCacheLock => Waiting(2)
    case WaitedCacheRead => Waiting(3)
    case WaitedCacheUnlock => Waiting(4)
    case FetchInsert => Planned(0, 0)
    case FetchUnlock => Planned(1, 1)
    case FetchEnter => Planned(1, 1)
    case FetchMkdir => Planned(2, 2)
    case FetchGet => Planned(2, 5)
    case FetchParse => Planned(2, 6)
    case FetchCacheLock => Planned(2, 7)
    case FetchCacheRead => Planned(2, 8)
    case FetchCacheUnlock => Planned(2, 9)
    case FetchLeave => Planned(2, 9)
    case FetchCleanLock => Planned(3, 10)
    case FetchRemove => Planned(3, 10)
    case FetchCleanUnlock => Planned(4, 11)
    case FetchBroadcast => Planned(4, 11)
  }

  /** A failed selection is a failed call, so that anything may be claimed of the plan after it. */
  function SelectStage(at: SelectAt, before: nat, all: nat): nat {
    match at
    case SelectLock => before
    case SelectCall => before
    case SelectNote => before + 1
    case SelectUnlock(ok) => if ok then before + 2 else all
  }

  predicate FetchTold(f: Folder, u: Uid, at: FetchAt, acts: seq<Act>) {
    match FetchStage(at)
    case Early(n) => |acts| == n && (at.TryCacheUnlock? ==> acts[1] == Act(TestCache(f, u), at.hit))
    case Waiting(w) => w <= 4 && InOrder(acts, WaitWants(f, u)[..w])
    case Planned(b, k) => b <= 5 && k <= 12 && OnPlan(acts, FetchPlan(f, u), b, k)
  }

  lemma FetchStep(f: Folder, u: Uid, at: FetchAt, ok: bool, acts: seq<Act>)
    requires FetchTold(f, u, at, acts) && !at.Asleep?
    ensures FetchTells(f, u, FetchNext(f, u, at, ok), acts + [Act(FetchOp(f, u, at), ok)])
  {
    var a := Act(FetchOp(f, u, at), ok);
    if FetchStage(at).Planned? {
      FetchPlanned(f, u, at, ok, acts, a);
    } else if FetchStage(at).Waiting? {
      FetchWaits(f, u, at, ok, acts, a);
    }
  }

  /** What is told at the next point of a fetch, which may be a selection or its end. */
  predicate FetchTells(f: Folder, u: Uid, pc: PC, acts: seq<Act>) {
    match pc
    case Idle => Fetched(f, u, acts)
    case Fetching(g, v, at) => g == f && v == u && FetchTold(f, u, at, acts)
    case Selecting(g, c, at) =>
      g == f && c == ForFetch(u) && OnPlan(acts, FetchPlan(f, u), 2, SelectStage(at, 3, 12))
    case _ => false
  }

  lemma FetchWaits(f: Folder, u: Uid, at: FetchAt, ok: bool, acts: seq<Act>, a: Act)
    requires FetchTold(f, u, at, acts) && FetchStage(at).Waiting? && !at.Asleep? && a == Act(FetchOp(f, u, at), ok)
    ensures FetchTells(f, u, FetchNext(f, u, at, ok), acts + [a])
  {
    hide InOrder;
    var w, wants := FetchStage(at).w, WaitWants(f, u);
    var next := FetchNext(f, u, at, ok);
    if next.Idle? {
      assert wants[..4] == wants;
      InOrderGrows(acts, a, wants);
    } else if FetchStage(next.fetch).Waiting? {
      PrefixStep(acts, a, wants, w, FetchStage(next.fetch).w);
    } else {
      PlanBegins(acts + [a], FetchPlan(f, u));
    }
  }

  lemma FetchPlanned(f: Folder, u: Uid, at: FetchAt, ok: bool, acts: seq<Act>, a: Act)
    requires FetchTold(f, u, at, acts) && FetchStage(at).Planned? && a == Act(FetchOp(f, u, at), ok)
    ensures FetchTells(f, u, FetchNext(f, u, at, ok), acts + [a])
  {
    var stage, next := FetchStage(at), FetchNext(f, u, at, ok);
    hide OnPlan, Fulfilled;
    FetchIsPlanned(f, u, at, ok);
    var to := if next.Idle? then Planned(5, 12) else if next.Selecting? then Planned(2, 3) else FetchStage(next.fetch);
    PlanStep(acts, a, FetchPlan(f, u), stage.b, stage.k, to.b, to.k);
    if next.Idle? {
      PlanEnds(acts + [a], FetchPlan(f, u));
    }
  }

  /** Each action of a fetch is the next one planned, or none of the plan, or a critical call that fails. */
  lemma FetchIsPlanned(f: Folder, u: Uid, at: FetchAt, ok: bool)
    requires FetchStage(at).Planned?
    ensures var next, p := FetchNext(f, u, at, ok), FetchPlan(f, u);
            && (next.Selecting? ==> next == Selecting(f, ForFetch(u), SelectLock))
            && (next.Fetching? ==> next.f == f && next.u == u && FetchStage(next.fetch).Planned?)
            && (next.Idle? || next.Selecting? || next.Fetching?)
            && var to := if next.Idle? then Planned(5, 12) else if next.Selecting? then Planned(2, 3)
                         else FetchStage(next.fetch);
               PlanAllows(p, Act(FetchOp(f, u, at), ok), FetchStage(at), to)
  {
    if FetchStage(at).k < 6 {
      FetchBegins(f, u, at, ok);
    } else {
      FetchFinishes(f, u, at, ok);
    }
    hide PlanAllows, FetchPlan, FetchNext, FetchOp;
  }

  lemma FetchFinishes(f: Folder, u: Uid, at: FetchAt, ok: bool)
    requires FetchStage(at).Planned? && FetchStage(at).k >= 6
    ensures var next := FetchNext(f, u, at, ok);
            && (next.Idle? || (next.Fetching? && next.f == f && next.u == u && FetchStage(next.fetch).Planned?))
            && PlanAllows(FetchPlan(f, u), Act(FetchOp(f, u, at), ok), FetchStage(at),
                          if next.Idle? then Planned(5, 12) else FetchStage(next.fetch))
  {
  }

  lemma FetchBegins(f: Folder, u: Uid, at: FetchAt, ok: bool)
    requires FetchStage(at).Planned? && FetchStage(at).k < 6
    ensures var next := FetchNext(f, u, at, ok);
            && (next == Selecting(f, ForFetch(u), SelectLock) ||
                (next.Fetching? && next.f == f && next.u == u && FetchStage(next.fetch).Planned?))
            && PlanAllows(FetchPlan(f, u), Act(FetchOp(f, u, at), ok), FetchStage(at),
                          if next.Selecting? then Planned(2, 3) else FetchStage(next.fetch))
  {
  }

  predicate PlanAllows(p: Plan, a: Act, from: Stage, to: Stage)
    requires from.Planned? && to.Planned?
  {
    && from.b <= |p.always| && from.k <= |p.wants| && to.b <= |p.always| && to.k <= |p.wants|
    && (to.b <= from.b || (to.b == from.b + 1 && Fits(a, p.always[from.b])))
    && (to.k <= from.k || (to.k == from.k + 1 && Fits(a, p.wants[from.k])) || (a.op in p.critical && !a.ok))
  }

  lemma FetchSelects(f: Folder, u: Uid, at: SelectAt, ok: bool, pc': PC, acts: seq<Act>)
    requires OnPlan(acts, FetchPlan(f, u), 2, SelectStage(at, 3, 12))
    requires Follows(Selecting(f, ForFetch(u), at), ok, pc')
    ensures FetchTells(f, u, pc', acts + [Act(SelectOp(DirOf(f), at), ok)])
  {
    var a, p := Act(SelectOp(DirOf(f), at), ok), FetchPlan(f, u);
    hide OnPlan;
    if pc'.Selecting? {
      PlanStep(acts, a, p, 2, SelectStage(at, 3, 12), 2, SelectStage(pc'.select, 3, 12));
    } else {
      PlanStep(acts, a, p, 2, SelectStage(at, 3, 12), FetchStage(pc'.fetch).b, FetchStage(pc'.fetch).k);
    }
  }

  // ---------------------------------------------------------------- refreshing a folder

  function RefreshPlan(f: Folder): Plan {
    Plan([Done(SetRefreshing(f, true)), Done(Acquire(CurrentFolder)), Done(Release(CurrentFolder)),
          Done(SetRefreshing(f, false))],
         [Done(SetRefreshing(f, true)), Done(Acquire(CurrentFolder)), With(Call(UpdateInbox), true),
          With(Select(ROOT_DIR), true), Done(Note(ROOT_DIR)), With(Send(ListMessages, ROOT_DIR), true),
          Done(TestInitial), Done(Release(CurrentFolder)), Done(SetRefreshing(f, false))],
         {Call(UpdateInbox), Select(ROOT_DIR), Send(ListMessages, ROOT_DIR)})
  }

  const PRUNE_WANTS := [With(TestInitial, true), Done(ClearInitial), Done(Prune)]

  /** Every message whose read mark differs has its mark sent, or else the selection of the folder failed. */
  predicate MarksSent(f: Folder, acts: seq<Act>, pending: nat) {
    Count(acts, With(Choose, true)) ==
    Count(acts, Done(Send(SetMessage, DirOf(f)))) + Count(acts, With(Select(DirOf(f)), false)) + pending
  }

  /** A refresh that finds the initial fetch granted clears it and makes the removal pass. */
  predicate PrunedIfGranted(acts: seq<Act>) {
    Act(TestInitial, true) in acts ==> InOrder(acts, PRUNE_WANTS)
  }

  /** How a refresh ends: another one is at work, or it has listed the messages unless a call failed. */
  predicate Refreshed(f: Folder, acts: seq<Act>) {
    || (|acts| == 3 && acts[1] == Act(TestRefreshing(f), true))
    || (Fulfilled(acts, RefreshPlan(f)) && MarksSent(f, acts, 0) && PrunedIfGranted(acts))
  }

  function RefreshStage(at: RefreshAt): Stage {
    match at
    case RefreshLock => Early(0)
    case RefreshCheck => Early(1)
    case RefreshSkip => Early(2)
    case RefreshSet => Planned(0, 0)
    case RefreshUnlock => Planned(1, 1)
    case RefreshEnter => Planned(1, 1)
    case RefreshInbox => Planned(2, 2)
    case RefreshList => Planned(2, 5)
    case RefreshTest => Planned(2, 6)
    case RefreshClear => Planned(2, 7)
    case RefreshMerge(_) => Planned(2, 7)
    case RefreshPrune => Planned(2, 7)
    case RefreshLeave => Planned(2, 7)
    case RefreshEndLock => Planned(3, 8)
    case RefreshReset => Planned(3, 8)
    case RefreshEndUnlock => Planned(4, 9)
  }

  /** The state of the refresh that a point belongs to. */
  function RefreshStageOf(pc: PC): Stage {
    match pc
    case Refreshing(_, at) => RefreshStage(at)
    case Selecting(_, c, at) => if c.ForRefresh? then Planned(2, SelectStage(at, 3, 9)) else Planned(2, 7)
    case _ => Planned(2, 7)
  }

  /** A mark is still to be sent. */
  function PendingMarks(pc: PC): nat {
    match pc
    case Marking(_, _, at) => if at.MarkLeave? then 0 else 1
    case Selecting(_, c, at) => if c.ForMark? && at != SelectUnlock(false) then 1 else 0
    case _ => 0
  }

  /** How many steps of the removal pass a thread with a granted initial fetch has done. */
  function PruneSteps(pc: PC): nat {
    if Clears(pc) then 1 else if Granted(pc) then 2 else 3
  }

  predicate PruneTold(acts: seq<Act>, pc: PC) {
    if Granted(pc) then InOrder(acts, PRUNE_WANTS[..PruneSteps(pc)]) else PrunedIfGranted(acts)
  }

  predicate InRefreshOf(pc: PC, f: Folder) {
    match pc
    case Refreshing(g, _) => g == f
    case Marking(g, r, _) => g == f && r.InRefresh?
    case Selecting(g, c, _) => g == f && (c.ForRefresh? || (c.ForMark? && c.r.InRefresh?))
    case _ => false
  }

  predicate RefreshTold(f: Folder, pc: PC, acts: seq<Act>) {
    match RefreshStageOf(pc)
    case Early(n) =>
      && |acts| == n
      && (n > 0 ==> acts[0].op == Acquire(State(f)))
      && (n > 1 ==> acts[1] == Act(TestRefreshing(f), true))
    case Planned(b, k) =>
      && b <= 4 && k <= 9 && OnPlan(acts, RefreshPlan(f), b, k)
      && MarksSent(f, acts, PendingMarks(pc)) && PruneTold(acts, pc)
    case Waiting(_) => false
  }

  predicate RefreshTells(f: Folder, pc: PC, acts: seq<Act>) {
    if pc.Idle? then Refreshed(f, acts) else InRefreshOf(pc, f) && RefreshTold(f, pc, acts)
  }

  lemma RefreshStarts(f: Folder, at: RefreshAt, ok: bool, acts: seq<Act>)
    requires RefreshTold(f, Refreshing(f, at), acts) && RefreshStage(at).Early?
    ensures RefreshTells(f, RefreshNext(f, at, ok), acts + [Act(RefreshOp(f, at), ok)])
  {
    var more := acts + [Act(RefreshOp(f, at), ok)];
    if at.RefreshCheck? {
      assert more == [acts[0], Act(TestRefreshing(f), ok)];
      PlanBegins(more, RefreshPlan(f));
      NoMarksYet(f, more);
    }
    hide OnPlan, InOrder, Fulfilled, MarksSent, PrunedIfGranted;
  }

  lemma NoMarksYet(f: Folder, acts: seq<Act>)
    requires |acts| == 2 && acts[0].op.Acquire? && acts[1].op.TestRefreshing?
    ensures MarksSent(f, acts, 0) && PrunedIfGranted(acts)
  {
    forall w | !Fits(acts[0], w) && !Fits(acts[1], w) ensures Count(acts, w) == 0 {
      CountGrows([], acts[0], w);
      CountGrows([acts[0]], acts[1], w);
      assert [] + [acts[0]] == [acts[0]] && [acts[0]] + [acts[1]] == acts;
    }
  }

  lemma RefreshIsPlanned(f: Folder, pc: PC, ok: bool, pc': PC)
    requires InRefreshOf(pc, f) && RefreshStageOf(pc).Planned? && Follows(pc, ok, pc')
    ensures pc'.Idle? || (InRefreshOf(pc', f) && RefreshStageOf(pc').Planned?)
    ensures PlanAllows(RefreshPlan(f), Act(OpAt(pc), ok), RefreshStageOf(pc),
                       if pc'.Idle? then Planned(4, 9) else RefreshStageOf(pc'))
  {
    match pc
    case Refreshing(_, at) => RefreshPointIsPlanned(f, at, ok);
    case _ => OtherPointIsPlanned(f, pc, ok, pc');
  }

  lemma RefreshPointIsPlanned(f: Folder, at: RefreshAt, ok: bool)
    requires RefreshStage(at).Planned?
    ensures var pc' := RefreshNext(f, at, ok);
            && (pc'.Idle? || (InRefreshOf(pc', f) && RefreshStageOf(pc').Planned?))
            && PlanAllows(RefreshPlan(f), Act(RefreshOp(f, at), ok), RefreshStage(at),
                          if pc'.Idle? then Planned(4, 9) else RefreshStageOf(pc'))
  {
  }

  lemma OtherPointIsPlanned(f: Folder, pc: PC, ok: bool, pc': PC)
    requires InRefreshOf(pc, f) && !pc.Refreshing? && Follows(pc, ok, pc')
    ensures InRefreshOf(pc', f) && RefreshStageOf(pc').Planned?
    ensures PlanAllows(RefreshPlan(f), Act(OpAt(pc), ok), RefreshStageOf(pc), RefreshStageOf(pc'))
  {
  }

  /** A folder's directory is its name below the root, so different folders have different ones. */
  lemma DirsDiffer(f: Folder, g: Folder)
    ensures DirOf(f) == "/telecom/msg/" + f
    ensures DirOf(f) == DirOf(g) <==> f == g
  {
    assert DirOf(f)[13..] == f && DirOf(g)[13..] == g;
  }

  lemma RootIsNoFolder(f: Folder)
    ensures DirOf(f) != ROOT_DIR
  {
    assert |DirOf(f)| > |ROOT_DIR|;
  }

  lemma MarksBalance(f: Folder, pc: PC, ok: bool, pc': PC)
    requires InRefreshOf(pc, f) && RefreshStageOf(pc).Planned? && Follows(pc, ok, pc')
    ensures var a := Act(OpAt(pc), ok);
            PendingMarks(pc') + (if Fits(a, Done(Send(SetMessage, DirOf(f)))) then 1 else 0)
                              + (if Fits(a, With(Select(DirOf(f)), false)) then 1 else 0)
            == PendingMarks(pc) + if Fits(a, With(Choose, true)) then 1 else 0
  {
    RootIsNoFolder(f);
    hide DirOf;
  }

  lemma MarksStep(f: Folder, pc: PC, ok: bool, pc': PC, acts: seq<Act>)
    requires InRefreshOf(pc, f) && RefreshStageOf(pc).Planned? && Follows(pc, ok, pc')
    requires MarksSent(f, acts, PendingMarks(pc))
    ensures MarksSent(f, acts + [Act(OpAt(pc), ok)], PendingMarks(pc'))
  {
    MarksBalance(f, pc, ok, pc');
    hide Follows, OpAt, PendingMarks, InRefreshOf, RefreshStageOf;
    var a := Act(OpAt(pc), ok);
    CountGrows(acts, a, With(Choose, true));
    CountGrows(acts, a, Done(Send(SetMessage, DirOf(f))));
    CountGrows(acts, a, With(Select(DirOf(f)), false));
  }

  lemma PruneOrder(pc: PC, ok: bool, pc': PC)
    requires Follows(pc, ok, pc')
    ensures OpAt(pc).TestInitial? && ok ==> Clears(pc') && Granted(pc')
    ensures Clears(pc) ==> OpAt(pc).ClearInitial? && Granted(pc') && !Clears(pc')
    ensures Granted(pc) && !Clears(pc) ==> if OpAt(pc).Prune? then !Granted(pc') else Granted(pc') && !Clears(pc')
    ensures !Granted(pc) && !OpAt(pc).TestInitial? ==> !Granted(pc')
    ensures OpAt(pc).TestInitial? && !ok ==> !Granted(pc')
    ensures OpAt(pc).TestInitial? ==> !Granted(pc)
    ensures Clears(pc) ==> Granted(pc)
  {
    FollowsKeepsGranted(pc, ok, pc');
    GrantOps(pc);
  }

  lemma PruneStep(pc: PC, ok: bool, pc': PC, acts: seq<Act>)
    requires Follows(pc, ok, pc') && PruneTold(acts, pc)
    ensures PruneTold(acts + [Act(OpAt(pc), ok)], pc')
  {
    PruneOrder(pc, ok, pc');
    var a := Act(OpAt(pc), ok);
    hide Follows, OpAt, Granted, Clears, InOrder;
    if Granted(pc) {
      var n := PruneSteps(pc);
      PrefixStep(acts, a, PRUNE_WANTS, n, n);
      if Clears(pc) || a.op.Prune? {
        PrefixStep(acts, a, PRUNE_WANTS, n, n + 1);
      }
      assert PRUNE_WANTS[..3] == PRUNE_WANTS;
    } else if a == Act(TestInitial, true) {
      assert InOrder(acts, PRUNE_WANTS[..0]) by {
        NothingWanted(acts);
      }
      PrefixStep(acts, a, PRUNE_WANTS, 0, 1);
    } else if Act(TestInitial, true) in acts {
      InOrderGrows(acts, a, PRUNE_WANTS);
    }
  }

  lemma NothingWanted(acts: seq<Act>)
    ensures InOrder(acts, [])
  {
  }

  lemma RefreshStep(f: Folder, pc: PC, ok: bool, pc': PC, acts: seq<Act>)
    requires InRefreshOf(pc, f) && RefreshTold(f, pc, acts) && Follows(pc, ok, pc')
    ensures RefreshTells(f, pc', acts + [Act(OpAt(pc), ok)])
  {
    var stage := RefreshStageOf(pc);
    if stage.Early? {
      RefreshStarts(f, pc.refresh, ok, acts);
    } else {
      RefreshIsPlanned(f, pc, ok, pc');
      MarksStep(f, pc, ok, pc', acts);
      PruneStep(pc, ok, pc', acts);
      IdleIsClear(pc');
      var to := if pc'.Idle? then Planned(4, 9) else RefreshStageOf(pc');
      hide Follows, OpAt, OnPlan, Fulfilled, MarksSent, PruneTold, PrunedIfGranted, RefreshStage, InRefreshOf;
      PlanStep(acts, Act(OpAt(pc), ok), RefreshPlan(f), stage.b, stage.k, to.b, to.k);
      if pc'.Idle? {
        PlanEnds(acts + [Act(OpAt(pc), ok)], RefreshPlan(f));
      }
    }
  }

  lemma IdleIsClear(pc: PC)
    ensures pc.Idle? ==> PendingMarks(pc) == 0 && forall acts :: PruneTold(acts, pc) == PrunedIfGranted(acts)
  {
  }

  // ---------------------------------------------------------------- marking, expunging, opening, connecting, browsing

  function MarkPlan(f: Folder): Plan {
    Plan([Done(Acquire(CurrentFolder)), Done(Release(CurrentFolder))],
         [Done(Acquire(CurrentFolder)), With(Select(DirOf(f)), true), Done(Note(DirOf(f))),
          Done(Send(SetMessage, DirOf(f))), Done(Release(CurrentFolder))],
         {Select(DirOf(f))})
  }

  function MarkStage(pc: PC): Stage {
    match pc
    case Marking(_, _, at) =>
      (match at
       case MarkEnter => Planned(0, 0)
       case MarkSend => Planned(1, 3)
       case MarkLeave => Planned(1, 4))
    case Selecting(_, _, at) => Planned(1, SelectStage(at, 1, 5))
    case _ => Planned(2, 5)
  }

  predicate InMarkOf(pc: PC, f: Folder) {
    match pc
    case Marking(g, r, _) => g == f && r.Alone?
    case Selecting(g, c, _) => g == f && c == ForMark(Alone)
    case _ => false
  }

  /** An expunge goes on until no message marked deleted is left or the device refuses one. */
  function ExpungePlan(f: Folder): Plan {
    Plan([Done(Acquire(CurrentFolder)), Done(Release(CurrentFolder))],
         [Done(Acquire(CurrentFolder)), With(Choose, false), Done(Release(CurrentFolder))],
         {Send(SetMessage, DirOf(f))})
  }

  function ExpungeStage(at: ExpungeAt): Stage {
    match at
    case ExpungeEnter => Planned(0, 0)
    case ExpungeLoop => Planned(1, 1)
    case ExpungeSend => Planned(1, 1)
    case ExpungeLeave => Planned(1, 2)
  }

  /** Each message marked deleted is asked for. */
  predicate AllAsked(f: Folder, acts: seq<Act>, pending: nat) {
    Count(acts, With(Choose, true)) == Count(acts, Done(Send(SetMessage, DirOf(f)))) + pending
  }

  function PendingSend(pc: PC): nat {
    if pc.Expunging? && pc.expunge.ExpungeSend? then 1 else 0
  }

  function OpenPlan(f: Folder): Plan {
    Plan([Done(Acquire(CurrentFolder)), Done(Select(DirOf(f))), Done(Release(CurrentFolder))], [], {})
  }

  function OpenStage(at: OpenAt): Stage {
    match at
    case OpenLock => Planned(0, 0)
    case OpenCall => Planned(1, 0)
    case OpenUnlock => Planned(2, 0)
  }

  function ConnectPlan(): Plan {
    Plan([Done(Acquire(CurrentFolder)), Done(Release(CurrentFolder))],
         [Done(Acquire(CurrentFolder)), With(Select(ROOT_DIR), true), Done(Note(ROOT_DIR)),
          Done(Send(ListFolders, ROOT_DIR)), Done(Release(CurrentFolder))],
         {Select(ROOT_DIR)})
  }

  function ConnectStage(at: ConnectAt): Stage {
    match at
    case ConnectLock => Planned(0, 0)
    case ConnectCall => Planned(1, 1)
    case ConnectNote => Planned(1, 2)
    case ConnectList => Planned(1, 3)
    case ConnectUnlock(_) => Planned(1, 4)
  }

  /** The folder tree is listed from the root, unless the store is offline or the root cannot be listed. */
  function BrowsePlan(): Plan {
    Plan([Done(Acquire(Finfo)), Done(Call(GoOnline)), Done(Release(Finfo))],
         [Done(Acquire(Finfo)), With(Call(GoOnline), true), Done(Acquire(CurrentFolder)), With(Select(ROOT_DIR), true),
          Done(Note(ROOT_DIR)), With(Send(ListFolders, ROOT_DIR), true), Done(Release(CurrentFolder)),
          Done(Release(Finfo))],
         {Call(GoOnline), Select(ROOT_DIR), Send(ListFolders, ROOT_DIR)})
  }

  /** The walk has listed the root, or is about to. */
  function BrowseStage(pc: PC): Stage {
    match pc
    case Browsing(at) =>
      (match at
       case InfoLock => Planned(0, 0)
       case InfoOnline => Planned(1, 1)
       case WalkLock => Planned(2, 2)
       case WalkUnlock => Planned(2, 6)
       case InfoUnlock => Planned(2, 7)
       case _ => Planned(2, 6))
    case Connecting(_, at) => Planned(2, if at == ConnectUnlock(false) then 8 else 2)
    case _ => Planned(3, 8)
  }

  /** Before the root is listed the walk can only be at the root. */
  function RootStage(at: InfoAt): Option<Stage> {
    match at
    case WalkNext(todo) => if todo == [ROOT_DIR] then Some(Planned(2, 3)) else None
    case WalkSelect(d, _) => if d == ROOT_DIR then Some(Planned(2, 3)) else None
    case WalkNote(d, _) => if d == ROOT_DIR then Some(Planned(2, 4)) else None
    case WalkList(d, _) => if d == ROOT_DIR then Some(Planned(2, 5)) else None
    case _ => None
  }

  predicate InBrowse(pc: PC) {
    pc.Browsing? || (pc.Connecting? && pc.k.Listing?)
  }

  predicate At(acts: seq<Act>, p: Plan, stage: Stage) {
    stage.Planned? && stage.b <= |p.always| && stage.k <= |p.wants| && OnPlan(acts, p, stage.b, stage.k)
  }

  predicate BrowseTold(pc: PC, acts: seq<Act>) {
    || At(acts, BrowsePlan(), BrowseStage(pc))
    || (pc.Browsing? && RootStage(pc.info).Some? && At(acts, BrowsePlan(), RootStage(pc.info).value))
  }

  lemma AtStep(acts: seq<Act>, a: Act, p: Plan, from: Stage, to: Stage)
    requires At(acts, p, from) && to.Planned? && PlanAllows(p, a, from, to)
    ensures At(acts + [a], p, to)
  {
    PlanStep(acts, a, p, from.b, from.k, to.b, to.k);
  }

  lemma MarkIsPlanned(f: Folder, pc: PC, ok: bool, pc': PC)
    requires InMarkOf(pc, f) && Follows(pc, ok, pc')
    ensures pc'.Idle? || InMarkOf(pc', f)
    ensures PlanAllows(MarkPlan(f), Act(OpAt(pc), ok), MarkStage(pc), MarkStage(pc'))
  {
  }

  lemma ExpungeIsPlanned(pc: PC, ok: bool, pc': PC)
    requires pc.Expunging? && Follows(pc, ok, pc')
    ensures pc'.Idle? || (pc'.Expunging? && pc'.f == pc.f)
    ensures PlanAllows(ExpungePlan(pc.f), Act(OpAt(pc), ok), ExpungeStage(pc.expunge),
                       if pc'.Idle? then Planned(2, 3) else ExpungeStage(pc'.expunge))
    ensures var a := Act(OpAt(pc), ok);
            PendingSend(pc') + (if Fits(a, Done(Send(SetMessage, DirOf(pc.f)))) then 1 else 0)
            == PendingSend(pc) + if Fits(a, With(Choose, true)) then 1 else 0
  {
  }

  lemma OpenIsPlanned(pc: PC, ok: bool, pc': PC)
    requires pc.Opening? && Follows(pc, ok, pc')
    ensures pc'.Idle? || (pc'.Opening? && pc'.f == pc.f)
    ensures PlanAllows(OpenPlan(pc.f), Act(OpAt(pc), ok), OpenStage(pc.open),
                       if pc'.Idle? then Planned(3, 0) else OpenStage(pc'.open))
  {
  }

  lemma ConnectIsPlanned(pc: PC, ok: bool, pc': PC)
    requires pc.Connecting? && pc.k.Service? && Follows(pc, ok, pc')
    ensures pc'.Idle? || (pc'.Connecting? && pc'.k.Service?)
    ensures PlanAllows(ConnectPlan(), Act(OpAt(pc), ok), ConnectStage(pc.connect),
                       if pc'.Idle? then Planned(2, 5) else ConnectStage(pc'.connect))
  {
  }

  lemma BrowseStep(pc: PC, ok: bool, pc': PC, acts: seq<Act>)
    requires InBrowse(pc) && BrowseTold(pc, acts) && Follows(pc, ok, pc')
    ensures pc'.Idle? || InBrowse(pc')
    ensures if pc'.Idle? then Fulfilled(acts + [Act(OpAt(pc), ok)], BrowsePlan())
            else BrowseTold(pc', acts + [Act(OpAt(pc), ok)])
  {
    var a := Act(OpAt(pc), ok);
    hide At, Fulfilled;
    if At(acts, BrowsePlan(), BrowseStage(pc)) {
      if pc == Browsing(WalkLock) {
        AtStep(acts, a, BrowsePlan(), BrowseStage(pc), Planned(2, 3));
      } else {
        BrowseIsPlanned(pc, ok, pc');
        AtStep(acts, a, BrowsePlan(), BrowseStage(pc), BrowseStage(pc'));
        if pc'.Idle? {
          AtEnd(acts + [a], BrowsePlan(), 3, 8);
        }
      }
    } else {
      RootIsPlanned(pc.info, ok, pc');
      var from, to := RootStage(pc.info).value, if pc.info.WalkNext? || pc.info.WalkNote? || (pc.info.WalkSelect? && ok)
                                               then RootStage(pc'.info).value else Planned(2, 6);
      AtStep(acts, a, BrowsePlan(), from, to);
    }
  }

  lemma AtEnd(acts: seq<Act>, p: Plan, b: nat, k: nat)
    requires At(acts, p, Planned(b, k)) && b == |p.always| && k == |p.wants|
    ensures Fulfilled(acts, p)
  {
    PlanEnds(acts, p);
  }

  lemma BrowseIsPlanned(pc: PC, ok: bool, pc': PC)
    requires InBrowse(pc) && Follows(pc, ok, pc') && pc != Browsing(WalkLock)
    ensures PlanAllows(BrowsePlan(), Act(OpAt(pc), ok), BrowseStage(pc), BrowseStage(pc'))
  {
  }

  lemma RootIsPlanned(at: InfoAt, ok: bool, pc': PC)
    requires RootStage(at).Some? && Follows(Browsing(at), ok, pc')
    ensures pc'.Browsing?
    ensures at.WalkNext? || at.WalkNote? || (at.WalkSelect? && ok) ==>
              RootStage(pc'.info).Some? &&
              PlanAllows(BrowsePlan(), Act(InfoOp(at), ok), RootStage(at).value, RootStage(pc'.info).value)
    ensures !(at.WalkNext? || at.WalkNote? || (at.WalkSelect? && ok)) ==>
              BrowseStage(pc') == Planned(2, 6) &&
              PlanAllows(BrowsePlan(), Act(InfoOp(at), ok), RootStage(at).value, Planned(2, 6))
  {
  }

  // ---------------------------------------------------------------- every operation

  /** What has been done when an operation has ended. */
  predicate Ended(begun: PC, acts: seq<Act>) {
    match begun
    case Idle => acts == []
    case Fetching(f, u, _) => Fetched(f, u, acts)
    case Refreshing(f, _) => Refreshed(f, acts)
    case Marking(f, _, _) => Fulfilled(acts, MarkPlan(f))
    case Expunging(f, _) => Fulfilled(acts, ExpungePlan(f)) && AllAsked(f, acts, 0)
    case Opening(f, _) => Fulfilled(acts, OpenPlan(f))
    case Connecting(_, _) => Fulfilled(acts, ConnectPlan())
    case Browsing(_) => Fulfilled(acts, BrowsePlan())
    case Selecting(_, _, _) => false
  }

  /** What has been done when the operation has come to a point. */
  predicate Told(pc: PC, begun: PC, acts: seq<Act>) {
    if pc.Idle? then Ended(begun, acts)
    else
      match begun
      case Fetching(f, u, _) => FetchTells(f, u, pc, acts)
      case Refreshing(f, _) => InRefreshOf(pc, f) && RefreshTold(f, pc, acts)
      case Marking(f, _, _) => InMarkOf(pc, f) && At(acts, MarkPlan(f), MarkStage(pc))
      case Expunging(f, _) =>
        && pc.Expunging? && pc.f == f
        && At(acts, ExpungePlan(f), ExpungeStage(pc.expunge)) && AllAsked(f, acts, PendingSend(pc))
      case Opening(f, _) => pc.Opening? && pc.f == f && At(acts, OpenPlan(f), OpenStage(pc.open))
      case Connecting(_, _) =>
        pc.Connecting? && pc.k.Service? && At(acts, ConnectPlan(), ConnectStage(pc.connect))
      case Browsing(_) => InBrowse(pc) && BrowseTold(pc, acts)
      case _ => false
  }

  lemma BeginsTold(pc: PC)
    requires Starts(pc)
    ensures Told(pc, pc, [])
  {
    forall p ensures At([], p, Planned(0, 0)) {
      PlanBegins([], p);
    }
  }

  lemma FetchTellsStep(f: Folder, u: Uid, pc: PC, ok: bool, pc': PC, acts: seq<Act>)
    requires !pc.Idle? && FetchTells(f, u, pc, acts) && Follows(pc, ok, pc') && !OpAt(pc).Nothing?
    ensures FetchTells(f, u, pc', acts + [Act(OpAt(pc), ok)])
  {
    if pc.Fetching? {
      FetchStep(f, u, pc.fetch, ok, acts);
    } else {
      FetchSelects(f, u, pc.select, ok, pc', acts);
    }
  }

  lemma MarkStep(f: Folder, pc: PC, ok: bool, pc': PC, acts: seq<Act>)
    requires InMarkOf(pc, f) && At(acts, MarkPlan(f), MarkStage(pc)) && Follows(pc, ok, pc')
    ensures if pc'.Idle? then Fulfilled(acts + [Act(OpAt(pc), ok)], MarkPlan(f))
            else InMarkOf(pc', f) && At(acts + [Act(OpAt(pc), ok)], MarkPlan(f), MarkStage(pc'))
  {
    MarkIsPlanned(f, pc, ok, pc');
    hide At, Fulfilled, Follows, OpAt;
    AtStep(acts, Act(OpAt(pc), ok), MarkPlan(f), MarkStage(pc), MarkStage(pc'));
    if pc'.Idle? {
      AtEnd(acts + [Act(OpAt(pc), ok)], MarkPlan(f), 2, 5);
    }
  }

  lemma ExpungeStep(pc: PC, ok: bool, pc': PC, acts: seq<Act>)
    requires pc.Expunging? && Follows(pc, ok, pc')
    requires At(acts, ExpungePlan(pc.f), ExpungeStage(pc.expunge)) && AllAsked(pc.f, acts, PendingSend(pc))
    ensures Told(pc', Expunging(pc.f, ExpungeEnter), acts + [Act(OpAt(pc), ok)])
  {
    ExpungeIsPlanned(pc, ok, pc');
    var a, p := Act(OpAt(pc), ok), ExpungePlan(pc.f);
    var to := if pc'.Idle? then Planned(2, 3) else ExpungeStage(pc'.expunge);
    hide At, Fulfilled, Follows, OpAt;
    AtStep(acts, a, p, ExpungeStage(pc.expunge), to);
    CountGrows(acts, a, With(Choose, true));
    CountGrows(acts, a, Done(Send(SetMessage, DirOf(pc.f))));
    if pc'.Idle? {
      AtEnd(acts + [a], p, 2, 3);
    }
  }

  lemma OpenStep(pc: PC, ok: bool, pc': PC, acts: seq<Act>)
    requires pc.Opening? && Follows(pc, ok, pc') && At(acts, OpenPlan(pc.f), OpenStage(pc.open))
    ensures Told(pc', Opening(pc.f, OpenLock), acts + [Act(OpAt(pc), ok)])
  {
    OpenIsPlanned(pc, ok, pc');
    var a, p := Act(OpAt(pc), ok), OpenPlan(pc.f);
    var to := if pc'.Idle? then Planned(3, 0) else OpenStage(pc'.open);
    hide At, Fulfilled, Follows, OpAt;
    AtStep(acts, a, p, OpenStage(pc.open), to);
    if pc'.Idle? {
      AtEnd(acts + [a], p, 3, 0);
    }
  }

  lemma ConnectStep(pc: PC, ok: bool, pc': PC, acts: seq<Act>)
    requires pc.Connecting? && pc.k.Service? && Follows(pc, ok, pc')
    requires At(acts, ConnectPlan(), ConnectStage(pc.connect))
    ensures Told(pc', Connecting(Service, ConnectLock), acts + [Act(OpAt(pc), ok)])
  {
    ConnectIsPlanned(pc, ok, pc');
    var a, p := Act(OpAt(pc), ok), ConnectPlan();
    var to := if pc'.Idle? then Planned(2, 5) else ConnectStage(pc'.connect);
    hide At, Fulfilled, Follows, OpAt;
    AtStep(acts, a, p, ConnectStage(pc.connect), to);
    if pc'.Idle? {
      AtEnd(acts + [a], p, 2, 5);
    }
  }

  /** Every action of a thread adds to what is told. */
  lemma ToldStep(pc: PC, ok: bool, pc': PC, begun: PC, acts: seq<Act>)
    requires !OpAt(pc).Nothing? && Told(pc, begun, acts) && Follows(pc, ok, pc')
    ensures Told(pc', begun, acts + [Act(OpAt(pc), ok)])
  {
    hide Follows, OpAt, FetchTells, RefreshTold, InRefreshOf, InMarkOf, At, BrowseTold;
    hide Fulfilled, Fetched, Refreshed, AllAsked;
    NotIdle(pc);
    match begun
    case Fetching(f, u, _) => FetchTellsStep(f, u, pc, ok, pc', acts); TellsIdle(f, u, pc', acts + [Act(OpAt(pc), ok)]);
    case Refreshing(f, _) => RefreshStep(f, pc, ok, pc', acts);
    case Marking(f, _, _) => MarkStep(f, pc, ok, pc', acts);
    case Expunging(f, _) => ExpungeStep(pc, ok, pc', acts);
    case Opening(f, _) => OpenStep(pc, ok, pc', acts);
    case Connecting(_, _) => ConnectStep(pc, ok, pc', acts);
    case Browsing(_) => BrowseStep(pc, ok, pc', acts);
    case _ =>
  }

  lemma NotIdle(pc: PC)
    ensures pc.Idle? ==> OpAt(pc).Nothing?
  {
  }

  lemma TellsIdle(f: Folder, u: Uid, pc: PC, acts: seq<Act>)
    ensures pc.Idle? ==> FetchTells(f, u, pc, acts) == Fetched(f, u, acts)
  {
  }

  lemma WakeTold(pc: PC, op: Op, begun: PC, acts: seq<Act>)
    requires Told(pc, begun, acts)
    ensures Told(Wake(pc, op), begun, acts)
    ensures IsAsleep(pc) ==> Told(pc.(fetch := Woken), begun, acts)
  {
    if IsAsleep(pc) {
      SleeperFetches(pc, begun, acts);
    }
  }

  lemma SleeperFetches(pc: PC, begun: PC, acts: seq<Act>)
    requires IsAsleep(pc) && Told(pc, begun, acts)
    ensures Told(pc.(fetch := Woken), begun, acts)
  {
  }

  // ---------------------------------------------------------------- over runs

  /** Who makes a step of a run: a thread whose action has an outcome, or one that begins or wakes by itself. */
  datatype Label = Acted(t: Tid, ok: bool) | Quiet(t: Tid)

  ghost predicate StepBy(s: System, who: Label, s': System) {
    match who
    case Acted(t, ok) =>
      && t in s.pcs && s'.pcs.Keys == s.pcs.Keys
      && Exec(t, OpAt(s.pcs[t]), s.sh, ok, s'.sh)
      && Follows(s.pcs[t], ok, s'.pcs[t])
      && forall x :: x in s.pcs && x != t ==> s'.pcs[x] == Wake(s.pcs[x], OpAt(s.pcs[t]))
    case Quiet(t) => QuietStep(s, t, s')
  }

  ghost predicate IsHistory(run: seq<System>, labels: seq<Label>) {
    && |run| == |labels| + 1 && Init(run[0])
    && forall i :: 0 <= i < |labels| ==> StepAt(run, labels, i)
  }

  ghost predicate StepAt(run: seq<System>, labels: seq<Label>, i: nat)
    requires i < |labels| && |run| == |labels| + 1
  {
    StepBy(run[i], labels[i], run[i + 1])
  }

  /** Every run has such labels. */
  lemma {:induction false} RunHasHistory(run: seq<System>) returns (labels: seq<Label>)
    requires IsRun(run)
    ensures IsHistory(run, labels)
  {
    labels := [];
    hide Init, Next, StepBy;
    if |run| > 1 {
      var n := |run| - 1;
      var front := run[..n];
      var before := RunHasHistory(front);
      assert Next(run[n - 1], run[n - 1 + 1]);
      var last := StepHasLabel(run[n - 1], run[n]);
      labels := before + [last];
      forall i | 0 <= i < n ensures StepAt(run, labels, i) {
        if i < n - 1 {
          assert StepAt(front, before, i);
        }
      }
    }
  }

  lemma StepHasLabel(s: System, s': System) returns (who: Label)
    requires Next(s, s')
    ensures StepBy(s, who, s')
  {
    var t :| ThreadStep(s, t, s') || QuietStep(s, t, s');
    if ThreadStep(s, t, s') {
      var ok :| Exec(t, OpAt(s.pcs[t]), s.sh, ok, s'.sh) && Follows(s.pcs[t], ok, s'.pcs[t]) &&
                forall x :: x in s.pcs && x != t ==> s'.pcs[x] == Wake(s.pcs[x], OpAt(s.pcs[t]));
      who := Acted(t, ok);
    } else {
      who := Quiet(t);
    }
  }

  /** The operation a thread has begun last, and what it has done in it so far. */
  datatype Story = Story(begun: PC, acts: seq<Act>)

  function StoryOf(run: seq<System>, labels: seq<Label>, i: nat, t: Tid): Story
    requires i < |run| && |run| == |labels| + 1
  {
    if i == 0 then Story(Idle, [])
    else Continued(run[i - 1], labels[i - 1], run[i], t, StoryOf(run, labels, i - 1, t))
  }

  /** What one step of the run adds to a thread's story. */
  function Continued(s: System, who: Label, s': System, t: Tid, was: Story): Story {
    match who
    case Acted(x, ok) => if x == t then Story(was.begun, was.acts + [Act(OpAt(PointOf(s, t)), ok)]) else was
    case Quiet(x) => if x == t && PointOf(s, t).Idle? then Story(PointOf(s', t), []) else was
  }

  function PointOf(s: System, t: Tid): PC {
    if t in s.pcs then s.pcs[t] else Idle
  }

  lemma {:induction false} ThreadsStay(run: seq<System>, labels: seq<Label>, t: Tid, k: nat)
    requires IsHistory(run, labels) && k < |run|
    ensures t in run[k].pcs <==> t in run[0].pcs
  {
    if k > 0 {
      ThreadsStay(run, labels, t, k - 1);
      assert StepAt(run, labels, k - 1);
      hide Exec, Follows, OpAt, Init;
    }
  }

  /** At every point of every run a thread has done what is told of its operation. */
  lemma {:induction false} StoriesAreTold(run: seq<System>, labels: seq<Label>, i: nat, t: Tid)
    requires IsHistory(run, labels) && i < |run| && t in run[i].pcs
    ensures var story := StoryOf(run, labels, i, t);
            Told(run[i].pcs[t], story.begun, story.acts)
  {
    if i == 0 {
      StartsTold(run[0], t);
    } else {
      hide Init, StepBy, Told, Continued;
      ThreadsStay(run, labels, t, i);
      ThreadsStay(run, labels, t, i - 1);
      StoriesAreTold(run, labels, i - 1, t);
      assert StepAt(run, labels, i - 1);
      OneMoreTold(run[i - 1], labels[i - 1], run[i], t, StoryOf(run, labels, i - 1, t));
    }
  }

  lemma StartsTold(s: System, t: Tid)
    requires Init(s) && t in s.pcs
    ensures Told(s.pcs[t], Idle, [])
  {
  }

  lemma OneMoreTold(s: System, who: Label, s': System, t: Tid, was: Story)
    requires StepBy(s, who, s') && t in s.pcs && t in s'.pcs && Told(s.pcs[t], was.begun, was.acts)
    ensures var story := Continued(s, who, s', t, was);
            Told(s'.pcs[t], story.begun, story.acts)
  {
    hide Told, OpAt, Follows, Wake, Exec;
    match who {
      case Acted(x, ok) =>
        if x == t {
          NothingIsNotDone(t, OpAt(s.pcs[t]), s.sh, ok, s'.sh);
          ToldStep(s.pcs[t], ok, s'.pcs[t], was.begun, was.acts);
        } else {
          WakeTold(s.pcs[t], OpAt(s.pcs[x]), was.begun, was.acts);
        }
      case Quiet(x) =>
        if x == t {
          QuietPoint(s.pcs[t], s'.pcs[t]);
          if s.pcs[t].Idle? {
            BeginsTold(s'.pcs[t]);
          } else {
            WakeTold(s.pcs[t], Choose, was.begun, was.acts);
          }
        }
    }
  }

  lemma NothingIsNotDone(t: Tid, op: Op, sh: Shared, ok: bool, sh': Shared)
    requires Exec(t, op, sh, ok, sh')
    ensures !op.Nothing?
  {
  }

  lemma QuietPoint(pc: PC, pc': PC)
    requires (pc.Idle? || IsAsleep(pc)) && Follows(pc, true, pc')
    ensures pc.Idle? ==> Starts(pc')
    ensures IsAsleep(pc) ==> pc' == pc.(fetch := Woken)
  {
  }

  /**
   In every run, whenever a thread has ended an operation, it has done what the operation is for,
   in order, unless one of the calls that the operation depends on failed.
   */
  lemma OperationsDoTheirWork(run: seq<System>, labels: seq<Label>, i: nat, t: Tid)
    requires IsHistory(run, labels) && i < |run| && t in run[i].pcs && run[i].pcs[t].Idle?
    ensures var story := StoryOf(run, labels, i, t);
            Ended(story.begun, story.acts)
  {
    StoriesAreTold(run, labels, i, t);
  }
}
