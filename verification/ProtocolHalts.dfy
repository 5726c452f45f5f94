/**
 What a thread no longer does once a call that its operation depends on has failed.
 */
module ProtocolHalts {
  import opened Options
  import opened Protocol
  import opened ProtocolStories

  /** After a failed call of the one kind there is no action of the other kind. */
  predicate Halts(acts: seq<Act>, failing: set<Op>, guarded: set<Op>) {
    forall i, j :: 0 <= i < j < |acts| && acts[i].op in failing && !acts[i].ok ==> acts[j].op !in guarded
  }

  /** The calls that an operation depends on. */
  function Failing(begun: PC): set<Op> {
    match begun
    case Fetching(f, _, _) => {Call(MakeDirectory), Select(DirOf(f)), Send(GetMessage, DirOf(f)), Call(ParseMessage)}
    case Refreshing(_, _) => {Call(UpdateInbox), Select(ROOT_DIR), Send(ListMessages, ROOT_DIR)}
    case Marking(f, _, _) => {Select(DirOf(f))}
    case Expunging(f, _) => {Send(SetMessage, DirOf(f))}
    case Connecting(_, _) => {Select(ROOT_DIR)}
    case Browsing(_) => {Call(GoOnline)}
    case _ => {}
  }

  /** What it does only while they succeed. */
  function Guarded(begun: PC): set<Op> {
    match begun
    case Fetching(f, u, _) =>
      {Call(MakeDirectory), Select(DirOf(f)), Note(DirOf(f)), Send(GetMessage, DirOf(f)), Call(ParseMessage),
       Acquire(Cache(f)), TestCache(f, u)}
    case Refreshing(f, _) =>
      {Call(UpdateInbox), Select(ROOT_DIR), Note(ROOT_DIR), Send(ListMessages, ROOT_DIR), TestInitial, ClearInitial,
       Prune, Send(SetMessage, DirOf(f))}
    case Marking(f, _, _) => {Note(DirOf(f)), Send(SetMessage, DirOf(f))}
    case Expunging(f, _) => {Send(SetMessage, DirOf(f)), Choose}
    case Connecting(_, _) => {Note(ROOT_DIR), Send(ListFolders, ROOT_DIR)}
    case Browsing(_) => {Acquire(CurrentFolder)}
    case _ => {}
  }

  /** The point is one of the operation. */
  predicate PartOf(pc: PC, begun: PC) {
    match begun
    case Fetching(f, u, _) =>
      (pc.Fetching? && pc.f == f && pc.u == u) || (pc.Selecting? && pc.f == f && pc.c == ForFetch(u))
    case Refreshing(f, _) => InRefreshOf(pc, f)
    case Marking(f, _, _) => InMarkOf(pc, f)
    case Expunging(f, _) => pc.Expunging? && pc.f == f
    case Opening(f, _) => pc.Opening? && pc.f == f
    case Connecting(_, _) => pc.Connecting? && pc.k.Service?
    case Browsing(_) => InBrowse(pc)
    case _ => false
  }

  /** No call has failed on the way to this point. */
  predicate Going(pc: PC) {
    match pc
    case Fetching(_, _, at) =>
      !at.FetchLeave? && !at.FetchCleanLock? && !at.FetchRemove? && !at.FetchCleanUnlock? && !at.FetchBroadcast?
    case Selecting(_, c, at) => at != SelectUnlock(false) || (c.ForMark? && c.r.InRefresh?)
    case Refreshing(_, at) =>
      !at.RefreshLeave? && !at.RefreshEndLock? && !at.RefreshReset? && !at.RefreshEndUnlock?
    case Marking(_, r, at) => r.InRefresh? || !at.MarkLeave?
    case Expunging(_, at) => !at.ExpungeLeave?
    case Connecting(k, at) => k.Listing? || !at.ConnectUnlock?
    case Browsing(at) => !at.InfoUnlock?
    case _ => false
  }

  lemma FetchGoes(pc: PC, ok: bool, pc': PC, begun: PC)
    requires begun.Fetching? && PartOf(pc, begun) && !OpAt(pc).Nothing? && Follows(pc, ok, pc')
    ensures pc'.Idle? || PartOf(pc', begun)
    ensures OpAt(pc) in Guarded(begun) ==> Going(pc)
    ensures Going(pc') ==> Going(pc) && (OpAt(pc) in Failing(begun) ==> ok)
  {
  }

  lemma RefreshGoes(pc: PC, ok: bool, pc': PC, begun: PC)
    requires begun.Refreshing? && PartOf(pc, begun) && Follows(pc, ok, pc')
    ensures pc'.Idle? || PartOf(pc', begun)
    ensures OpAt(pc) in Guarded(begun) ==> Going(pc)
    ensures Going(pc') ==> Going(pc) && (OpAt(pc) in Failing(begun) ==> ok)
  {
    RootIsNoFolder(begun.f);
    hide DirOf;
  }

  lemma OthersGo(pc: PC, ok: bool, pc': PC, begun: PC)
    requires !begun.Fetching? && !begun.Refreshing? && PartOf(pc, begun) && Follows(pc, ok, pc')
    ensures pc'.Idle? || PartOf(pc', begun)
    ensures OpAt(pc) in Guarded(begun) ==> Going(pc)
    ensures Going(pc') ==> Going(pc) && (OpAt(pc) in Failing(begun) ==> ok)
  {
  }

  lemma PointGoes(pc: PC, ok: bool, pc': PC, begun: PC)
    requires PartOf(pc, begun) && !OpAt(pc).Nothing? && Follows(pc, ok, pc')
    ensures pc'.Idle? || PartOf(pc', begun)
    ensures OpAt(pc) in Guarded(begun) ==> Going(pc)
    ensures Going(pc') ==> Going(pc) && (OpAt(pc) in Failing(begun) ==> ok)
  {
    match begun
    case Fetching(_, _, _) => FetchGoes(pc, ok, pc', begun);
    case Refreshing(_, _) => RefreshGoes(pc, ok, pc', begun);
    case _ => OthersGo(pc, ok, pc', begun);
  }

  /** What holds of a story at a point. */
  predicate Halted(pc: PC, story: Story) {
    && (pc.Idle? || PartOf(pc, story.begun))
    && Halts(story.acts, Failing(story.begun), Guarded(story.begun))
    && (Going(pc) ==> !FailedOne(story.acts, Failing(story.begun)))
  }

  lemma HaltsStep(acts: seq<Act>, a: Act, failing: set<Op>, guarded: set<Op>)
    requires Halts(acts, failing, guarded)
    requires a.op in guarded ==> !FailedOne(acts, failing)
    ensures Halts(acts + [a], failing, guarded)
    ensures !FailedOne(acts, failing) && (a.op in failing ==> a.ok) ==> !FailedOne(acts + [a], failing)
  {
    assert forall i :: 0 <= i < |acts| ==> acts[i] in acts;
  }

  lemma HaltedStep(pc: PC, ok: bool, pc': PC, story: Story)
    requires Halted(pc, story) && !OpAt(pc).Nothing? && Follows(pc, ok, pc')
    ensures Halted(pc', Story(story.begun, story.acts + [Act(OpAt(pc), ok)]))
  {
    IdleDoesNothing(pc);
    PointGoes(pc, ok, pc', story.begun);
    hide OpAt, Follows, PartOf, Going, Halts, FailedOne, Failing, Guarded;
    HaltsStep(story.acts, Act(OpAt(pc), ok), Failing(story.begun), Guarded(story.begun));
  }

  lemma IdleDoesNothing(pc: PC)
    ensures pc.Idle? ==> OpAt(pc).Nothing?
  {
  }

  lemma HaltedOtherwise(s: System, who: Label, s': System, t: Tid, was: Story)
    requires StepBy(s, who, s') && t in s.pcs && t in s'.pcs && Halted(s.pcs[t], was)
    requires who != Acted(t, true) && who != Acted(t, false)
    ensures Halted(s'.pcs[t], Continued(s, who, s', t, was))
  {
    match who
    case Acted(x, ok) => WokenIsHalted(s.pcs[t], OpAt(s.pcs[x]), was);
    case Quiet(x) =>
      if x == t && s.pcs[t].Idle? {
        BegunIsHalted(s'.pcs[t]);
      } else if x == t {
        WokenIsHalted(s.pcs[t], Broadcast(s.pcs[t].f), was);
      }
  }

  lemma WokenIsHalted(pc: PC, op: Op, story: Story)
    requires Halted(pc, story)
    ensures Halted(Wake(pc, op), story)
  {
  }

  lemma BegunIsHalted(pc: PC)
    requires Starts(pc)
    ensures Halted(pc, Story(pc, []))
  {
  }

  lemma StoryGrows(s: System, ok: bool, s': System, t: Tid, was: Story)
    requires StepBy(s, Acted(t, ok), s') && Halted(s.pcs[t], was)
    ensures Halted(s'.pcs[t], Continued(s, Acted(t, ok), s', t, was))
  {
    hide Halted, Follows, OpAt;
    NothingIsNotDone(t, OpAt(s.pcs[t]), s.sh, ok, s'.sh);
    HaltedStep(s.pcs[t], ok, s'.pcs[t], was);
  }

  /** In every run no thread goes on with what depends on a call that failed. */
  lemma {:induction false} FailuresHalt(run: seq<System>, labels: seq<Label>, i: nat, t: Tid)
    requires IsHistory(run, labels) && i < |run| && t in run[i].pcs
    ensures Halted(run[i].pcs[t], StoryOf(run, labels, i, t))
  {
    ThreadsStay(run, labels, t, i);
    if i > 0 {
      hide Init, StepBy, Halted, Continued;
      ThreadsStay(run, labels, t, i - 1);
      FailuresHalt(run, labels, i - 1, t);
      assert StepAt(run, labels, i - 1);
      var was := StoryOf(run, labels, i - 1, t);
      if labels[i - 1].Acted? && labels[i - 1].t == t {
        StoryGrows(run[i - 1], labels[i - 1].ok, run[i], t, was);
      } else {
        HaltedOtherwise(run[i - 1], labels[i - 1], run[i], t, was);
      }
    }
  }
}
