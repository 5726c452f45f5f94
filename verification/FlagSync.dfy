/**
 Message flags: the write-back of the read mark to the device, and the merge of the server's
 flag word into the local one.
 */
module FlagSync {
  import opened Options

  /** The bits of a flag word; the library defines more than are named here. */
  datatype Flag = Answered | Deleted | Draft | Flagged | Seen | FolderFlagged | OtherFlag(bit: nat)

  /** A flag word is the set of its bits: and, or and and-not are intersection, union and difference. */
  type Flags = set<Flag>

  /** What the parent class does: exchange the masked bits. */
  function Exchange(flags: Flags, mask: Flags, value: Flags): Flags {
    (flags - mask) + (value * mask)
  }

  lemma ExchangeOfBit(flags: Flags, mask: Flags, value: Flags, bit: Flag)
    ensures bit in Exchange(flags, mask, value) <==> if bit in mask then bit in value else bit in flags
  {
  }

  // ---------------------------------------------------------------- the device

  /** The remote side: the read mark of each message it knows, and what was asked of it. */
  datatype Log = Log(read: map<string, bool>, tried: seq<(string, bool)>, writes: seq<(string, bool)>)

  class Device {
    var read: map<string, bool>
    /** Every read mark that was to be set, whatever failed afterwards. */
    var tried: seq<(string, bool)>
    /** Every read mark sent, whether or not the device took it. */
    var writes: seq<(string, bool)>
    /** The messages whose deletion was asked for, and those whose deletion was acknowledged, in order. */
    var asked: seq<string>
    var deleted: seq<string>

    function Marks(): Log
      reads `read, `tried, `writes
    {
      Log(read, tried, writes)
    }

    /** Selecting the folder, sending the mark and accepting it may each fail, unseen by the caller. */
    method MarkMessageRead(uid: string, value: bool)
      modifies `read, `tried, `writes
      ensures Sent(Some(value), uid, old(Marks()), Marks())
    {
      tried := tried + [(uid, value)];
      var selected: bool := *;
      if selected {
        writes := writes + [(uid, value)];
        var accepted: bool := *;
        if accepted && uid in read {
          read := read[uid := value];
        }
      }
    }

    method SetMessageDeleted(uid: string) returns (ok: bool)
      modifies `asked, `deleted
      ensures asked == old(asked) + [uid]
      ensures deleted == if ok then old(deleted) + [uid] else old(deleted)
    {
      asked := asked + [uid];
      ok := *;
      if ok {
        deleted := deleted + [uid];
      }
    }
  }

  /** The read mark that setting the flags must send: only when the mark is asked to change. */
  function ReadMarkFor(flags: Flags, mask: Flags, value: Flags): Option<bool> {
    if Seen in mask && (Seen in flags) != (Seen in value) then Some(Seen in value) else None
  }

  /** The attempts to set the given read mark, if there is one. */
  function Tries(uid: string, mark: Option<bool>): seq<(string, bool)> {
    if mark.Some? then [(uid, mark.value)] else []
  }

  /** The given read mark, if there is one, was tried, perhaps sent, and perhaps accepted. */
  predicate Sent(mark: Option<bool>, uid: string, was: Log, now: Log) {
    && now.tried == was.tried + Tries(uid, mark)
    && ((now.read == was.read && now.writes == was.writes) ||
        (mark.Some? && now.writes == was.writes + [(uid, mark.value)] &&
         (now.read == was.read || (uid in was.read && now.read == was.read[uid := mark.value]))))
  }

  lemma SentNothing(uid: string, log: Log)
    ensures Sent(None, uid, log, log)
  {
  }

  /** Two calls of which one had nothing to send. */
  lemma SentOnce(uid: string, first: Option<bool>, second: Option<bool>, was: Log, mid: Log, now: Log)
    requires Sent(first, uid, was, mid) && Sent(second, uid, mid, now)
    requires first.None? || second.None?
    ensures Sent(if first.Some? then first else second, uid, was, now)
  {
  }

  /** map_info_set_flags: tries to send the read mark exactly if it is to change, then exchanges the bits. */
  method MapInfoSetFlags(device: Device, uid: string, flags: Flags, mask: Flags, value: Flags) returns (r: Flags)
    modifies device`read, device`tried, device`writes
    ensures r == Exchange(flags, mask, value)
    ensures device.tried == old(device.tried) +
              if Seen in mask && (Seen in flags) != (Seen in value) then [(uid, Seen in value)] else []
    ensures Sent(ReadMarkFor(flags, mask, value), uid, old(device.Marks()), device.Marks())
  {
    if Seen in mask {
      if (Seen in flags) != (Seen in value) {
        device.MarkMessageRead(uid, Seen in value);
      }
    }
    r := Exchange(flags, mask, value);
  }

  // ---------------------------------------------------------------- one message

  datatype Words = Words(local: Flags, server: Flags)

  /** The bits whose server value has changed. */
  function MergeMask(w: Words, server: Flags): Flags {
    (server - w.server) + (w.server - server)
  }

  /** The local word with the newly set server bits added and the newly cleared ones removed. */
  function MergeValue(w: Words, server: Flags): Flags {
    (w.local + (server - w.server)) - (w.server - server)
  }

  /** The local and the server word after the server reports its word. */
  function Merged(w: Words, server: Flags): Words {
    Words(Exchange(w.local, MergeMask(w, server), MergeValue(w, server)), server)
  }

  class MapMessageInfo {
    const uid: string
    var flags: Flags
    var serverFlags: Flags
    var userFlags: set<string>

    constructor (uid: string)
      ensures this.uid == uid && flags == {} && serverFlags == {} && userFlags == {}
    {
      this.uid := uid;
      flags, serverFlags, userFlags := {}, {}, {};
    }

    function Both(): Words
      reads this
    {
      Words(flags, serverFlags)
    }

    method SetFlags(device: Device, mask: Flags, value: Flags)
      modifies `flags, device`read, device`tried, device`writes
      ensures flags == Exchange(old(flags), mask, value)
      ensures device.tried == old(device.tried) +
                if Seen in mask && (Seen in old(flags)) != (Seen in value) then [(uid, Seen in value)] else []
      ensures Sent(ReadMarkFor(old(flags), mask, value), uid, old(device.Marks()), device.Marks())
    {
      flags := MapInfoSetFlags(device, uid, flags, mask, value);
    }

    /** A read mark sent on the way repeats what the server has just reported. */
    method UpdateFlags(device: Device, server: Flags) returns (changed: bool)
      modifies `flags, `serverFlags, device`read, device`tried, device`writes
      ensures Both() == Merged(old(Both()), server)
      ensures device.tried == old(device.tried) +
                if (Seen in server) != (Seen in old(serverFlags)) && (Seen in server) != (Seen in old(flags))
                then [(uid, Seen in server)] else []
      ensures changed == (server != old(serverFlags))
      ensures device.writes == old(device.writes) || device.writes == old(device.writes) + [(uid, Seen in server)]
      ensures device.writes != old(device.writes) ==>
                (Seen in server) != (Seen in old(serverFlags)) && (Seen in server) != (Seen in old(flags))
      ensures uid in old(device.read) && old(device.read)[uid] == (Seen in server) ==> device.read == old(device.read)
    {
      changed := false;
      if server != serverFlags {
        WriteBackEchoesServer(Both(), server);
        SetFlags(device, MergeMask(Both(), server), MergeValue(Both(), server));
        serverFlags := server;
        changed := true;
      } else {
        MergeOfSameWord(Both());
      }
    }

    /** Replaces the user flags but keeps the calendar mark, which the server does not know. */
    method UpdateUserFlags(server: set<string>) returns (changed: bool)
      modifies `userFlags
      ensures userFlags == UserFlagsAfter(old(userFlags), server)
      ensures server == {} ==> userFlags == old(userFlags)
      ensures server != {} ==> userFlags - {HAS_CAL} == server - {HAS_CAL}
      ensures server != {} ==> (HAS_CAL in userFlags <==> HAS_CAL in server || HAS_CAL in old(userFlags))
      ensures changed == (server != {} && old(userFlags) != server)
    {
      changed := false;
      if server != {} {
        var calendar := HAS_CAL in userFlags;
        changed := userFlags != server;
        userFlags := server;
        if calendar {
          userFlags := userFlags + {HAS_CAL};
        }
      }
    }
  }

  lemma MergeOfSameWord(w: Words)
    ensures Merged(w, w.server) == w
  {
  }

  /** The merge sends a read mark only for a mark that the server changed, and sends that mark. */
  lemma WriteBackEchoesServer(w: Words, server: Flags)
    ensures ReadMarkFor(w.local, MergeMask(w, server), MergeValue(w, server)) ==
            if (Seen in server) != (Seen in w.server) && (Seen in server) != (Seen in w.local) then Some(Seen in server)
            else None
  {
  }

  // ---------------------------------------------------------------- merging bit by bit

  /** The bits in which the server's word has changed take the server's value, the others stay. */
  lemma MergeOfBit(w: Words, server: Flags, bit: Flag)
    ensures bit in Merged(w, server).local <==>
            if (bit in server) != (bit in w.server) then bit in server else bit in w.local
  {
  }

  /** Between reports of the server the user edits local flags. */
  datatype Event = Report(server: Flags) | Edit(mask: Flags, value: Flags)

  function After(w: Words, events: seq<Event>): Words {
    if events == [] then w
    else
      var v := After(w, events[..|events| - 1]);
      match events[|events| - 1]
      case Report(server) => Merged(v, server)
      case Edit(mask, value) => v.(local := Exchange(v.local, mask, value))
  }

  /** The single-bit reference: the local bit follows the last thing that happened to it. */
  datatype BitState = BitState(local: bool, server: bool)

  function BitAfter(b: BitState, events: seq<Event>, bit: Flag): BitState {
    if events == [] then b
    else
      var c := BitAfter(b, events[..|events| - 1], bit);
      match events[|events| - 1]
      case Report(server) =>
        BitState(if (bit in server) != c.server then bit in server else c.local, bit in server)
      case Edit(mask, value) => c.(local := if bit in mask then bit in value else c.local)
  }

  function BitOf(w: Words, bit: Flag): BitState {
    BitState(bit in w.local, bit in w.server)
  }

  /** Over any run of reports and edits the words move as independent bits. */
  lemma {:induction false} RunsMoveBitByBit(w: Words, events: seq<Event>, bit: Flag)
    ensures BitOf(After(w, events), bit) == BitAfter(BitOf(w, bit), events, bit)
  {
    if events != [] {
      var front := events[..|events| - 1];
      RunsMoveBitByBit(w, front, bit);
      if events[|events| - 1].Report? {
        MergeOfBit(After(w, front), events[|events| - 1].server, bit);
      }
    }
  }

  /** The server's last reported value of the bit. */
  function LastServer(server: bool, events: seq<Event>, bit: Flag): bool {
    if events == [] then server
    else if events[|events| - 1].Report? then bit in events[|events| - 1].server
    else LastServer(server, events[..|events| - 1], bit)
  }

  /** The server has reported another value of the bit than the one before. */
  ghost predicate Flipped(server: bool, events: seq<Event>, bit: Flag) {
    exists i :: 0 <= i < |events| && FlipsAt(server, events, bit, i)
  }

  predicate FlipsAt(server: bool, events: seq<Event>, bit: Flag, i: int)
    requires 0 <= i < |events|
  {
    events[i].Report? && (bit in events[i].server) != LastServer(server, events[..i], bit)
  }

  lemma FlippedGrows(server: bool, events: seq<Event>, bit: Flag)
    requires events != []
    ensures var front := events[..|events| - 1];
            Flipped(server, events, bit) <==> Flipped(server, front, bit) || FlipsAt(server, events, bit, |events| - 1)
  {
    var front := events[..|events| - 1];
    forall i | 0 <= i < |front| ensures FlipsAt(server, front, bit, i) == FlipsAt(server, events, bit, i) {
      assert front[..i] == events[..i];
    }
  }

  /**
   A bit that no edit touches ends at the server's last value if the server ever changed it,
   and at its original local value otherwise.
   */
  lemma {:induction false} UneditedBitFollowsServer(w: Words, events: seq<Event>, bit: Flag)
    requires forall e :: e in events && e.Edit? ==> bit !in e.mask
    ensures bit in After(w, events).server <==> LastServer(bit in w.server, events, bit)
    ensures bit in After(w, events).local <==>
            if Flipped(bit in w.server, events, bit) then LastServer(bit in w.server, events, bit) else bit in w.local
  {
    if events != [] {
      var front, last := events[..|events| - 1], events[|events| - 1];
      assert last in events;
      UneditedBitFollowsServer(w, front, bit);
      FlippedGrows(bit in w.server, events, bit);
      if last.Report? {
        MergeOfBit(After(w, front), last.server, bit);
      }
    }
  }

  // ---------------------------------------------------------------- user flags

  const HAS_CAL := "$has_cal"

  function UserFlagsAfter(flags: set<string>, server: set<string>): set<string> {
    if server == {} then flags
    else server + (if HAS_CAL in flags then {HAS_CAL} else {})
  }

  /** All user flags but the calendar mark become the server's; that one is never lost. */
  lemma UserFlagsFollowServer(flags: set<string>, server: set<string>, flag: string)
    ensures flag in UserFlagsAfter(flags, server) <==>
            if server == {} then flag in flags else flag in server || (flag == HAS_CAL && flag in flags)
  {
  }

  /**
   Reporting the same user flags again leaves them alone, but it is announced as a change
   exactly when the calendar mark was kept although the server does not list it.
   */
  lemma RepeatedUserFlags(flags: set<string>, server: set<string>)
    requires server != {}
    ensures var once := UserFlagsAfter(flags, server);
            && UserFlagsAfter(once, server) == once
            && (once != server <==> HAS_CAL in flags && HAS_CAL !in server)
  {
  }
}
