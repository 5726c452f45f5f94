/**
 The refresh and the expunge of a folder, as the loops that change the summary, the cache, the
 change record and the device.  The locks around them are the subject of Protocol.
 */
module MapFolder {
  import opened Options
  import KeyFiles
  import opened FlagSync
  import opened FolderRefresh

  class CamelMapStore {
    const device: Device
    /** The next listing may be used to find out which messages are gone. */
    var initialFetch: bool

    constructor (device: Device)
      ensures this.device == device && initialFetch
    {
      this.device := device;
      initialFetch := true;
    }
  }

  /** The outcome of asking the device to look for new messages, which some devices cannot do. */
  datatype InboxUpdate = Updated | NotImplemented | Failed

  /** Every read mark that changed now has its listed value. */
  ghost predicate Repeats(listing: seq<Listed>, read: map<string, bool>, read': map<string, bool>) {
    && read'.Keys == read.Keys
    && forall u :: u in read && read'[u] != read[u] ==>
         exists m :: m in listing && m.uid == u && read'[u] == ListedRead(m)
  }

  ghost predicate Agrees(listing: seq<Listed>, read: map<string, bool>) {
    forall m :: m in listing && m.uid in read ==> read[m.uid] == ListedRead(m)
  }

  /** A device that is in the state it has just listed is left in that state. */
  lemma AgreeingDeviceIsUnchanged(listing: seq<Listed>, read: map<string, bool>, read': map<string, bool>)
    requires Repeats(listing, read, read') && Agrees(listing, read)
    ensures read' == read
  {
  }

  /**
   What a refresh did to the device: it tried exactly the read marks that differed, in the order of
   the listing, those sent are some of them, and what changed now has its listed value.
   */
  ghost predicate Told(before: Summary, listing: seq<Listed>, was: Log, now: Log) {
    && now.tried == was.tried + Echoed(before, listing)
    && Repeats(listing, was.read, now.read)
    && exists sent :: SentOf(before, listing, was, now, sent)
  }

  ghost predicate SentOf(before: Summary, listing: seq<Listed>, was: Log, now: Log, sent: seq<(string, bool)>) {
    now.writes == was.writes + sent && Echoes(before, listing, sent)
  }

  lemma ToldNothing(before: Summary, log: Log)
    ensures Told(before, [], log, log)
  {
    assert SentOf(before, [], log, log, []);
  }

  lemma RepeatsGrow(listing: seq<Listed>, i: nat, was: map<string, bool>, now: map<string, bool>,
                    next: map<string, bool>)
    requires i < |listing| && Repeats(listing[..i], was, now)
    requires next == now || (listing[i].uid in now && next == now[listing[i].uid := ListedRead(listing[i])])
    ensures Repeats(listing[..i + 1], was, next)
  {
  }

  lemma EchoedGrows(before: Summary, listing: seq<Listed>, i: nat)
    requires i < |listing|
    ensures Echoed(before, listing[..i + 1]) ==
            Echoed(before, listing[..i]) + Tries(listing[i].uid, Echo(before, listing[i]))
  {
    assert listing[..i + 1][..i] == listing[..i];
  }

  lemma EchoesGrow(before: Summary, listing: seq<Listed>, i: nat, sent: seq<(string, bool)>)
    requires i < |listing| && Echoes(before, listing[..i], sent)
    ensures Echoes(before, listing[..i + 1], sent)
    ensures Echo(before, listing[i]).Some? ==>
              Echoes(before, listing[..i + 1], sent + [(listing[i].uid, Echo(before, listing[i]).value)])
  {
    var next := listing[..i + 1];
    assert next[..|next| - 1] == listing[..i] && next[|next| - 1] == listing[i];
    if Echo(before, listing[i]).Some? {
      var more := sent + [(listing[i].uid, Echo(before, listing[i]).value)];
      assert more[..|more| - 1] == sent;
    }
  }

  lemma EchoIsListed(before: Summary, m: Listed)
    ensures Echo(before, m).Some? ==> Echo(before, m).value == ListedRead(m)
  {
  }

  lemma ToldOneMore(before: Summary, listing: seq<Listed>, i: nat, was: Log, now: Log, next: Log)
    requires i < |listing| && Told(before, listing[..i], was, now)
    requires Sent(Echo(before, listing[i]), listing[i].uid, now, next)
    ensures Told(before, listing[..i + 1], was, next)
  {
    hide Echo, Echoed, Echoes, Repeats, ListedRead;
    var m := listing[i];
    EchoIsListed(before, m);
    EchoedGrows(before, listing, i);
    RepeatsGrow(listing, i, was.read, now.read, next.read);
    var sent :| SentOf(before, listing[..i], was, now, sent);
    EchoesGrow(before, listing, i, sent);
    if next.writes == now.writes {
      assert SentOf(before, listing[..i + 1], was, next, sent);
    } else {
      assert SentOf(before, listing[..i + 1], was, next, sent + [(m.uid, Echo(before, m).value)]);
    }
  }

  /** The record of one handled message keeps the change record at the difference of the summaries. */
  lemma DifferenceAfterStep(before: Summary, soFar: Summary, m: Listed)
    requires m.uid in soFar <==> m.uid in before
    requires m.uid in before ==> soFar[m.uid] == before[m.uid]
    ensures Difference(before, Handled(soFar, m)) ==
            var ci := Difference(before, soFar);
            if m.uid in soFar then (if Handled(soFar, m) != soFar then ChangeUid(ci, m.uid) else ci)
            else if m.props == [] then ci
            else AddUid(ci, m.uid)
  {
  }

  /** What one property of a new message does to its flags and which read mark that sends. */
  lemma NewPropStep(m: Listed, i: nat)
    requires Consistent(m) && i < |m.props|
    ensures var flags, next := ListedFlags(Listed(m.uid, m.props[..i])), ListedFlags(Listed(m.uid, m.props[..i + 1]));
            var p := m.props[i];
            && FolderFlagged !in next
            && (p.Read? ==>
                  && next == Exchange(flags, {Seen}, if p.on then {Seen} else {})
                  && ReadMarkFor(flags, {Seen}, if p.on then {Seen} else {}) ==
                     if p.on && Read(true) !in m.props[..i] then Some(true) else None)
            && (p.Priority? ==>
                  && next == Exchange(flags, {Flagged}, if p.on then {Flagged} else {})
                  && ReadMarkFor(flags, {Flagged}, if p.on then {Flagged} else {}) == None)
            && (p.OtherProp? ==> next == flags)
            && (Read(true) in m.props[..i + 1] <==> Read(true) in m.props[..i] || p == Read(true))
  {
  }

  /** The expunge handled the whole array, was refused a deletion, or met a message without info. */
  datatype Expunge = Done | Refused | NoInfo

  /** A uid of the array is in the summary until its own turn. */
  lemma StillThere(before: Summary, uids: seq<string>, i: nat, gone: seq<string>)
    requires KeyFiles.Distinct(uids) && i < |uids|
    requires forall u :: u in gone ==> u in uids[..i]
    ensures uids[i] in Without(before, gone) <==> uids[i] in before
    ensures uids[i] in before ==> Without(before, gone)[uids[i]] == before[uids[i]]
    ensures forall u :: u in gone + [uids[i]] ==> u in uids[..i + 1]
  {
  }

  class CamelMapFolder {
    const store: CamelMapStore
    var summary: Summary
    /** The messages stored on disk. */
    var cache: map<string, string>

    constructor (store: CamelMapStore, summary: Summary, cache: map<string, string>)
      ensures this.store == store && this.summary == summary && this.cache == cache
    {
      this.store, this.summary, this.cache := store, summary, cache;
    }

    /** The uids of the summary, in no particular order. */
    method GetArray() returns (uids: seq<string>)
      ensures KeyFiles.Distinct(uids)
      ensures forall u :: u in uids <==> u in summary
    {
      uids := [];
      var left := summary.Keys;
      while left != {}
        invariant KeyFiles.Distinct(uids)
        invariant left <= summary.Keys
        invariant forall u :: u in uids <==> u in summary && u !in left
        decreases |left|
      {
        var u :| u in left;
        uids := uids + [u];
        left := left - {u};
      }
    }

    // -------------------------------------------------------------- refresh

    method UpdateListed(m: Listed, ci: ChangeInfo) returns (r: ChangeInfo)
      requires m.uid in summary
      modifies `summary, store.device`read, store.device`tried, store.device`writes
      ensures summary == Handled(old(summary), m)
      ensures r == if summary != old(summary) then ChangeUid(ci, m.uid) else ci
      ensures Sent(Echo(old(summary), m), m.uid, old(store.device.Marks()), store.device.Marks())
    {
      var listed: Flags := {};
      for i := 0 to |m.props|
        invariant listed == ListedFlags(Listed(m.uid, m.props[..i]))
      {
        match m.props[i]
        case Read(on) => if on { listed := listed + {Seen}; }
        case Priority(on) => if on { listed := listed + {Flagged}; }
        case OtherProp(_) =>
      }
      assert m.props[..|m.props|] == m.props;
      var flags := summary[m.uid];
      var changed := false;
      if (Seen in flags) != (Seen in listed) {
        changed := true;
        flags := MapInfoSetFlags(store.device, m.uid, flags, {Seen}, listed * {Seen});
      }
      if (Flagged in flags) != (Flagged in listed) {
        changed := true;
        flags := MapInfoSetFlags(store.device, m.uid, flags, {Flagged}, listed * {Flagged});
      }
      assert flags == Merge(summary[m.uid], m);
      assert changed <==> flags != summary[m.uid] by {
        assert flags == summary[m.uid] ==> (Seen in flags <==> Seen in summary[m.uid]);
      }
      summary := summary[m.uid := flags];
      r := if changed then ChangeUid(ci, m.uid) else ci;
    }

    /** A new message enters the summary with its first property. */
    method AddListed(m: Listed, ci: ChangeInfo) returns (r: ChangeInfo)
      requires m.uid !in summary && Consistent(m)
      modifies `summary, store.device`read, store.device`tried, store.device`writes
      ensures summary == Handled(old(summary), m)
      ensures r == if m.props == [] then ci else AddUid(ci, m.uid)
      ensures Sent(Echo(old(summary), m), m.uid, old(store.device.Marks()), store.device.Marks())
    {
      r := ci;
      var flags: Flags := {};
      ghost var before, was := summary, store.device.Marks();
      SentNothing(m.uid, was);
      for i := 0 to |m.props|
        invariant flags == ListedFlags(Listed(m.uid, m.props[..i]))
        invariant summary == if i == 0 then before else before[m.uid := flags]
        invariant r == if i == 0 then ci else AddUid(ci, m.uid)
        invariant Sent(if Read(true) in m.props[..i] then Some(true) else None, m.uid,
                       was, store.device.Marks())
      {
        NewPropStep(m, i);
        hide ListedFlags, Exchange, ReadMarkFor, Sent;
        ghost var mid, tried := store.device.Marks(), if Read(true) in m.props[..i] then Some(true) else None;
        match m.props[i] {
          case Read(on) =>
            ghost var mark := ReadMarkFor(flags, {Seen}, if on then {Seen} else {});
            flags := MapInfoSetFlags(store.device, m.uid, flags, {Seen}, if on then {Seen} else {});
            SentOnce(m.uid, tried, mark, was, mid, store.device.Marks());
          case Priority(on) =>
            flags := MapInfoSetFlags(store.device, m.uid, flags, {Flagged}, if on then {Flagged} else {});
            SentOnce(m.uid, tried, None, was, mid, store.device.Marks());
          case OtherProp(_) =>
        }
        flags := flags - {FolderFlagged};
        summary := summary[m.uid := flags];
        assert summary == before[m.uid := flags];
        r := AddUid(r, m.uid);
      }
      assert m.props[..|m.props|] == m.props;
    }

    /** Drops the messages that the device no longer lists. */
    method RemoveUnlisted(listed: set<string>, ci: ChangeInfo) returns (r: ChangeInfo, ghost gone: seq<string>)
      modifies `summary
      ensures forall u :: u in gone <==> u in old(summary) && u !in listed
      ensures summary == Without(old(summary), gone)
      ensures r == Recorded(ci, gone)
    {
      r := ci;
      gone := [];
      ghost var before := summary;
      var uids := GetArray();
      assert Without(before, gone) == before;
      for i := 0 to |uids|
        invariant forall u :: u in gone <==> u in uids[..i] && u !in listed
        invariant summary == Without(before, gone)
        invariant r == Recorded(ci, gone)
      {
        assert uids[..i + 1] == uids[..i] + [uids[i]];
        if uids[i] !in listed {
          WithoutOneMore(before, gone, uids[i]);
          RecordedOneMore(ci, gone, uids[i]);
          summary := summary - {uids[i]};
          r := RemoveUid(r, uids[i]);
          gone := gone + [uids[i]];
        }
      }
      assert uids[..|uids|] == uids;
    }

    /** One listed message, known or new. */
    method HandleListed(m: Listed, ci: ChangeInfo, ghost before: Summary) returns (r: ChangeInfo)
      requires Consistent(m) && ci == Difference(before, summary)
      requires m.uid in summary <==> m.uid in before
      requires m.uid in before ==> summary[m.uid] == before[m.uid]
      modifies `summary, store.device`read, store.device`tried, store.device`writes
      ensures summary == Handled(old(summary), m) && r == Difference(before, summary)
      ensures Sent(Echo(before, m), m.uid, old(store.device.Marks()), store.device.Marks())
    {
      DifferenceAfterStep(before, summary, m);
      assert Echo(before, m) == Echo(summary, m);
      hide Handled, Difference, Echo, Tries, Sent;
      if m.uid in summary {
        r := UpdateListed(m, ci);
      } else {
        r := AddListed(m, ci);
      }
    }

    /** Handles the listed messages one after the other. */
    method MergeListing(listing: seq<Listed>) returns (all: set<string>, ci: ChangeInfo)
      requires DistinctUids(listing) && forall m :: m in listing ==> Consistent(m)
      modifies `summary, store.device`read, store.device`tried, store.device`writes
      ensures all == Uids(listing)
      ensures summary == Refreshed(old(summary), listing, false)
      ensures ci == Difference(old(summary), summary)
      ensures Told(old(summary), listing, old(store.device.Marks()), store.device.Marks())
    {
      all, ci := {}, map[];
      ghost var before := summary;
      assert Refreshed(before, listing[..0], false) == before;
      assert listing[..0] == [];
      ToldNothing(before, store.device.Marks());
      for i := 0 to |listing|
        invariant all == Uids(listing[..i])
        invariant summary == Refreshed(before, listing[..i], false)
        invariant ci == Difference(before, summary)
        invariant Told(before, listing[..i], old(store.device.Marks()), store.device.Marks())
      {
        hide Refreshed, Difference, Told, Sent, Uids, Handled, Echo;
        var m := listing[i];
        ghost var now := store.device.Marks();
        RefreshedStep(before, listing, i);
        NotYetListed(before, listing, i);
        all := all + {m.uid};
        ci := HandleListed(m, ci, before);
        ToldOneMore(before, listing, i, old(store.device.Marks()), now, store.device.Marks());
      }
      assert listing[..|listing|] == listing;
    }

    /**
     Refreshes the folder from the device's listing.  Asking for new messages, selecting the
     folder and listing it may fail; an error slot is needed to see that the first is merely not
     implemented.
     */
    method RefreshInfo(inbox: InboxUpdate, errorSlot: bool, selected: bool, reply: Option<seq<Listed>>)
      returns (ok: bool, ci: ChangeInfo)
      requires reply.Some? ==> DistinctUids(reply.value) && forall m :: m in reply.value ==> Consistent(m)
      modifies `summary, store`initialFetch, store.device`read, store.device`tried, store.device`writes
      ensures ok <==> (inbox == Updated || (inbox == NotImplemented && errorSlot)) && selected && reply.Some?
      ensures !ok ==> summary == old(summary) && store.initialFetch == old(store.initialFetch) && ci == map[]
      ensures !ok ==> store.device.Marks() == old(store.device.Marks())
      ensures ok ==> !store.initialFetch
      ensures ok ==> summary == Refreshed(old(summary), reply.value, old(store.initialFetch))
      ensures ok ==> ci == Difference(old(summary), summary)
      ensures ok ==> Told(old(summary), reply.value, old(store.device.Marks()), store.device.Marks())
    {
      ci := map[];
      if inbox != Updated {
        if !errorSlot || inbox != NotImplemented {
          return false, ci;
        }
      }
      if !selected || reply.None? {
        return false, ci;
      }
      var initial := store.initialFetch;
      if initial {
        store.initialFetch := false;
      }
      var all;
      ghost var before := summary;
      all, ci := MergeListing(reply.value);
      if initial {
        ghost var gone;
        ci, gone := RemoveUnlisted(all, ci);
        RemovalPassKeepsListed(before, reply.value, gone);
      }
      ok := true;
    }

    // -------------------------------------------------------------- expunge

    function Now(ci: ChangeInfo): Local
      reads this`summary, this`cache, store.device`asked, store.device`deleted
    {
      Local(summary, cache, ci, store.device.asked, store.device.deleted)
    }

    /**
     One message marked deleted: nothing local changes unless the device took the deletion.  With
     an error slot that is already set on entry the call is refused before it reaches the device.
     */
    method DeleteMessage(uid: string, errorSet: bool, ci: ChangeInfo) returns (ok: bool, r: ChangeInfo)
      modifies `summary, `cache, store.device`asked, store.device`deleted
      ensures errorSet ==> !ok
      ensures Now(r) == if ok then WithoutOne(old(Now(ci)), uid)
                        else if errorSet then old(Now(ci))
                        else old(Now(ci)).(asked := old(store.device.asked) + [uid])
    {
      ok, r := false, ci;
      if !errorSet {
        ok := store.device.SetMessageDeleted(uid);
      }
      if !ok {
        return;
      }
      r := RemoveUid(ci, uid);
      summary := summary - {uid};
      cache := cache - {uid};
    }

    /**
     Deletes the messages marked deleted until the device refuses one.  Known is the array of
     uids, which is read before the lock is taken: a message that was removed in between has no
     info, and the original does not look whether there is one.  Stop is how far the loop got.
     */
    method DeleteMessages(known: seq<string>, errorSet: bool) returns (r: Expunge, ci: ChangeInfo, ghost stop: nat)
      requires KeyFiles.Distinct(known)
      modifies `summary, `cache, store.device`asked, store.device`deleted
      ensures stop <= |known| && forall i :: 0 <= i < stop ==> known[i] in old(summary)
      ensures r == Done <==> stop == |known|
      ensures r == NoInfo ==> known[stop] !in old(summary)
      ensures r == Refused ==> known[stop] in old(summary) && Deleted in old(summary)[known[stop]]
      ensures summary == Without(old(summary), MarkedAmong(old(summary), known, stop))
      ensures cache == Without(old(cache), MarkedAmong(old(summary), known, stop))
      ensures ci == Difference(old(summary), summary)
      ensures store.device.deleted == old(store.device.deleted) + MarkedAmong(old(summary), known, stop)
      ensures store.device.asked == old(store.device.asked) + MarkedAmong(old(summary), known, stop) +
                                    if r == Refused && !errorSet then [known[stop]] else []
      ensures r == Done ==> forall u :: u in known && u in summary ==> Deleted !in summary[u]
      ensures errorSet ==> MarkedAmong(old(summary), known, stop) == []
    {
      ghost var before := summary;
      r, ci, stop := DeleteMarked(known, errorSet);
      ExpungeSplitsUids(before, known, stop);
      MarkedAmongMembers(before, known, stop);
      RecordedIsDifference(before, before, MarkedAmong(before, known, stop));
      assert Difference(before, before) == map[];
    }

    /** The loop. */
    method DeleteMarked(known: seq<string>, errorSet: bool) returns (r: Expunge, ci: ChangeInfo, ghost stop: nat)
      requires KeyFiles.Distinct(known)
      modifies `summary, `cache, store.device`asked, store.device`deleted
      ensures stop <= |known| && (r == Done <==> stop == |known|)
      ensures r == NoInfo ==> known[stop] !in old(summary)
      ensures r == Refused ==> known[stop] in old(summary) && Deleted in old(summary)[known[stop]]
      ensures HandledUpTo(old(Now(map[])), known, stop, Now(ci),
                          if r == Refused && !errorSet then [known[stop]] else [])
      ensures errorSet ==> MarkedAmong(old(summary), known, stop) == []
    {
      ghost var was := Now(map[]);
      ci, r := map[], Done;
      NothingHandled(was, known);
      var i := 0;
      while i < |known|
        invariant i <= |known| && r == Done
        invariant HandledUpTo(was, known, i, Now(ci), [])
        invariant errorSet ==> MarkedAmong(was.summary, known, i) == []
      {
        NextIsUntouched(was, known, i, Now(ci));
        hide HandledUpTo, MarkedAmong, KeyFiles.Distinct;
        if known[i] !in summary {
          r := NoInfo;
          break;
        }
        if Deleted in summary[known[i]] {
          MarkedIsHandled(was, known, i, Now(ci));
          var ok;
          ok, ci := DeleteMessage(known[i], errorSet, ci);
          if !ok {
            r := Refused;
            break;
          }
        } else {
          UnmarkedIsHandled(was, known, i, Now(ci));
        }
        i := i + 1;
      }
      stop := i;
    }
  }

  // ---------------------------------------------------------------- the steps of an expunge

  /** What an expunge changes: the summary, the cache, the change record and what it asked of the device. */
  datatype Local = Local(summary: Summary, cache: map<string, string>, ci: ChangeInfo, asked: seq<string>,
                         deleted: seq<string>)

  function WithoutOne(now: Local, uid: string): Local {
    Local(now.summary - {uid}, now.cache - {uid}, RemoveUid(now.ci, uid), now.asked + [uid], now.deleted + [uid])
  }

  /**
   The first n messages of the array are handled: all had an info, those marked deleted are gone
   and their deletion was asked for and acknowledged; extra was asked for besides.
   */
  ghost predicate HandledUpTo(was: Local, known: seq<string>, n: nat, now: Local, extra: seq<string>)
    requires n <= |known|
  {
    var gone := MarkedAmong(was.summary, known, n);
    && (forall j :: 0 <= j < n ==> known[j] in was.summary)
    && now.summary == Without(was.summary, gone)
    && now.cache == Without(was.cache, gone)
    && now.ci == Recorded(was.ci, gone)
    && now.deleted == was.deleted + gone
    && now.asked == was.asked + gone + extra
  }

  lemma NothingHandled(was: Local, known: seq<string>)
    ensures HandledUpTo(was, known, 0, was, [])
  {
    assert Without(was.summary, []) == was.summary && Without(was.cache, []) == was.cache;
  }

  /** The next message of the array is still as it was at the start. */
  lemma NextIsUntouched(was: Local, known: seq<string>, n: nat, now: Local)
    requires KeyFiles.Distinct(known) && n < |known| && HandledUpTo(was, known, n, now, [])
    ensures known[n] in now.summary <==> known[n] in was.summary
    ensures known[n] in was.summary ==> now.summary[known[n]] == was.summary[known[n]]
  {
    MarkedAmongMembers(was.summary, known, n);
    StillThere(was.summary, known, n, MarkedAmong(was.summary, known, n));
  }

  lemma UnmarkedIsHandled(was: Local, known: seq<string>, n: nat, now: Local)
    requires n < |known| && HandledUpTo(was, known, n, now, [])
    requires known[n] in was.summary && Deleted !in was.summary[known[n]]
    ensures HandledUpTo(was, known, n + 1, now, [])
    ensures MarkedAmong(was.summary, known, n + 1) == MarkedAmong(was.summary, known, n)
  {
    MarkedOneMore(was.summary, known, n);
    var gone := MarkedAmong(was.summary, known, n);
    assert gone + [] == gone;
    hide MarkedAmong, Without, Recorded;
  }

  lemma MarkedIsHandled(was: Local, known: seq<string>, n: nat, now: Local)
    requires n < |known| && HandledUpTo(was, known, n, now, [])
    requires known[n] in was.summary && Deleted in was.summary[known[n]]
    ensures HandledUpTo(was, known, n + 1, WithoutOne(now, known[n]), [])
    ensures HandledUpTo(was, known, n, now.(asked := now.asked + [known[n]]), [known[n]])
  {
    var gone, u := MarkedAmong(was.summary, known, n), known[n];
    MarkedOneMore(was.summary, known, n);
    WithoutOneMore(was.summary, gone, u);
    WithoutOneMore(was.cache, gone, u);
    RecordedOneMore(was.ci, gone, u);
    hide MarkedAmong, Without, Recorded;
    assert was.asked + gone + [] == was.asked + gone;
    assert was.asked + gone + [u] == was.asked + (gone + [u]) + [];
  }
}
