/**
 What a refresh makes of a message listing, and what an expunge makes of the messages marked
 deleted, stated on the whole summary.
 */
module FolderRefresh {
  import opened Options
  import opened Paths
  import opened FlagSync

  /** The properties of a listed message that matter here. */
  datatype Prop = Read(on: bool) | Priority(on: bool) | OtherProp(name: string)

  datatype Listed = Listed(uid: string, props: seq<Prop>)

  type Summary = map<string, Flags>

  datatype Change = Added | Changed | Removed

  type ChangeInfo = map<string, Change>

  // ---------------------------------------------------------------- the change record

  /** A uid added after it was removed counts as changed. */
  function AddUid(ci: ChangeInfo, uid: string): ChangeInfo {
    if uid !in ci then ci[uid := Added]
    else if ci[uid].Removed? then ci[uid := Changed]
    else ci
  }

  function ChangeUid(ci: ChangeInfo, uid: string): ChangeInfo {
    if uid in ci then ci else ci[uid := Changed]
  }

  function RemoveUid(ci: ChangeInfo, uid: string): ChangeInfo {
    ci[uid := Removed]
  }

  function KindOf(before: Summary, after: Summary, uid: string): Change
    requires uid in before || uid in after
  {
    if uid !in before then Added else if uid !in after then Removed else Changed
  }

  /** The difference between two summaries, each uid filed under one kind. */
  function Difference(before: Summary, after: Summary): ChangeInfo {
    map u | u in before.Keys + after.Keys && (u !in before || u !in after || before[u] != after[u]) ::
      KindOf(before, after, u)
  }

  // ---------------------------------------------------------------- what a listing says

  predicate ListedRead(m: Listed) {
    Read(true) in m.props
  }

  predicate ListedPriority(m: Listed) {
    Priority(true) in m.props
  }

  /** No property is listed with both values. */
  predicate Consistent(m: Listed) {
    && !(Read(true) in m.props && Read(false) in m.props)
    && !(Priority(true) in m.props && Priority(false) in m.props)
  }

  function ListedFlags(m: Listed): Flags {
    (if ListedRead(m) then {Seen} else {}) + (if ListedPriority(m) then {Flagged} else {})
  }

  /** The local flags with the two listed marks exchanged. */
  function Merge(flags: Flags, m: Listed): Flags {
    Exchange(flags, {Seen, Flagged}, ListedFlags(m))
  }

  ghost predicate DistinctUids(listing: seq<Listed>) {
    forall i, j :: 0 <= i < j < |listing| ==> listing[i].uid != listing[j].uid
  }

  function Uids(listing: seq<Listed>): set<string> {
    set i | 0 <= i < |listing| :: listing[i].uid
  }

  /** The flags that a listing leaves a message with, if it lists it and keeps it. */
  function FlagsFrom(before: Summary, listing: seq<Listed>, uid: string): Option<Flags> {
    if listing == [] then (if uid in before then Some(before[uid]) else None)
    else
      var m := listing[|listing| - 1];
      if m.uid == uid then
        (if uid in before then Some(Merge(before[uid], m))
         else if m.props == [] then None
         else Some(ListedFlags(m)))
      else FlagsFrom(before, listing[..|listing| - 1], uid)
  }

  /** The summary after a refresh; prune is the removal pass of the initial fetch. */
  function Refreshed(before: Summary, listing: seq<Listed>, prune: bool): Summary {
    map u | u in before.Keys + Uids(listing) && FlagsFrom(before, listing, u).Some? && (!prune || u in Uids(listing)) ::
      FlagsFrom(before, listing, u).value
  }

  lemma {:induction false} FlagsFromListed(before: Summary, listing: seq<Listed>, i: nat)
    requires DistinctUids(listing) && i < |listing|
    ensures var m := listing[i];
            FlagsFrom(before, listing, m.uid) ==
            if m.uid in before then Some(Merge(before[m.uid], m))
            else if m.props == [] then None
            else Some(ListedFlags(m))
  {
    if i < |listing| - 1 {
      FlagsFromListed(before, listing[..|listing| - 1], i);
    }
  }

  lemma {:induction false} FlagsFromUnlisted(before: Summary, listing: seq<Listed>, uid: string)
    requires uid !in Uids(listing)
    ensures FlagsFrom(before, listing, uid) == if uid in before then Some(before[uid]) else None
  {
    if listing != [] {
      assert listing[|listing| - 1].uid in Uids(listing);
      UidsOfFront(listing);
      FlagsFromUnlisted(before, listing[..|listing| - 1], uid);
    }
  }

  lemma UidsOfFront(listing: seq<Listed>)
    requires listing != []
    ensures Uids(listing) == Uids(listing[..|listing| - 1]) + {listing[|listing| - 1].uid}
  {
  }

  /** A listed message is in the summary exactly when it was there or has a property; its marks are the listed ones. */
  lemma RefreshedListed(before: Summary, listing: seq<Listed>, prune: bool, i: nat)
    requires DistinctUids(listing) && i < |listing|
    ensures var m, after := listing[i], Refreshed(before, listing, prune);
            && (m.uid in after <==> m.uid in before || m.props != [])
            && (m.uid in after ==>
                  && (Seen in after[m.uid] <==> ListedRead(m))
                  && (Flagged in after[m.uid] <==> ListedPriority(m))
                  && (m.uid in before ==> after[m.uid] - {Seen, Flagged} == before[m.uid] - {Seen, Flagged}))
  {
    FlagsFromListed(before, listing, i);
    assert listing[i].uid in Uids(listing);
  }

  /** The uids kept: the listing on the initial fetch, and the old ones with the listed ones otherwise. */
  lemma RefreshedUids(before: Summary, listing: seq<Listed>, prune: bool)
    requires DistinctUids(listing)
    requires forall m :: m in listing && m.uid !in before ==> m.props != []
    ensures Refreshed(before, listing, prune).Keys ==
            if prune then Uids(listing) else before.Keys + Uids(listing)
  {
    forall u | u in Uids(listing) ensures u in Refreshed(before, listing, prune) {
      var i :| 0 <= i < |listing| && listing[i].uid == u;
      FlagsFromListed(before, listing, i);
    }
    forall u | u !in Uids(listing) ensures FlagsFrom(before, listing, u).Some? <==> u in before {
      FlagsFromUnlisted(before, listing, u);
    }
  }

  /** Without the removal pass no message is lost, and an unlisted one keeps its flags. */
  lemma RefreshedKeepsUnlisted(before: Summary, listing: seq<Listed>, uid: string)
    requires uid in before && DistinctUids(listing)
    ensures uid in Refreshed(before, listing, false)
    ensures uid !in Uids(listing) ==> Refreshed(before, listing, false)[uid] == before[uid]
  {
    if uid in Uids(listing) {
      var i :| 0 <= i < |listing| && listing[i].uid == uid;
      FlagsFromListed(before, listing, i);
    } else {
      FlagsFromUnlisted(before, listing, uid);
    }
  }

  /**
   What a refresh records: a message is added exactly when it is new and listed with a property,
   removed exactly when the removal pass does not find it listed, and changed exactly when it is
   listed with another mark than it had.
   */
  lemma RefreshRecords(before: Summary, listing: seq<Listed>, prune: bool, u: string)
    requires DistinctUids(listing)
    ensures var ci := Difference(before, Refreshed(before, listing, prune));
            && (u in ci && ci[u] == Added <==>
                u !in before && exists m :: m in listing && m.uid == u && m.props != [])
            && (u in ci && ci[u] == Removed <==> prune && u in before && u !in Uids(listing))
            && (u in ci && ci[u] == Changed <==> exists m :: m in listing && MarksDiffer(before, m) && m.uid == u)
  {
    if u in Uids(listing) {
      var i :| 0 <= i < |listing| && listing[i].uid == u;
      FlagsFromListed(before, listing, i);
      assert listing[i] in listing;
      assert forall m :: m in listing && m.uid == u ==> m == listing[i];
      if u in before {
        MergeChanges(before[u], listing[i]);
      }
    } else {
      FlagsFromUnlisted(before, listing, u);
    }
  }

  /** The message is in the summary, with another read or priority mark than listed. */
  predicate MarksDiffer(before: Summary, m: Listed) {
    m.uid in before &&
    ((Seen in before[m.uid]) != ListedRead(m) || (Flagged in before[m.uid]) != ListedPriority(m))
  }

  lemma MergeChanges(flags: Flags, m: Listed)
    ensures Merge(flags, m) != flags <==> (Seen in flags) != ListedRead(m) || (Flagged in flags) != ListedPriority(m)
  {
    assert Seen in Merge(flags, m) <==> ListedRead(m);
    assert Flagged in Merge(flags, m) <==> ListedPriority(m);
  }

  /** The read mark that a listed message may make the refresh send. */
  function Echo(before: Summary, m: Listed): Option<bool> {
    if (m.uid in before && Seen in before[m.uid]) != ListedRead(m) then Some(ListedRead(m)) else None
  }

  lemma MergeAgain(flags: Flags, m: Listed)
    ensures Merge(Merge(flags, m), m) == Merge(flags, m)
    ensures Merge(ListedFlags(m), m) == ListedFlags(m)
  {
  }

  /** A second refresh from the same listing finds nothing to change and nothing to send. */
  lemma RefreshIsIdempotent(before: Summary, listing: seq<Listed>, prune: bool)
    requires DistinctUids(listing)
    ensures var once := Refreshed(before, listing, prune);
            && Refreshed(once, listing, false) == once
            && Difference(once, Refreshed(once, listing, false)) == map[]
            && Echoed(once, listing) == []
  {
    var once := Refreshed(before, listing, prune);
    var twice := Refreshed(once, listing, false);
    forall u ensures FlagsFrom(once, listing, u) == if u in once then Some(once[u]) else None {
      if u in Uids(listing) {
        var i :| 0 <= i < |listing| && listing[i].uid == u;
        FlagsFromListed(before, listing, i);
        FlagsFromListed(once, listing, i);
        MergeAgain(if u in before then before[u] else {}, listing[i]);
      } else {
        FlagsFromUnlisted(once, listing, u);
      }
    }
    assert twice == once;
    forall m | m in listing ensures Echo(once, m) == None {
      var i :| 0 <= i < |listing| && listing[i] == m;
      RefreshedListed(before, listing, prune, i);
    }
    NothingEchoed(once, listing);
  }

  /** The read marks that the refresh tries to send, in the order of the listing. */
  function Echoed(before: Summary, listing: seq<Listed>): seq<(string, bool)> {
    if listing == [] then []
    else
      var m := listing[|listing| - 1];
      Echoed(before, listing[..|listing| - 1]) + Tries(m.uid, Echo(before, m))
  }

  /** A message has its read mark tried: it is known with another mark, or new and listed as read. */
  predicate MarkTried(before: Summary, m: Listed) {
    if m.uid in before then (Seen in before[m.uid]) != ListedRead(m) else ListedRead(m)
  }

  function TriedCount(before: Summary, listing: seq<Listed>, n: nat): nat
    requires n <= |listing|
  {
    if n == 0 then 0 else TriedCount(before, listing, n - 1) + if MarkTried(before, listing[n - 1]) then 1 else 0
  }

  lemma {:induction false} EchoedCount(before: Summary, listing: seq<Listed>, n: nat)
    requires n <= |listing|
    ensures |Echoed(before, listing[..n])| == TriedCount(before, listing, n)
  {
    if n > 0 {
      assert listing[..n][..n - 1] == listing[..n - 1];
      EchoedCount(before, listing, n - 1);
    }
  }

  /** Each such message is tried once, with its listed mark, after just as many as come before it in the listing. */
  lemma {:induction false} EchoedInOrder(before: Summary, listing: seq<Listed>, n: nat, i: nat)
    requires i < n <= |listing| && MarkTried(before, listing[i])
    ensures |Echoed(before, listing[..n])| == TriedCount(before, listing, n) > TriedCount(before, listing, i)
    ensures Echoed(before, listing[..n])[TriedCount(before, listing, i)] == (listing[i].uid, ListedRead(listing[i]))
  {
    assert listing[..n][..n - 1] == listing[..n - 1];
    EchoedCount(before, listing, n);
    EchoedCount(before, listing, n - 1);
    if i < n - 1 {
      EchoedInOrder(before, listing, n - 1, i);
    }
  }

  lemma {:induction false} NothingEchoed(before: Summary, listing: seq<Listed>)
    requires forall m :: m in listing ==> Echo(before, m) == None
    ensures Echoed(before, listing) == []
  {
    if listing != [] {
      NothingEchoed(before, listing[..|listing| - 1]);
    }
  }

  /** The read marks sent are, in the order of the listing, some of those it may send, each once. */
  ghost predicate Echoes(before: Summary, listing: seq<Listed>, sent: seq<(string, bool)>) {
    if listing == [] then sent == []
    else
      var front, m := listing[..|listing| - 1], listing[|listing| - 1];
      || Echoes(before, front, sent)
      || (sent != [] && Echo(before, m) == Some(sent[|sent| - 1].1) && sent[|sent| - 1].0 == m.uid &&
          Echoes(before, front, sent[..|sent| - 1]))
  }

  lemma {:induction false} EchoesRepeatTheListing(before: Summary, listing: seq<Listed>, sent: seq<(string, bool)>)
    requires Echoes(before, listing, sent)
    ensures |sent| <= |listing|
    ensures forall w :: w in sent ==>
              exists m :: m in listing && m.uid == w.0 && Echo(before, m) == Some(w.1) && w.1 == ListedRead(m)
  {
    if listing != [] {
      var front, m := listing[..|listing| - 1], listing[|listing| - 1];
      if Echoes(before, front, sent) {
        EchoesRepeatTheListing(before, front, sent);
      } else {
        EchoesRepeatTheListing(before, front, sent[..|sent| - 1]);
        assert m in listing;
      }
    }
  }

  /** The summary after handling one listed message. */
  function Handled(before: Summary, m: Listed): Summary {
    if m.uid in before then before[m.uid := Merge(before[m.uid], m)]
    else if m.props == [] then before
    else before[m.uid := ListedFlags(m)]
  }

  lemma NotYetListed(before: Summary, listing: seq<Listed>, i: nat)
    requires DistinctUids(listing) && i < |listing|
    ensures var m, front := listing[i], listing[..i];
            && DistinctUids(front)
            && m.uid !in Uids(front)
            && Uids(listing[..i + 1]) == Uids(front) + {m.uid}
            && Echo(Refreshed(before, front, false), m) == Echo(before, m)
            && (m.uid in Refreshed(before, front, false) <==> m.uid in before)
            && (m.uid in before ==> Refreshed(before, front, false)[m.uid] == before[m.uid])
  {
    var m, front, next := listing[i], listing[..i], listing[..i + 1];
    assert next[..|next| - 1] == front && next[i] == m;
    UidsOfFront(next);
    FlagsFromUnlisted(before, front, m.uid);
  }

  lemma FlagsFromOneMore(before: Summary, listing: seq<Listed>, i: nat, u: string)
    requires DistinctUids(listing) && i < |listing|
    ensures var r := Handled(Refreshed(before, listing[..i], false), listing[i]);
            FlagsFrom(before, listing[..i + 1], u) == if u in r then Some(r[u]) else None
  {
    var m, front, next := listing[i], listing[..i], listing[..i + 1];
    assert next[..|next| - 1] == front && next[i] == m;
    NotYetListed(before, listing, i);
    if u !in Uids(front) {
      FlagsFromUnlisted(before, front, u);
    }
  }

  /** Handling the messages one after the other makes the refreshed summary. */
  lemma RefreshedStep(before: Summary, listing: seq<Listed>, i: nat)
    requires DistinctUids(listing) && i < |listing|
    ensures Refreshed(before, listing[..i + 1], false) == Handled(Refreshed(before, listing[..i], false), listing[i])
  {
    var next := listing[..i + 1];
    var r := Handled(Refreshed(before, listing[..i], false), listing[i]);
    NotYetListed(before, listing, i);
    forall u ensures FlagsFrom(before, next, u) == if u in r then Some(r[u]) else None {
      FlagsFromOneMore(before, listing, i, u);
    }
    assert forall u :: u !in before.Keys + Uids(next) ==> u !in r;
    hide Handled;
  }

  /** A summary or a cache without some messages. */
  function Without<T>(before: map<string, T>, gone: seq<string>): map<string, T> {
    map u | u in before && u !in gone :: before[u]
  }

  /** The change record with the removal of some messages recorded. */
  function Recorded(ci: ChangeInfo, gone: seq<string>): ChangeInfo {
    if gone == [] then ci else RemoveUid(Recorded(ci, gone[..|gone| - 1]), gone[|gone| - 1])
  }

  lemma WithoutOneMore<T>(before: map<string, T>, gone: seq<string>, u: string)
    ensures Without(before, gone + [u]) == Without(before, gone) - {u}
  {
  }

  lemma DifferenceAfterRemoval(before: Summary, kept: Summary, u: string)
    requires u in before
    ensures Difference(before, kept - {u}) == RemoveUid(Difference(before, kept), u)
  {
  }

  /** Recording the removed messages keeps the change record at the difference of the summaries. */
  lemma {:induction false} RecordedIsDifference(before: Summary, kept: Summary, gone: seq<string>)
    requires forall u :: u in gone ==> u in before
    ensures Recorded(Difference(before, kept), gone) == Difference(before, Without(kept, gone))
  {
    if gone == [] {
      assert Without(kept, gone) == kept;
    } else {
      var front, last := gone[..|gone| - 1], gone[|gone| - 1];
      assert gone == front + [last];
      RecordedIsDifference(before, kept, front);
      WithoutOneMore(kept, front, last);
      DifferenceAfterRemoval(before, Without(kept, front), last);
    }
  }

  lemma RecordedOneMore(ci: ChangeInfo, gone: seq<string>, u: string)
    ensures Recorded(ci, gone + [u]) == RemoveUid(Recorded(ci, gone), u)
  {
  }

  /** Dropping the unlisted messages after handling the listed ones makes the summary of an initial fetch. */
  lemma RemovalPassKeepsListed(before: Summary, listing: seq<Listed>, gone: seq<string>)
    requires forall u :: u in gone <==> u in Refreshed(before, listing, false) && u !in Uids(listing)
    ensures Refreshed(before, listing, true) == Without(Refreshed(before, listing, false), gone)
    ensures Difference(before, Refreshed(before, listing, true)) ==
            Recorded(Difference(before, Refreshed(before, listing, false)), gone)
  {
    assert forall u :: u in gone ==> u in before;
    RecordedIsDifference(before, Refreshed(before, listing, false), gone);
    assert Refreshed(before, listing, true) == Without(Refreshed(before, listing, false), gone);
  }

  // ---------------------------------------------------------------- runs of refreshes

  /** One summary after a run of refreshes, of which only the first may have the removal pass. */
  function AfterRefreshes(before: Summary, listings: seq<seq<Listed>>, initial: bool): Summary {
    if listings == [] then before
    else
      var front := listings[..|listings| - 1];
      Refreshed(AfterRefreshes(before, front, initial), listings[|listings| - 1], initial && front == [])
  }

  ghost predicate Usable(listings: seq<seq<Listed>>) {
    forall l :: l in listings ==> DistinctUids(l) && forall m :: m in l ==> m.props != []
  }

  function UidsOfAll(listings: seq<seq<Listed>>): set<string> {
    if listings == [] then {}
    else UidsOfAll(listings[..|listings| - 1]) + Uids(listings[|listings| - 1])
  }

  /** Over any run of refreshes a message is lost only to the first one of an initial fetch. */
  lemma {:induction false} RunOfRefreshesUids(before: Summary, listings: seq<seq<Listed>>, initial: bool)
    requires Usable(listings)
    ensures AfterRefreshes(before, listings, initial).Keys ==
            (if initial && listings != [] then {} else before.Keys) + UidsOfAll(listings)
  {
    if listings != [] {
      var front, last := listings[..|listings| - 1], listings[|listings| - 1];
      assert last in listings && forall l :: l in front ==> l in listings;
      RunOfRefreshesUids(before, front, initial);
      RefreshedUids(AfterRefreshes(before, front, initial), last, initial && front == []);
    }
  }

  /** The marks of a message are those of the last listing that named it. */
  lemma {:induction false} RunOfRefreshesMarks(before: Summary, listings: seq<seq<Listed>>, initial: bool,
                                               j: nat, i: nat)
    requires Usable(listings) && j < |listings| && i < |listings[j]|
    requires forall k :: j < k < |listings| ==> listings[j][i].uid !in Uids(listings[k])
    ensures var m, after := listings[j][i], AfterRefreshes(before, listings, initial);
            && m.uid in after
            && (Seen in after[m.uid] <==> ListedRead(m))
            && (Flagged in after[m.uid] <==> ListedPriority(m))
  {
    var n := |listings| - 1;
    var front, last := listings[..n], listings[n];
    var soFar := AfterRefreshes(before, front, initial);
    assert last in listings && forall l :: l in front ==> l in listings;
    var uid := listings[j][i].uid;
    if j == n {
      assert listings[j][i] in last;
      RefreshedListed(soFar, last, initial && front == [], i);
    } else {
      assert front[j] == listings[j];
      RunOfRefreshesMarks(before, front, initial, j, i);
      assert front != [] && uid !in Uids(last);
      RefreshedKeepsUnlisted(soFar, last, uid);
    }
  }

  // ---------------------------------------------------------------- the names of messages

  const MESSAGE := "message"

  /** How a message of the session is addressed. */
  function MessagePath(session: string, uid: string): string {
    session + "/" + (MESSAGE + uid)
  }

  /** What follows the last slash. */
  function Tail(path: string): Option<string> {
    if path == "" then None
    else
      var n := |path| - 1;
      if path[n] == '/' then Some("")
      else
        match Tail(path[..n])
        case None => None
        case Some(t) => Some(t + [path[n]])
  }

  /** The uid in a message's address follows the word message; a shorter last part has none. */
  function UidOfPath(path: string): Option<string> {
    match Tail(path)
    case None => None
    case Some(t) => if |t| < |MESSAGE| then None else Some(t[|MESSAGE|..])
  }

  lemma {:induction false} TailFollowsLastSlash(x: string, a: string)
    requires SlashFree(a)
    ensures Tail(x + "/" + a) == Some(a)
  {
    var path := x + "/" + a;
    if a == "" {
      assert path == x + "/";
    } else {
      var n := |a| - 1;
      assert path[|path| - 1] == a[n] && a[n] in a;
      assert path[..|path| - 1] == x + "/" + a[..n];
      TailFollowsLastSlash(x, a[..n]);
      assert a[..n] + [a[n]] == a;
    }
  }

  /** A listed message is later addressed by the very path it was listed with, and by no other message's. */
  lemma AddressRoundTrip(session: string, uid: string)
    requires SlashFree(uid)
    ensures UidOfPath(MessagePath(session, uid)) == Some(uid)
    ensures forall u :: SlashFree(u) && MessagePath(session, u) == MessagePath(session, uid) ==> u == uid
  {
    forall u | SlashFree(u) ensures UidOfPath(MessagePath(session, u)) == Some(u) {
      assert SlashFree(MESSAGE + u);
      TailFollowsLastSlash(session, MESSAGE + u);
    }
  }

  // ---------------------------------------------------------------- what an expunge removes

  /** The messages marked deleted among the first n of the array, in its order. */
  function MarkedAmong(before: Summary, known: seq<string>, n: nat): (r: seq<string>)
    requires n <= |known|
  {
    if n == 0 then []
    else
      var u := known[n - 1];
      MarkedAmong(before, known, n - 1) + if u in before && Deleted in before[u] then [u] else []
  }

  lemma {:induction false} MarkedAmongMembers(before: Summary, known: seq<string>, n: nat)
    requires n <= |known|
    ensures forall u :: u in MarkedAmong(before, known, n) <==> u in known[..n] && u in before && Deleted in before[u]
  {
    if n > 0 {
      MarkedAmongMembers(before, known, n - 1);
      assert known[..n] == known[..n - 1] + [known[n - 1]];
    }
  }

  lemma MarkedOneMore(before: Summary, known: seq<string>, n: nat)
    requires n < |known|
    ensures MarkedAmong(before, known, n + 1) ==
            MarkedAmong(before, known, n) + if known[n] in before && Deleted in before[known[n]] then [known[n]] else []
  {
  }

  /**
   The old uids split into the remaining and the removed ones, which the change record names;
   when the whole array was handled no message of it that is marked deleted remains.
   */
  lemma ExpungeSplitsUids(before: Summary, known: seq<string>, n: nat)
    requires n <= |known|
    ensures var gone := MarkedAmong(before, known, n);
            && (forall u :: u in before <==> (u in gone || u in Without(before, gone)))
            && (forall u :: !(u in gone && u in Without(before, gone)))
            && (n == |known| ==> forall u :: u in known && u in Without(before, gone) ==> Deleted !in before[u])
            && (forall u :: u in Difference(before, Without(before, gone)) <==> u in gone)
            && (forall u :: u in gone ==> Difference(before, Without(before, gone))[u] == Removed)
  {
    MarkedAmongMembers(before, known, n);
    assert known[..|known|] == known;
  }
}
