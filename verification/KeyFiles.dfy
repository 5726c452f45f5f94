/**
 The key file behind the store summary: groups in file order, each a map from keys to
 strings.  Only the part of GLib's key file that the summary uses is modelled.
 */
module KeyFiles {
  import opened Options

  const STORE_GROUP_NAME := "##storepriv"
  const CURRENT_SUMMARY_VERSION := 1

  datatype Key =
    | DisplayName
    | ParentFolderId
    | ChangeKey
    | SyncState
    | Flags
    | UnRead
    | Total
    | Version
    | Other(name: string)

  type Group = map<Key, string>

  datatype KeyFile = KeyFile(order: seq<string>, groups: map<string, Group>)

  const EMPTY := KeyFile([], map[])

  ghost predicate Distinct<T>(xs: seq<T>) {
    forall i, j :: 0 <= i < j < |xs| ==> xs[i] != xs[j]
  }

  /** The groups listed in file order are exactly the stored ones, each once. */
  ghost predicate WellFormed(kf: KeyFile) {
    && (forall g :: g in kf.order <==> g in kf.groups)
    && Distinct(kf.order)
  }

  function AsciiLower(s: string): (r: string)
    ensures |r| == |s|
  {
    seq(|s|, i requires 0 <= i < |s| =>
      if 'A' <= s[i] <= 'Z' then (s[i] as int + 32) as char else s[i])
  }

  /** The group for store-wide values is recognised whatever its letter case. */
  predicate IsStoreGroup(g: string) {
    AsciiLower(g) == STORE_GROUP_NAME
  }

  /** The letter in lower or in upper case. */
  predicate Letter(c: char, lower: char) {
    c == lower || ('a' <= lower <= 'z' && c as int + 32 == lower as int)
  }

  /** A string has this lower-case form exactly when it spells it, letter by letter. */
  lemma LowerSpells(s: string, lower: string)
    requires forall i :: 0 <= i < |lower| ==> !('A' <= lower[i] <= 'Z')
    ensures AsciiLower(s) == lower <==> |s| == |lower| && forall i :: 0 <= i < |s| ==> Letter(s[i], lower[i])
  {
    if |s| == |lower| && forall i :: 0 <= i < |s| ==> Letter(s[i], lower[i]) {
      forall i | 0 <= i < |s| ensures AsciiLower(s)[i] == lower[i] {
        assert Letter(s[i], lower[i]);
      }
    }
    if AsciiLower(s) == lower {
      forall i | 0 <= i < |s| ensures Letter(s[i], lower[i]) {
        assert AsciiLower(s)[i] == lower[i];
      }
    }
  }

  /** Which groups are no folders. */
  lemma StoreGroupSpelling(g: string)
    ensures IsStoreGroup(g) <==>
            && |g| == 11 && g[0] == '#' && g[1] == '#'
            && g[2] in "sS" && g[3] in "tT" && g[4] in "oO" && g[5] in "rR" && g[6] in "eE"
            && g[7] in "pP" && g[8] in "rR" && g[9] in "iI" && g[10] in "vV"
  {
    LowerSpells(g, STORE_GROUP_NAME);
    var name := STORE_GROUP_NAME;
    if |g| == 11 {
      assert (forall i :: 0 <= i < 11 ==> Letter(g[i], name[i])) <==>
             Letter(g[0], name[0]) && Letter(g[1], name[1]) && Letter(g[2], name[2]) && Letter(g[3], name[3]) &&
             Letter(g[4], name[4]) && Letter(g[5], name[5]) && Letter(g[6], name[6]) && Letter(g[7], name[7]) &&
             Letter(g[8], name[8]) && Letter(g[9], name[9]) && Letter(g[10], name[10]);
    }
  }

  function GetString(kf: KeyFile, g: string, k: Key): Option<string> {
    if g in kf.groups && k in kf.groups[g] then Some(kf.groups[g][k]) else None
  }

  function SetString(kf: KeyFile, g: string, k: Key, v: string): (r: KeyFile)
    ensures WellFormed(kf) ==> WellFormed(r)
    ensures forall h, j :: GetString(r, h, j) == if h == g && j == k then Some(v) else GetString(kf, h, j)
  {
    if g in kf.groups then
      kf.(groups := kf.groups[g := kf.groups[g][k := v]])
    else
      KeyFile(kf.order + [g], kf.groups[g := map[k := v]])
  }

  function RemoveKey(kf: KeyFile, g: string, k: Key): (r: KeyFile)
    ensures WellFormed(kf) ==> WellFormed(r)
    ensures forall h, j :: GetString(r, h, j) == if h == g && j == k then None else GetString(kf, h, j)
  {
    if g in kf.groups then
      kf.(groups := kf.groups[g := kf.groups[g] - {k}])
    else
      kf
  }

  function Without(order: seq<string>, g: string): (r: seq<string>)
    ensures forall h :: h in r <==> h in order && h != g
    ensures Distinct(order) ==> Distinct(r)
    ensures g !in order ==> r == order
  {
    if order == [] then []
    else if order[0] == g then Without(order[1..], g)
    else
      var rest := Without(order[1..], g);
      assert forall i :: 0 <= i < |rest| ==> rest[i] in rest && rest[i] in order[1..];
      [order[0]] + rest
  }

  /** The rest keeps its order: only the one place of the group is taken out. */
  lemma {:induction false} WithoutKeepsOrder(order: seq<string>, i: nat)
    requires Distinct(order) && i < |order|
    ensures Without(order, order[i]) == order[..i] + order[i + 1..]
  {
    if i == 0 {
      assert order[0] !in order[1..];
    } else {
      WithoutKeepsOrder(order[1..], i - 1);
      assert order[..i] == [order[0]] + order[1..][..i - 1];
    }
  }

  function RemoveGroup(kf: KeyFile, g: string): (r: KeyFile)
    ensures WellFormed(kf) ==> WellFormed(r)
    ensures forall h, j :: GetString(r, h, j) == if h == g then None else GetString(kf, h, j)
    ensures g !in r.order && g !in r.groups
  {
    KeyFile(Without(kf.order, g), kf.groups - {g})
  }

  /** How an unsigned number is written in the file. */
  function Decimal(n: nat): string {
    if n < 10 then [('0' as int + n) as char] else Decimal(n / 10) + Decimal(n % 10)
  }

  /** What a number written in the file is read back as. */
  function Number(s: string): nat {
    if s == "" then 0
    else
      var digit := s[|s| - 1] as int - '0' as int;
      10 * Number(s[..|s| - 1]) + if 0 <= digit < 10 then digit else 0
  }

  lemma {:induction false} NumberOfDecimal(n: nat)
    ensures Number(Decimal(n)) == n
  {
    if n >= 10 {
      NumberOfDecimal(n / 10);
      var last := Decimal(n % 10);
      assert Decimal(n)[..|Decimal(n)| - 1] == Decimal(n / 10);
    }
  }

  /** Reading back a missing or unreadable version gives 0, which is never current. */
  predicate IsCurrent(kf: KeyFile) {
    GetString(kf, STORE_GROUP_NAME, Version) == Some(Decimal(CURRENT_SUMMARY_VERSION))
  }
}
