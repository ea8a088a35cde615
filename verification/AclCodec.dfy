/** The Linux extended-attribute form of a POSIX access ACL, and the repair that lets one
    named user read again after a mask was narrowed. Access is decided as in section 23.1.5
    of the withdrawn POSIX 1003.1e draft 17. */
module AclCodec {
  import opened Basics

  type Byte = b: nat | b < 256

  datatype Entry = Entry(tag: nat, permissions: nat, id: nat)

  const VERSION := 2
  const OWNER := 1
  const USER := 2
  const GROUP := 4
  const NAMED_GROUP := 8
  const MASK := 16
  const OTHER := 32

  // ----- Bytes -----

  function U16(b: seq<Byte>, at: nat): nat
    requires at + 2 <= |b|
  {
    var low: nat, high: nat := b[at], b[at + 1];
    low + 256 * high
  }

  function U32(b: seq<Byte>, at: nat): nat
    requires at + 4 <= |b|
  {
    U16(b, at) + 65536 * U16(b, at + 2)
  }

  function Put16(n: nat): seq<Byte>
    requires n < 65536
  {
    [n % 256, n / 256]
  }

  function Put32(n: nat): seq<Byte>
    requires n < 0x1_0000_0000
  {
    Put16(n % 65536) + Put16(n / 65536)
  }

  predicate Fits(e: Entry) {
    e.tag < 65536 && e.permissions < 65536 && e.id < 0x1_0000_0000
  }

  function PutEntry(e: Entry): (b: seq<Byte>)
    requires Fits(e)
    ensures |b| == 8
  {
    Put16(e.tag) + Put16(e.permissions) + Put32(e.id)
  }

  function GetEntry(b: seq<Byte>): Entry
    requires |b| == 8
  {
    Entry(U16(b, 0), U16(b, 2), U32(b, 4))
  }

  lemma EntryRoundTrip(e: Entry)
    requires Fits(e)
    ensures GetEntry(PutEntry(e)) == e
  {
  }

  lemma BytesRoundTrip(b: seq<Byte>)
    requires |b| == 8
    ensures Fits(GetEntry(b)) && PutEntry(GetEntry(b)) == b
  {
    var e := GetEntry(b);
    assert Put16(e.tag) == [b[0], b[1]] && Put16(e.permissions) == [b[2], b[3]];
    var low, high := U16(b, 4), U16(b, 6);
    assert e.id % 65536 == low && e.id / 65536 == high;
    assert Put16(low) == [b[4], b[5]] && Put16(high) == [b[6], b[7]];
  }

  function PutEntries(entries: seq<Entry>): (b: seq<Byte>)
    requires forall e | e in entries :: Fits(e)
    ensures |b| == 8 * |entries|
  {
    if entries == [] then [] else PutEntry(entries[0]) + PutEntries(entries[1..])
  }

  function GetEntries(b: seq<Byte>): (entries: seq<Entry>)
    requires |b| % 8 == 0
    ensures 8 * |entries| == |b|
    decreases |b|
  {
    if b == [] then [] else [GetEntry(b[..8])] + GetEntries(b[8..])
  }

  lemma {:induction false} EntriesRoundTrip(entries: seq<Entry>)
    requires forall e | e in entries :: Fits(e)
    ensures GetEntries(PutEntries(entries)) == entries
    decreases |entries|
  {
    if entries != [] {
      var b := PutEntries(entries);
      EntryRoundTrip(entries[0]);
      assert b[..8] == PutEntry(entries[0]) && b[8..] == PutEntries(entries[1..]);
      EntriesRoundTrip(entries[1..]);
    }
  }

  lemma {:induction false} RawEntriesRoundTrip(b: seq<Byte>)
    requires |b| % 8 == 0
    ensures (forall e | e in GetEntries(b) :: Fits(e)) && PutEntries(GetEntries(b)) == b
    decreases |b|
  {
    if b != [] {
      BytesRoundTrip(b[..8]);
      RawEntriesRoundTrip(b[8..]);
      var entries := GetEntries(b);
      assert entries[0] == GetEntry(b[..8]) && entries[1..] == GetEntries(b[8..]);
      forall e | e in entries
        ensures Fits(e)
      {
        assert e == entries[0] || e in entries[1..];
      }
    }
  }

  predicate WellFormed(raw: seq<Byte>) {
    4 <= |raw| && (|raw| - 4) % 8 == 0 && U32(raw, 0) == VERSION
  }

  function Decode(raw: seq<Byte>): seq<Entry>
    requires WellFormed(raw)
  {
    GetEntries(raw[4..])
  }

  function Encode(entries: seq<Entry>): seq<Byte>
    requires forall e | e in entries :: Fits(e)
  {
    Put32(VERSION) + PutEntries(entries)
  }

  /** Decoding and encoding are inverse on well-formed attributes and on entry lists. */
  lemma CodecRoundTrip(raw: seq<Byte>, entries: seq<Entry>)
    requires forall e | e in entries :: Fits(e)
    ensures WellFormed(Encode(entries)) && Decode(Encode(entries)) == entries
    ensures WellFormed(raw) ==> (forall e | e in Decode(raw) :: Fits(e)) && Encode(Decode(raw)) == raw
  {
    var b := Encode(entries);
    assert Put32(VERSION) == [2, 0, 0, 0];
    assert b[..4] == [2, 0, 0, 0] && b[4..] == PutEntries(entries);
    assert U32(b, 0) == VERSION;
    EntriesRoundTrip(entries);
    if WellFormed(raw) {
      RawEntriesRoundTrip(raw[4..]);
      assert raw[0] == 2 && raw[1] == 0 && raw[2] == 0 && raw[3] == 0;
      assert raw == raw[..4] + raw[4..] && raw[..4] == [2, 0, 0, 0];
    }
  }

  lemma SliceOfRest<T>(s: seq<T>, n: nat, from: nat, to: nat)
    requires n <= from <= to <= |s|
    ensures s[n..][from - n..to - n] == s[from..to]
  {
  }

  lemma {:induction false} EntryIsAt(b: seq<Byte>, i: nat)
    requires |b| % 8 == 0 && 8 * i < |b|
    ensures GetEntries(b)[i] == GetEntry(b[8 * i..8 * i + 8])
    decreases |b|
  {
    if i != 0 {
      var rest, from := b[8..], 8 * i;
      EntryIsAt(rest, i - 1);
      SliceOfRest(b, 8, from, from + 8);
      assert GetEntries(b)[i] == GetEntries(rest)[i - 1];
    }
  }

  /** The bytes of an attribute: version 2 in four bytes, and then eight bytes an entry, two for
      its tag, two for its permissions and four for its id, the lowest byte first throughout. */
  lemma AttributeLayout(raw: seq<Byte>, i: nat)
    requires 4 <= |raw| && (|raw| - 4) % 8 == 0
    ensures WellFormed(raw) <==> raw[0] == 2 && raw[1] == 0 && raw[2] == 0 && raw[3] == 0
    ensures WellFormed(raw) ==> 8 * |Decode(raw)| == |raw| - 4
    ensures WellFormed(raw) && i < |Decode(raw)| ==>
              var at := 4 + 8 * i;
              && Decode(raw)[i].tag == (raw[at] as nat) + 256 * (raw[at + 1] as nat)
              && Decode(raw)[i].permissions == (raw[at + 2] as nat) + 256 * (raw[at + 3] as nat)
              && Decode(raw)[i].id == (raw[at + 4] as nat) + 256 * (raw[at + 5] as nat)
                                      + 65536 * (raw[at + 6] as nat) + 16777216 * (raw[at + 7] as nat)
  {
    if WellFormed(raw) && i < |Decode(raw)| {
      EntryIsAt(raw[4..], i);
      var b := raw[4..][8 * i..8 * i + 8];
      assert forall k | 0 <= k < 8 :: b[k] == raw[4 + 8 * i + k];
    }
  }

  // ----- The repair -----

  datatype Repair = Invalid | NotOurs | Repaired(raw: seq<Byte>)

  /** The read bit of a three-bit permission. */
  predicate Reads(permissions: nat) {
    permissions / 4 % 2 == 1
  }

  function WithRead(permissions: nat): nat {
    if Reads(permissions) then permissions else permissions + 4
  }

  function Tags(entries: seq<Entry>): multiset<nat> {
    multiset(seq(|entries|, i requires 0 <= i < |entries| => entries[i].tag))
  }

  /** The first entry with a tag. */
  function Find(entries: seq<Entry>, tag: nat): Option<Entry> {
    if entries == [] then None
    else if entries[0].tag == tag then Some(entries[0])
    else Find(entries[1..], tag)
  }

  function Updated(e: Entry): Entry {
    if e.tag == USER then e.(permissions := 4)
    else if e.tag == MASK then e.(permissions := WithRead(e.permissions))
    else e
  }

  function UpdateAll(entries: seq<Entry>): (updated: seq<Entry>)
    ensures |updated| == |entries|
    ensures forall i | 0 <= i < |entries| :: updated[i] == Updated(entries[i])
  {
    seq(|entries|, i requires 0 <= i < |entries| => Updated(entries[i]))
  }

  predicate SoleNamedUser(entries: seq<Entry>) {
    Tags(entries) == multiset{OWNER, USER, GROUP, MASK, OTHER}
  }

  /** Broker is the only named principal, may read, is masked out, and nobody else outside the
      owner has any access. */
  predicate Repairable(entries: seq<Entry>, broker: nat) {
    && SoleNamedUser(entries)
    && var named, mask := Find(entries, USER), Find(entries, MASK);
    && named.Some? && mask.Some?
    && named.value.id == broker && Reads(named.value.permissions) && !Reads(mask.value.permissions)
    && forall e | e in entries && (e.tag == GROUP || e.tag == OTHER) :: e.permissions == 0
  }

  function RepairedAcl(raw: seq<Byte>, broker: nat): (r: Repair)
  {
    if !WellFormed(raw) then Invalid
    else
      var entries := Decode(raw);
      if exists e | e in entries :: 7 < e.permissions then Invalid
      else if !Repairable(entries, broker) then NotOurs
      else
        RawEntriesRoundTrip(raw[4..]);
        UpdateFits(entries);
        Repaired(Encode(UpdateAll(entries)))
  }

  lemma UpdateFits(entries: seq<Entry>)
    requires forall e | e in entries :: Fits(e) && e.permissions <= 7
    ensures forall e | e in UpdateAll(entries) :: Fits(e) && e.permissions <= 7
  {
  }

  // ----- Access -----

  datatype Right = Read | Write | Execute

  function Rights(permissions: nat): set<Right> {
    (if permissions / 4 % 2 == 1 then {Read} else {})
    + (if permissions / 2 % 2 == 1 then {Write} else {})
    + (if permissions % 2 == 1 then {Execute} else {})
  }

  function Permitted(e: Option<Entry>): set<Right> {
    if e.Some? then Rights(e.value.permissions) else {}
  }

  function MaskRights(entries: seq<Entry>): set<Right> {
    var mask := Find(entries, MASK);
    if mask.Some? then Rights(mask.value.permissions) else {Read, Write, Execute}
  }

  datatype Subject = Subject(uid: nat, groups: set<nat>)

  predicate MatchesGroup(e: Entry, fileGroup: nat, s: Subject) {
    (e.tag == GROUP && fileGroup in s.groups) || (e.tag == NAMED_GROUP && e.id in s.groups)
  }

  /** Whether the ACL grants a process all of the requested rights: the owner entry, else the
      named-user entry under the mask, else some matching group entry under the mask, else
      the other entry. */
  predicate Grants(entries: seq<Entry>, owner: nat, fileGroup: nat, s: Subject, request: set<Right>) {
    if s.uid == owner then request <= Permitted(Find(entries, OWNER))
    else if exists e | e in entries :: e.tag == USER && e.id == s.uid then
      exists e | e in entries ::
        e.tag == USER && e.id == s.uid && request <= Rights(e.permissions) * MaskRights(entries)
    else if exists e | e in entries :: MatchesGroup(e, fileGroup, s) then
      exists e | e in entries ::
        MatchesGroup(e, fileGroup, s) && request <= Rights(e.permissions) * MaskRights(entries)
    else request <= Permitted(Find(entries, OTHER))
  }

  lemma {:induction false} FindUpdated(entries: seq<Entry>, tag: nat)
    ensures var found := Find(entries, tag);
            Find(UpdateAll(entries), tag) == if found.Some? then Some(Updated(found.value)) else None
    decreases |entries|
  {
    if entries != [] {
      assert UpdateAll(entries)[1..] == UpdateAll(entries[1..]);
      FindUpdated(entries[1..], tag);
    }
  }

  lemma {:induction false} FindIsAnEntry(entries: seq<Entry>, tag: nat)
    ensures Find(entries, tag).Some? ==> Find(entries, tag).value in entries && Find(entries, tag).value.tag == tag
    decreases |entries|
  {
    if entries != [] {
      FindIsAnEntry(entries[1..], tag);
    }
  }

  lemma EqualElementsCountTwice(tags: seq<nat>, i: nat, j: nat)
    requires i < j < |tags| && tags[i] == tags[j]
    ensures multiset(tags)[tags[i]] >= 2
  {
    assert tags == tags[..j] + tags[j..];
    assert tags[..j][i] in tags[..j] && tags[j..][0] in tags[j..];
  }

  lemma TagCount(entries: seq<Entry>, tag: nat)
    requires Tags(entries)[tag] == 1
    ensures forall d, e | d in entries && e in entries && d.tag == tag && e.tag == tag :: d == e
  {
    forall d, e | d in entries && e in entries && d.tag == tag && e.tag == tag
      ensures d == e
    {
      var i :| 0 <= i < |entries| && entries[i] == d;
      var j :| 0 <= j < |entries| && entries[j] == e;
      var tags := seq(|entries|, k requires 0 <= k < |entries| => entries[k].tag);
      if i < j {
        EqualElementsCountTwice(tags, i, j);
      } else if j < i {
        EqualElementsCountTwice(tags, j, i);
      }
    }
  }

  lemma UpdateKeepsTags(entries: seq<Entry>)
    ensures Tags(UpdateAll(entries)) == Tags(entries)
  {
    assert seq(|entries|, i requires 0 <= i < |entries| => entries[i].tag)
        == seq(|entries|, i requires 0 <= i < |entries| => UpdateAll(entries)[i].tag);
  }

  lemma TagIsPresent(entries: seq<Entry>, e: Entry)
    requires e in entries
    ensures Tags(entries)[e.tag] > 0
  {
    var i :| 0 <= i < |entries| && entries[i] == e;
    var tags := seq(|entries|, k requires 0 <= k < |entries| => entries[k].tag);
    assert tags[i] in tags;
  }

  /** What the access check sees of an ACL whose only named principal is one user. */
  lemma GrantsOfSoleNamedUser(entries: seq<Entry>, owner: nat, fileGroup: nat, s: Subject, request: set<Right>, named: Entry)
    requires SoleNamedUser(entries) && Find(entries, USER) == Some(named)
    requires forall e | e in entries && (e.tag == GROUP || e.tag == OTHER) :: e.permissions == 0
    ensures Grants(entries, owner, fileGroup, s, request) <==>
              if s.uid == owner then request <= Permitted(Find(entries, OWNER))
              else if s.uid == named.id then request <= Rights(named.permissions) * MaskRights(entries)
              else request == {}
  {
    FindIsAnEntry(entries, USER);
    FindIsAnEntry(entries, OTHER);
    TagCount(entries, USER);
    forall e | e in entries
      ensures e.tag != NAMED_GROUP
      ensures e.tag == USER ==> e == named
    {
      TagIsPresent(entries, e);
    }
    assert Rights(0) == {};
    if s.uid != owner && s.uid != named.id {
      assert !exists e | e in entries :: e.tag == USER && e.id == s.uid;
      if exists e | e in entries :: MatchesGroup(e, fileGroup, s) {
        var e :| e in entries && MatchesGroup(e, fileGroup, s);
        assert Rights(e.permissions) * MaskRights(entries) == {};
      } else if Find(entries, OTHER).Some? {
        assert Permitted(Find(entries, OTHER)) == {};
      }
    }
  }

  lemma RepairedDecodes(raw: seq<Byte>, broker: nat)
    requires RepairedAcl(raw, broker).Repaired?
    ensures var fixed := RepairedAcl(raw, broker).raw;
            && WellFormed(fixed) && Decode(fixed) == UpdateAll(Decode(raw))
            && Repairable(Decode(raw), broker)
            && (forall e | e in Decode(fixed) :: e.permissions <= 7)
  {
    var entries := Decode(raw);
    RawEntriesRoundTrip(raw[4..]);
    UpdateFits(entries);
    CodecRoundTrip(raw, UpdateAll(entries));
  }

  /** The two entries the repair changes, and the mask before and after. */
  lemma UpdateUnmasksRead(entries: seq<Entry>, broker: nat)
    requires Repairable(entries, broker)
    ensures var named := Find(entries, USER).value; var updated := UpdateAll(entries);
            && SoleNamedUser(updated)
            && Find(updated, USER) == Some(named.(permissions := 4))
            && Find(updated, OWNER) == Find(entries, OWNER)
            && Find(updated, MASK).Some? && Reads(Find(updated, MASK).value.permissions)
            && Rights(4) * MaskRights(updated) == {Read}
            && Read !in MaskRights(entries)
            && (forall e | e in updated && (e.tag == GROUP || e.tag == OTHER) :: e.permissions == 0)
  {
    var updated := UpdateAll(entries);
    UpdateKeepsTags(entries);
    FindUpdated(entries, USER);
    FindUpdated(entries, MASK);
    FindUpdated(entries, OWNER);
    FindIsAnEntry(entries, USER);
    FindIsAnEntry(entries, MASK);
    FindIsAnEntry(entries, OWNER);
    forall e | e in updated && (e.tag == GROUP || e.tag == OTHER)
      ensures e.permissions == 0
    {
      var i :| 0 <= i < |entries| && updated[i] == e;
      assert entries[i] in entries;
    }
    ReadBit(Find(entries, MASK).value.permissions);
    ReadBit(Find(updated, MASK).value.permissions);
  }

  lemma ReadBit(permissions: nat)
    ensures Reads(WithRead(permissions))
    ensures Read in Rights(permissions) <==> Reads(permissions)
    ensures Reads(permissions) ==> Rights(4) * Rights(permissions) == {Read}
  {
  }

  // ----- Which ACLs are repaired, and how, entry by entry -----

  predicate Has(entries: seq<Entry>, tag: nat) {
    exists e | e in entries :: e.tag == tag
  }

  /** One entry each for owner, named user, group, mask and others; the user is the Broker and may
      read, the mask withholds reading, and group and others have no access. */
  predicate MaskedOut(entries: seq<Entry>, broker: nat) {
    && |entries| == 5
    && Has(entries, 1) && Has(entries, 2) && Has(entries, 4) && Has(entries, 16) && Has(entries, 32)
    && forall e | e in entries ::
         && (e.tag == 2 ==> e.id == broker && e.permissions / 4 % 2 == 1)
         && (e.tag == 16 ==> e.permissions / 4 % 2 == 0)
         && (e.tag == 4 || e.tag == 32 ==> e.permissions == 0)
  }

  lemma SameSizeSameContents<T>(a: multiset<T>, b: multiset<T>)
    requires a <= b && |a| == |b|
    ensures a == b
  {
    assert b == a + (b - a);
    assert |b - a| == 0;
    assert b - a == multiset{};
  }

  lemma TagCounts(entries: seq<Entry>, tag: nat)
    ensures Has(entries, tag) <==> Tags(entries)[tag] > 0
    ensures |Tags(entries)| == |entries|
  {
    var tags := seq(|entries|, i requires 0 <= i < |entries| => entries[i].tag);
    if Has(entries, tag) {
      var e :| e in entries && e.tag == tag;
      TagIsPresent(entries, e);
    }
    if Tags(entries)[tag] > 0 {
      assert tag in multiset(tags) && tag in tags;
      var i :| 0 <= i < |tags| && tags[i] == tag;
      assert entries[i] in entries && entries[i].tag == tag;
    }
  }

  /** Five entries with all five tags have each of them once. */
  lemma FiveTags(entries: seq<Entry>)
    ensures SoleNamedUser(entries) <==>
              && |entries| == 5
              && Has(entries, 1) && Has(entries, 2) && Has(entries, 4) && Has(entries, 16) && Has(entries, 32)
  {
    var five, tags := multiset{1, 2, 4, 16, 32}, Tags(entries);
    TagCounts(entries, 1);
    TagCounts(entries, 2);
    TagCounts(entries, 4);
    TagCounts(entries, 16);
    TagCounts(entries, 32);
    if |tags| == 5 && tags[1] > 0 && tags[2] > 0 && tags[4] > 0 && tags[16] > 0 && tags[32] > 0 {
      SameSizeSameContents(five, tags);
    }
  }

  lemma {:induction false} FindFinds(entries: seq<Entry>, tag: nat)
    requires Has(entries, tag)
    ensures Find(entries, tag).Some?
    decreases |entries|
  {
    if entries[0].tag != tag {
      var e :| e in entries && e.tag == tag;
      assert e in entries[1..];
      FindFinds(entries[1..], tag);
    }
  }

  lemma RepairableExactlyWhen(entries: seq<Entry>, broker: nat)
    ensures Repairable(entries, broker) <==> MaskedOut(entries, broker)
  {
    FiveTags(entries);
    FindIsAnEntry(entries, USER);
    FindIsAnEntry(entries, MASK);
    if SoleNamedUser(entries) {
      TagCount(entries, USER);
      TagCount(entries, MASK);
      FindFinds(entries, USER);
      FindFinds(entries, MASK);
    }
  }

  /** Exactly the well-formed ACLs that mask the Broker out are repaired. A malformed attribute and
      one with more than three permission bits are errors. */
  lemma RepairsExactlyWhen(raw: seq<Byte>, broker: nat)
    ensures RepairedAcl(raw, broker).Invalid? <==> !WellFormed(raw) || exists e | e in Decode(raw) :: 7 < e.permissions
    ensures RepairedAcl(raw, broker).Repaired? <==>
              WellFormed(raw) && (forall e | e in Decode(raw) :: e.permissions <= 7) && MaskedOut(Decode(raw), broker)
  {
    if WellFormed(raw) {
      RepairableExactlyWhen(Decode(raw), broker);
    }
  }

  /** A repair leaves the Broker's entry with reading and nothing else, adds reading to the mask,
      and keeps every other entry and the order of entries. */
  lemma RepairChangesTwoEntries(raw: seq<Byte>, broker: nat, i: nat)
    requires RepairedAcl(raw, broker).Repaired? && i < |Decode(raw)|
    ensures var fixed := RepairedAcl(raw, broker).raw;
            && WellFormed(fixed) && |Decode(fixed)| == |Decode(raw)|
            && var was, now := Decode(raw)[i], Decode(fixed)[i];
               && now.tag == was.tag && now.id == was.id
               && now.permissions == if was.tag == 2 then 4
                                     else if was.tag == 16 then was.permissions + 4
                                     else was.permissions
  {
    RepairedDecodes(raw, broker);
    var entries := Decode(raw);
    RepairableExactlyWhen(entries, broker);
    assert entries[i] in entries && UpdateAll(entries)[i] == Updated(entries[i]);
  }

  // ----- What the repair means for access -----

  /** A repaired ACL gives the Broker exactly read, which it did not have, changes nobody
      else's access to the file, and is left alone by a second repair. */
  lemma RepairUnmasksExactlyRead(raw: seq<Byte>, broker: nat, owner: nat, fileGroup: nat, s: Subject, request: set<Right>)
    requires RepairedAcl(raw, broker).Repaired?
    ensures var fixed := RepairedAcl(raw, broker).raw;
            && WellFormed(fixed)
            && (s.uid == broker && broker != owner ==>
                  && (Grants(Decode(fixed), owner, fileGroup, s, request) <==> request <= {Read})
                  && !Grants(Decode(raw), owner, fileGroup, s, {Read}))
            && (s.uid != broker || broker == owner ==>
                  (Grants(Decode(fixed), owner, fileGroup, s, request) <==>
                   Grants(Decode(raw), owner, fileGroup, s, request)))
  {
    RepairedDecodes(raw, broker);
    var entries := Decode(raw);
    UpdateUnmasksRead(entries, broker);
    var named := Find(entries, USER).value;
    GrantsOfSoleNamedUser(entries, owner, fileGroup, s, request, named);
    GrantsOfSoleNamedUser(entries, owner, fileGroup, s, {Read}, named);
    GrantsOfSoleNamedUser(UpdateAll(entries), owner, fileGroup, s, request, named.(permissions := 4));
  }

  lemma SecondRepairDoesNothing(raw: seq<Byte>, broker: nat)
    requires RepairedAcl(raw, broker).Repaired?
    ensures RepairedAcl(RepairedAcl(raw, broker).raw, broker) == NotOurs
  {
    RepairedDecodes(raw, broker);
    UpdateUnmasksRead(Decode(raw), broker);
  }

  lemma RepairableIsRepaired(entries: seq<Entry>, broker: nat)
    requires (forall e | e in entries :: Fits(e) && e.permissions <= 7) && Repairable(entries, broker)
    ensures RepairedAcl(Encode(entries), broker).Repaired?
  {
    CodecRoundTrip([], entries);
  }

  lemma FindFirst(e: Entry, rest: seq<Entry>, tag: nat)
    ensures Find([e] + rest, tag) == if e.tag == tag then Some(e) else Find(rest, tag)
  {
    assert ([e] + rest)[1..] == rest;
  }

  lemma TagsOfFive(a: Entry, b: Entry, c: Entry, d: Entry, e: Entry)
    ensures Tags([a, b, c, d, e]) == multiset{a.tag, b.tag, c.tag, d.tag, e.tag}
  {
    var s := [a, b, c, d, e];
    assert seq(|s|, i requires 0 <= i < |s| => s[i].tag) == [a.tag, b.tag, c.tag, d.tag, e.tag];
  }

  lemma MaskedOutIsRepairable(owner: Entry, user: Entry, group: Entry, mask: Entry, other: Entry)
    requires owner == Entry(OWNER, 6, 0) && user == Entry(USER, 4, 7) && group == Entry(GROUP, 0, 0)
    requires mask == Entry(MASK, 0, 0) && other == Entry(OTHER, 0, 0)
    ensures Repairable([owner, user, group, mask, other], 7)
  {
    var entries := [owner, user, group, mask, other];
    TagsOfFive(owner, user, group, mask, other);
    FindFirst(owner, [user, group, mask, other], USER);
    FindFirst(user, [group, mask, other], USER);
    FindFirst(owner, [user, group, mask, other], MASK);
    FindFirst(user, [group, mask, other], MASK);
    FindFirst(group, [mask, other], MASK);
    FindFirst(mask, [other], MASK);
    assert entries == [owner] + [user, group, mask, other] && [user, group, mask, other] == [user] + [group, mask, other];
    assert [group, mask, other] == [group] + [mask, other] && [mask, other] == [mask] + [other];
  }

  const MASKED_OUT := [Entry(OWNER, 6, 0), Entry(USER, 4, 7), Entry(GROUP, 0, 0), Entry(MASK, 0, 0), Entry(OTHER, 0, 0)]

  /** There are ACLs to repair: user 7 is named, may read, and is masked out. */
  lemma SomethingToRepair()
    ensures RepairedAcl(Encode(MASKED_OUT), 7).Repaired?
  {
    MaskedOutIsRepairable(MASKED_OUT[0], MASKED_OUT[1], MASKED_OUT[2], MASKED_OUT[3], MASKED_OUT[4]);
    RepairableIsRepaired(MASKED_OUT, 7);
  }
}
