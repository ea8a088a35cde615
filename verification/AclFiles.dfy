/** Repairing the ACLs of a directory's credential files, and taking the repair back.
    Files are identified by device and inode together. Other processes may edit ACLs before
    each round of the write loop and between repair and rollback; a round checks the
    attribute and sets it in one step. */
module AclFiles {
  import opened Basics
  import opened AclCodec

  datatype Named = SymbolicLink | Opened(identity: nat, regular: bool, links: nat, owner: nat)

  type Directory = map<string, Named>

  /** The access-ACL attribute of each file that has one. */
  type Acls = map<nat, seq<Byte>>

  datatype Record = Record(name: string, identity: nat, before: seq<Byte>, after: seq<Byte>)

  predicate IsJson(name: string) {
    EndsWith(name, ".json")
  }

  // ----- Scan -----

  /** A file name to try, as the scan judges it. */
  function Candidate(name: string, dir: Directory, acls: Acls, broker: nat): Option<Repair> {
    if !IsJson(name) || name !in dir || dir[name].SymbolicLink? then None
    else
      var file := dir[name];
      if !file.regular || file.links != 1 || file.owner != 0 || file.identity !in acls then None
      else Some(RepairedAcl(acls[file.identity], broker))
  }

  /** The records of all repairable files, or an error at the first malformed ACL. */
  function Scan(names: seq<string>, dir: Directory, acls: Acls, broker: nat): Result<seq<Record>, ()> {
    if names == [] then Ok([])
    else
      var rest := Scan(names[..|names| - 1], dir, acls, broker);
      if rest.Err? then rest
      else match Candidate(names[|names| - 1], dir, acls, broker)
        case Some(Repaired(raw)) =>
          var name := names[|names| - 1];
          Ok(rest.value + [Record(name, dir[name].identity, acls[dir[name].identity], raw)])
        case Some(Invalid) => Err(())
        case _ => rest
  }

  /** A file with a single link has a single name. */
  predicate OneNameEach(dir: Directory) {
    forall a, b | a in dir && b in dir && a != b
                  && dir[a].Opened? && dir[b].Opened? && dir[a].links == 1 && dir[b].links == 1 ::
      dir[a].identity != dir[b].identity
  }

  predicate DistinctFiles(records: seq<Record>) {
    forall i, j | 0 <= i < j < |records| :: records[i].identity != records[j].identity
  }

  predicate RecordsOf(records: seq<Record>, names: seq<string>, dir: Directory, acls: Acls, broker: nat) {
    forall r | r in records ::
      && r.name in names && r.name in dir && dir[r.name].Opened? && dir[r.name].links == 1 && dir[r.name].regular
      && dir[r.name].identity == r.identity && r.identity in acls && acls[r.identity] == r.before
      && RepairedAcl(r.before, broker) == Repaired(r.after)
  }

  /** The scan reads the ACL of the file of this name: a regular file of the superuser's with one
      link, found under a name ending in ".json", that has one. */
  predicate IsExamined(name: string, dir: Directory, acls: Acls) {
    && IsJson(name) && name in dir && dir[name].Opened?
    && dir[name].regular && dir[name].links == 1 && dir[name].owner == 0 && dir[name].identity in acls
  }

  /** Its ACL is well-formed and masks the Broker out. */
  predicate IsRepairable(name: string, dir: Directory, acls: Acls, broker: nat) {
    IsExamined(name, dir, acls) &&
    var raw := acls[dir[name].identity];
    WellFormed(raw) && (forall e | e in Decode(raw) :: e.permissions <= 7) && MaskedOut(Decode(raw), broker)
  }

  /** Its ACL cannot be read as one. */
  predicate IsMalformed(name: string, dir: Directory, acls: Acls) {
    IsExamined(name, dir, acls) &&
    var raw := acls[dir[name].identity];
    !WellFormed(raw) || exists e | e in Decode(raw) :: 7 < e.permissions
  }

  lemma CandidateMeaning(name: string, dir: Directory, acls: Acls, broker: nat)
    ensures var found := Candidate(name, dir, acls, broker);
            && (found.Some? && found.value.Repaired? <==> IsRepairable(name, dir, acls, broker))
            && (found.Some? && found.value.Invalid? <==> IsMalformed(name, dir, acls))
  {
    if IsExamined(name, dir, acls) {
      RepairsExactlyWhen(acls[dir[name].identity], broker);
    }
  }

  /** A scan fails exactly when some listed file has a malformed ACL. */
  lemma {:induction false} ScanFailsExactlyWhen(names: seq<string>, dir: Directory, acls: Acls, broker: nat)
    ensures Scan(names, dir, acls, broker).Err? <==> exists name | name in names :: IsMalformed(name, dir, acls)
    decreases |names|
  {
    if names != [] {
      var last, front := names[|names| - 1], names[..|names| - 1];
      assert forall name :: name in names <==> name in front || name == last;
      CandidateMeaning(last, dir, acls, broker);
      ScanFailsExactlyWhen(front, dir, acls, broker);
    }
  }

  predicate HasRecord(records: seq<Record>, name: string) {
    exists r | r in records :: r.name == name
  }

  /** The last name adds a record exactly when its file is repairable. */
  lemma ScanOfLast(names: seq<string>, dir: Directory, acls: Acls, broker: nat)
    requires names != [] && Scan(names, dir, acls, broker).Ok?
    ensures var last, earlier := names[|names| - 1], Scan(names[..|names| - 1], dir, acls, broker);
            && earlier.Ok?
            && if IsRepairable(last, dir, acls, broker) then
                 var records := Scan(names, dir, acls, broker).value;
                 |records| == |earlier.value| + 1 && earlier.value <= records && records[|earlier.value|].name == last
               else Scan(names, dir, acls, broker) == earlier
  {
    CandidateMeaning(names[|names| - 1], dir, acls, broker);
  }

  lemma RecordAdded(earlier: seq<Record>, records: seq<Record>, name: string)
    requires |records| == |earlier| + 1 && earlier <= records
    ensures HasRecord(records, name) <==> HasRecord(earlier, name) || records[|earlier|].name == name
  {
    assert records == earlier + [records[|earlier|]];
  }

  lemma {:induction false} RecordsAreOfNames(names: seq<string>, dir: Directory, acls: Acls, broker: nat)
    requires Scan(names, dir, acls, broker).Ok?
    ensures RecordsOf(Scan(names, dir, acls, broker).value, names, dir, acls, broker)
    decreases |names|
  {
    if names != [] {
      RecordsAreOfNames(names[..|names| - 1], dir, acls, broker);
    }
  }

  lemma {:induction false} RecordsAreDistinct(names: seq<string>, dir: Directory, acls: Acls, broker: nat)
    requires NoDuplicates(names) && OneNameEach(dir) && Scan(names, dir, acls, broker).Ok?
    ensures DistinctFiles(Scan(names, dir, acls, broker).value)
    decreases |names|
  {
    if names != [] {
      var last, front := names[|names| - 1], names[..|names| - 1];
      RecordsAreDistinct(front, dir, acls, broker);
      RecordsAreOfNames(front, dir, acls, broker);
      RecordsAreOfNames(names, dir, acls, broker);
      ScanOfLast(names, dir, acls, broker);
      assert last !in front;
      var earlier, records := Scan(front, dir, acls, broker).value, Scan(names, dir, acls, broker).value;
      forall i, j | 0 <= i < j < |records|
        ensures records[i].identity != records[j].identity
      {
        if j == |earlier| {
          assert records[i] == earlier[i] && earlier[i] in earlier && records[j] in records;
          assert records[i].name in front;
        } else {
          assert records[i] == earlier[i] && records[j] == earlier[j];
        }
      }
    }
  }

  /** Every record is of a listed file as it was found, and no file has two. */
  lemma ScanMeaning(names: seq<string>, dir: Directory, acls: Acls, broker: nat)
    requires NoDuplicates(names) && OneNameEach(dir) && Scan(names, dir, acls, broker).Ok?
    ensures var records := Scan(names, dir, acls, broker).value;
            RecordsOf(records, names, dir, acls, broker) && DistinctFiles(records)
  {
    RecordsAreOfNames(names, dir, acls, broker);
    RecordsAreDistinct(names, dir, acls, broker);
  }

  /** A scan that succeeds records every repairable file, and nothing else. */
  lemma {:induction false} ScanIsComplete(names: seq<string>, dir: Directory, acls: Acls, broker: nat, name: string)
    requires Scan(names, dir, acls, broker).Ok?
    ensures HasRecord(Scan(names, dir, acls, broker).value, name) <==> name in names && IsRepairable(name, dir, acls, broker)
    decreases |names|
  {
    if names != [] {
      var last, front := names[|names| - 1], names[..|names| - 1];
      assert name in names <==> name in front || name == last;
      ScanOfLast(names, dir, acls, broker);
      ScanIsComplete(front, dir, acls, broker, name);
      if IsRepairable(last, dir, acls, broker) {
        RecordAdded(Scan(front, dir, acls, broker).value, Scan(names, dir, acls, broker).value, name);
      }
    }
  }

  // ----- Repair -----

  /** What other processes set just before one step. */
  type Edits = Acls

  /** The first `n` rounds of the repair's write loop: other processes edit, the file is
      checked to be as recorded, then updated. A changed file ends the loop. */
  function Writes(acls: Acls, records: seq<Record>, others: seq<Edits>, n: nat): Acls
    requires |others| == |records|
    decreases |records|
  {
    if records == [] || n == 0 then acls
    else
      var seen, r := acls + others[0], records[0];
      if r.identity !in seen || seen[r.identity] != r.before then seen
      else Writes(seen[r.identity := r.after], records[1..], others[1..], n - 1)
  }

  /** Each of the first `n` rounds finds its file as recorded. */
  predicate Undisturbed(acls: Acls, records: seq<Record>, others: seq<Edits>, n: nat)
    requires |others| == |records|
    decreases |records|
  {
    records != [] && n != 0 ==>
      var seen, r := acls + others[0], records[0];
      && r.identity in seen && seen[r.identity] == r.before
      && Undisturbed(seen[r.identity := r.after], records[1..], others[1..], n - 1)
  }

  // ----- What the write loop leaves -----

  /** How many records are written. */
  function Written(acls: Acls, records: seq<Record>, others: seq<Edits>, n: nat): (k: nat)
    requires |others| == |records|
    ensures k <= |records| && k <= n
    decreases |records|
  {
    if records == [] || n == 0 then 0
    else
      var seen, r := acls + others[0], records[0];
      if r.identity !in seen || seen[r.identity] != r.before then 0
      else 1 + Written(seen[r.identity := r.after], records[1..], others[1..], n - 1)
  }

  /** In how many rounds other processes get to edit: one more if the loop stops at a file. */
  function Heard(acls: Acls, records: seq<Record>, others: seq<Edits>, n: nat): (h: nat)
    requires |others| == |records|
    ensures h <= |records|
  {
    var k := Written(acls, records, others, n);
    if k < |records| && k < n then k + 1 else k
  }

  function Lookup(acls: Acls, f: nat): Option<seq<Byte>> {
    if f in acls then Some(acls[f]) else None
  }

  /** What other processes last set a file's ACL to. */
  function LastEdit(f: nat, edits: seq<Edits>): Option<seq<Byte>> {
    if edits == [] then None else LastEdit(f, edits[1..]).Or(Lookup(edits[0], f))
  }

  lemma {:induction false} UntouchedHasNoEdit(f: nat, edits: seq<Edits>)
    requires Untouched(f, edits)
    ensures LastEdit(f, edits).None?
    decreases |edits|
  {
    if edits != [] {
      assert edits[0] in edits && forall e | e in edits[1..] :: e in edits;
      UntouchedHasNoEdit(f, edits[1..]);
    }
  }

  lemma NoEditBetween(f: nat, edits: seq<Edits>, i: nat, j: nat)
    requires Untouched(f, edits) && i <= j <= |edits|
    ensures LastEdit(f, edits[i..j]).None?
  {
    assert forall e | e in edits[i..j] :: e in edits;
    UntouchedHasNoEdit(f, edits[i..j]);
  }

  lemma {:induction false} LastEditJoins(f: nat, a: seq<Edits>, b: seq<Edits>)
    ensures LastEdit(f, a + b) == LastEdit(f, b).Or(LastEdit(f, a))
    decreases |a|
  {
    if a == [] {
      assert a + b == b;
    } else {
      assert (a + b)[1..] == a[1..] + b;
      LastEditJoins(f, a[1..], b);
    }
  }

  lemma RestOfSlice<T>(s: seq<T>, i: nat, h: nat)
    requires i < h <= |s|
    ensures s[i + 1..h] == s[1..][i..h - 1]
  {
    var a, b := s[i + 1..h], s[1..][i..h - 1];
    assert |a| == |b| && forall k | 0 <= k < |a| :: a[k] == s[i + 1 + k] == b[k];
  }

  lemma FrontOfSlice<T>(s: seq<T>, h: nat)
    requires 0 < h <= |s|
    ensures s[..h] == [s[0]] + s[1..][..h - 1] && s[..h][1..] == s[1..][..h - 1]
  {
  }

  predicate Unrecorded(f: nat, records: seq<Record>) {
    forall r | r in records :: r.identity != f
  }

  lemma FirstIsUnrecorded(records: seq<Record>)
    requires records != [] && DistinctFiles(records)
    ensures Unrecorded(records[0].identity, records[1..]) && DistinctFiles(records[1..])
  {
    forall i, j | 0 <= i < j < |records[1..]|
      ensures records[1..][i].identity != records[1..][j].identity
    {
      assert records[1..][i] == records[i + 1] && records[1..][j] == records[j + 1];
    }
    forall r | r in records[1..]
      ensures r.identity != records[0].identity
    {
      var j :| 0 <= j < |records[1..]| && records[1..][j] == r;
      assert records[j + 1] == r;
    }
  }

  /** The first round of the loop, if its file is as recorded. */
  predicate FirstIsWritten(acls: Acls, records: seq<Record>, others: seq<Edits>, n: nat)
    requires |others| == |records| && records != []
  {
    n != 0 && Lookup(acls + others[0], records[0].identity) == Some(records[0].before)
  }

  lemma FirstRound(acls: Acls, records: seq<Record>, others: seq<Edits>, n: nat)
    requires |others| == |records| && records != []
    ensures if FirstIsWritten(acls, records, others, n) then
              var next := (acls + others[0])[records[0].identity := records[0].after];
              && Written(acls, records, others, n) == 1 + Written(next, records[1..], others[1..], n - 1)
              && Heard(acls, records, others, n) == 1 + Heard(next, records[1..], others[1..], n - 1)
              && Writes(acls, records, others, n) == Writes(next, records[1..], others[1..], n - 1)
            else
              && Written(acls, records, others, n) == 0
              && Heard(acls, records, others, n) == (if n == 0 then 0 else 1)
              && Writes(acls, records, others, n) == (if n == 0 then acls else acls + others[0])
  {
  }

  lemma OneEdit(acls: Acls, edits: Edits, f: nat)
    ensures LastEdit(f, [edits]) == Lookup(edits, f)
    ensures Lookup(acls + edits, f) == LastEdit(f, [edits]).Or(Lookup(acls, f))
  {
    assert [edits][1..] == [];
  }

  lemma LastEditOfFront(f: nat, others: seq<Edits>, h: nat)
    requires 0 < h <= |others|
    ensures LastEdit(f, others[..h]) == LastEdit(f, others[1..][..h - 1]).Or(Lookup(others[0], f))
  {
    FrontOfSlice(others, h);
  }

  /** A file without a record has whatever other processes set last. */
  lemma {:induction false} WritesElsewhere(acls: Acls, records: seq<Record>, others: seq<Edits>, n: nat, f: nat)
    requires |others| == |records| && Unrecorded(f, records)
    ensures Lookup(Writes(acls, records, others, n), f)
         == LastEdit(f, others[..Heard(acls, records, others, n)]).Or(Lookup(acls, f))
    decreases |records|
  {
    if records != [] && n != 0 {
      var h := Heard(acls, records, others, n);
      FirstRound(acls, records, others, n);
      LastEditOfFront(f, others, h);
      if FirstIsWritten(acls, records, others, n) {
        var next := (acls + others[0])[records[0].identity := records[0].after];
        assert records[0] in records && forall q | q in records[1..] :: q in records;
        WritesElsewhere(next, records[1..], others[1..], n - 1, f);
      }
    }
  }

  /** The repaired ACL if the file was written, unless other processes set it afterwards;
      otherwise what they set last, or what it had. */
  function AfterWrites(acls: Acls, records: seq<Record>, others: seq<Edits>, n: nat, i: nat): Option<seq<Byte>>
    requires |others| == |records| && i < |records|
  {
    var f, h := records[i].identity, Heard(acls, records, others, n);
    if i < Written(acls, records, others, n) then LastEdit(f, others[i + 1..h]).Or(Some(records[i].after))
    else LastEdit(f, others[..h]).Or(Lookup(acls, f))
  }

  lemma AfterWritesStep(acls: Acls, records: seq<Record>, others: seq<Edits>, n: nat, i: nat)
    requires |others| == |records| && DistinctFiles(records) && 0 < i < |records|
    requires FirstIsWritten(acls, records, others, n)
    ensures var next := (acls + others[0])[records[0].identity := records[0].after];
            AfterWrites(acls, records, others, n, i) == AfterWrites(next, records[1..], others[1..], n - 1, i - 1)
  {
    var f, h := records[i].identity, Heard(acls, records, others, n);
    var seen := acls + others[0];
    var next := seen[records[0].identity := records[0].after];
    FirstRound(acls, records, others, n);
    assert h - 1 == Heard(next, records[1..], others[1..], n - 1);
    OneEdit(acls, others[0], f);
    assert records[1..][i - 1] == records[i];
    assert Lookup(next, f) == Lookup(seen, f) == LastEdit(f, [others[0]]).Or(Lookup(acls, f));
    if i < Written(acls, records, others, n) {
      RestOfSlice(others, i, h);
    } else {
      FrontOfSlice(others, h);
      LastEditJoins(f, [others[0]], others[1..][..h - 1]);
    }
  }

  lemma FirstAfterWrites(acls: Acls, records: seq<Record>, others: seq<Edits>, n: nat)
    requires |others| == |records| && DistinctFiles(records) && records != []
    ensures Lookup(Writes(acls, records, others, n), records[0].identity) == AfterWrites(acls, records, others, n, 0)
  {
    var f := records[0].identity;
    FirstRound(acls, records, others, n);
    if FirstIsWritten(acls, records, others, n) {
      var next := (acls + others[0])[f := records[0].after];
      FirstIsUnrecorded(records);
      WritesElsewhere(next, records[1..], others[1..], n - 1, f);
      RestOfSlice(others, 0, Heard(acls, records, others, n));
    } else if n != 0 {
      OneEdit(acls, others[0], f);
      assert others[..1] == [others[0]];
    }
  }

  lemma {:induction false} WritesAt(acls: Acls, records: seq<Record>, others: seq<Edits>, n: nat, i: nat)
    requires |others| == |records| && DistinctFiles(records) && i < |records|
    ensures Lookup(Writes(acls, records, others, n), records[i].identity) == AfterWrites(acls, records, others, n, i)
    decreases |records|
  {
    var f := records[i].identity;
    if i == 0 {
      FirstAfterWrites(acls, records, others, n);
    } else {
      FirstRound(acls, records, others, n);
      if FirstIsWritten(acls, records, others, n) {
        var next := (acls + others[0])[records[0].identity := records[0].after];
        FirstIsUnrecorded(records);
        AfterWritesStep(acls, records, others, n, i);
        WritesAt(next, records[1..], others[1..], n - 1, i - 1);
        assert records[1..][i - 1] == records[i];
      } else if n != 0 {
        OneEdit(acls, others[0], f);
        assert others[..1] == [others[0]];
      }
    }
  }

  /** The loop stops at the first record whose file is not as recorded when its turn comes. */
  lemma {:induction false} WrittenMeaning(acls: Acls, records: seq<Record>, others: seq<Edits>, n: nat, i: nat)
    requires |others| == |records| && DistinctFiles(records) && i < |records| && i < n
    requires i <= Written(acls, records, others, n)
    ensures i < Written(acls, records, others, n) <==>
              LastEdit(records[i].identity, others[..i + 1]).Or(Lookup(acls, records[i].identity)) == Some(records[i].before)
    decreases |records|
  {
    var r, f, seen := records[0], records[i].identity, acls + others[0];
    FirstIsUnrecorded(records);
    assert others[..i + 1][1..] == others[1..][..i];
    if i == 0 {
      assert LastEdit(f, others[..1][1..]).None?;
    } else {
      assert records[1..][i - 1] == records[i];
      WrittenMeaning(seen[r.identity := r.after], records[1..], others[1..], n - 1, i - 1);
    }
  }

  /** The loop reports success exactly when it wrote every record, or as many as it lived for. */
  lemma {:induction false} UndisturbedExactlyWhen(acls: Acls, records: seq<Record>, others: seq<Edits>, n: nat)
    requires |others| == |records|
    ensures Undisturbed(acls, records, others, n) <==>
              Written(acls, records, others, n) == |records| || Written(acls, records, others, n) == n
    decreases |records|
  {
    if records != [] && n != 0 {
      var seen := acls + others[0];
      UndisturbedExactlyWhen(seen[records[0].identity := records[0].after], records[1..], others[1..], n - 1);
    }
  }

  /** A repair that nobody disturbs and nothing interrupts writes every record. */
  lemma UndisturbedRepairWritesAll(acls: Acls, records: seq<Record>, others: seq<Edits>, n: nat)
    requires |others| == |records| <= n && DistinctFiles(records)
    requires forall r | r in records :: Untouched(r.identity, others) && r.identity in acls && acls[r.identity] == r.before
    ensures Written(acls, records, others, n) == |records|
    ensures forall r | r in records :: Lookup(Writes(acls, records, others, n), r.identity) == Some(r.after)
  {
    var k := Written(acls, records, others, n);
    if k < |records| {
      assert records[k] in records;
      NoEditBetween(records[k].identity, others, 0, k + 1);
      assert others[..k + 1] == others[0..k + 1];
      WrittenMeaning(acls, records, others, n, k);
    }
    forall r | r in records
      ensures Lookup(Writes(acls, records, others, n), r.identity) == Some(r.after)
    {
      var i :| 0 <= i < |records| && records[i] == r;
      WritesAt(acls, records, others, n, i);
      NoEditBetween(r.identity, others, i + 1, Heard(acls, records, others, n));
    }
  }

  // ----- Rollback -----

  /** What rollback finds for one record. */
  datatype Finding = Missing | Abort | Skip | Unchanged | Restore

  function Inspect(r: Record, dir: Directory, acls: Acls): Finding {
    if !IsJson(r.name) then Abort
    else if r.name !in dir then Missing
    else if dir[r.name].SymbolicLink? then Abort
    else if dir[r.name].identity != r.identity || !dir[r.name].regular || dir[r.name].links != 1 then Skip
    else if r.identity !in acls then Abort
    else if acls[r.identity] == r.before then Unchanged
    else if acls[r.identity] != r.after then Skip
    else Restore
  }

  /** The record's name still leads to its file. */
  predicate InPlace(r: Record, later: Directory) {
    && IsJson(r.name) && r.name in later && later[r.name].Opened?
    && later[r.name].identity == r.identity && later[r.name].regular && later[r.name].links == 1
  }

  /** The record ends the rollback: its name is not one the repair records, or is now a symbolic
      link, or its file, still in place, has lost its ACL. */
  predicate Blocks(r: Record, dir: Directory, acls: Acls) {
    || !IsJson(r.name)
    || (r.name in dir && dir[r.name].SymbolicLink?)
    || (InPlace(r, dir) && r.identity !in acls)
  }

  /** The record's file is in place and carries the repair's own result. */
  predicate CarriesResult(r: Record, dir: Directory, acls: Acls) {
    InPlace(r, dir) && Lookup(acls, r.identity) == Some(r.after) && r.after != r.before
  }

  lemma InspectMeaning(r: Record, dir: Directory, acls: Acls)
    ensures Inspect(r, dir, acls) == Abort <==> Blocks(r, dir, acls)
    ensures Inspect(r, dir, acls) == Restore <==> CarriesResult(r, dir, acls)
  {
  }

  /** The ACLs after a rollback, which ends at the first record that aborts it. */
  function RolledBack(acls: Acls, dir: Directory, records: seq<Record>): Acls
    decreases |records|
  {
    if records == [] then acls
    else match Inspect(records[0], dir, acls)
      case Abort => acls
      case Restore => RolledBack(acls[records[0].identity := records[0].before], dir, records[1..])
      case _ => RolledBack(acls, dir, records[1..])
  }

  /** The number of the first record that aborts the rollback, or of all records. */
  function Stop(acls: Acls, dir: Directory, records: seq<Record>): (k: nat)
    ensures k <= |records|
    ensures forall i | 0 <= i < k :: !Blocks(records[i], dir, acls)
    ensures k < |records| ==> Blocks(records[k], dir, acls)
    decreases |records|
  {
    if records == [] || Inspect(records[0], dir, acls) == Abort then 0 else 1 + Stop(acls, dir, records[1..])
  }

  lemma InspectAlike(r: Record, acls: Acls, acls': Acls, dir: Directory)
    requires Lookup(acls, r.identity) == Lookup(acls', r.identity)
    ensures Inspect(r, dir, acls) == Inspect(r, dir, acls')
  {
  }

  lemma {:induction false} InspectedAlike(acls: Acls, acls': Acls, dir: Directory, records: seq<Record>)
    requires forall i | 0 <= i < |records| :: Lookup(acls, records[i].identity) == Lookup(acls', records[i].identity)
    ensures Stop(acls, dir, records) == Stop(acls', dir, records)
    ensures forall i | 0 <= i < |records| :: Inspect(records[i], dir, acls) == Inspect(records[i], dir, acls')
    decreases |records|
  {
    if records != [] {
      InspectAlike(records[0], acls, acls', dir);
      InspectedAlike(acls, acls', dir, records[1..]);
      forall i | 0 < i < |records|
        ensures Inspect(records[i], dir, acls) == Inspect(records[i], dir, acls')
      {
        assert records[i] == records[1..][i - 1];
      }
    }
  }

  lemma {:induction false} RolledBackElsewhere(acls: Acls, dir: Directory, records: seq<Record>, f: nat)
    requires Unrecorded(f, records)
    ensures Lookup(RolledBack(acls, dir, records), f) == Lookup(acls, f)
    decreases |records|
  {
    if records != [] && Inspect(records[0], dir, acls) != Abort {
      var r := records[0];
      assert r in records && forall q | q in records[1..] :: q in records;
      var next := if Inspect(r, dir, acls) == Restore then acls[r.identity := r.before] else acls;
      RolledBackElsewhere(next, dir, records[1..], f);
    }
  }

  /** Restoring one file does not show in the others. */
  lemma RestLooksAlike(acls: Acls, next: Acls, r: Record, rest: seq<Record>)
    requires Unrecorded(r.identity, rest) && (next == acls || next == acls[r.identity := r.before])
    ensures forall i | 0 <= i < |rest| :: Lookup(acls, rest[i].identity) == Lookup(next, rest[i].identity)
  {
    forall i | 0 <= i < |rest|
      ensures Lookup(acls, rest[i].identity) == Lookup(next, rest[i].identity)
    {
      assert rest[i] in rest;
    }
  }

  function Restored(acls: Acls, dir: Directory, r: Record): Acls {
    if Inspect(r, dir, acls) == Restore then acls[r.identity := r.before] else acls
  }

  /** One record of the rollback. */
  lemma RollbackRound(acls: Acls, dir: Directory, records: seq<Record>)
    requires records != [] && Unrecorded(records[0].identity, records[1..])
    ensures var next := Restored(acls, dir, records[0]);
            if Inspect(records[0], dir, acls) == Abort then
              RolledBack(acls, dir, records) == acls && Stop(acls, dir, records) == 0
            else
              && RolledBack(acls, dir, records) == RolledBack(next, dir, records[1..])
              && Stop(acls, dir, records) == 1 + Stop(next, dir, records[1..])
              && forall i | 0 <= i < |records| - 1 ::
                   Inspect(records[1..][i], dir, acls) == Inspect(records[1..][i], dir, next)
  {
    var next := Restored(acls, dir, records[0]);
    RestLooksAlike(acls, next, records[0], records[1..]);
    InspectedAlike(acls, next, dir, records[1..]);
  }

  lemma {:induction false} RolledBackHere(acls: Acls, dir: Directory, records: seq<Record>, i: nat)
    requires DistinctFiles(records) && i < |records|
    ensures Lookup(RolledBack(acls, dir, records), records[i].identity) ==
              if i < Stop(acls, dir, records) && Inspect(records[i], dir, acls) == Restore then Some(records[i].before)
              else Lookup(acls, records[i].identity)
    decreases |records|
  {
    FirstIsUnrecorded(records);
    RollbackRound(acls, dir, records);
    if Inspect(records[0], dir, acls) != Abort {
      var next := Restored(acls, dir, records[0]);
      if i == 0 {
        RolledBackElsewhere(next, dir, records[1..], records[0].identity);
      } else {
        assert records[i] == records[1..][i - 1] && records[i] in records[1..];
        RolledBackHere(next, dir, records[1..], i - 1);
      }
    }
  }

  /** Up to the record that aborts it, a rollback restores exactly the files that carry the
      repair's own result; from there on, and without a record, files are as they were. */
  lemma RolledBackAt(acls: Acls, dir: Directory, records: seq<Record>, f: nat)
    requires DistinctFiles(records)
    ensures Unrecorded(f, records) ==> Lookup(RolledBack(acls, dir, records), f) == Lookup(acls, f)
    ensures forall i | 0 <= i < |records| && records[i].identity == f ::
              Lookup(RolledBack(acls, dir, records), f) ==
                if i < Stop(acls, dir, records) && CarriesResult(records[i], dir, acls) then Some(records[i].before)
                else Lookup(acls, f)
  {
    if Unrecorded(f, records) {
      RolledBackElsewhere(acls, dir, records, f);
    }
    forall i | 0 <= i < |records| && records[i].identity == f
      ensures Lookup(RolledBack(acls, dir, records), f) ==
                if i < Stop(acls, dir, records) && CarriesResult(records[i], dir, acls) then Some(records[i].before)
                else Lookup(acls, f)
    {
      InspectMeaning(records[i], dir, acls);
      RolledBackHere(acls, dir, records, i);
    }
  }

  class AclHost {
    var acls: Acls

    constructor (acls: Acls)
      ensures this.acls == acls
    {
      this.acls := acls;
    }

    method FindCandidates(names: seq<string>, dir: Directory, broker: nat) returns (r: Result<seq<Record>, ()>)
      ensures r == Scan(names, dir, acls, broker)
      ensures r.Err? <==> exists name | name in names :: IsMalformed(name, dir, acls)
    {
      ScanFailsExactlyWhen(names, dir, acls, broker);
      var records: seq<Record> := [];
      for i := 0 to |names|
        invariant Scan(names[..i], dir, acls, broker) == Ok(records)
      {
        assert names[..i + 1][..i] == names[..i];
        match Candidate(names[i], dir, acls, broker) {
          case Some(Repaired(raw)) =>
            var identity := dir[names[i]].identity;
            records := records + [Record(names[i], identity, acls[identity], raw)];
          case Some(Invalid) =>
            assert names[..i + 1][|names[..i + 1]| - 1] == names[i];
            assert Scan(names[..i + 1], dir, acls, broker) == Err(());
            FailedScanStaysFailed(names, i + 1, dir, acls, broker);
            return Err(());
          case _ =>
        }
      }
      assert names[..|names|] == names;
      return Ok(records);
    }

    /** Write the updated ACLs, stopping at the first file changed by others, or when the
        process is interrupted after `n` rounds. */
    method WriteUpdates(records: seq<Record>, others: seq<Edits>, n: nat) returns (ok: bool)
      requires |others| == |records|
      modifies this
      ensures acls == Writes(old(acls), records, others, n)
      ensures ok <==> Undisturbed(old(acls), records, others, n)
      ensures ok <==> Written(old(acls), records, others, n) in {|records|, n}
    {
      UndisturbedExactlyWhen(acls, records, others, n);
      var i := 0;
      while i < |records| && i < n
        invariant 0 <= i <= |records| && i <= n
        invariant Writes(acls, records[i..], others[i..], n - i) == Writes(old(acls), records, others, n)
        invariant Undisturbed(acls, records[i..], others[i..], n - i) <==> Undisturbed(old(acls), records, others, n)
      {
        acls := acls + others[i];
        var r := records[i];
        if r.identity !in acls || acls[r.identity] != r.before {
          return false;
        }
        acls := acls[r.identity := r.after];
        i := i + 1;
      }
      return true;
    }

    /** Put the recorded ACL back wherever the repair's own result is still in place, up to
        the first record that stops the rollback. */
    method Rollback(dir: Directory, records: seq<Record>) returns (ok: bool)
      requires DistinctFiles(records)
      modifies this
      ensures acls == RolledBack(old(acls), dir, records)
      ensures ok <==> Stop(old(acls), dir, records) == |records|
    {
      var i := 0;
      while i < |records|
        invariant 0 <= i <= |records|
        invariant RolledBack(acls, dir, records[i..]) == RolledBack(old(acls), dir, records)
        invariant i + Stop(acls, dir, records[i..]) == Stop(old(acls), dir, records)
      {
        var r := records[i];
        assert records[i..][0] == r && records[i..][1..] == records[i + 1..];
        LaterAreDistinct(records, i);
        RollbackRound(acls, dir, records[i..]);
        match Inspect(r, dir, acls) {
          case Abort => return false;
          case Restore => acls := acls[r.identity := r.before];
          case _ =>
        }
        i := i + 1;
      }
      return true;
    }
  }

  lemma LaterAreDistinct(records: seq<Record>, i: nat)
    requires DistinctFiles(records) && i < |records|
    ensures Unrecorded(records[i].identity, records[i + 1..])
  {
    forall r | r in records[i + 1..]
      ensures r.identity != records[i].identity
    {
      var j :| 0 <= j < |records[i + 1..]| && records[i + 1..][j] == r;
      assert records[i + 1 + j] == r;
    }
  }

  lemma {:induction false} FailedScanStaysFailed(names: seq<string>, i: nat, dir: Directory, acls: Acls, broker: nat)
    requires 0 < i <= |names| && Scan(names[..i], dir, acls, broker) == Err(())
    ensures Scan(names, dir, acls, broker) == Err(())
    decreases |names| - i
  {
    if i == |names| {
      assert names[..i] == names;
    } else {
      assert names[..i + 1][..i] == names[..i];
      FailedScanStaysFailed(names, i + 1, dir, acls, broker);
    }
  }

  // ----- Undo -----

  /** No edit by another process touches the file. */
  predicate Untouched(identity: nat, others: seq<Edits>) {
    forall edits | edits in others :: identity !in edits
  }

  /** What the rollback meets, and what it leaves, after a repair of these records during
      which others edit, interrupted after `n` rounds, and one more edit meanwhile. */
  function Met(start: Acls, records: seq<Record>, others: seq<Edits>, n: nat, meanwhile: Edits): Acls
    requires |others| == |records|
  {
    Writes(start, records, others, n) + meanwhile
  }

  function Aftermath(start: Acls, records: seq<Record>, others: seq<Edits>, n: nat, meanwhile: Edits, later: Directory): Acls
    requires |others| == |records|
  {
    RolledBack(Met(start, records, others, n, meanwhile), later, records)
  }

  /** Everything other processes did, as far as the repair lived to see it. */
  function AllEdits(start: Acls, records: seq<Record>, others: seq<Edits>, n: nat, meanwhile: Edits): seq<Edits>
    requires |others| == |records|
  {
    others[..Heard(start, records, others, n)] + [meanwhile]
  }

  /** A record of a genuine repair. */
  predicate Genuine(r: Record, start: Acls, broker: nat) {
    r.identity in start && start[r.identity] == r.before && RepairedAcl(r.before, broker) == Repaired(r.after)
  }

  /** A recorded file as the rollback meets it. */
  lemma MetAt(start: Acls, records: seq<Record>, others: seq<Edits>, n: nat, meanwhile: Edits, i: nat)
    requires |others| == |records| && DistinctFiles(records) && i < |records|
    ensures var f, k := records[i].identity, Written(start, records, others, n);
            var edit := LastEdit(f, AllEdits(start, records, others, n, meanwhile));
            var met := Lookup(Met(start, records, others, n, meanwhile), f);
            && (edit.None? ==> met == if i < k then Some(records[i].after) else Lookup(start, f))
            && (edit.Some? ==> met == edit || (i < k && met == Some(records[i].after) && edit == Some(records[i].before)))
  {
    var f, k, h := records[i].identity, Written(start, records, others, n), Heard(start, records, others, n);
    LastEditJoins(f, others[..h], [meanwhile]);
    assert [meanwhile][1..] == [];
    WritesAt(start, records, others, n, i);
    if i < k {
      LastEditJoins(f, others[..i + 1], others[i + 1..h]);
      assert others[..i + 1] + others[i + 1..h] == others[..h];
      WrittenMeaning(start, records, others, n, i);
    }
  }

  /** What one recorded file ends up with when others leave it alone: its old ACL exactly when
      it was never written or no record before it aborted the rollback. */
  lemma UntouchedIsRestoredExactlyWhen(start: Acls, records: seq<Record>, others: seq<Edits>, n: nat, meanwhile: Edits,
                                       later: Directory, broker: nat, i: nat)
    requires |others| == |records| && DistinctFiles(records) && i < |records|
    requires Genuine(records[i], start, broker) && InPlace(records[i], later)
    requires LastEdit(records[i].identity, AllEdits(start, records, others, n, meanwhile)).None?
    ensures var r, met := records[i], Met(start, records, others, n, meanwhile);
            var final := Lookup(Aftermath(start, records, others, n, meanwhile, later), r.identity);
            && final in {Some(r.before), Some(r.after)} && r.before != r.after
            && (final == Some(r.before) <==>
                  Written(start, records, others, n) <= i || i < Stop(met, later, records))
  {
    var r, met := records[i], Met(start, records, others, n, meanwhile);
    MetAt(start, records, others, n, meanwhile, i);
    RolledBackAt(met, later, records, r.identity);
    SecondRepairDoesNothing(r.before, broker);
  }

  /** What others last set a recorded file to, when it is neither of the two recorded ACLs,
      stays; and when it is the old one it stays unless the rollback aborts before. */
  lemma ForeignEditIsKept(start: Acls, records: seq<Record>, others: seq<Edits>, n: nat,
                          meanwhile: Edits, later: Directory, i: nat)
    requires |others| == |records| && DistinctFiles(records) && i < |records|
    requires LastEdit(records[i].identity, AllEdits(start, records, others, n, meanwhile)).Some?
    ensures var r, met := records[i], Met(start, records, others, n, meanwhile);
            var edit := LastEdit(r.identity, AllEdits(start, records, others, n, meanwhile));
            var final := Lookup(Aftermath(start, records, others, n, meanwhile, later), r.identity);
            && (edit.value != r.before && edit.value != r.after ==> final == edit)
            && (edit.value == r.before && InPlace(r, later) && i < Stop(met, later, records) ==> final == edit)
  {
    MetAt(start, records, others, n, meanwhile, i);
    RolledBackAt(Met(start, records, others, n, meanwhile), later, records, records[i].identity);
  }

  /** A file without a record has what others set last, or what it had. */
  lemma UnrecordedIsLeftAlone(start: Acls, records: seq<Record>, others: seq<Edits>, n: nat, meanwhile: Edits,
                              later: Directory, f: nat)
    requires |others| == |records| && DistinctFiles(records) && Unrecorded(f, records)
    ensures Lookup(Aftermath(start, records, others, n, meanwhile, later), f)
         == LastEdit(f, AllEdits(start, records, others, n, meanwhile)).Or(Lookup(start, f))
  {
    WritesElsewhere(start, records, others, n, f);
    LastEditJoins(f, others[..Heard(start, records, others, n)], [meanwhile]);
    assert [meanwhile][1..] == [];
    RolledBackAt(Met(start, records, others, n, meanwhile), later, records, f);
  }

  lemma StopIsAnAbort(acls: Acls, dir: Directory, records: seq<Record>)
    ensures Stop(acls, dir, records) == |records| <==> forall r | r in records :: !Blocks(r, dir, acls)
  {
    var k := Stop(acls, dir, records);
    if k < |records| {
      assert records[k] in records;
    }
  }

  /** A repair of everything the scan found and a rollback, complete or interrupted, with other
      processes editing before every write and in between. */
  method RepairThenRollback(host: AclHost, names: seq<string>, dir: Directory, broker: nat,
                            others: seq<Edits>, n: nat, meanwhile: Edits, later: Directory)
    returns (records: seq<Record>, ok: bool)
    requires NoDuplicates(names) && OneNameEach(dir)
    requires Scan(names, dir, host.acls, broker).Ok?
    requires |others| == |Scan(names, dir, host.acls, broker).value|
    modifies host
    ensures records == Scan(names, dir, old(host.acls), broker).value && DistinctFiles(records)
    ensures forall name | name in names :: HasRecord(records, name) <==> IsRepairable(name, dir, old(host.acls), broker)
    ensures host.acls == Aftermath(old(host.acls), records, others, n, meanwhile, later)
    ensures ok <==> forall r | r in records :: !Blocks(r, later, Met(old(host.acls), records, others, n, meanwhile))
    ensures forall i | 0 <= i < |records| && InPlace(records[i], later)
                       && LastEdit(records[i].identity, AllEdits(old(host.acls), records, others, n, meanwhile)).None? ::
              Lookup(host.acls, records[i].identity) == Lookup(old(host.acls), records[i].identity) <==>
                || Written(old(host.acls), records, others, n) <= i
                || i < Stop(Met(old(host.acls), records, others, n, meanwhile), later, records)
  {
    ghost var start := host.acls;
    var found := host.FindCandidates(names, dir, broker);
    records := found.value;
    ScanMeaning(names, dir, start, broker);
    forall name | name in names
      ensures HasRecord(records, name) <==> IsRepairable(name, dir, start, broker)
    {
      ScanIsComplete(names, dir, start, broker, name);
    }
    var wrote := host.WriteUpdates(records, others, n);
    host.acls := host.acls + meanwhile;
    ghost var met := Met(start, records, others, n, meanwhile);
    ok := host.Rollback(later, records);
    StopIsAnAbort(met, later, records);
    forall i | 0 <= i < |records| && InPlace(records[i], later)
               && LastEdit(records[i].identity, AllEdits(start, records, others, n, meanwhile)).None?
      ensures Lookup(Aftermath(start, records, others, n, meanwhile, later), records[i].identity)
                == Lookup(start, records[i].identity) <==>
                Written(start, records, others, n) <= i || i < Stop(met, later, records)
    {
      assert records[i] in records;
      UntouchedIsRestoredExactlyWhen(start, records, others, n, meanwhile, later, broker, i);
    }
  }

  // ----- A rollback that gives up -----

  function TwoRecords(x: string, y: string, raw: seq<Byte>, fixed: seq<Byte>): seq<Record> {
    [Record(x, 1, raw, fixed), Record(y, 2, raw, fixed)]
  }

  lemma SecondFileStaysRepaired(x: string, y: string, raw: seq<Byte>, fixed: seq<Byte>)
    requires x != y && IsJson(x) && IsJson(y) && raw != fixed
    ensures var start, nobody: Edits := map[1 := raw, 2 := raw], map[];
            var records, later := TwoRecords(x, y, raw, fixed), map[x := SymbolicLink, y := Opened(2, true, 1, 0)];
            var met := Met(start, records, [nobody, nobody], 2, nobody);
            && Blocks(records[0], later, met) && CarriesResult(records[1], later, met)
            && Lookup(Aftermath(start, records, [nobody, nobody], 2, nobody, later), 2) == Some(fixed)
  {
    var start, nobody: Edits := map[1 := raw, 2 := raw], map[];
    var records := TwoRecords(x, y, raw, fixed);
    UndisturbedRepairWritesAll(start, records, [nobody, nobody], 2);
    assert records[0] in records && records[1] in records;
    assert Lookup(Met(start, records, [nobody, nobody], 2, nobody), 2) == Some(fixed);
  }

  /** Two files with an ACL to repair: both are written, the first name then becomes a symbolic
      link, and nobody touches the second file. The rollback aborts at the first, would have
      restored the second, and leaves it repaired. */
  lemma AbortLeavesLaterFilesRepaired(raw: seq<Byte>, fixed: seq<Byte>, broker: nat)
    requires RepairedAcl(raw, broker) == Repaired(fixed)
    ensures var start, nobody: Edits := map[1 := raw, 2 := raw], map[];
            var records := TwoRecords("a.json", "b.json", raw, fixed);
            var later := map["a.json" := SymbolicLink, "b.json" := Opened(2, true, 1, 0)];
            var met := Met(start, records, [nobody, nobody], 2, nobody);
            && Blocks(records[0], later, met) && CarriesResult(records[1], later, met)
            && Lookup(Aftermath(start, records, [nobody, nobody], 2, nobody, later), 2) == Some(fixed)
  {
    SecondRepairDoesNothing(raw, broker);
    assert "a.json"[1..] == ".json" && "b.json"[1..] == ".json" && "a.json"[0] != "b.json"[0];
    SecondFileStaysRepaired("a.json", "b.json", raw, fixed);
  }
}
