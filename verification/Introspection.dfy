/**
 The discovery snapshot a revision records: what a validation run collects
 (netbox_scripts/validation.py) and what is accepted back (netbox_scripts/runtime/introspection.py).
 */
module Introspection {
  import opened Prelude
  import opened ScriptSync

  const MAX_SCRIPT_CLASS_NAME_LENGTH := 79
  const MAX_SCRIPT_DISPLAY_NAME_LENGTH := 255
  const MAX_SCRIPT_MODULE_PATH_LENGTH := 1000

  /** A JSON value, as far as the checks look at one. */
  datatype Value = Null | Bool(b: bool) | Int(n: int) | Float(x: real) | Text(s: string) | Composite

  datatype Metadata = NotMetadata | Metadata(jobTimeout: Value, notifications: Value)

  /** One stored record. A key that is absent reads as Null, as dict.get has it. */
  datatype RawRecord =
    | NotAnObject
    | Object(modulePath: Value, className: Value, path: Value, displayName: Value, description: Value,
             scriptFile: Value, position: Value, metadata: Metadata)

  datatype Snapshots = NotAList | Listed(records: seq<RawRecord>)

  datatype Code =
    | InvalidSnapshot | InvalidEntry | InvalidPosition | InvalidJobTimeout | InvalidNotifications
    | IdentityTooLong | DisplayNameTooLong | DuplicateIdentity | ReservedVariableName | FormConstructionFailed

  // ----- What one record must be ---------------------------------------------------------------------

  predicate SupportedPolicy(v: Value) {
    v == Text("always") || v == Text("on_failure") || v == Text("never")
  }

  predicate ValidTimeout(v: Value) { v.Int? && v.n > 0 }

  /** v == index, under Python's equality across bool, int and float. */
  predicate EqualsIndex(v: Value, index: nat) {
    match v
    case Int(n) => n == index
    case Bool(b) => index == (if b then 1 else 0)
    case Float(x) => x == index as real
    case _ => false
  }

  predicate HasTexts(r: RawRecord) {
    r.Object? && r.modulePath.Text? && r.className.Text? && r.path.Text? && r.displayName.Text? && r.description.Text?
  }

  function IdentityOf(r: RawRecord): Identity
    requires HasTexts(r)
  {
    Identity(r.modulePath.s, r.className.s)
  }

  predicate StorableIdentity(i: Identity) {
    |i.className| <= MAX_SCRIPT_CLASS_NAME_LENGTH && |i.modulePath| <= MAX_SCRIPT_MODULE_PATH_LENGTH
  }

  predicate WellFormed(r: RawRecord, index: nat) {
    && HasTexts(r)
    && r.scriptFile.Int? && r.scriptFile.n > 0
    && EqualsIndex(r.position, index)
    && r.metadata.Metadata?
    && (r.metadata.jobTimeout == Null || ValidTimeout(r.metadata.jobTimeout))
    && (r.metadata.notifications == Null || SupportedPolicy(r.metadata.notifications))
    && StorableIdentity(IdentityOf(r))
    && |r.displayName.s| <= MAX_SCRIPT_DISPLAY_NAME_LENGTH
  }

  /** Python's equality of a number and an index, across its numeric types. */
  ghost predicate IsIndex(v: Value, index: nat) {
    || v == Int(index) || v == Float(index as real)
    || (v == Bool(false) && index == 0) || (v == Bool(true) && index == 1)
  }

  /** What one stored record must hold, field by field. */
  lemma {:induction false} WellFormedExactly(r: RawRecord, index: nat)
    ensures WellFormed(r, index) <==>
              && r.Object?
              && r.modulePath.Text? && |r.modulePath.s| <= 1000
              && r.className.Text? && |r.className.s| <= 79
              && r.displayName.Text? && |r.displayName.s| <= 255
              && r.path.Text? && r.description.Text?
              && r.scriptFile.Int? && r.scriptFile.n >= 1
              && IsIndex(r.position, index)
              && r.metadata.Metadata?
              && (r.metadata.jobTimeout == Null || (r.metadata.jobTimeout.Int? && r.metadata.jobTimeout.n >= 1))
              && r.metadata.notifications in {Null, Text("always"), Text("on_failure"), Text("never")}
  {
  }

  ghost predicate WellFormedList(records: seq<RawRecord>) {
    forall k :: 0 <= k < |records| ==> WellFormed(records[k], k)
  }

  /** Every record well formed at its position, and no identity twice. */
  ghost predicate Acceptable(records: seq<RawRecord>) {
    && WellFormedList(records)
    && (forall i, k :: 0 <= i < k < |records| ==> IdentityOf(records[i]) != IdentityOf(records[k]))
  }

  /** The checks on one record, in order; duplicates are checked last. */
  method CheckRecord(r: RawRecord, index: nat) returns (fault: Option<Code>)
    ensures fault.None? <==> WellFormed(r, index)
    ensures fault == Some(IdentityTooLong) ==> HasTexts(r) && !StorableIdentity(IdentityOf(r))
    ensures fault == Some(InvalidPosition) ==> HasTexts(r) && !EqualsIndex(r.position, index)
  {
    if !HasTexts(r) {
      return Some(InvalidEntry);
    }
    if !r.scriptFile.Int? || r.scriptFile.n <= 0 {
      return Some(InvalidEntry);
    }
    if !EqualsIndex(r.position, index) {
      return Some(InvalidPosition);
    }
    if r.metadata.NotMetadata? {
      return Some(InvalidEntry);
    }
    if r.metadata.jobTimeout != Null && !ValidTimeout(r.metadata.jobTimeout) {
      return Some(InvalidJobTimeout);
    }
    if r.metadata.notifications != Null && !SupportedPolicy(r.metadata.notifications) {
      return Some(InvalidNotifications);
    }
    if !StorableIdentity(IdentityOf(r)) {
      return Some(IdentityTooLong);
    }
    if |r.displayName.s| > MAX_SCRIPT_DISPLAY_NAME_LENGTH {
      return Some(DisplayNameTooLong);
    }
    return None;
  }

  /** validate_discovered_scripts: it accepts exactly the acceptable, and otherwise the first fault is reported. */
  method ValidateDiscoveredScripts(value: Snapshots) returns (r: Result<seq<RawRecord>, (nat, Code)>)
    ensures r.Ok? <==> value.Listed? && Acceptable(value.records)
    ensures r.Ok? ==> r.value == value.records
    ensures r.Err? && value.Listed? ==>
              r.error.0 < |value.records| && Acceptable(value.records[..r.error.0])
              && !Acceptable(value.records[..r.error.0 + 1])
  {
    if value.NotAList? {
      return Err((0, InvalidSnapshot));
    }
    var records := value.records;
    var identities: set<Identity> := {};
    for i := 0 to |records|
      invariant Acceptable(records[..i])
      invariant identities == set k | 0 <= k < i :: IdentityOf(records[..i][k])
    {
      AcceptableNext(records, i);
      var fault := CheckRecord(records[i], i);
      if fault.Some? {
        return Err((i, fault.value));
      }
      if IdentityOf(records[i]) in identities {
        return Err((i, DuplicateIdentity));
      }
      identities := identities + {IdentityOf(records[i])};
      assert forall k :: 0 <= k < i ==> records[..i + 1][k] == records[..i][k];
    }
    assert records[..|records|] == records;
    return Ok(records);
  }

  lemma {:induction false} AcceptableNext(records: seq<RawRecord>, i: nat)
    requires i < |records| && Acceptable(records[..i])
    ensures Acceptable(records[..i + 1]) <==>
              && WellFormed(records[i], i)
              && forall k :: 0 <= k < i ==> IdentityOf(records[..i][k]) != IdentityOf(records[i])
    ensures !Acceptable(records[..i + 1]) ==> !Acceptable(records)
  {
    var before, after := records[..i], records[..i + 1];
    assert forall k :: 0 <= k < i ==> after[k] == before[k] == records[k];
    assert after[i] == records[i];
    if Acceptable(after) {
      forall k | 0 <= k < i ensures IdentityOf(before[k]) != IdentityOf(records[i]) {
        assert IdentityOf(after[k]) != IdentityOf(after[i]);
      }
    }
    if Acceptable(records) {
      assert forall k :: 0 <= k <= i ==> WellFormed(after[k], k);
      assert Acceptable(after);
    }
  }

  // ----- Collecting a run's publications ---------------------------------------------------------------

  /** One class discovery found: cls identifies the class object; the rest is what describing it asks. */
  datatype Found = Found(
    cls: nat,
    identity: Identity,
    displayName: string,
    description: string,
    formFault: Option<Code>,
    timeout: Option<int>,
    policy: string)

  /** describe_script, given the form's outcome. */
  function Describe(item: Found, scriptFile: nat, path: string, position: nat): Result<RawRecord, Code> {
    if item.formFault == Some(ReservedVariableName) then Err(ReservedVariableName)
    else if !StorableIdentity(item.identity) then Err(IdentityTooLong)
    else if |item.displayName| > MAX_SCRIPT_DISPLAY_NAME_LENGTH then Err(DisplayNameTooLong)
    else if item.formFault.Some? then Err(item.formFault.value)
    else if item.timeout.Some? && item.timeout.value <= 0 then Err(InvalidJobTimeout)
    else if !SupportedPolicy(Text(item.policy)) then Err(InvalidNotifications)
    else Ok(Object(Text(item.identity.modulePath), Text(item.identity.className), Text(path), Text(item.displayName),
                   Text(item.description), Int(scriptFile), Int(position),
                   Metadata(if item.timeout.Some? then Int(item.timeout.value) else Null, Text(item.policy))))
  }

  /**
   Describing succeeds exactly when nothing is wrong with the class, and the record then carries its
   identity, texts, timeout and policy, with the file and the position it was found at.
   */
  lemma {:induction false} DescribesFaithfully(item: Found, scriptFile: nat, path: string, position: nat)
    ensures var r := Describe(item, scriptFile, path, position);
      && (r.Ok? <==>
            && item.formFault == None
            && |item.identity.modulePath| <= 1000 && |item.identity.className| <= 79
            && |item.displayName| <= 255
            && (item.timeout.Some? ==> item.timeout.value > 0)
            && item.policy in {"always", "on_failure", "never"})
      && (r == Err(ReservedVariableName) <==> item.formFault == Some(ReservedVariableName))
      && (item.formFault != Some(ReservedVariableName) ==>
            (r == Err(IdentityTooLong) <==> |item.identity.modulePath| > 1000 || |item.identity.className| > 79
                                            || (|item.displayName| <= 255 && item.formFault == Some(IdentityTooLong))))
      && (r.Ok? ==>
            && r.value.Object? && r.value.metadata.Metadata?
            && r.value.modulePath == Text(item.identity.modulePath)
            && r.value.className == Text(item.identity.className)
            && r.value.displayName == Text(item.displayName) && r.value.description == Text(item.description)
            && r.value.path == Text(path) && r.value.scriptFile == Int(scriptFile)
            && r.value.position == Int(position)
            && r.value.metadata.notifications == Text(item.policy)
            && r.value.metadata.jobTimeout == if item.timeout == None then Null else Int(item.timeout.value))
  {
  }

  datatype Failed = Failed(path: string, code: Code)

  /** What a validation run has gathered: its identities map and its records agree. */
  datatype Collection = Collection(identities: map<Identity, nat>, records: seq<RawRecord>, failures: seq<Failed>)

  predicate HasIdentity(r: RawRecord, i: Identity) { HasTexts(r) && IdentityOf(r) == i }

  /** The identities map lists the identities of the records. */
  ghost predicate ListsIdentities(identities: map<Identity, nat>, records: seq<RawRecord>) {
    forall i :: i in identities <==> exists k :: 0 <= k < |records| && HasIdentity(records[k], i)
  }

  ghost predicate Consistent(c: Collection) {
    Acceptable(c.records) && ListsIdentities(c.identities, c.records)
  }

  /** The class is the one published under its identity. */
  ghost predicate PublishesClass(c: Collection, item: Found) {
    item.identity in c.identities && c.identities[item.identity] == item.cls
  }

  /** A failure an item earned: another class holds its identity, or it cannot be described. */
  ghost predicate Refused(c: Collection, scriptFile: nat, path: string, item: Found, failure: Failed) {
    && failure.path == path
    && ((failure.code == DuplicateIdentity && item.identity in c.identities && !PublishesClass(c, item))
        || Describe(item, scriptFile, path, 0) == Err(failure.code))
  }

  /** A later collection keeps every publication, in place, and every failure. */
  ghost predicate Extends(before: Collection, after: Collection) {
    && before.records <= after.records && before.failures <= after.failures
    && (forall i :: i in before.identities ==> i in after.identities && after.identities[i] == before.identities[i])
  }

  function WithRecord(c: Collection, item: Found, record: RawRecord): Collection {
    c.(identities := c.identities[item.identity := item.cls], records := c.records + [record])
  }

  lemma {:induction false} RecordedStaysConsistent(c: Collection, item: Found, scriptFile: nat, path: string)
    requires Consistent(c) && item.identity !in c.identities && scriptFile > 0
    requires Describe(item, scriptFile, path, |c.records|).Ok?
    ensures var after := WithRecord(c, item, Describe(item, scriptFile, path, |c.records|).value);
      Consistent(after) && Extends(c, after) && PublishesClass(after, item)
  {
    var n := |c.records|;
    var after := WithRecord(c, item, Describe(item, scriptFile, path, n).value);
    AcceptableNext(after.records, n);
    assert after.records[..n] == c.records && after.records[..n + 1] == after.records;
    IdentityAdded(c.identities, c.records, item.identity, item.cls, Describe(item, scriptFile, path, n).value);
  }

  lemma {:induction false} IdentityAdded(identities: map<Identity, nat>, records: seq<RawRecord>, i: Identity, cls: nat,
                                         record: RawRecord)
    requires ListsIdentities(identities, records) && HasIdentity(record, i)
    ensures ListsIdentities(identities[i := cls], records + [record])
  {
    var more, after := identities[i := cls], records + [record];
    forall j | j in more ensures exists k :: 0 <= k < |after| && HasIdentity(after[k], j) {
      if j == i {
        assert HasIdentity(after[|records|], i);
      } else {
        var k :| 0 <= k < |records| && HasIdentity(records[k], j);
        assert HasIdentity(after[k], j);
      }
    }
  }

  /** One item folded in. */
  method CollectOne(c: Collection, scriptFile: nat, path: string, item: Found) returns (after: Collection, failed: bool)
    requires Consistent(c) && scriptFile > 0
    ensures Consistent(after) && Extends(c, after)
    ensures failed ==> |after.failures| == |c.failures| + 1
                       && Refused(after, scriptFile, path, item, after.failures[|c.failures|])
    ensures !failed ==> after.failures == c.failures && PublishesClass(after, item)
    ensures after.records == c.records
            || (after.records == c.records + [after.records[|c.records|]]
                && Describe(item, scriptFile, path, |c.records|) == Ok(after.records[|c.records|]))
  {
    if item.identity in c.identities {
      if c.identities[item.identity] != item.cls {
        return c.(failures := c.failures + [Failed(path, DuplicateIdentity)]), true;
      }
      return c, false;
    }
    var record := Describe(item, scriptFile, path, |c.records|);
    if record.Err? {
      return c.(failures := c.failures + [Failed(path, record.error)]), true;
    }
    RecordedStaysConsistent(c, item, scriptFile, path);
    return WithRecord(c, item, record.value), false;
  }

  /** Each failure from a point on is an item refused; failing lists those items in order. */
  ghost predicate EachRefused(c: Collection, from: nat, scriptFile: nat, path: string, items: seq<Found>,
                              failing: seq<nat>)
  {
    && |c.failures| == from + |failing|
    && (forall i, j :: 0 <= i < j < |failing| ==> failing[i] < failing[j])
    && (forall j :: 0 <= j < |failing| ==> RefusedAt(c, from, scriptFile, path, items, failing, j))
  }

  ghost predicate RefusedAt(c: Collection, from: nat, scriptFile: nat, path: string, items: seq<Found>,
                            failing: seq<nat>, j: nat)
    requires j < |failing| && from + j < |c.failures|
  {
    failing[j] < |items| && Refused(c, scriptFile, path, items[failing[j]], c.failures[from + j])
  }

  ghost predicate OthersPublished(c: Collection, items: seq<Found>, failing: seq<nat>) {
    forall k :: 0 <= k < |items| && k !in failing ==> PublishesClass(c, items[k])
  }

  /** A record, at its position, describes one of some items. */
  ghost predicate Describes(record: RawRecord, position: nat, scriptFile: nat, path: string, items: seq<Found>) {
    exists n :: 0 <= n < |items| && Describe(items[n], scriptFile, path, position) == Ok(record)
  }

  ghost predicate RecordsDescribe(records: seq<RawRecord>, from: nat, scriptFile: nat, path: string,
                                  items: seq<Found>)
  {
    from <= |records| && forall k :: from <= k < |records| ==> Describes(records[k], k, scriptFile, path, items)
  }

  /**
   What collecting one entry's items comes to: as many new failures as items refused, each item's own;
   every other item's class published; and every record added describing an item.
   */
  ghost predicate Accounts(before: Collection, after: Collection, scriptFile: nat, path: string, items: seq<Found>,
                           failing: seq<nat>)
  {
    && EachRefused(after, |before.failures|, scriptFile, path, items, failing)
    && OthersPublished(after, items, failing)
    && RecordsDescribe(after.records, |before.records|, scriptFile, path, items)
  }

  lemma {:induction false} DescribedNext(records: seq<RawRecord>, more: seq<RawRecord>, from: nat, scriptFile: nat,
                                         path: string, items: seq<Found>, i: nat)
    requires i < |items| && RecordsDescribe(records, from, scriptFile, path, items[..i]) && records <= more
    requires more == records || (more == records + [more[|records|]]
               && Describe(items[i], scriptFile, path, |records|) == Ok(more[|records|]))
    ensures RecordsDescribe(more, from, scriptFile, path, items[..i + 1])
  {
    var sofar := items[..i + 1];
    forall k | from <= k < |more| ensures Describes(more[k], k, scriptFile, path, sofar) {
      if k < |records| {
        assert Describes(records[k], k, scriptFile, path, items[..i]);
        var n :| 0 <= n < i && Describe(items[..i][n], scriptFile, path, k) == Ok(records[k]);
        assert sofar[n] == items[..i][n];
      } else {
        assert sofar[i] == items[i];
      }
    }
  }

  lemma {:induction false} RefusedNext(before: Collection, after: Collection, from: nat, scriptFile: nat, path: string,
                                       items: seq<Found>, i: nat, failing: seq<nat>, failed: bool)
    requires i < |items| && Extends(before, after)
    requires EachRefused(before, from, scriptFile, path, items[..i], failing)
    requires failed ==> |after.failures| == |before.failures| + 1
                        && Refused(after, scriptFile, path, items[i], after.failures[|before.failures|])
    requires !failed ==> after.failures == before.failures
    ensures EachRefused(after, from, scriptFile, path, items[..i + 1], if failed then failing + [i] else failing)
  {
    var sofar, more := items[..i + 1], if failed then failing + [i] else failing;
    forall j | 0 <= j < |more| ensures RefusedAt(after, from, scriptFile, path, sofar, more, j) {
      if j < |failing| {
        assert RefusedAt(before, from, scriptFile, path, items[..i], failing, j);
        assert items[..i][failing[j]] == sofar[failing[j]] && after.failures[from + j] == before.failures[from + j];
      }
    }
    forall a, b | 0 <= a < b < |more| ensures more[a] < more[b] {
      if b == |failing| {
        assert RefusedAt(before, from, scriptFile, path, items[..i], failing, a);
      }
    }
  }

  lemma {:induction false} OthersPublishedNext(before: Collection, after: Collection, items: seq<Found>, i: nat,
                                               failing: seq<nat>, failed: bool)
    requires i < |items| && Extends(before, after) && OthersPublished(before, items[..i], failing)
    requires failed || PublishesClass(after, items[i])
    ensures OthersPublished(after, items[..i + 1], if failed then failing + [i] else failing)
  {
    var sofar, more := items[..i + 1], if failed then failing + [i] else failing;
    assert failed ==> more[|failing|] == i;
    forall k | 0 <= k < |sofar| && k !in more ensures PublishesClass(after, sofar[k]) {
      if k < i {
        assert k !in failing && items[..i][k] == sofar[k];
        assert PublishesClass(before, items[..i][k]);
      }
    }
  }

  /** _collect_publications: the outcome is FAILED exactly when the entry added a failure. */
  method CollectPublications(c: Collection, scriptFile: nat, path: string, found: seq<Found>)
    returns (after: Collection, failed: bool)
    requires Consistent(c) && scriptFile > 0
    ensures Consistent(after) && Extends(c, after)
    ensures exists failing :: Accounts(c, after, scriptFile, path, found, failing)
    ensures failed <==> |after.failures| > |c.failures|
  {
    after, failed := c, false;
    ghost var failing: seq<nat> := [];
    for i := 0 to |found|
      invariant Consistent(after) && Extends(c, after) && Accounts(c, after, scriptFile, path, found[..i], failing)
      invariant failed <==> |after.failures| > |c.failures|
    {
      ghost var before := after;
      var bad;
      after, bad := CollectOne(after, scriptFile, path, found[i]);
      failed := failed || bad;
      RefusedNext(before, after, |c.failures|, scriptFile, path, found, i, failing, bad);
      OthersPublishedNext(before, after, found, i, failing, bad);
      DescribedNext(before.records, after.records, |c.records|, scriptFile, path, found, i);
      failing := if bad then failing + [i] else failing;
    }
    assert found[..|found|] == found;
  }

  datatype FileFound = FileFound(scriptFile: nat, path: string, found: seq<Found>)

  /** Every class of every file is published under its identity. */
  ghost predicate AllPublished(c: Collection, files: seq<FileFound>) {
    forall f, k :: 0 <= f < |files| && 0 <= k < |files[f].found| ==> PublishesClass(c, files[f].found[k])
  }

  /** Every record describes a class of some file. */
  ghost predicate AllDescribed(c: Collection, files: seq<FileFound>) {
    forall k :: 0 <= k < |c.records| ==> DescribesOneOf(c.records[k], k, files)
  }

  ghost predicate DescribesOneOf(record: RawRecord, position: nat, files: seq<FileFound>) {
    exists f :: 0 <= f < |files| && Describes(record, position, files[f].scriptFile, files[f].path, files[f].found)
  }

  /**
   The collecting loop of validate_revision. Whatever is found, the snapshot it builds is one
   validation accepts back, of classes found; and a run without failures publishes every class it
   found.
   */
  method CollectAll(files: seq<FileFound>) returns (c: Collection)
    requires forall f :: 0 <= f < |files| ==> files[f].scriptFile > 0
    ensures Consistent(c) && AllDescribed(c, files)
    ensures c.failures == [] ==> AllPublished(c, files)
  {
    c := Collection(map[], [], []);
    for i := 0 to |files|
      invariant Consistent(c) && AllDescribed(c, files[..i])
      invariant c.failures == [] ==> AllPublished(c, files[..i])
    {
      ghost var before := c;
      var failed;
      c, failed := CollectPublications(c, files[i].scriptFile, files[i].path, files[i].found);
      ghost var failing :| Accounts(before, c, files[i].scriptFile, files[i].path, files[i].found, failing);
      DescribedStay(before, c, files, i, failing);
      if c.failures == [] {
        PublishedStays(before, c, files, i, failing);
      }
    }
    assert files[..|files|] == files;
  }

  lemma {:induction false} DescribedStay(before: Collection, after: Collection, files: seq<FileFound>, i: nat,
                                         failing: seq<nat>)
    requires i < |files| && Extends(before, after) && AllDescribed(before, files[..i])
    requires Accounts(before, after, files[i].scriptFile, files[i].path, files[i].found, failing)
    ensures AllDescribed(after, files[..i + 1])
  {
    var sofar := files[..i + 1];
    forall k | 0 <= k < |after.records| ensures DescribesOneOf(after.records[k], k, sofar) {
      if k < |before.records| {
        assert DescribesOneOf(before.records[k], k, files[..i]);
        var f :| 0 <= f < i && Describes(before.records[k], k, files[..i][f].scriptFile, files[..i][f].path,
                                         files[..i][f].found);
        assert sofar[f] == files[..i][f];
      } else {
        assert sofar[i] == files[i];
      }
    }
  }

  lemma {:induction false} PublishedStays(before: Collection, after: Collection, files: seq<FileFound>, i: nat,
                                          failing: seq<nat>)
    requires i < |files| && Extends(before, after) && after.failures == []
    requires AllPublished(before, files[..i])
    requires Accounts(before, after, files[i].scriptFile, files[i].path, files[i].found, failing)
    ensures AllPublished(after, files[..i + 1])
  {
    var sofar := files[..i + 1];
    forall f, k | 0 <= f < |sofar| && 0 <= k < |sofar[f].found| ensures PublishesClass(after, sofar[f].found[k]) {
      if f < i {
        assert files[..i][f] == sofar[f];
        assert PublishesClass(before, files[..i][f].found[k]);
      } else {
        assert k !in failing;
      }
    }
  }

  // ----- What synchronization relies on -----------------------------------------------------------------

  function PublishedOf(r: RawRecord, render: Metadata -> string): Published
    requires HasTexts(r)
  {
    Published(r.displayName.s, r.description.s, render(r.metadata))
  }

  /** The records synchronization walks. */
  function Records(raw: seq<RawRecord>, render: Metadata -> string): seq<Record>
    requires forall k :: 0 <= k < |raw| ==> HasTexts(raw[k])
  {
    seq(|raw|, k requires 0 <= k < |raw| && HasTexts(raw[k]) => Record(IdentityOf(raw[k]), PublishedOf(raw[k], render)))
  }

  /** A list of well-formed records is accepted exactly when synchronization can treat it as a snapshot. */
  lemma {:induction false} AcceptedIsASnapshot(raw: seq<RawRecord>, render: Metadata -> string)
    requires WellFormedList(raw)
    ensures Acceptable(raw) <==> DistinctIdentities(Records(raw, render))
  {
    var records := Records(raw, render);
    assert forall k :: 0 <= k < |raw| ==> records[k].identity == IdentityOf(raw[k]);
  }

  /** Every class the files hold is what its Script row publishes, and no other row publishes anything. */
  ghost predicate PublishesFound(rows: Rows, files: seq<FileFound>) {
    && (forall f, k :: 0 <= f < |files| && 0 <= k < |files[f].found| ==> Serves(rows, files[f].found[k].identity))
    && (forall i :: Serves(rows, i) ==> Finds(files, i))
  }

  predicate Serves(rows: Rows, i: Identity) { i in rows && !rows[i].retired }

  ghost predicate Finds(files: seq<FileFound>, i: Identity) {
    exists f, k :: 0 <= f < |files| && 0 <= k < |files[f].found| && files[f].found[k].identity == i
  }

  /** Verdict and activation of one revision: what the collection holds is what is recorded, checked and published. */
  method PublishCollected(table: ScriptTable, files: seq<FileFound>, render: Metadata -> string, revision: nat)
    returns (c: Collection, r: Option<SyncResult>)
    requires table.Valid() && forall f :: 0 <= f < |files| ==> files[f].scriptFile > 0
    modifies table
    ensures table.Valid() && Acceptable(c.records) && AllDescribed(c, files)
    ensures r.None? <==> files != [] && (c.failures != [] || c.records == [])
    ensures r.None? ==> table.rows == old(table.rows)
    ensures r.Some? ==>
              && Publishes(table.rows, AsSnapshot(Records(c.records, render)), revision)
              && PublishesFound(table.rows, files)
              && r.value.published == |c.records|
              && r.value.written == |Written(old(table.rows), table.rows)|
  {
    c := CollectAll(files);
    if files != [] && (c.failures != [] || c.records == []) {
      return c, None;
    }
    var checked := ValidateDiscoveredScripts(Listed(c.records));
    AcceptedIsASnapshot(c.records, render);
    var records := Records(checked.value, render);
    ghost var before := table.rows;
    var result := table.SynchronizeScripts(records, revision);
    SyncConverges(before, AsSnapshot(records), revision);
    FoundIsPublished(c, files, render, table.rows, revision);
    return c, Some(result);
  }

  /** The snapshot names exactly the identities collected. */
  lemma {:induction false} SnapshotNames(c: Collection, render: Metadata -> string, i: Identity)
    requires Consistent(c)
    ensures i in AsSnapshot(Records(c.records, render)) <==> i in c.identities
  {
    var records := Records(c.records, render);
    AsSnapshotKeys(records);
    if i in c.identities {
      var n :| 0 <= n < |c.records| && HasIdentity(c.records[n], i);
      assert records[n].identity == i;
    }
    if n :| 0 <= n < |records| && records[n].identity == i {
      assert HasIdentity(c.records[n], i);
    }
  }

  /** What is collected was found. */
  lemma {:induction false} CollectedIsFound(c: Collection, files: seq<FileFound>, i: Identity)
    requires Consistent(c) && AllDescribed(c, files) && i in c.identities
    ensures Finds(files, i)
  {
    var n :| 0 <= n < |c.records| && HasIdentity(c.records[n], i);
    assert DescribesOneOf(c.records[n], n, files);
    var f :| 0 <= f < |files| && Describes(c.records[n], n, files[f].scriptFile, files[f].path, files[f].found);
    var k := DescribedItem(c.records[n], n, files[f].scriptFile, files[f].path, files[f].found, i);
    assert files[f].found[k].identity == i;
  }

  lemma {:induction false} DescribedItem(record: RawRecord, position: nat, scriptFile: nat, path: string,
                                         items: seq<Found>, i: Identity) returns (k: nat)
    requires Describes(record, position, scriptFile, path, items) && HasIdentity(record, i)
    ensures k < |items| && items[k].identity == i
  {
    k :| k < |items| && Describe(items[k], scriptFile, path, position) == Ok(record);
  }

  lemma {:induction false} FoundIsPublished(c: Collection, files: seq<FileFound>, render: Metadata -> string,
                                            rows: Rows, revision: nat)
    requires Consistent(c) && AllDescribed(c, files) && AllPublished(c, files)
    requires Publishes(rows, AsSnapshot(Records(c.records, render)), revision)
    ensures PublishesFound(rows, files)
  {
    var snapshot := AsSnapshot(Records(c.records, render));
    forall f, k | 0 <= f < |files| && 0 <= k < |files[f].found| ensures Serves(rows, files[f].found[k].identity) {
      assert PublishesClass(c, files[f].found[k]);
      SnapshotNames(c, render, files[f].found[k].identity);
    }
    forall i | Serves(rows, i) ensures Finds(files, i) {
      SnapshotNames(c, render, i);
      CollectedIsFound(c, files, i);
    }
  }
}
