/**
 Bringing one project's Script rows in line with a revision's recorded snapshot
 (netbox_scripts/activation.py, with the row rules of netbox_scripts/models/scripts.py).
 */
module ScriptSync {
  import opened Prelude

  /** What a Script is: the module that defines the class, and the class name. */
  datatype Identity = Identity(modulePath: string, className: string)

  /** The fields synchronization owns besides retirement and the last seen revision. */
  datatype Published = Published(displayName: string, description: string, metadata: string)

  /** One Script row. enabled and overrides belong to the administrator. */
  datatype Script = Script(
    published: Published,
    retired: bool,
    lastSeen: Option<nat>,
    enabled: bool,
    overrides: string)

  type Rows = map<Identity, Script>
  type Snapshot = map<Identity, Published>

  datatype Record = Record(identity: Identity, published: Published)

  datatype SyncResult = SyncResult(published: nat, retired: nat, written: nat)

  function NewRow(published: Published, revision: nat): Script {
    Script(published, false, Some(revision), true, "")
  }

  /** The row a publication leaves: the administrator's fields pass through. */
  function Republished(row: Script, published: Published, revision: nat): Script {
    row.(published := published, retired := false, lastSeen := Some(revision))
  }

  /** The row one record leaves, created when its identity is new. */
  function PublishedRow(rows: Rows, record: Record, revision: nat): Script {
    if record.identity in rows then Republished(rows[record.identity], record.published, revision)
    else NewRow(record.published, revision)
  }

  /** The whole table one synchronization leaves. */
  function Synced(rows: Rows, snapshot: Snapshot, revision: nat): Rows {
    map i | i in rows.Keys + snapshot.Keys ::
      if i !in snapshot then rows[i].(retired := true) else PublishedRow(rows, Record(i, snapshot[i]), revision)
  }

  ghost predicate DistinctIdentities(records: seq<Record>) {
    forall a, b :: 0 <= a < b < |records| ==> records[a].identity != records[b].identity
  }

  /** The snapshot a record list denotes. */
  function AsSnapshot(records: seq<Record>): Snapshot {
    if records == [] then map[]
    else AsSnapshot(records[..|records| - 1])[records[|records| - 1].identity := records[|records| - 1].published]
  }

  lemma {:induction false} AsSnapshotKeys(records: seq<Record>)
    ensures AsSnapshot(records).Keys == set k | 0 <= k < |records| :: records[k].identity
  {
    if records != [] {
      var n := |records| - 1;
      AsSnapshotKeys(records[..n]);
      assert forall k :: 0 <= k < n ==> records[..n][k] == records[k];
      assert (set k | 0 <= k < |records| :: records[k].identity)
          == (set k | 0 <= k < n :: records[..n][k].identity) + {records[n].identity};
    }
  }

  /** The rows one pass really wrote: those created and those whose fields moved. */
  ghost function Written(before: Rows, after: Rows): set<Identity> {
    set i | i in after && (i !in before || before[i] != after[i])
  }

  /** The rows one pass took out of publication. */
  ghost function NewlyRetired(before: Rows, after: Rows): set<Identity> {
    set i | i in after && i in before && after[i].retired && !before[i].retired
  }

  ghost predicate Publishes(rows: Rows, snapshot: Snapshot, revision: nat) {
    forall i ::
      (i in snapshot <==> i in rows && !rows[i].retired)
      && (i in snapshot ==> rows[i].published == snapshot[i] && rows[i].lastSeen == Some(revision))
  }

  /**
   One pass converges from any drift: exactly the snapshot is published, no row is lost, the
   administrator's fields and a retired row's last publication stand, a new row is enabled and
   overrides nothing, and a second pass writes and retires nothing.
   */
  lemma SyncConverges(rows: Rows, snapshot: Snapshot, revision: nat)
    ensures var after := Synced(rows, snapshot, revision);
      && Publishes(after, snapshot, revision)
      && after.Keys == rows.Keys + snapshot.Keys
      && (forall i :: i in rows ==> after[i].enabled == rows[i].enabled && after[i].overrides == rows[i].overrides)
      && (forall i :: i in snapshot && i !in rows ==> after[i].enabled && after[i].overrides == "")
      && (forall i :: i in rows && i !in snapshot ==>
            after[i].published == rows[i].published && after[i].lastSeen == rows[i].lastSeen)
      && Synced(after, snapshot, revision) == after
      && Written(after, Synced(after, snapshot, revision)) == {}
      && NewlyRetired(after, Synced(after, snapshot, revision)) == {}
  {
    var after := Synced(rows, snapshot, revision);
    assert Synced(after, snapshot, revision) == after;
  }

  /** A synchronized table determines its snapshot, so no two snapshots leave one table. */
  lemma SyncDeterminesSnapshot(rows: Rows, first: Snapshot, second: Snapshot, revision: nat)
    requires Synced(rows, first, revision) == Synced(rows, second, revision)
    ensures first == second
  {
    SyncConverges(rows, first, revision);
    SyncConverges(rows, second, revision);
    var after := Synced(rows, first, revision);
    assert Publishes(after, first, revision) && Publishes(after, second, revision);
    forall i ensures i in first <==> i in second {
      assert i in first <==> i in after && !after[i].retired;
    }
  }

  /** A project's Script table: the rows by identity, and the primary key of each. */
  class ScriptTable {
    var rows: Rows
    var keys: map<Identity, nat>
    var nextKey: nat

    ghost predicate Valid()
      reads this
    {
      && keys.Keys == rows.Keys
      && (forall i :: i in keys ==> keys[i] < nextKey)
      && (forall i, j :: i in keys && j in keys && keys[i] == keys[j] ==> i == j)
    }

    constructor ()
      ensures Valid() && rows == map[] && fresh(this)
    {
      rows, keys, nextKey := map[], map[], 0;
    }

    /** Save one row when any field differs, and say whether it wrote. */
    method SaveChanges(i: Identity, target: Script) returns (wrote: bool)
      requires Valid() && i in rows
      modifies this`rows
      ensures Valid()
      ensures wrote <==> old(rows[i]) != target
      ensures rows == old(rows)[i := target]
    {
      wrote := rows[i] != target;
      if wrote {
        rows := rows[i := target];
      }
    }

    method CreateRow(i: Identity, row: Script)
      requires Valid() && i !in rows
      modifies this
      ensures Valid()
      ensures rows == old(rows)[i := row]
      ensures keys == old(keys)[i := old(nextKey)] && nextKey == old(nextKey) + 1
    {
      rows := rows[i := row];
      keys := keys[i := nextKey];
      nextKey := nextKey + 1;
    }

    /** Publish the records, then retire every row they stopped naming. */
    method SynchronizeScripts(records: seq<Record>, revision: nat) returns (result: SyncResult)
      requires Valid() && DistinctIdentities(records)
      modifies this
      ensures Valid()
      ensures rows == Synced(old(rows), AsSnapshot(records), revision)
      ensures forall i :: i in old(keys) ==> i in keys && keys[i] == old(keys)[i]
      ensures result.published == |records|
      ensures result.written == |Written(old(rows), rows)|
      ensures result.retired == |NewlyRetired(old(rows), rows)|
    {
      ghost var before := rows;
      var written := PublishRecords(records, revision);
      AsSnapshotKeys(records);
      var named := set k | 0 <= k < |records| :: records[k].identity;
      ghost var half := rows;
      var retired := RetireRows(rows.Keys - named, before);
      result := SyncResult(|records|, retired, written + retired);
      HalvesMeet(before, half, rows, AsSnapshot(records), revision, retired);
    }

    /** Create the record's row, or save the fields of the existing one that differ. */
    method PublishRecord(record: Record, revision: nat) returns (wrote: bool)
      requires Valid()
      modifies this
      ensures Valid()
      ensures rows == old(rows)[record.identity := PublishedRow(old(rows), record, revision)]
      ensures forall i :: i in old(keys) ==> i in keys && keys[i] == old(keys)[i]
      ensures !wrote <==> rows == old(rows)
    {
      var i := record.identity;
      if i in rows {
        wrote := SaveChanges(i, Republished(rows[i], record.published, revision));
      } else {
        CreateRow(i, NewRow(record.published, revision));
        wrote := true;
      }
    }

    /** The publishing half: every named row is created or rewritten, every other stands. */
    method PublishRecords(records: seq<Record>, revision: nat) returns (written: nat)
      requires Valid() && DistinctIdentities(records)
      modifies this
      ensures Valid()
      ensures rows == Half(old(rows), AsSnapshot(records), revision)
      ensures forall i :: i in old(keys) ==> i in keys && keys[i] == old(keys)[i]
      ensures written == |Written(old(rows), rows)|
    {
      written := 0;
      for n := 0 to |records|
        invariant Valid()
        invariant PublishedSoFar(old(rows), rows, records, n, revision, written)
        invariant forall i :: i in old(keys) ==> i in keys && keys[i] == old(keys)[i]
      {
        PublishNext(old(rows), rows, records, n, revision, written);
        var wrote := PublishRecord(records[n], revision);
        if wrote { written := written + 1; }
      }
      assert records[..|records|] == records;
    }

    /** The retiring half: every pending row is retired, saving those not retired already. */
    method RetireRows(pending: set<Identity>, ghost before: Rows) returns (retired: nat)
      requires Valid() && Retiring(before, rows, rows, pending, pending, 0)
      modifies this`rows
      ensures Valid() && Retiring(before, old(rows), rows, pending, {}, retired)
    {
      retired := 0;
      var left := pending;
      while left != {}
        invariant Valid() && Retiring(before, old(rows), rows, pending, left, retired)
        decreases left
      {
        var i :| i in left;
        RetiringStep(before, old(rows), rows, pending, left, retired, i);
        var wrote := SaveChanges(i, rows[i].(retired := true));
        if wrote { retired := retired + 1; }
        left := left - {i};
      }
    }
  }

  /** Where the retiring half stands: left still has to retire, the other pending rows have. */
  ghost predicate Retiring(before: Rows, start: Rows, now: Rows, pending: set<Identity>, left: set<Identity>,
                           retired: nat) {
    && now.Keys == start.Keys && left <= pending <= before.Keys <= start.Keys
    && (forall i :: i in pending ==> start[i] == before[i])
    && (forall i :: i in now ==> now[i] == if i in pending - left then start[i].(retired := true) else start[i])
    && retired == |NewlyRetired(before, now)|
    && |Written(before, start)| + retired == |Written(before, now)|
  }

  lemma RetiringStep(before: Rows, start: Rows, now: Rows, pending: set<Identity>, left: set<Identity>,
                     retired: nat, i: Identity)
    requires Retiring(before, start, now, pending, left, retired) && i in left
    ensures Retiring(before, start, now[i := now[i].(retired := true)], pending, left - {i},
                     retired + if now[i].retired then 0 else 1)
  {
    RetiredGrows(before, now, i);
  }

  lemma HalvesMeet(before: Rows, half: Rows, after: Rows, snapshot: Snapshot, revision: nat, retired: nat)
    requires half == Half(before, snapshot, revision)
    requires Retiring(before, half, after, half.Keys - snapshot.Keys, {}, retired)
    ensures after == Synced(before, snapshot, revision)
  {
  }

  /** The table once the records are published and before anything retires. */
  ghost function Half(rows: Rows, snapshot: Snapshot, revision: nat): Rows {
    map i | i in rows.Keys + snapshot.Keys ::
      if i !in snapshot then rows[i] else PublishedRow(rows, Record(i, snapshot[i]), revision)
  }

  lemma Unnamed(records: seq<Record>, n: nat)
    requires DistinctIdentities(records) && n < |records|
    ensures records[n].identity !in AsSnapshot(records[..n])
  {
    AsSnapshotKeys(records[..n]);
  }

  lemma HalfGrows(rows: Rows, records: seq<Record>, n: nat, revision: nat)
    requires DistinctIdentities(records) && n < |records|
    ensures var i := records[n].identity;
      var was := Half(rows, AsSnapshot(records[..n]), revision);
      && (i in was <==> i in rows) && (i in rows ==> was[i] == rows[i])
      && Half(rows, AsSnapshot(records[..n + 1]), revision) == was[i := PublishedRow(was, records[n], revision)]
  {
    Unnamed(records, n);
    assert records[..n + 1][..n] == records[..n];
  }

  /** Touching a row that still stood as before counts it exactly when it moved. */
  lemma {:induction false} WrittenGrows(before: Rows, was: Rows, i: Identity, row: Script)
    requires i in was ==> i in before && was[i] == before[i]
    requires i in before ==> i in was
    ensures |Written(before, was[i := row])|
         == |Written(before, was)| + if i in before && before[i] == row then 0 else 1
  {
    if i in before && before[i] == row {
      assert was[i := row] == was;
    } else {
      assert i !in Written(before, was);
      WrittenWith(before, was, i, row);
    }
  }

  lemma {:induction false} WrittenWith(before: Rows, was: Rows, i: Identity, row: Script)
    requires !(i in before && before[i] == row)
    ensures Written(before, was[i := row]) == Written(before, was) + {i}
  {
  }

  /** The publishing loop after n records. */
  ghost predicate PublishedSoFar(before: Rows, now: Rows, records: seq<Record>, n: nat, revision: nat, written: nat) {
    n <= |records| && now == Half(before, AsSnapshot(records[..n]), revision) && written == |Written(before, now)|
  }

  lemma {:induction false} PublishNext(before: Rows, now: Rows, records: seq<Record>, n: nat, revision: nat,
                                       written: nat)
    requires n < |records| && DistinctIdentities(records) && PublishedSoFar(before, now, records, n, revision, written)
    ensures var after := now[records[n].identity := PublishedRow(now, records[n], revision)];
      PublishedSoFar(before, after, records, n + 1, revision, written + if after == now then 0 else 1)
  {
    var i, row := records[n].identity, PublishedRow(now, records[n], revision);
    HalfGrows(before, records, n, revision);
    WrittenGrows(before, now, i, row);
    if i in before && before[i] == row {
      assert now[i := row] == now;
    } else {
      assert now[i := row][i] == row;
    }
  }

  lemma RetiredGrows(before: Rows, was: Rows, i: Identity)
    requires i in was && i in before && was[i] == before[i]
    requires before.Keys <= was.Keys
    ensures var now := was[i := was[i].(retired := true)];
      var wrote := if was[i].retired then 0 else 1;
      && |NewlyRetired(before, now)| == |NewlyRetired(before, was)| + wrote
      && |Written(before, now)| == |Written(before, was)| + wrote
  {
    var row := was[i].(retired := true);
    WrittenGrows(before, was, i, row);
    if !was[i].retired {
      assert NewlyRetired(before, was[i := row]) == NewlyRetired(before, was) + {i};
    }
  }
}
