/**
 Stored content over all runs: a settled revision always finds its tree in the store, and no
 stored key is ever orphaned.
 */
module StorageSafety {
  import opened Prelude
  import opened Lifecycle
  import Serving

  type Table = map<nat, Row>
  type Store = map<Key, Bytes>
  type Jobs = map<nat, CleanupJob>

  // ----- The invariant ---------------------------------------------------------------------

  ghost predicate RowsSound(rows: Table, next: nat) {
    forall id :: id in rows ==> id < next && (rows[id].digest.None? ==> rows[id].status == Invalid)
  }

  /** Every row with a digest outside the unstored statuses finds every manifest key. */
  ghost predicate ContentIntact(rows: Table, store: Store) {
    forall id :: id in rows && Usable(rows[id]) ==> Intact(store, rows[id].digest.value)
  }

  ghost predicate JobsSound(rows: Table, next: nat, jobs: Jobs) {
    forall j :: j in jobs ==> j < next && j !in rows && jobs[j].tree != map[]
  }

  ghost predicate Awaiting(jobs: Jobs, tree: Tree) {
    exists j :: j in jobs && !jobs[j].finished && jobs[j].tree == tree
  }

  /** A live row or an unfinished cleanup names the tree. */
  ghost predicate Covered(rows: Table, jobs: Jobs, tree: Tree) {
    Referenced(rows, tree) || Awaiting(jobs, tree)
  }

  ghost predicate NothingOrphaned(rows: Table, jobs: Jobs, store: Store) {
    forall k :: k in store ==> k.path in k.tree && Covered(rows, jobs, k.tree)
  }

  /** The row an operation works on, as long as it lives. */
  ghost predicate RowFor(rows: Table, next: nat, id: nat, tree: Tree) {
    id < next && (id in rows ==> rows[id].digest == Some(tree))
  }

  ghost predicate StageSound(rows: Table, next: nat, jobs: Jobs, store: Store, tree: Tree, stage: StagePhase) {
    match stage
    case Lookup => true
    case Decide(id, _) => RowFor(rows, next, id, tree) && (tree != map[] ==> Covered(rows, jobs, tree))
    case Writing(id, todo) =>
      RowFor(rows, next, id, tree) && todo <= tree.Keys && (tree != map[] ==> Covered(rows, jobs, tree))
    case Verified(id) => RowFor(rows, next, id, tree) && Intact(store, tree)
    case Failing(id) => RowFor(rows, next, id, tree)
  }

  ghost predicate RefreshSound(rows: Table, next: nat, store: Store, tree: Tree, refresh: RefreshPhase) {
    match refresh
    case VerifySource => true
    case Create => Intact(store, tree)
    case Settle(id) => RowFor(rows, next, id, tree) && Intact(store, tree)
  }

  ghost predicate CleanSound(rows: Table, jobs: Jobs, store: Store, job: nat, tree: Tree, clean: CleanPhase) {
    && job in jobs && jobs[job] == CleanupJob(tree, false)
    && match clean
       case Recheck => true
       case Kept => Covered(rows, jobs[job := CleanupJob(tree, true)], tree)
       case Deleting(todo, failed) =>
         && !Referenced(rows, tree)
         && (forall p :: p in tree && p !in todo && p !in failed ==> Key(tree, p) !in store)
  }

  ghost predicate HolderSound(rows: Table, next: nat, jobs: Jobs, store: Store, holder: Holder) {
    match holder
    case Idle => true
    case Storing(tree, _, _, _, stage) => StageSound(rows, next, jobs, store, tree, stage)
    case Refreshing(tree, _, refresh) => RefreshSound(rows, next, store, tree, refresh)
    case Accepting(tree, id, _, _, _) => RowFor(rows, next, id, tree)
    case Cleaning(job, tree, clean) => CleanSound(rows, jobs, store, job, tree, clean)
    case Promoting(_, _, _, _) => true
  }

  /** The whole invariant, of what is stored and of what the lock holder may do next. */
  ghost predicate Sound(core: Core, holder: Holder) {
    && RowsSound(core.rows, core.nextRow)
    && ContentIntact(core.rows, core.store)
    && JobsSound(core.rows, core.nextRow, core.jobs)
    && NothingOrphaned(core.rows, core.jobs, core.store)
    && HolderSound(core.rows, core.nextRow, core.jobs, core.store, holder)
  }

  // ----- What a change of one component keeps ------------------------------------------------

  /** Rows may change anything but digests, and may only leave an unstored status when intact. */
  ghost predicate Reworded(before: Table, after: Table, store: Store) {
    && after.Keys == before.Keys
    && (forall id :: id in before ==> after[id].digest == before[id].digest)
    && (forall id :: id in before && after[id].digest.None? ==> after[id].status == before[id].status)
    && (forall id :: id in before && Usable(after[id]) ==> Usable(before[id]) || Intact(store, after[id].digest.value))
  }

  lemma {:induction false} ReferenceKept(before: Table, after: Table, tree: Tree)
    requires forall id :: id in before ==> id in after && after[id].digest == before[id].digest
    requires Referenced(before, tree)
    ensures Referenced(after, tree)
  {
    var id :| id in before && before[id].digest == Some(tree);
    assert id in after;
  }

  lemma {:induction false} RewordedReferences(before: Table, after: Table, tree: Tree)
    requires after.Keys == before.Keys
    requires forall id :: id in before ==> after[id].digest == before[id].digest
    ensures Referenced(after, tree) <==> Referenced(before, tree)
  {
    if Referenced(before, tree) { ReferenceKept(before, after, tree); }
    if Referenced(after, tree) { ReferenceKept(after, before, tree); }
  }

  /** Rewording rows keeps the invariant, if what the lock holder does next is sound. */
  lemma {:induction false} RewordingSound(core: Core, holder: Holder, rows: Table, next: Holder)
    requires Sound(core, holder) && Reworded(core.rows, rows, core.store)
    requires next == holder || HolderSound(core.rows, core.nextRow, core.jobs, core.store, next)
    ensures Sound(core.(rows := rows), next)
  {
    forall tree ensures Referenced(rows, tree) <==> Referenced(core.rows, tree) {
      RewordedReferences(core.rows, rows, tree);
    }
  }

  /** Inserting a row keeps the invariant while no cleanup is deleting its tree. */
  lemma {:induction false} InsertSound(core: Core, holder: Holder, row: Row, next: Holder)
    requires Sound(core, holder)
    requires row.digest.None? ==> row.status == Invalid
    requires Usable(row) ==> Intact(core.store, row.digest.value)
    requires next.Idle?
             || (next.Accepting? && next.row == core.nextRow && row.digest == Some(next.tree))
             || (next.Storing? && next.stage.Decide? && next.stage.id == core.nextRow && row.digest == Some(next.tree))
    ensures Sound(Insert(core, row), next)
  {
    var rows := Insert(core, row).rows;
    forall tree | Referenced(core.rows, tree) ensures Referenced(rows, tree) {
      ReferenceKept(core.rows, rows, tree);
    }
    if row.digest.Some? {
      assert core.nextRow in rows && rows[core.nextRow].digest == Some(row.digest.value);
    }
  }

  // ----- Deletion --------------------------------------------------------------------------

  lemma {:induction false} DeletionCovers(core: Core, ids: set<nat>, tree: Tree)
    requires JobsSound(core.rows, core.nextRow, core.jobs) && tree != map[]
    requires Covered(core.rows, core.jobs, tree)
    ensures Covered(RowsDeleted(core, ids).rows, RowsDeleted(core, ids).jobs, tree)
  {
    var t := RowsDeleted(core, ids);
    if Referenced(core.rows, tree) {
      var id :| id in core.rows && core.rows[id].digest == Some(tree);
      if !Referenced(t.rows, tree) {
        assert id !in t.rows;
        assert id in t.jobs && t.jobs[id] == CleanupJob(tree, false);
      }
    } else {
      var j :| j in core.jobs && !core.jobs[j].finished && core.jobs[j].tree == tree;
      assert t.jobs[j] == core.jobs[j];
    }
  }

  lemma {:induction false} DeletionKeepsCovered(core: Core, ids: set<nat>)
    requires JobsSound(core.rows, core.nextRow, core.jobs)
    ensures forall tree :: tree != map[] && Covered(core.rows, core.jobs, tree)
              ==> Covered(RowsDeleted(core, ids).rows, RowsDeleted(core, ids).jobs, tree)
  {
    forall tree | tree != map[] && Covered(core.rows, core.jobs, tree)
      ensures Covered(RowsDeleted(core, ids).rows, RowsDeleted(core, ids).jobs, tree)
    {
      DeletionCovers(core, ids, tree);
    }
  }

  /** What is covered without one job's own help stays so through a deletion. */
  lemma {:induction false} DeletionCoversBesides(core: Core, ids: set<nat>, job: nat, tree: Tree)
    requires JobsSound(core.rows, core.nextRow, core.jobs) && job in core.jobs && core.jobs[job].tree == tree
    requires Covered(core.rows, core.jobs[job := CleanupJob(tree, true)], tree)
    ensures var t := RowsDeleted(core, ids); Covered(t.rows, t.jobs[job := CleanupJob(tree, true)], tree)
  {
    var t := RowsDeleted(core, ids);
    var jobs := core.jobs[job := CleanupJob(tree, true)];
    if Referenced(core.rows, tree) {
      var id :| id in core.rows && core.rows[id].digest == Some(tree);
      if !Referenced(t.rows, tree) {
        assert id !in t.rows && id != job;
        assert t.jobs[job := CleanupJob(tree, true)][id] == CleanupJob(tree, false);
      }
    } else {
      var j :| j in jobs && !jobs[j].finished && jobs[j].tree == tree;
      assert j != job && t.jobs[job := CleanupJob(tree, true)][j] == core.jobs[j];
    }
  }

  lemma {:induction false} DeletionKeepsHolder(core: Core, holder: Holder, ids: set<nat>)
    requires Sound(core, holder)
    ensures var t := RowsDeleted(core, ids); HolderSound(t.rows, t.nextRow, t.jobs, t.store, holder)
  {
    var t := RowsDeleted(core, ids);
    DeletionKeepsCovered(core, ids);
    if holder.Cleaning? {
      assert t.jobs[holder.job] == core.jobs[holder.job];
      if holder.clean.Kept? { DeletionCoversBesides(core, ids, holder.job, holder.tree); }
      if Referenced(t.rows, holder.tree) { ReferenceKept(t.rows, core.rows, holder.tree); }
    }
  }

  lemma {:induction false} DeletionSound(core: Core, holder: Holder, ids: set<nat>)
    requires Sound(core, holder)
    ensures Sound(RowsDeleted(core, ids), holder)
  {
    DeletionKeepsCovered(core, ids);
    DeletionKeepsHolder(core, holder, ids);
  }

  // ----- Writing and cleaning ----------------------------------------------------------------

  /** Writing a key of a tree that is not intact there disturbs no intact tree. */
  lemma {:induction false} IntactElsewhere(store: Store, after: Store, tree: Tree, path: Path)
    requires path in tree
    requires Key(tree, path) !in store || store[Key(tree, path)] != tree[path]
    requires forall k :: k in store && k != Key(tree, path) ==> k in after && after[k] == store[k]
    ensures forall other :: Intact(store, other) ==> Intact(after, other)
  {
    forall other | Intact(store, other) ensures Intact(after, other) {
    }
  }

  /** Filling a free key, or clearing one that disagrees, while its tree is being written. */
  lemma {:induction false} WritingSound(core: Core, holder: Holder, path: Path, store: Store, next: Holder)
    requires Sound(core, holder) && holder.Storing? && holder.stage.Writing? && path in holder.tree
    requires var key := Key(holder.tree, path);
      && (key !in core.store || core.store[key] != holder.tree[path])
      && store.Keys <= core.store.Keys + {key}
      && (forall k :: k in core.store && k != key ==> k in store && store[k] == core.store[k])
    requires next.Storing? && next.tree == holder.tree
    requires next.stage == Failing(holder.stage.id)
             || (next.stage.Writing? && next.stage.id == holder.stage.id && next.stage.todo <= holder.stage.todo)
    ensures Sound(core.(store := store), next)
  {
    IntactElsewhere(core.store, store, holder.tree, path);
    assert holder.tree != map[];
  }

  lemma {:induction false} DeletingSound(core: Core, holder: Holder, path: Path)
    requires Sound(core, holder) && holder.Cleaning? && holder.clean.Deleting? && path in holder.clean.todo
    ensures Sound(core.(store := core.store - {Key(holder.tree, path)}),
                  holder.(clean := Deleting(holder.clean.todo - {path}, holder.clean.failed)))
  {
    var store := core.store - {Key(holder.tree, path)};
    forall id | id in core.rows && Usable(core.rows[id]) ensures Intact(store, core.rows[id].digest.value) {
      assert Intact(core.store, core.rows[id].digest.value);
      assert core.rows[id].digest != Some(holder.tree);
    }
  }

  lemma {:induction false} FinishingCovers(core: Core, holder: Holder, k: Key)
    requires Sound(core, holder) && holder.Cleaning? && k in core.store
    requires holder.clean.Kept? || holder.clean == Deleting({}, {})
    ensures Covered(core.rows, core.jobs[holder.job := CleanupJob(holder.tree, true)], k.tree)
  {
    var jobs := core.jobs[holder.job := CleanupJob(holder.tree, true)];
    if k.tree != holder.tree && !Referenced(core.rows, k.tree) {
      assert Covered(core.rows, core.jobs, k.tree);
      var j :| j in core.jobs && !core.jobs[j].finished && core.jobs[j].tree == k.tree;
      assert jobs[j] == core.jobs[j];
    }
  }

  lemma {:induction false} FinishingSound(core: Core, holder: Holder)
    requires Sound(core, holder) && holder.Cleaning?
    requires holder.clean.Kept? || holder.clean == Deleting({}, {})
    ensures Sound(core.(jobs := core.jobs[holder.job := CleanupJob(holder.tree, true)]), Idle)
  {
    forall k | k in core.store
      ensures Covered(core.rows, core.jobs[holder.job := CleanupJob(holder.tree, true)], k.tree)
    {
      FinishingCovers(core, holder, k);
    }
  }

  // ----- Every step ------------------------------------------------------------------------

  ghost predicate SoundState(s: State) { Sound(s.core, s.holder) }

  lemma {:induction false} LookUpStep(s: State)
    requires SoundState(s) && s.holder.Storing? && s.holder.stage.Lookup?
    ensures SoundState(LookedUp(s))
  {
    var t := LookedUp(s);
    if FindRow(s.core.rows, s.holder.tree, s.holder.selection).None? {
      InsertSound(s.core, s.holder, NewRowFor(s.holder.tree, s.holder.selection, Staging), t.holder);
    } else {
      assert Referenced(s.core.rows, s.holder.tree);
    }
  }

  lemma {:induction false} CreateStep(s: State)
    requires SoundState(s) && s.holder.Refreshing? && s.holder.refresh.Create?
    ensures SoundState(RefreshCreated(s))
  {
    if FindRow(s.core.rows, s.holder.tree, s.holder.selection).None? {
      InsertSound(s.core, s.holder, NewRowFor(s.holder.tree, s.holder.selection, Materialized),
                  RefreshCreated(s).holder);
    }
  }

  lemma {:induction false} WriteStep(s: State, path: Path)
    requires SoundState(s) && s.holder.Storing? && s.holder.stage.Writing? && path in s.holder.tree
    ensures SoundState(Wrote(s, path))
  {
    var key, t := Key(s.holder.tree, path), Wrote(s, path);
    if key !in s.core.store || s.core.store[key] != s.holder.tree[path] {
      WritingSound(s.core, s.holder, path, t.core.store, t.holder);
    }
  }

  lemma {:induction false} FailStep(s: State, path: Path, junk: Option<Bytes>)
    requires SoundState(s) && s.holder.Storing? && s.holder.stage.Writing? && path in s.holder.tree
    ensures SoundState(WriteFailed(s, path, junk))
  {
    var t := WriteFailed(s, path, junk);
    if junk.Some? && Key(s.holder.tree, path) !in s.core.store {
      WritingSound(s.core, s.holder, path, t.core.store, t.holder);
    }
  }

  lemma {:induction false} FinishStep(s: State)
    requires SoundState(s) && s.holder.Cleaning?
    requires s.holder.clean.Kept? || (s.holder.clean.Deleting? && s.holder.clean.todo == {})
    ensures SoundState(CleanupFinished(s))
  {
    if s.holder.clean.Kept? || s.holder.clean.failed == {} {
      FinishingSound(s.core, s.holder);
    }
  }

  /** A step that leaves the store and the jobs alone, inserts nothing, and only rewords rows. */
  lemma {:induction false} QuietStep(s: State, t: State)
    requires SoundState(s) && t.core == s.core.(rows := t.core.rows)
    requires Reworded(s.core.rows, t.core.rows, s.core.store)
    requires t.holder == s.holder || HolderSound(s.core.rows, s.core.nextRow, s.core.jobs, s.core.store, t.holder)
    ensures SoundState(t)
  {
    RewordingSound(s.core, s.holder, t.core.rows, t.holder);
  }

  lemma {:induction false} OpeningStep(s: State, a: Action)
    requires SoundState(s) && Enabled(s, a) && Opens(a)
    ensures SoundState(Apply(s, a))
  {
    QuietStep(s, Apply(s, a));
  }

  /** What a turn of the claim loop leaves its holder to do. */
  lemma {:induction false} ClaimHolds(s: State)
    requires SoundState(s) && s.holder.Storing? && s.holder.stage.Decide?
    ensures HolderSound(s.core.rows, s.core.nextRow, s.core.jobs, s.core.store, Claimed(s).holder)
  {
  }

  /** Moving a row among the statuses of an unfinished one, or to a settled one its content backs. */
  lemma {:induction false} MoveRewords(core: Core, id: nat, expected: set<Status>, status: Status, errors: seq<string>)
    requires RowsSound(core.rows, core.nextRow) && (id in core.rows && core.rows[id].status in expected ==>
               core.rows[id].digest.Some? && (Usable(core.rows[id].(status := status)) ==>
               Usable(core.rows[id]) || Intact(core.store, core.rows[id].digest.value)))
    ensures Move(core, id, expected, status, errors) == core.(rows := Move(core, id, expected, status, errors).rows)
    ensures Reworded(core.rows, Move(core, id, expected, status, errors).rows, core.store)
  {
  }

  lemma {:induction false} ClaimRewords(s: State)
    requires SoundState(s) && s.holder.Storing? && s.holder.stage.Decide?
    ensures Claimed(s).core == s.core.(rows := Claimed(s).core.rows)
    ensures Reworded(s.core.rows, Claimed(s).core.rows, s.core.store)
  {
    var id := s.holder.stage.id;
    if id in s.core.rows {
      MoveRewords(s.core, id, {Staging, StorageFailed}, Staging, s.core.rows[id].errors);
    }
  }

  lemma {:induction false} ClaimStep(s: State)
    requires SoundState(s) && s.holder.Storing? && s.holder.stage.Decide?
    ensures SoundState(Claimed(s))
  {
    ClaimHolds(s);
    ClaimRewords(s);
    QuietStep(s, Claimed(s));
  }

  lemma {:induction false} AcceptStep(s: State)
    requires SoundState(s) && Enabled(s, Accept)
    ensures SoundState(Accepted(s))
  {
    QuietStep(s, Accepted(s));
  }

  lemma {:induction false} BeginningStep(s: State, a: Action)
    requires SoundState(s) && Enabled(s, a) && Begins(a)
    ensures SoundState(Apply(s, a))
  {
    if Opens(a) { OpeningStep(s, a); } else if a.Accept? { AcceptStep(s); } else { ClaimStep(s); }
  }

  lemma {:induction false} FailureStep(s: State)
    requires SoundState(s) && Enabled(s, RecordFailure)
    ensures SoundState(FailureRecorded(s))
  {
    QuietStep(s, FailureRecorded(s));
  }

  lemma {:induction false} SettleStep(s: State)
    requires SoundState(s) && Enabled(s, SettleWritten)
    ensures SoundState(WriteSettled(s))
  {
    QuietStep(s, WriteSettled(s));
  }

  lemma {:induction false} SettlingStep(s: State, a: Action)
    requires SoundState(s) && Enabled(s, a) && (a.VerifyWritten? || a.RecordFailure? || a.SettleWritten?)
    ensures SoundState(Apply(s, a))
  {
    if a.RecordFailure? { FailureStep(s); }
    else if a.SettleWritten? { SettleStep(s); }
    else { QuietStep(s, Apply(s, a)); }
  }

  lemma {:induction false} InsertStep(s: State, a: Action)
    requires SoundState(s) && Enabled(s, a) && Inserts(a)
    ensures SoundState(Apply(s, a))
  {
    if a.LookUpRow? {
      LookUpStep(s);
    } else if a.CreateRefreshed? {
      CreateStep(s);
    } else {
      InsertSound(s.core, s.holder, Row(None, s.holder.selection, Invalid, a.problems, map[], None, 0), Idle);
    }
  }

  lemma {:induction false} RefreshStartStep(s: State)
    requires SoundState(s) && Enabled(s, BeginRefresh)
    ensures SoundState(StartRefresh(s))
  {
    QuietStep(s, StartRefresh(s));
  }

  lemma {:induction false} RefreshSettleStep(s: State)
    requires SoundState(s) && Enabled(s, SettleRefreshed)
    ensures SoundState(RefreshSettled(s))
  {
    MoveRewords(s.core, s.holder.refresh.id, {Staging, StorageFailed}, Materialized, []);
    QuietStep(s, RefreshSettled(s));
  }

  lemma {:induction false} PlainHandlingStep(s: State, a: Action)
    requires SoundState(s) && Enabled(s, a) && (a.VerifyRefreshed? || a.BeginCleanup? || a.RecheckReferences?)
    ensures SoundState(Apply(s, a))
  {
    QuietStep(s, Apply(s, a));
  }

  lemma {:induction false} HandlingStep(s: State, a: Action)
    requires SoundState(s) && Enabled(s, a) && Handles(a) && !a.DeleteKey? && !a.FinishCleanup?
    ensures SoundState(Apply(s, a))
  {
    if a.BeginRefresh? { RefreshStartStep(s); }
    else if a.SettleRefreshed? { RefreshSettleStep(s); }
    else if a.VerifyRefreshed? || a.BeginCleanup? || a.RecheckReferences? { PlainHandlingStep(s, a); }
    else { QuietStep(s, Apply(s, a)); }
  }

  lemma {:induction false} CommitStep(s: State)
    requires SoundState(s) && Serving.Coherent(s) && s.holder.Promoting?
    ensures SoundState(Promoted(s))
  {
    if Promotable(s) {
      var rows := Repointed(s.core.rows, s.site.active, s.holder.row);
      assert Reworded(s.core.rows, rows, s.core.store);
      RewordingSound(s.core, s.holder, rows, Idle);
      assert Promoted(s).core == s.core || Promoted(s).core == s.core.(rows := rows);
    }
  }

  lemma {:induction false} EditsTouchNoContent(s: State, a: Action)
    requires Enabled(s, a) && (Edits(a) || a.SaveScript?)
    ensures Apply(s, a).core == s.core && Apply(s, a).holder == s.holder
  {
  }

  lemma {:induction false} DeactivateStep(s: State, id: nat)
    requires SoundState(s) && Serving.Coherent(s) && Enabled(s, Deactivate(id))
    ensures SoundState(Deactivated(s, id))
  {
    QuietStep(s, Deactivated(s, id));
  }

  lemma {:induction false} EditingStep(s: State, a: Action)
    requires SoundState(s) && Serving.Coherent(s) && Enabled(s, a)
    requires Edits(a) || a.SaveScript? || a.Deactivate?
    ensures SoundState(Apply(s, a))
  {
    if a.Deactivate? { DeactivateStep(s, a.row); } else { EditsTouchNoContent(s, a); }
  }

  lemma {:induction false} ClaimingStep(s: State, run: nat, job: nat, id: nat)
    requires SoundState(s) && id in s.core.rows && Claimable(s.core.rows[id], s.work.clock)
    ensures SoundState(ValidationClaimed(s, run, job, id))
  {
    QuietStep(s, ValidationClaimed(s, run, job, id));
  }

  lemma {:induction false} VerdictStep(s: State, run: nat, v: Verdict)
    requires SoundState(s) && run in s.work.runs
    ensures SoundState(VerdictReached(s, run, v))
  {
    QuietStep(s, VerdictReached(s, run, v));
  }

  lemma {:induction false} RevertStep(s: State, run: nat)
    requires SoundState(s) && run in s.work.runs
    ensures SoundState(ClaimReverted(s, run))
  {
    QuietStep(s, ClaimReverted(s, run));
  }

  lemma {:induction false} ValidatingStep(s: State, a: Action)
    requires SoundState(s) && Enabled(s, a) && Validates(a)
    ensures SoundState(Apply(s, a))
  {
    if a.ClaimValidation? { ClaimingStep(s, a.run, a.job, a.row); }
    else if a.ReachVerdict? { VerdictStep(s, a.run, a.verdict); }
    else if a.RevertClaim? { RevertStep(s, a.run); }
    else { QuietStep(s, WorkerLost(s, a.run)); }
  }

  /** Every step of every operation keeps the storage invariant. */
  lemma {:induction false} StepSound(s: State, a: Action)
    requires SoundState(s) && Serving.Coherent(s)
    ensures SoundState(Step(s, a))
  {
    if Enabled(s, a) {
      if a.WriteFile? { WriteStep(s, a.path); }
      else if a.WriteFails? { FailStep(s, a.path, a.junk); }
      else if Writes(a) { SettlingStep(s, a); }
      else if Begins(a) { BeginningStep(s, a); }
      else if Inserts(a) { InsertStep(s, a); }
      else if a.DeleteKey? { if !a.fails { DeletingSound(s.core, s.holder, a.path); } }
      else if a.FinishCleanup? { FinishStep(s); }
      else if Handles(a) { HandlingStep(s, a); }
      else if a.CommitPromotion? { CommitStep(s); }
      else if a.DeleteRows? { DeletionSound(s.core, s.holder, a.ids); }
      else if Validates(a) { ValidatingStep(s, a); }
      else { EditingStep(s, a); }
    }
  }

  // ----- The theorems over all runs ------------------------------------------------------------

  lemma {:induction false} RunSound(s: State, actions: seq<Action>)
    requires SoundState(s) && Serving.Coherent(s)
    ensures SoundState(Exec(s, actions)) && Serving.Coherent(Exec(s, actions))
  {
    if actions != [] {
      RunSound(s, actions[..|actions| - 1]);
      StepSound(Exec(s, actions[..|actions| - 1]), actions[|actions| - 1]);
      Serving.StepCoherent(Exec(s, actions[..|actions| - 1]), actions[|actions| - 1]);
    }
  }

  /**
   In every interleaving, each row with a digest outside the unstored statuses finds every
   manifest key stored with the recorded bytes, even while a sibling's write is under way.
   */
  lemma {:induction false} SettledContentIsAlwaysStored(s: State, actions: seq<Action>)
    requires Fresh(s)
    ensures var t := Exec(s, actions);
      forall id :: id in t.core.rows && t.core.rows[id].digest.Some? && !Retryable(t.core.rows[id].status) ==>
        Intact(t.core.store, t.core.rows[id].digest.value)
  {
    RunSound(s, actions);
  }

  /** In every interleaving, a live row's manifest or an unfinished cleanup names every stored key. */
  lemma {:induction false} NoContentIsEverOrphaned(s: State, actions: seq<Action>)
    requires Fresh(s)
    ensures var t := Exec(s, actions).core;
      forall k :: k in t.store ==>
        k.path in k.tree
        && ((exists id :: id in t.rows && t.rows[id].digest == Some(k.tree))
            || (exists j :: j in t.jobs && !t.jobs[j].finished && t.jobs[j].tree == k.tree))
  {
    RunSound(s, actions);
    var t := Exec(s, actions).core;
    forall k | k in t.store
      ensures k.path in k.tree
        && ((exists id :: id in t.rows && t.rows[id].digest == Some(k.tree))
            || (exists j :: j in t.jobs && !t.jobs[j].finished && t.jobs[j].tree == k.tree))
    {
      assert Covered(t.rows, t.jobs, k.tree);
    }
  }
}
